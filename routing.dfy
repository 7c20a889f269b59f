/** Router navigation, recorded rather than performed: `router.navigate([path])`
    is `Navigate(path, None)` and `router.navigate([path, id])` is
    `Navigate(path, Some(id))`. */
module Routing {
  import opened Wrappers

  datatype Navigation = Navigate(path: string, id: Option<int>)
}
