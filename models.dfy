/** The records exchanged with the catalogue API (src/app/shared/models).

    Numbers are JavaScript numbers in the source: ids and page figures are
    modelled as `int`, prices as `real`. Optional properties (`x?: T`) are
    `Option<T>`.
 */
module Models {
  import opened Wrappers

  datatype UserRole = USER | ADMIN

  datatype User = User(
    id: int,
    name: string,
    email: string,
    role: UserRole,
    enabled: bool,
    createdAt: Option<string>,
    updatedAt: Option<string>)

  datatype LoginRequest = LoginRequest(email: string, password: string)

  datatype RegisterRequest = RegisterRequest(name: string, email: string, password: string)

  datatype AuthResponse = AuthResponse(
    accessToken: string,
    tokenType: string,
    expiresIn: int,
    user: User)

  datatype Author = Author(
    id: int,
    name: string,
    biography: Option<string>,
    birthDate: Option<string>,
    createdAt: Option<string>,
    updatedAt: Option<string>)

  datatype AuthorRequest = AuthorRequest(
    name: string,
    biography: Option<string>,
    birthDate: Option<string>)

  datatype Store = Store(
    id: int,
    name: string,
    address: Option<string>,
    city: Option<string>,
    country: Option<string>,
    createdAt: Option<string>,
    updatedAt: Option<string>)

  datatype StoreRequest = StoreRequest(
    name: string,
    address: Option<string>,
    city: Option<string>,
    country: Option<string>)

  datatype Book = Book(
    id: int,
    title: string,
    isbn: string,
    description: Option<string>,
    price: real,
    publishedDate: Option<string>,
    author: Option<Author>,
    stores: Option<seq<Store>>,
    createdAt: Option<string>,
    updatedAt: Option<string>)

  datatype BookRequest = BookRequest(
    title: string,
    isbn: string,
    description: Option<string>,
    price: real,
    publishedDate: Option<string>,
    authorId: int,
    storeIds: Option<seq<int>>)

  datatype UserRequest = UserRequest(
    name: string,
    email: string,
    password: Option<string>,
    role: UserRole,
    enabled: bool)

  const DEFAULT_PAGE_SIZE: int := 20
  const PAGE_SIZE_OPTIONS: seq<int> := [10, 20, 50, 100]

  // The `id` accessor of each entity, as the services' `x.id === id` uses it.
  function BookId(b: Book): int { b.id }
  function AuthorId(a: Author): int { a.id }
  function StoreId(s: Store): int { s.id }
  function UserId(u: User): int { u.id }
}
