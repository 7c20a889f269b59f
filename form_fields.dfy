/** What the entity forms share: the mapping between optional request
    fields and text controls, Angular's `required` and `minLength`
    validators, and the edit-or-create choice on submit. */
module FormFields {
  import opened Wrappers

  /** `value || undefined`: an empty text control is sent as an absent field. */
  function OrAbsent(s: string): (r: Option<string>)
    ensures r.None? <==> s == ""
    ensures r.Some? ==> r.value == s
  {
    if s == "" then None else Some(s)
  }

  /** `field || ''`: an absent (or empty) field shows as an empty control. */
  function OrEmpty(o: Option<string>): (r: string)
    ensures o.None? ==> r == ""
    ensures o.Some? ==> r == o.value
  {
    if o.Some? then o.value else ""
  }

  /** Showing a field and sending it back gives the field again, except that
      a present-but-empty field comes back absent. */
  lemma ShowThenSend(o: Option<string>)
    ensures OrAbsent(OrEmpty(o)) == (if o == Some("") then None else o)
  {
  }

  /** Sending a control's text and showing the field again gives the text. */
  lemma SendThenShow(s: string)
    ensures OrEmpty(OrAbsent(s)) == s
  {
  }

  /** `Validators.required` on a text control: the empty string fails. */
  predicate Required(s: string) {
    s != ""
  }

  /** `Validators.minLength(n)`: an empty value passes (only `required`
      rejects it); any other value needs at least `n` characters. */
  predicate MinLength(s: string, n: nat) {
    s == "" || |s| >= n
  }

  /** `Validators.email`: an empty value passes; any other value must match
      the email pattern, which is the parameter `emailOk`. */
  predicate EmailValid(s: string, emailOk: string -> bool) {
    s == "" || emailOk(s)
  }

  /** `required` together with `minLength(n)` for n >= 1 is exactly "at
      least n characters". */
  lemma RequiredAndMinLength(s: string, n: nat)
    requires n >= 1
    ensures Required(s) && MinLength(s, n) <==> |s| >= n
  {
  }

  /** The request a form's submit issues: `update(id, request)` in edit
      mode, `create(request)` otherwise. */
  datatype SaveOp<R> = Create(request: R) | Update(id: int, request: R)

  /** `isEditMode() ? update(id()!, request) : create(request)`, where the
      edit-mode id is `editId`. */
  function SaveOpFor<R>(editId: Option<int>, request: R): (op: SaveOp<R>)
    ensures op.request == request
    ensures op.Update? <==> editId.Some?
    ensures op.Update? ==> op.id == editId.value
  {
    if editId.Some? then Update(editId.value, request) else Create(request)
  }
}
