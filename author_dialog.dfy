/** src/modules/author/components/AuthorDialog.tsx: the add/edit author
    form. Opening resets it from `initial`; submitting validates, hands the
    normalised payload to `onSave` and closes only once the save is done. */
module AuthorDialog {
  import opened Wrappers
  import opened Text
  import opened Entities
  import opened Forms

  /** The `form` state: every field but the name may be undefined. */
  datatype AuthorForm = AuthorForm(name: string, description: Option<string>, imageUrl: Option<string>, books: Option<seq<string>>)

  /** What `submit` asks of its parent, in order. */
  datatype AuthorDialogEffect = Save(payload: AuthorCreateRequest) | Close

  /** `initial?.books?.map(b => b.idBook)`. */
  function BookIds(books: seq<Book>): (ids: seq<string>)
    ensures |ids| == |books|
    ensures forall i :: 0 <= i < |books| ==> ids[i] == books[i].idBook
  {
    seq(|books|, i requires 0 <= i < |books| => books[i].idBook)
  }

  /** The form the open effect installs: absent values become "" and the
      books become the ids of `initial.books`, in order, or []. */
  function FormOf(initial: Option<AuthorDraft>): (f: AuthorForm)
    ensures initial.None? ==> f == AuthorForm("", Some(""), Some(""), Some([]))
    ensures initial.Some? ==>
              f.name == Nullish(initial.value.name, "") &&
              f.description == Some(Nullish(initial.value.description, "")) &&
              f.imageUrl == Some(Nullish(initial.value.imageUrl, "")) &&
              f.books == Some(if initial.value.books.Some? then BookIds(initial.value.books.value) else [])
  {
    match initial
    case None => AuthorForm("", Some(""), Some(""), Some([]))
    case Some(d) =>
      AuthorForm(
        Nullish(d.name, ""), Some(Nullish(d.description, "")), Some(Nullish(d.imageUrl, "")),
        Some(if d.books.Some? then BookIds(d.books.value) else []))
  }

  /** The payload of `submit`: the text fields trimmed, a missing one as ""
      (trimming "" gives ""). Its name is empty exactly when validation refuses the form, both
      optional text fields are always sent, and the book ids are sent as
      the form holds them ([] when it holds none). */
  function Payload(f: AuthorForm): (p: AuthorCreateRequest)
    ensures p.name == Trim(f.name)
    ensures p.name == "" <==> NameError(f.name).Some?
    ensures p.description == Some(Trim(Nullish(f.description, "")))
    ensures p.imageUrl == Some(Trim(Nullish(f.imageUrl, "")))
    ensures f.books.Some? ==> p.books == f.books.value
    ensures f.books.None? ==> p.books == []
  {
    TrimEmptyIff(f.name);
    AuthorCreateRequest(
      Trim(f.name),
      Some(if f.description.Some? then Trim(f.description.value) else ""),
      Some(if f.imageUrl.Some? then Trim(f.imageUrl.value) else ""),
      Nullish(f.books, []))
  }

  /** A payload that passed validation has a non-empty name, no text field
      starts or ends with white space, and normalising it again changes
      nothing. */
  lemma PayloadNormalised(f: AuthorForm)
    requires NameError(f.name).None?
    ensures Payload(f).name != "" && Trim(Payload(f).name) == Payload(f).name
    ensures Payload(f).description.Some? && Trim(Payload(f).description.value) == Payload(f).description.value
    ensures Payload(f).imageUrl.Some? && Trim(Payload(f).imageUrl.value) == Payload(f).imageUrl.value
    ensures Payload(FormOfPayload(Payload(f))) == Payload(f)
  {
    TrimEmptyIff(f.name);
    TrimIdempotent(f.name);
    TrimmedIsFixed(f.description);
    TrimmedIsFixed(f.imageUrl);
  }

  /** The form holding a payload's values. */
  function FormOfPayload(p: AuthorCreateRequest): AuthorForm {
    AuthorForm(p.name, p.description, p.imageUrl, Some(p.books))
  }

  /** An optional text field, trimmed or defaulted to "", trims to itself. */
  lemma TrimmedIsFixed(v: Option<string>)
    ensures var t := if v.Some? then Trim(v.value) else ""; Trim(t) == t
  {
    if v.Some? {
      TrimIdempotent(v.value);
    } else {
      TrimEmptyIff("");
    }
  }

  /** Opening on a loaded author and saving without edits sends back its
      name, description and image URL (trimmed, "" when absent) and the ids
      of its books in order. */
  lemma SaveUnchangedAuthor(a: Author)
    ensures Payload(FormOf(Some(AuthorDraftOf(a)))) ==
            AuthorCreateRequest(Trim(a.name), Some(Trim(Nullish(a.description, ""))),
                                Some(Trim(Nullish(a.imageUrl, ""))), BookIds(a.books))
  {
  }

  /** `initial?.idAuthor ? "Edit Author" : "Add Author"`. */
  function Title(initial: Option<AuthorDraft>): (t: string)
    ensures t == "Edit Author" <==> initial.Some? && Truthy(initial.value.idAuthor)
    ensures t != "Edit Author" ==> t == "Add Author"
  {
    if initial.Some? && Truthy(initial.value.idAuthor) then "Edit Author" else "Add Author"
  }

  class Dialog {
    var busy: bool
    var form: AuthorForm
    /** `errors.name`. */
    var nameError: Option<string>

    constructor()
      ensures !busy && form == AuthorForm("", Some(""), Some(""), Some([])) && nameError.None?
    {
      busy := false;
      form := AuthorForm("", Some(""), Some(""), Some([]));
      nameError := None;
    }

    /** The effect run while `open` holds. */
    method Open(initial: Option<AuthorDraft>)
      modifies this
      ensures form == FormOf(initial) && !busy && nameError.None?
    {
      form := FormOf(initial);
      busy := false;
      nameError := None;
    }

    /** The three text fields' `onChange`. */
    method SetName(v: string)
      modifies this
      ensures form == old(form).(name := v) && busy == old(busy) && nameError == old(nameError)
    {
      form := form.(name := v);
    }

    method SetDescription(v: string)
      modifies this
      ensures form == old(form).(description := Some(v)) && busy == old(busy) && nameError == old(nameError)
    {
      form := form.(description := Some(v));
    }

    method SetImageUrl(v: string)
      modifies this
      ensures form == old(form).(imageUrl := Some(v)) && busy == old(busy) && nameError == old(nameError)
    {
      form := form.(imageUrl := Some(v));
    }

    /** `validate`: records the name error, if any, and reports success. */
    method Validate() returns (ok: bool)
      modifies this
      ensures ok <==> !AllSpace(form.name)
      ensures nameError == NameError(form.name) && form == old(form) && busy == old(busy)
    {
      nameError := NameError(form.name);
      ok := nameError.None?;
    }

    /** `submit`, with `saveFails` saying whether the awaited `onSave`
        throws. An invalid form reaches neither `onSave` nor `onClose`; a
        valid one is saved, closed only when the save succeeded, and left
        not busy either way. */
    method Submit(saveFails: bool) returns (effects: seq<AuthorDialogEffect>)
      modifies this
      ensures form == old(form) && nameError == NameError(form.name)
      ensures AllSpace(form.name) ==> effects == [] && busy == old(busy)
      ensures !AllSpace(form.name) ==>
                effects == [Save(Payload(form))] + (if saveFails then [] else [Close]) && !busy
    {
      var ok := Validate();
      if !ok {
        return [];
      }
      busy := true;
      effects := [Save(Payload(form))];
      if !saveFails {
        effects := effects + [Close];
      }
      busy := false;
    }
  }
}
