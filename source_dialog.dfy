/** src/modules/source/components/SourceDialog.tsx: the add/edit source
    form, with the same reset, validation and save-then-close order as the
    author dialog. */
module SourceDialog {
  import opened Wrappers
  import opened Text
  import opened Entities
  import opened Forms

  /** The `form` state: both fields are always strings. */
  datatype SourceForm = SourceForm(name: string, description: string)

  datatype SourceDialogEffect = Save(payload: SourceCreateRequest) | Close

  /** The form the open effect installs: absent values become "". */
  function FormOf(initial: Option<SourceDraft>): (f: SourceForm)
    ensures initial.None? ==> f == SourceForm("", "")
    ensures initial.Some? ==> f == SourceForm(Nullish(initial.value.name, ""), Nullish(initial.value.description, ""))
  {
    match initial
    case None => SourceForm("", "")
    case Some(d) => SourceForm(Nullish(d.name, ""), Nullish(d.description, ""))
  }

  /** `{ name: form.name.trim(), description: form.description.trim() }`:
      the name is empty exactly when validation refuses the form, and the
      description is always sent, never longer than the form's. */
  function Payload(f: SourceForm): (p: SourceCreateRequest)
    ensures p.name == Trim(f.name)
    ensures p.name == "" <==> NameError(f.name).Some?
    ensures p.description == Some(Trim(f.description))
    ensures |p.description.value| <= |f.description|
  {
    TrimEmptyIff(f.name);
    SourceCreateRequest(Trim(f.name), Some(Trim(f.description)))
  }

  /** A payload that passed validation has a non-empty name, neither field
      starts or ends with white space, and normalising again changes
      nothing. */
  lemma PayloadNormalised(f: SourceForm)
    requires NameError(f.name).None?
    ensures Payload(f).name != "" && Trim(Payload(f).name) == Payload(f).name
    ensures Payload(f).description == Some(Trim(f.description)) && Trim(Trim(f.description)) == Trim(f.description)
    ensures Payload(SourceForm(Payload(f).name, Payload(f).description.value)) == Payload(f)
  {
    TrimEmptyIff(f.name);
    TrimIdempotent(f.name);
    TrimIdempotent(f.description);
  }

  /** Opening on a loaded source and saving without edits sends back its
      trimmed name and description ("" when it had none). */
  lemma SaveUnchangedSource(s: Source)
    ensures Payload(FormOf(Some(SourceDraftOf(s)))) == SourceCreateRequest(Trim(s.name), Some(Trim(Nullish(s.description, ""))))
  {
  }

  /** `initial?.idSource ? "Edit Source" : "Add Source"`. */
  function Title(initial: Option<SourceDraft>): (t: string)
    ensures t == "Edit Source" <==> initial.Some? && Truthy(initial.value.idSource)
    ensures t != "Edit Source" ==> t == "Add Source"
  {
    if initial.Some? && Truthy(initial.value.idSource) then "Edit Source" else "Add Source"
  }

  class Dialog {
    var busy: bool
    var form: SourceForm
    var nameError: Option<string>

    constructor()
      ensures !busy && form == SourceForm("", "") && nameError.None?
    {
      busy := false;
      form := SourceForm("", "");
      nameError := None;
    }

    /** The effect run while `open` holds. */
    method Open(initial: Option<SourceDraft>)
      modifies this
      ensures form == FormOf(initial) && !busy && nameError.None?
    {
      form := FormOf(initial);
      busy := false;
      nameError := None;
    }

    method SetName(v: string)
      modifies this
      ensures form == old(form).(name := v) && busy == old(busy) && nameError == old(nameError)
    {
      form := form.(name := v);
    }

    method SetDescription(v: string)
      modifies this
      ensures form == old(form).(description := v) && busy == old(busy) && nameError == old(nameError)
    {
      form := form.(description := v);
    }

    method Validate() returns (ok: bool)
      modifies this
      ensures ok <==> !AllSpace(form.name)
      ensures nameError == NameError(form.name) && form == old(form) && busy == old(busy)
    {
      nameError := NameError(form.name);
      ok := nameError.None?;
    }

    /** `submit`, with `saveFails` saying whether the awaited `onSave`
        throws. */
    method Submit(saveFails: bool) returns (effects: seq<SourceDialogEffect>)
      modifies this
      ensures form == old(form) && nameError == NameError(form.name)
      ensures AllSpace(form.name) ==> effects == [] && busy == old(busy)
      ensures !AllSpace(form.name) ==>
                effects == [Save(Payload(form))] + (if saveFails then [] else [Close]) && !busy
    {
      var ok := Validate();
      if !ok {
        return [];
      }
      busy := true;
      effects := [Save(Payload(form))];
      if !saveFails {
        effects := effects + [Close];
      }
      busy := false;
    }
  }
}
