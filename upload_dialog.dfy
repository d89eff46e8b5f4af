/** src/components/upload/GenericUploadDialog.tsx: choose a source and a
    file, then hand both to the parent's `onUpload`. */
module UploadDialog {
  import opened Wrappers
  import opened Text
  import opened Entities

  /** A file chosen in the browser; only its identity matters here. */
  datatype UploadFile = UploadFile(name: string, size: nat)

  /** One field of the `FormData` sent with the upload. */
  datatype FormEntry = FormEntry(field: string, file: UploadFile)

  /** What `submit` asks of its parent, in order. */
  datatype UploadEffect = Upload(idSource: string, form: seq<FormEntry>) | Close | Uploaded

  const DefaultTitle: string := "Upload File"
  const DefaultSourceLabel: string := "Source"

  /** The message shown when the source or the file is missing, from the
      `sourceLabel` prop (defaulting to "Source"), lower-cased: it reads
      "Please select a … and choose a file." around the lowered label, and
      whatever the label's case, no ASCII capital follows the initial 'P'. */
  function MissingSelectionMessage(sourceLabel: Option<string>): (m: string)
    ensures StartsWith(m, "Please select a ") && EndsWith(m, " and choose a file.")
    ensures |m| == 35 + |Nullish(sourceLabel, DefaultSourceLabel)|
    ensures m[16..|m| - 19] == ToLower(Nullish(sourceLabel, DefaultSourceLabel))
    ensures forall i :: 0 < i < |m| ==> !('A' <= m[i] <= 'Z')
  {
    "Please select a " + ToLower(Nullish(sourceLabel, DefaultSourceLabel)) + " and choose a file."
  }

  /** With the default label the message names a "source". */
  lemma DefaultMissingSelectionMessage()
    ensures MissingSelectionMessage(None) == "Please select a source and choose a file."
  {
    assert ToLower("Source") == "source";
  }

  /** `e.target.files?.[0] ?? null`. */
  function FirstFile(files: Option<seq<UploadFile>>): (f: Option<UploadFile>)
    ensures f.Some? <==> files.Some? && |files.value| > 0
    ensures f.Some? ==> f.value == files.value[0]
  {
    if files.Some? && |files.value| > 0 then Some(files.value[0]) else None
  }

  class Dialog {
    var sources: seq<Source>
    var loadingSources: bool
    var selectedSource: Option<Source>
    var file: Option<UploadFile>
    var busy: bool
    var error: Option<string>

    constructor()
      ensures sources == [] && !loadingSources && selectedSource.None? && file.None? && !busy && error.None?
    {
      sources := [];
      loadingSources := false;
      selectedSource := None;
      file := None;
      busy := false;
      error := None;
    }

    /** `!selectedSource || !file`: the check `submit` makes first. */
    predicate SelectionMissing()
      reads this
    {
      selectedSource.None? || file.None?
    }

    /** `disabled={busy || !selectedSource || !file}`, negated: the button
        is enabled exactly when no upload is running and `submit` would
        get past its missing-selection check. */
    predicate UploadEnabled()
      reads this
      ensures UploadEnabled() <==> !busy && !SelectionMissing()
    {
      !busy && selectedSource.Some? && file.Some?
    }

    /** The open effect up to the awaited `getSources()`: the selection,
        the file, the error and `busy` are reset and the source list is
        being loaded. */
    method Open()
      modifies this
      ensures selectedSource.None? && file.None? && error.None? && !busy && loadingSources
      ensures sources == old(sources)
      ensures !UploadEnabled()
    {
      selectedSource := None;
      file := None;
      error := None;
      busy := false;
      loadingSources := true;
    }

    /** The rest of the open effect, once `getSources()` settles: the list
        is replaced on success; on failure it is kept and the error is the
        exception's message or "Failed to load sources". */
    method FinishSourceFetch(outcome: Outcome<seq<Source>>)
      modifies this
      ensures !loadingSources
      ensures outcome.Ok? ==> sources == outcome.value && error == old(error)
      ensures outcome.Err? ==> sources == old(sources) && error == Some(FalsyMessage(outcome.failure, "Failed to load sources"))
      ensures selectedSource == old(selectedSource) && file == old(file) && busy == old(busy)
    {
      if outcome.Ok? {
        sources := outcome.value;
      } else {
        error := Some(FalsyMessage(outcome.failure, "Failed to load sources"));
      }
      loadingSources := false;
    }

    /** The source picker's `onChange`. */
    method SelectSource(s: Option<Source>)
      modifies this
      ensures selectedSource == s
      ensures sources == old(sources) && loadingSources == old(loadingSources) && file == old(file)
      ensures busy == old(busy) && error == old(error)
    {
      selectedSource := s;
    }

    /** `onPickFile`: the first chosen file, or none. */
    method PickFile(files: Option<seq<UploadFile>>)
      modifies this
      ensures file == FirstFile(files)
      ensures sources == old(sources) && loadingSources == old(loadingSources) && selectedSource == old(selectedSource)
      ensures busy == old(busy) && error == old(error)
    {
      file := FirstFile(files);
    }

    /** `submit`. `sourceLabel` is the prop, `uploadFailure` the exception
        the awaited `onUpload` throws, if any, and `hasOnUploaded` whether
        the parent passed `onUploaded`. Without a source or a file nothing
        is uploaded; otherwise the chosen source's id and a form holding the
        file under "file" are uploaded, and only a successful upload closes
        the dialog and then reports back. */
    method Submit(sourceLabel: Option<string>, uploadFailure: Option<Failure>, hasOnUploaded: bool)
      returns (effects: seq<UploadEffect>)
      modifies this
      ensures sources == old(sources) && loadingSources == old(loadingSources)
      ensures selectedSource == old(selectedSource) && file == old(file)
      ensures old(UploadEnabled()) ==> |effects| > 0 && effects[0].Upload?
      ensures old(SelectionMissing()) ==>
                effects == [] && error == Some(MissingSelectionMessage(sourceLabel)) && busy == old(busy)
      ensures old(selectedSource).Some? && old(file).Some? ==>
                !busy && |effects| > 0 &&
                effects[0] == Upload(old(selectedSource).value.idSource, [FormEntry("file", old(file).value)]) &&
                (uploadFailure.None? ==>
                   effects == [effects[0], Close] + (if hasOnUploaded then [Uploaded] else []) && error.None?) &&
                (uploadFailure.Some? ==>
                   effects == [effects[0]] && error == Some(NullishMessage(uploadFailure.value, "Upload failed")))
    {
      if SelectionMissing() {
        error := Some(MissingSelectionMessage(sourceLabel));
        return [];
      }
      busy := true;
      error := None;
      var form := [FormEntry("file", file.value)];
      effects := [Upload(selectedSource.value.idSource, form)];
      if uploadFailure.None? {
        effects := effects + [Close];
        if hasOnUploaded {
          effects := effects + [Uploaded];
        }
      } else {
        error := Some(NullishMessage(uploadFailure.value, "Upload failed"));
      }
      busy := false;
    }
  }
}
