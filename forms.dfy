/** What the dialogs and detail pages share: the required-name check and
    the order in which a detail page chooses what to show. */
module Forms {
  import opened Wrappers
  import opened Text
  import opened Http

  const NameRequired: string := "Name is required"

  /** `if (!form.name.trim()) next.name = "Name is required"`: a name
      that is empty or all white space is refused. */
  function NameError(name: string): (e: Option<string>)
    ensures e.None? <==> !AllSpace(name)
    ensures e.Some? ==> e.value == NameRequired
  {
    TrimEmptyIff(name);
    if Trim(name) == "" then Some(NameRequired) else None
  }

  /** `value || "—"`: an absent or empty detail shows as a dash. */
  function DashIfEmpty(value: Option<string>): (r: string)
    ensures r != "" && (r == "—" <==> !Truthy(value) || value.value == "—")
  {
    StringOr(value, "—")
  }

  /** What a detail page's delete button does besides sending requests. */
  datatype DetailEffect = Send(req: Request) | GoBack

  /** The value a details card shows against `key`: the first row with
      that label, if any. */
  function RowValue(rows: seq<(string, string)>, key: string): (v: Option<string>)
    ensures v.Some? <==> exists i :: 0 <= i < |rows| && rows[i].0 == key
    ensures v.Some? ==> exists i :: 0 <= i < |rows| && rows[i] == (key, v.value)
  {
    if rows == [] then None
    else if rows[0].0 == key then Some(rows[0].1)
    else
      var v := RowValue(rows[1..], key);
      assert forall j :: 0 <= j < |rows| - 1 ==> rows[1..][j] == rows[j + 1];
      assert v.Some? ==> exists i :: 0 <= i < |rows| && rows[i] == (key, v.value);
      v
  }

  /** What a detail page renders. */
  datatype DetailView<T> = Loading | Failed(message: string) | NotFound | Details(row: T)

  /** `if (loading) … if (error) … if (!row) … else details`: the first that
      applies wins, and an empty error message does not count as an error. */
  function DetailViewOf<T>(loading: bool, error: Option<string>, row: Option<T>): (v: DetailView<T>)
    ensures v.Loading? <==> loading
    ensures v.Failed? <==> !loading && Truthy(error)
    ensures v.Failed? ==> v.message == error.value && v.message != ""
    ensures v.NotFound? <==> !loading && !Truthy(error) && row.None?
    ensures v.Details? <==> !loading && !Truthy(error) && row.Some?
    ensures v.Details? ==> v.row == row.value
  {
    if loading then Loading
    else if Truthy(error) then Failed(error.value)
    else if row.None? then NotFound
    else Details(row.value)
  }
}
