/**
 * The article record kept in the history file. The history is a JSON list,
 * so an element is either an object (a Python dict) or something else; an
 * object may lack any of its keys.
 */
module Records {

  datatype Option<T> = None | Some(value: T)

  /** One history object: each field is `None` when the key is absent. */
  datatype Record = Record(
    id: Option<string>,
    title: Option<string>,
    link: Option<string>,
    source: Option<string>,
    pubDate: Option<string>,
    summary: Option<string>,
    addedOn: Option<string>)

  /** The title given to an entry without one. */
  const Untitled: string := "(Sans titre)"

  /** One element of the history list. */
  datatype Entry = Dict(rec: Record) | NotDict

  /** `d.get(key, default)` */
  function GetOr(field: Option<string>, default: string): (v: string)
    ensures field.None? ==> v == default
    ensures field.Some? ==> v == field.value
  {
    match field
    case None => default
    case Some(v) => v
  }

  /** `isinstance(a, dict) and a.get("id")`: an object with a non-empty id. */
  predicate HasId(e: Entry) {
    e.Dict? && e.rec.id.Some? && e.rec.id.value != ""
  }

  function IdOf(e: Entry): string
    requires HasId(e)
  {
    e.rec.id.value
  }

  /** Every record has a non-empty id and no two records share one. */
  predicate UniqueIds(s: seq<Record>) {
    && (forall i :: 0 <= i < |s| ==> s[i].id.Some? && s[i].id.value != "")
    && (forall i, j :: 0 <= i < j < |s| ==> s[i].id != s[j].id)
  }

  /** The records as history list elements. */
  function AsEntries(s: seq<Record>): (r: seq<Entry>)
    ensures |r| == |s|
    ensures forall i :: 0 <= i < |s| ==> r[i] == Dict(s[i])
  {
    seq(|s|, i requires 0 <= i < |s| => Dict(s[i]))
  }
}
