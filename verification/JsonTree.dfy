/** Documents as trees, and where the marker of the integration occurs in them. */
module JsonTree {
  import opened Basics

  datatype Json =
    | Null
    | Bool(value: bool)
    | Num(number: int)
    | Str(text: string)
    | Arr(items: seq<Json>)
    | Obj(fields: map<string, Json>)

  const MARKER: string := "lili-session-v1"

  predicate OccursAt(s: string, pattern: string, i: int) {
    0 <= i <= |s| - |pattern| && s[i..i + |pattern|] == pattern
  }

  predicate Contains(s: string, pattern: string) {
    exists i :: 0 <= i <= |s| - |pattern| && OccursAt(s, pattern, i)
  }

  lemma ContainsPart(before: string, pattern: string, behind: string)
    ensures Contains(before + pattern + behind, pattern)
  {
    assert OccursAt(before + pattern + behind, pattern, |before|);
  }

  predicate Marked(s: string) {
    Contains(s, MARKER)
  }

  /** The marker occurs in some string or key of the tree. */
  predicate HasMarker(v: Json) {
    match v
    case Str(text) => Marked(text)
    case Arr(items) => exists i :: 0 <= i < |items| && HasMarker(items[i])
    case Obj(fields) => exists key :: key in fields && (Marked(key) || HasMarker(fields[key]))
    case _ => false
  }

  function StringAt(v: Json, key: string): Option<string> {
    if v.Obj? && key in v.fields && v.fields[key].Str? then Some(v.fields[key].text) else None
  }

  function ItemsAt(v: Json, key: string): Option<seq<Json>> {
    if v.Obj? && key in v.fields && v.fields[key].Arr? then Some(v.fields[key].items) else None
  }
}
