/** Helpers shared by every enricher: first-match annotation lookup and tolerant JSON decoding
  * (backend/app/analyzers/enrichers/base.py). */
module EnricherBase {
  import opened Wrappers
  import opened Metamodel

  /** `get_annotation(annotations, *names)`: the first annotation, in list order, whose name is
    * one of `names`. */
  function GetAnnotation(anns: seq<Annotation>, names: set<string>): (r: Option<Annotation>)
    ensures r.None? <==> forall i :: 0 <= i < |anns| ==> anns[i].name !in names
    ensures r.Some? ==> exists i :: 0 <= i < |anns| && anns[i] == r.value && r.value.name in names
                          && forall j :: 0 <= j < i ==> anns[j].name !in names
  {
    if anns == [] then None
    else if anns[0].name in names then Some(anns[0])
    else
      var r := GetAnnotation(anns[1..], names);
      assert r.Some? ==> exists i :: 0 <= i < |anns[1..]| && anns[1..][i] == r.value && r.value.name in names
                          && forall j :: 0 <= j < i ==> anns[1..][j].name !in names;
      if r.Some? then
        var i :| 0 <= i < |anns[1..]| && anns[1..][i] == r.value && r.value.name in names
                && forall j :: 0 <= j < i ==> anns[1..][j].name !in names;
        assert anns[i + 1] == r.value;
        assert forall j :: 1 <= j < i + 1 ==> anns[j] == anns[1..][j - 1];
        r
      else r
  }

  /** `parse_json(val)`: the decoded list, or `[]` when the value is null, empty or undecodable. */
  function ParseJson<T>(j: StoredJson<T>): (r: seq<T>)
    ensures j.Null? ==> r == []
    ensures j.Text? && j.text == "" ==> r == []
    ensures j.Text? && j.decoded.None? ==> r == []
    ensures j.Text? && j.text != "" && j.decoded.Some? ==> r == j.decoded.value
  {
    match j
    case Null => []
    case Text(t, d) => if t == "" then [] else d.GetOr([])
  }
}
