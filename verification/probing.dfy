/** The "first available wins" rule used both for package managers and for
    download tools: candidates are probed in a fixed order and probing stops at
    the first one present. This is the reference definition the installer's
    if/else chains are proved against. */
module Probing {
  import opened Wrappers

  /** The index of the first candidate `present` accepts. */
  function FirstAvailable(candidates: seq<string>, present: string -> bool): (r: Option<nat>)
    ensures r.Some? ==> r.value < |candidates| && present(candidates[r.value])
    ensures r.Some? ==> forall j :: 0 <= j < r.value ==> !present(candidates[j])
    ensures r.None? <==> forall j :: 0 <= j < |candidates| ==> !present(candidates[j])
    decreases |candidates|
  {
    if |candidates| == 0 then None
    else if present(candidates[0]) then Some(0)
    else match FirstAvailable(candidates[1..], present)
      case None => None
      case Some(i) => Some(i + 1)
  }
}
