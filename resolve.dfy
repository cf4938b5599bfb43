/**
 * `resolve_first_existing`: the first candidate of a colon-separated search list that
 * exists on disk. Whether a path exists is the parameter `pathExists`; note that in
 * Python `Path("")` is the current directory, so an empty candidate usually exists.
 */
module PathResolve {
  import opened Wrappers
  import opened Text

  /** The first candidate, in order, for which `pathExists` holds, or `None`. */
  function FirstExisting(candidates: seq<string>, pathExists: string -> bool): (r: Option<string>)
    ensures r.None? <==> forall i :: 0 <= i < |candidates| ==> !pathExists(candidates[i])
    ensures r.Some? ==>
      exists k :: 0 <= k < |candidates| && candidates[k] == r.value && pathExists(candidates[k])
        && forall j :: 0 <= j < k ==> !pathExists(candidates[j])
    decreases |candidates|
  {
    if candidates == [] then None
    else if pathExists(candidates[0]) then Some(candidates[0])
    else
      var r := FirstExisting(candidates[1..], pathExists);
      assert forall i :: 1 <= i < |candidates| ==> candidates[i] == candidates[1..][i - 1];
      r
  }

  /** The loop of `resolve_first_existing`, with its early return. */
  method ResolveFirstExisting(paths: string, pathExists: string -> bool) returns (r: Option<string>)
    ensures r == FirstExisting(SplitOn(paths, ':'), pathExists)
  {
    var candidates := SplitOn(paths, ':');
    for i := 0 to |candidates|
      invariant FirstExisting(candidates[i..], pathExists) == FirstExisting(candidates, pathExists)
    {
      if pathExists(candidates[i]) {
        return Some(candidates[i]);
      }
      assert candidates[i..][1..] == candidates[i + 1..];
    }
    return None;
  }

  /** Of two candidates `/a:/b` where only `/b` exists, the search yields `/b`. */
  lemma SecondCandidateFound()
    ensures FirstExisting(SplitOn("/a:/b", ':'), p => p == "/b") == Some("/b")
  {
    assert SplitOn("/a:/b", ':') == ["/a", "/b"] by {
      SplitJoin(["/a", "/b"], ':');
      assert JoinWith(["/a", "/b"], ':') == "/a:/b";
    }
  }
}
