/** What an op reports as applied: each write that succeeded, once, in first-write order
    (appendOnce, internal/idempotent/vmfields.go). */
module AppliedList {

  function AppendOnce(list: seq<string>, x: string): seq<string> {
    if x in list then list else list + [x]
  }

  function Once(writes: seq<string>): seq<string> {
    if writes == [] then [] else AppendOnce(Once(writes[..|writes| - 1]), writes[|writes| - 1])
  }

  lemma OnceStep(writes: seq<string>, x: string)
    ensures Once(writes + [x]) == AppendOnce(Once(writes), x)
  {
    assert (writes + [x])[..|writes|] == writes;
  }

  lemma OnceEmpty(writes: seq<string>)
    ensures Once(writes) == [] <==> writes == []
  {
  }

  /** Nothing is listed that was not written, nothing written is missing, and nothing
      is listed twice. */
  lemma {:induction false} OnceIsTheSet(writes: seq<string>)
    ensures forall x :: x in Once(writes) <==> x in writes
    ensures forall i, j :: 0 <= i < j < |Once(writes)| ==> Once(writes)[i] != Once(writes)[j]
  {
    if writes != [] {
      var k := |writes| - 1;
      OnceIsTheSet(writes[..k]);
      assert writes == writes[..k] + [writes[k]];
    }
  }
}
