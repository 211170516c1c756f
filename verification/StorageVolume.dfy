/** Freeing a VM's orphan volumes (internal/idempotent/storagevolume.go): a destructive
    op, guarded by which VMs it was told about. */
module StorageVolume {
  import opened Common
  import opened AppliedList
  import Engine

  /** A VM on a node claims a volume of this storage. */
  datatype Claim = Claim(node: string, vmid: int, volid: string)

  /** The claimed set a free is built with: the VMs of this node, or of the cluster. */
  datatype Selector = Selector(completeVMIDs: Option<set<int>>, clusterPairs: Option<set<(string, int)>>)

  /** Around one call: it succeeds or not; the volumes of the VM's naming it would list
      (PVE lists may hold empty entries); a DELETE answers with a usable task id; the
      task finishes. */
  datatype Weather = Weather(ok: bool, volumes: seq<Option<string>>, upid: bool, taskOk: bool)

  datatype World = World(node: string, shared: bool, claims: set<Claim>, weather: nat -> Weather)

  /** A DELETE that was sent, and the call it was. */
  datatype Delete = Delete(volid: string, at: nat)

  /** The op's fields; the remote's own record of the calls and of every DELETE it got; and
      what the op was to free. */
  datatype State = State(
    clock: nat, orphans: seq<Option<string>>, applied: seq<string>, deletes: seq<Delete>, snapshot: seq<string>)

  /** A DELETE was answered with a usable task id, and its task finished. */
  predicate Finished(w: World, d: Delete) {
    var now := w.weather(d.at);
    now.ok && now.upid && now.taskOk
  }

  function Targets(deletes: seq<Delete>): seq<string> {
    seq(|deletes|, i requires 0 <= i < |deletes| => deletes[i].volid)
  }

  /** The volumes that are gone: those whose delete task finished. */
  function Freed(w: World, deletes: seq<Delete>): seq<string> {
    if deletes == [] then []
    else
      var last := deletes[|deletes| - 1];
      Freed(w, deletes[..|deletes| - 1]) + (if Finished(w, last) then [last.volid] else [])
  }

  lemma FreedStep(w: World, deletes: seq<Delete>, d: Delete)
    ensures Freed(w, deletes + [d]) == Freed(w, deletes) + (if Finished(w, d) then [d.volid] else [])
    ensures Targets(deletes + [d]) == Targets(deletes) + [d.volid]
  {
    assert (deletes + [d])[..|deletes|] == deletes;
  }

  predicate ClaimedIn(w: World, sel: Selector, volid: string) {
    exists c :: c in w.claims && c.volid == volid
      && (if sel.clusterPairs.Some? then (c.node, c.vmid) in sel.clusterPairs.value
          else sel.completeVMIDs.Some? && c.node == w.node && c.vmid in sel.completeVMIDs.value)
  }

  predicate Claimed(w: World, volid: string) {
    exists c :: c in w.claims && c.volid == volid
  }

  /** The orphan determination: the listed volumes that no VM of the claimed set names. */
  function Unclaimed(w: World, sel: Selector, volumes: seq<Option<string>>): seq<Option<string>> {
    if volumes == [] then []
    else
      (if volumes[0].Some? && ClaimedIn(w, sel, volumes[0].value) then [] else [volumes[0]])
      + Unclaimed(w, sel, volumes[1..])
  }

  function Volids(orphans: seq<Option<string>>): seq<string> {
    if orphans == [] then []
    else (if orphans[0].None? then [] else [orphans[0].value]) + Volids(orphans[1..])
  }

  /** Exactly one selector, and the node-scoped one never on shared storage. */
  predicate SelectorFits(w: World, sel: Selector) {
    sel.clusterPairs.Some? != sel.completeVMIDs.Some? && (sel.completeVMIDs.Some? ==> !w.shared)
  }

  function Tick(s: State): State {
    s.(clock := s.clock + 1)
  }

  function ReadOp(w: World, sel: Selector, s: State): (Option<seq<string>>, State) {
    if sel.clusterPairs.Some? == sel.completeVMIDs.Some? then (None, s)
    else if sel.completeVMIDs.Some? && !w.weather(s.clock).ok then (None, Tick(s))
    else if sel.completeVMIDs.Some? && w.shared then (None, Tick(s))
    else
      var s1 := if sel.completeVMIDs.Some? then Tick(s) else s;
      var now := w.weather(s1.clock);
      if !now.ok then (None, Tick(s1))
      else
        var orphans := Unclaimed(w, sel, now.volumes);
        (Some(Volids(orphans)), Tick(s1).(orphans := orphans))
  }

  /** What a DELETE is answered with: nothing usable, or a task, and how that ends. */
  datatype DeleteReply = Unusable | Task(endsWell: bool)

  function SendDelete(w: World, s: State, volid: string): (DeleteReply, State) {
    var now := w.weather(s.clock);
    (if now.ok && now.upid then Task(now.taskOk) else Unusable,
     Tick(s).(deletes := s.deletes + [Delete(volid, s.clock)]))
  }

  /** DELETE, a usable task id, and the task's end. */
  function FreeOne(w: World, s: State, volid: string): (bool, State) {
    var (reply, s1) := SendDelete(w, s, volid);
    (reply.Task? && reply.endsWell, s1)
  }

  /** In order, stopping at the first failure; recorded only once the task finished. */
  function FreeAll(w: World, s: State, orphans: seq<Option<string>>): (Engine.ApplyOutcome, State)
    decreases |orphans|
  {
    if orphans == [] then (Engine.Applied, s)
    else if orphans[0].None? then FreeAll(w, s, orphans[1..])
    else
      var (ok, s1) := FreeOne(w, s, orphans[0].value);
      if !ok then (Engine.Refused, s1)
      else FreeAll(w, s1.(applied := AppendOnce(s1.applied, orphans[0].value)), orphans[1..])
  }

  function ApplyOp(w: World, s: State): (Engine.ApplyOutcome, State) {
    FreeAll(w, s.(snapshot := Volids(s.orphans)), s.orphans)
  }

  function FreeOp(w: World, sel: Selector): Engine.Op<State, seq<string>> {
    Engine.Op(
      (s: State) => ReadOp(w, sel, s),
      (s: State, current: seq<string>) => current == [],
      (s: State) => ApplyOp(w, s),
      None, None, None)
  }

  // ---- what a run does ----

  /** The claimed set is complete: it names every VM that could claim a volume here. */
  ghost predicate Complete(w: World, sel: Selector) {
    && (sel.clusterPairs.Some? ==> forall c :: c in w.claims ==> (c.node, c.vmid) in sel.clusterPairs.value)
    && (sel.completeVMIDs.Some? ==> forall c :: c in w.claims && c.node == w.node ==> c.vmid in sel.completeVMIDs.value)
    // a node's own storage is claimed by that node's VMs alone
    && (!w.shared ==> forall c :: c in w.claims ==> c.node == w.node)
  }

  ghost predicate AllUnclaimed(w: World, volids: seq<string>) {
    forall i :: 0 <= i < |volids| ==> !Claimed(w, volids[i])
  }

  /** What was freed is a prefix of the snapshot, at most one more DELETE was sent, and
      Applied lists exactly what was freed. */
  ghost predicate Prefixed(w: World, s: State) {
    var freed, targets := Freed(w, s.deletes), Targets(s.deletes);
    && s.applied == Once(freed)
    && |freed| <= |s.snapshot| && freed == s.snapshot[..|freed|]
    && (targets == freed || (|freed| < |s.snapshot| && targets == s.snapshot[..|freed| + 1]))
  }

  ghost predicate Untouched(s: State) {
    s.applied == [] && s.deletes == []
  }

  /** A VM that the selector names claims the volume. */
  ghost predicate Spared(w: World, sel: Selector, volid: string) {
    exists c :: c in w.claims && c.volid == volid
      && (sel.clusterPairs.Some? ==> (c.node, c.vmid) in sel.clusterPairs.value)
      && (sel.completeVMIDs.Some? ==> c.node == w.node && c.vmid in sel.completeVMIDs.value)
  }

  /** The orphans are the listed volumes that no VM of the claimed set claims. */
  lemma {:induction false} UnclaimedAre(w: World, sel: Selector, volumes: seq<Option<string>>, volid: string)
    requires SelectorFits(w, sel)
    ensures volid in Volids(Unclaimed(w, sel, volumes)) <==> Some(volid) in volumes && !Spared(w, sel, volid)
  {
    if volumes != [] {
      UnclaimedAre(w, sel, volumes[1..], volid);
      var rest, all := Unclaimed(w, sel, volumes[1..]), Unclaimed(w, sel, volumes);
      if all != rest { assert all[0] == volumes[0] && all[1..] == rest; }
      assert volumes == [volumes[0]] + volumes[1..];
    }
  }

  /** Of a complete claimed set, that is: no VM of the cluster claims it. */
  lemma SparedIsClaimed(w: World, sel: Selector, volid: string)
    requires Complete(w, sel) && SelectorFits(w, sel)
    ensures Spared(w, sel, volid) <==> Claimed(w, volid)
  {
  }

  /** A read shows the orphans only if exactly one selector is given, the node-scoped one only
      for a storage that was read and is not shared, and the list was read; a list that could
      not be read is no empty list. */
  lemma ReadAnswers(w: World, sel: Selector, s: State)
    ensures var (current, s1) := ReadOp(w, sel, s);
      var listed := w.weather(if sel.completeVMIDs.Some? then s.clock + 1 else s.clock);
      && (current.Some? <==>
            && SelectorFits(w, sel) && listed.ok && (sel.completeVMIDs.Some? ==> w.weather(s.clock).ok))
      && (current.Some? ==> s1.orphans == Unclaimed(w, sel, listed.volumes) && current.value == Volids(s1.orphans))
      && (current.None? ==> s1.orphans == s.orphans)
  {
  }

  lemma {:induction false} UnclaimedIsUnclaimed(w: World, sel: Selector, volumes: seq<Option<string>>)
    requires Complete(w, sel) && SelectorFits(w, sel)
    ensures AllUnclaimed(w, Volids(Unclaimed(w, sel, volumes)))
  {
    if volumes != [] {
      UnclaimedIsUnclaimed(w, sel, volumes[1..]);
      var rest := Unclaimed(w, sel, volumes[1..]);
      var all := Unclaimed(w, sel, volumes);
      if all != rest { assert all[0] == volumes[0] && all[1..] == rest; }
    }
  }

  /** All that was sent finished and is recorded, and the rest is still to be freed. */
  ghost predicate OnTrack(w: World, s: State, rest: seq<string>) {
    var freed := Freed(w, s.deletes);
    s.applied == Once(freed) && Targets(s.deletes) == freed && s.snapshot == freed + rest
  }

  lemma FreedOne(w: World, s: State, volid: string, rest: seq<string>)
    requires OnTrack(w, s, [volid] + rest)
    ensures var (ok, s1) := FreeOne(w, s, volid);
      if ok then OnTrack(w, s1.(applied := AppendOnce(s1.applied, volid)), rest)
      else Prefixed(w, s1) && Freed(w, s1.deletes) != s1.snapshot
  {
    var freed := Freed(w, s.deletes);
    FreedStep(w, s.deletes, Delete(volid, s.clock));
    OnceStep(freed, volid);
    assert freed + ([volid] + rest) == freed + [volid] + rest;
    assert freed + [] == freed && s.snapshot[..|freed| + 1] == freed + [volid];
  }

  lemma FreedAll(w: World, s: State)
    requires OnTrack(w, s, [])
    ensures Prefixed(w, s) && Freed(w, s.deletes) == s.snapshot
  {
    assert Freed(w, s.deletes) + [] == Freed(w, s.deletes);
  }

  lemma {:induction false} FreeAllPrefixed(w: World, s: State, orphans: seq<Option<string>>)
    requires OnTrack(w, s, Volids(orphans))
    ensures var (outcome, s1) := FreeAll(w, s, orphans);
      && Prefixed(w, s1) && s1.snapshot == s.snapshot && !outcome.Conflict? && s1.orphans == s.orphans
      && (outcome.Applied? <==> Freed(w, s1.deletes) == s1.snapshot)
    decreases |orphans|
  {
    if orphans == [] {
      FreedAll(w, s);
    } else if orphans[0].None? {
      FreeAllPrefixed(w, s, orphans[1..]);
    } else {
      var volid := orphans[0].value;
      FreedOne(w, s, volid, Volids(orphans[1..]));
      var (ok, s1) := FreeOne(w, s, volid);
      if ok { FreeAllPrefixed(w, s1.(applied := AppendOnce(s1.applied, volid)), orphans[1..]); }
    }
  }

  ghost function RunContract(w: World): Engine.Contract<State> {
    Engine.Contract(
      (s: State) => Untouched(s) && AllUnclaimed(w, Volids(s.orphans)),
      (s: State) => Prefixed(w, s) && Freed(w, s.deletes) == s.snapshot && AllUnclaimed(w, s.snapshot),
      (s: State) => Prefixed(w, s) && Freed(w, s.deletes) != s.snapshot && AllUnclaimed(w, s.snapshot))
  }

  lemma ReadKeeps(w: World, sel: Selector, s: State)
    ensures var s1 := ReadOp(w, sel, s).1;
      s1 == s.(clock := s1.clock, orphans := s1.orphans)
    ensures Complete(w, sel) && AllUnclaimed(w, Volids(s.orphans)) ==>
        AllUnclaimed(w, Volids(ReadOp(w, sel, s).1.orphans))
  {
    if Complete(w, sel) && SelectorFits(w, sel) {
      UnclaimedIsUnclaimed(w, sel, w.weather(s.clock).volumes);
      UnclaimedIsUnclaimed(w, sel, w.weather(s.clock + 1).volumes);
    }
  }

  lemma FreeOpMeets(w: World, sel: Selector)
    requires Complete(w, sel)
    ensures Engine.Meets(FreeOp(w, sel), RunContract(w))
  {
    var op, c := FreeOp(w, sel), RunContract(w);
    forall s: State {:trigger op.read(s)}
      ensures (c.idle(s) ==> c.idle(op.read(s).1)) && (c.done(s) ==> c.done(op.read(s).1))
    {
      ReadKeeps(w, sel, s);
    }
    forall s: State {:trigger op.apply(s)} | c.idle(s)
      ensures op.apply(s).0.Applied? ==> c.done(op.apply(s).1)
      ensures op.apply(s).0.Refused? ==> c.failed(op.apply(s).1)
      ensures !op.apply(s).0.Conflict?
    {
      var s0 := s.(snapshot := Volids(s.orphans));
      assert [] + Volids(s.orphans) == Volids(s.orphans);
      FreeAllPrefixed(w, s0, s.orphans);
    }
  }

  /** A whole run, given a complete claimed set: no DELETE ever targets a claimed volume;
      Applied is the finished prefix of the snapshot, all of it when the run reports a
      change; and a selector that does not fit sends no DELETE at all. */
  lemma FreesOnlyOrphans(w: World, sel: Selector, s: State, force: bool, lockFree: bool)
    requires Complete(w, sel) && Untouched(s) && s.orphans == []
    ensures var e := Engine.RunSpec(FreeOp(w, sel), s, force, lockFree);
      && AllUnclaimed(w, Targets(e.state.deletes))
      && (e.state.deletes != [] ==> SelectorFits(w, sel) && Prefixed(w, e.state))
      && e.state.applied == Once(Freed(w, e.state.deletes))
      && (e.result.Ok? && e.result.value.changed ==> Freed(w, e.state.deletes) == e.state.snapshot)
      && (e.result.Ok? && !e.result.value.changed ==> e.state.deletes == [])
      && (!SelectorFits(w, sel) ==> e.result.Err?)
  {
    FreeOpMeets(w, sel);
    var op := FreeOp(w, sel);
    Engine.RunKeepsContract(op, RunContract(w), s, force, lockFree);
    var e := Engine.RunSpec(op, s, force, lockFree);
    if lockFree && !SelectorFits(w, sel) {
      assert op.read(s).0.None?;
      assert e.state == op.read(s).1;
      ReadKeeps(w, sel, s);
    }
    if e.state.deletes != [] {
      assert Prefixed(w, e.state) && AllUnclaimed(w, e.state.snapshot);
    }
  }

  lemma {:induction false} CalmFreeAll(w: World, s: State, orphans: seq<Option<string>>)
    requires forall i: nat :: w.weather(i).ok && w.weather(i).upid && w.weather(i).taskOk
    ensures FreeAll(w, s, orphans).0.Applied?
    decreases |orphans|
  {
    if orphans != [] {
      if orphans[0].None? {
        CalmFreeAll(w, s, orphans[1..]);
      } else {
        var s1 := FreeOne(w, s, orphans[0].value).1;
        CalmFreeAll(w, s1.(applied := AppendOnce(s1.applied, orphans[0].value)), orphans[1..]);
      }
    }
  }

  /** And it does what it is for: when nothing fails, exactly the volumes of the VM's naming
      that no VM of the claimed set claims are freed; of a complete one, no VM at all. */
  lemma CalmFree(w: World, sel: Selector, s: State, volumes: seq<Option<string>>)
    requires forall i: nat :: w.weather(i) == Weather(true, volumes, true, true)
    requires SelectorFits(w, sel) && Untouched(s)
    ensures var e := Engine.RunSpec(FreeOp(w, sel), s, false, true);
      var freed := Freed(w, e.state.deletes);
      && e.result.Ok? && (e.result.value.changed <==> freed != [])
      && (forall volid :: volid in freed <==> Some(volid) in volumes && !Spared(w, sel, volid))
      && (Complete(w, sel) ==> forall volid :: volid in freed <==> Some(volid) in volumes && !Claimed(w, volid))
  {
    CalmFreeList(w, sel, s, volumes);
    forall volid: string
      ensures volid in Volids(Unclaimed(w, sel, volumes)) <==> Some(volid) in volumes && !Spared(w, sel, volid)
    {
      UnclaimedAre(w, sel, volumes, volid);
    }
    if Complete(w, sel) {
      forall volid: string ensures Spared(w, sel, volid) <==> Claimed(w, volid) {
        SparedIsClaimed(w, sel, volid);
      }
    }
  }

  lemma CalmFreeList(w: World, sel: Selector, s: State, volumes: seq<Option<string>>)
    requires forall i: nat :: w.weather(i) == Weather(true, volumes, true, true)
    requires SelectorFits(w, sel) && Untouched(s)
    ensures var e := Engine.RunSpec(FreeOp(w, sel), s, false, true);
      && e.result.Ok? && Freed(w, e.state.deletes) == Volids(Unclaimed(w, sel, volumes))
      && (e.result.value.changed <==> Freed(w, e.state.deletes) != [])
  {
    var op := FreeOp(w, sel);
    var (current, s1) := op.read(s);
    assert current == Some(Volids(Unclaimed(w, sel, volumes))) && s1.orphans == Unclaimed(w, sel, volumes);
    if current.value != [] {
      var s2 := s1.(snapshot := Volids(s1.orphans));
      assert [] + Volids(s1.orphans) == Volids(s1.orphans);
      CalmFreeAll(w, s2, s1.orphans);
      FreeAllPrefixed(w, s2, s1.orphans);
      var (outcome, s3) := op.apply(s1);
      assert outcome.Applied? && Freed(w, s3.deletes) == Volids(s1.orphans);
      ReadKeeps(w, sel, s3);
      assert Engine.Attempts(op, s, false, 1, [Engine.Lock])
          == Engine.Changed(op, s3, current.value, [Engine.Lock] + [Engine.Read(true), Engine.Apply(outcome)]);
    }
  }

  // ---- the op as it runs ----

  lemma VolidsAt(orphans: seq<Option<string>>, i: nat)
    requires i < |orphans|
    ensures Volids(orphans[i..]) == (if orphans[i].None? then [] else [orphans[i].value]) + Volids(orphans[i + 1..])
  {
    assert orphans[i..][0] == orphans[i] && orphans[i..][1..] == orphans[i + 1..];
  }

  method ListVolids(orphans: seq<Option<string>>) returns (volids: seq<string>)
    ensures volids == Volids(orphans)
  {
    volids := [];
    var i := 0;
    assert orphans[0..] == orphans;
    while i < |orphans|
      invariant 0 <= i <= |orphans| && volids + Volids(orphans[i..]) == Volids(orphans)
    {
      VolidsAt(orphans, i);
      if orphans[i].Some? { volids := volids + [orphans[i].value]; }
      i := i + 1;
    }
  }

  class VolumeFreeOrphans {
    const w: World
    const sel: Selector
    var clock: nat
    var orphans: seq<Option<string>>
    var applied: seq<string>
    ghost var deletes: seq<Delete>
    ghost var snapshot: seq<string>

    constructor (w: World, sel: Selector)
      ensures this.w == w && this.sel == sel && Untouched(Now()) && orphans == []
    {
      this.w, this.sel := w, sel;
      clock, orphans, applied, deletes, snapshot := 0, [], [], [], [];
    }

    ghost function Now(): State
      reads this
    {
      State(clock, orphans, applied, deletes, snapshot)
    }

    method Read() returns (current: Option<seq<string>>)
      modifies this
      ensures (current, Now()) == ReadOp(w, sel, old(Now()))
    {
      if sel.clusterPairs.Some? == sel.completeVMIDs.Some? { return None; }
      if sel.completeVMIDs.Some? {
        var storage := w.weather(clock);
        clock := clock + 1;
        if !storage.ok || w.shared { return None; }
      }
      var scan := w.weather(clock);
      clock := clock + 1;
      if !scan.ok { return None; }
      orphans := Unclaimed(w, sel, scan.volumes);
      var volids := ListVolids(orphans);
      return Some(volids);
    }

    method Apply() returns (outcome: Engine.ApplyOutcome)
      modifies this
      ensures (outcome, Now()) == ApplyOp(w, old(Now()))
    {
      snapshot := Volids(orphans);
      var i := 0;
      assert orphans[0..] == orphans;
      while i < |orphans|
        invariant 0 <= i <= |orphans| && orphans == old(orphans)
        invariant ApplyOp(w, old(Now())) == FreeAll(w, Now(), orphans[i..])
      {
        assert orphans[i..][1..] == orphans[i + 1..];
        if orphans[i].Some? {
          var ok := Free(orphans[i].value);
          if !ok { return Engine.Refused; }
          applied := AppendOnce(applied, orphans[i].value);
        }
        i := i + 1;
      }
      return Engine.Applied;
    }

    method Free(volid: string) returns (ok: bool)
      modifies this`clock, this`deletes
      ensures (ok, Now()) == FreeOne(w, old(Now()), volid)
    {
      var reply := DeleteVolume(volid);
      if reply.Unusable? { return false; }
      return reply.endsWell;
    }

    /** The client's call. */
    method DeleteVolume(volid: string) returns (reply: DeleteReply)
      modifies this`clock, this`deletes
      ensures (reply, Now()) == SendDelete(w, old(Now()), volid)
    {
      var now := w.weather(clock);
      deletes := deletes + [Delete(volid, clock)];
      clock := clock + 1;
      reply := if now.ok && now.upid then Task(now.taskOk) else Unusable;
    }
  }
}
