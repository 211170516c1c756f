/** `network set` (internal/idempotent/networkfields.go): change one interface's fields,
    and prove before committing that no other interface changed. */
module NetworkFields {
  import opened Common
  import opened Order
  import opened Boolish
  import opened NetworkStage

  datatype FieldDiff =
    | Removed(key: string, was: string) | Added(key: string, now: string)
    | Changed(key: string, was: string, now: string)

  datatype InterfaceDiff = InterfaceDiff(name: string, diffs: seq<FieldDiff>)

  /** The differences of the given keys, the node-wide digest aside. */
  function FieldDiffs(before: Fields, after: Fields, keys: seq<string>): seq<FieldDiff> {
    if keys == [] then []
    else
      var k := keys[0];
      var here :=
        if k == "digest" then []
        else if k in before && k !in after then [Removed(k, before[k])]
        else if k !in before && k in after then [Added(k, after[k])]
        else if k in before && k in after && before[k] != after[k] then [Changed(k, before[k], after[k])]
        else [];
      here + FieldDiffs(before, after, keys[1..])
  }

  /** The difference is one there is, of a field other than the digest. */
  ghost predicate Differs(before: Fields, after: Fields, d: FieldDiff) {
    && d.key != "digest"
    && match d
       case Removed(k, was) => k in before && before[k] == was && k !in after
       case Added(k, now) => k in after && after[k] == now && k !in before
       case Changed(k, was, now) => k in before && before[k] == was && k in after && after[k] == now && was != now
  }

  lemma {:induction false} DiffsAre(before: Fields, after: Fields, keys: seq<string>, d: FieldDiff)
    ensures d in FieldDiffs(before, after, keys) <==> d.key in keys && Differs(before, after, d)
  {
    if keys != [] {
      DiffsAre(before, after, keys[1..], d);
      assert keys == [keys[0]] + keys[1..];
    }
  }

  /** Each difference there is, in the order of the keys, and none else. */
  method DiffFields(before: Fields, after: Fields) returns (diffs: seq<FieldDiff>)
    ensures diffs == [] <==> SameStanza(before, after)
    ensures diffs == FieldDiffs(before, after, SortedStrings(before.Keys + after.Keys))
    ensures forall d :: d in diffs <==> Differs(before, after, d)
  {
    var keys := CollectStrings(before.Keys + after.Keys);
    AllDiffs(before, after, keys);
    diffs := FieldDiffs(before, after, keys);
  }

  lemma AllDiffs(before: Fields, after: Fields, keys: seq<string>)
    requires forall k :: k in keys <==> k in before.Keys + after.Keys
    ensures FieldDiffs(before, after, keys) == [] <==> SameStanza(before, after)
    ensures forall d :: d in FieldDiffs(before, after, keys) <==> Differs(before, after, d)
  {
    forall d: FieldDiff ensures d in FieldDiffs(before, after, keys) <==> Differs(before, after, d) {
      DiffsAre(before, after, keys, d);
    }
    NoDiffs(before, after, keys);
    Stanzas(before, after, "digest");
    if FieldDiffs(before, after, keys) == [] {
      forall k | k != "digest" ensures AgreeOn(before, after, k) {
        if k in before.Keys + after.Keys { var i :| 0 <= i < |keys| && keys[i] == k; }
      }
    }
  }

  lemma Stanzas(a: Fields, b: Fields, d: string)
    ensures a - {d} == b - {d} <==> forall k :: k != d ==> AgreeOn(a, b, k)
  {
    if a - {d} == b - {d} {
      forall k | k != d ensures AgreeOn(a, b, k) {
        assert k in a <==> k in a - {d};
        assert k in b <==> k in b - {d};
        if k in a { assert a[k] == (a - {d})[k] == (b - {d})[k] == b[k]; }
      }
    }
    if forall k :: k != d ==> AgreeOn(a, b, k) {
      assert (a - {d}).Keys == (b - {d}).Keys by {
        forall k ensures k in a - {d} <==> k in b - {d} { if k != d { assert AgreeOn(a, b, k); } }
      }
      forall k | k in a - {d} ensures (a - {d})[k] == (b - {d})[k] { assert AgreeOn(a, b, k); }
      assert a - {d} == b - {d};
    }
  }

  lemma {:induction false} NoDiffs(before: Fields, after: Fields, keys: seq<string>)
    ensures FieldDiffs(before, after, keys) == [] <==>
      forall i :: 0 <= i < |keys| && keys[i] != "digest" ==> AgreeOn(before, after, keys[i])
  {
    if keys != [] { NoDiffs(before, after, keys[1..]); }
  }

  predicate AgreeOn(a: Fields, b: Fields, k: string) {
    (k in a <==> k in b) && (k in a && k in b ==> a[k] == b[k])
  }

  /** The hash of every interface but one. */
  function OtherHashes(hash: Fields -> string, all: Config, exclude: string): map<string, string> {
    map name | name in all && name != exclude :: CanonicalHash(hash, all[name])
  }

  method OtherInterfaceHashes(hash: Fields -> string, all: Config, exclude: string)
    returns (hashes: map<string, string>)
    ensures hashes == OtherHashes(hash, all, exclude)
  {
    hashes := map[];
    var rest := all.Keys;
    while rest != {}
      invariant rest <= all.Keys
      invariant hashes == map name | name in all.Keys - rest && name != exclude :: CanonicalHash(hash, all[name])
      decreases rest
    {
      var name :| name in rest;
      rest := rest - {name};
      if name != exclude { hashes := hashes[name := CanonicalHash(hash, all[name])]; }
    }
  }

  /** A hash, an absent one read as "". */
  function HashOf(hashes: map<string, string>, name: string): string {
    if name in hashes then hashes[name] else ""
  }

  /** Same hash, absent or not. */
  predicate SameHash(a: map<string, string>, b: map<string, string>, name: string) {
    HashOf(a, name) == HashOf(b, name)
  }

  /** Comparing the hashes is comparing the interfaces: which others there are, and each of
      their fields but the digest. */
  lemma HashesTellOthers(hash: Fields -> string, before: Config, after: Config, exclude: string)
    requires GoodHash(hash)
    ensures SameOthers(before, after, exclude) <==>
      forall name :: SameHash(OtherHashes(hash, before, exclude), OtherHashes(hash, after, exclude), name)
  {
    var hb, ha := OtherHashes(hash, before, exclude), OtherHashes(hash, after, exclude);
    forall name: string | name != exclude
      ensures SameHash(hb, ha, name) <==>
        (name in before <==> name in after)
            && (name in before && name in after ==> SameStanza(before[name], after[name]))
    {
      assert name in hb <==> name in before;
      assert name in ha <==> name in after;
    }
    assert SameHash(hb, ha, exclude);
  }

  /** The interfaces whose hashes differ: all of them, in order, and no other. Empty is what
      lets a commit go ahead. */
  method ChangedOtherInterfaces(before: Config, after: Config, beforeHashes: map<string, string>,
      afterHashes: map<string, string>)
    returns (diffs: seq<InterfaceDiff>)
    ensures diffs == [] <==> forall name :: SameHash(beforeHashes, afterHashes, name)
    ensures Names(diffs) ==
        Keep(SortedStrings(beforeHashes.Keys + afterHashes.Keys), name => !SameHash(beforeHashes, afterHashes, name))
    ensures Detailed(diffs, before, after)
  {
    var names := CollectStrings(beforeHashes.Keys + afterHashes.Keys);
    NoneDiffers(beforeHashes, afterHashes, names);
    diffs := DiffsAmong(names, before, after, beforeHashes, afterHashes);
    assert diffs == [] <==> Names(diffs) == [];
  }

  lemma NoneDiffers(a: map<string, string>, b: map<string, string>, names: seq<string>)
    requires forall x :: x in names <==> x in a.Keys + b.Keys
    ensures Keep(names, name => !SameHash(a, b, name)) == [] <==> forall name :: SameHash(a, b, name)
  {
    var differs := name => !SameHash(a, b, name);
    NoneKept(names, differs);
    forall name | Keep(names, differs) == [] ensures SameHash(a, b, name) {
      if name in names { var j :| 0 <= j < |names| && names[j] == name; assert !differs(names[j]); }
    }
  }

  method DiffsAmong(names: seq<string>, before: Config, after: Config, beforeHashes: map<string, string>,
      afterHashes: map<string, string>)
    returns (diffs: seq<InterfaceDiff>)
    ensures Names(diffs) == Keep(names, name => !SameHash(beforeHashes, afterHashes, name))
    ensures Detailed(diffs, before, after)
  {
    ghost var differs := name => !SameHash(beforeHashes, afterHashes, name);
    diffs := [];
    var i := 0;
    while i < |names|
      invariant 0 <= i <= |names|
      invariant Names(diffs) == Keep(names[..i], differs) && Detailed(diffs, before, after)
    {
      assert names[..i + 1][..i] == names[..i];
      if !SameHash(beforeHashes, afterHashes, names[i]) {
        var fields := DiffOf(before, after, names[i]);
        diffs := diffs + [InterfaceDiff(names[i], fields)];
      }
      i := i + 1;
    }
    assert names[..i] == names;
  }

  function StanzaOf(all: Config, name: string): Fields {
    if name in all then all[name] else map[]
  }

  /** Every interface's differences are those of its stanzas, one that is not there being
      empty. */
  ghost predicate Detailed(diffs: seq<InterfaceDiff>, before: Config, after: Config) {
    forall i, d :: 0 <= i < |diffs| ==>
      var name := diffs[i].name;
      var was, now := (if name in before then before[name] else map[]), (if name in after then after[name] else map[]);
      (d in diffs[i].diffs <==> Differs(was, now, d))
  }

  method DiffOf(before: Config, after: Config, name: string) returns (fields: seq<FieldDiff>)
    ensures forall d :: d in fields <==> Differs(StanzaOf(before, name), StanzaOf(after, name), d)
  {
    fields := DiffFields(StanzaOf(before, name), StanzaOf(after, name));
  }

  function Names(diffs: seq<InterfaceDiff>): seq<string> {
    seq(|diffs|, i requires 0 <= i < |diffs| => diffs[i].name)
  }

  function Keep<T>(all: seq<T>, keep: T -> bool): seq<T> {
    if all == [] then []
    else Keep(all[..|all| - 1], keep) + (if keep(all[|all| - 1]) then [all[|all| - 1]] else [])
  }

  lemma {:induction false} NoneKept<T>(all: seq<T>, keep: T -> bool)
    ensures Keep(all, keep) == [] <==> forall i :: 0 <= i < |all| ==> !keep(all[i])
  {
    if all != [] { NoneKept(all[..|all| - 1], keep); }
  }

  datatype Pair = Pair(field: string, value: string)

  function Params(pairs: seq<Pair>): Fields {
    if pairs == [] then map[] else Params(pairs[..|pairs| - 1])[pairs[|pairs| - 1].field := pairs[|pairs| - 1].value]
  }

  predicate Valid(pairs: seq<Pair>, iface: string) {
    && iface != "" && pairs != []
    && (forall i :: 0 <= i < |pairs| ==> pairs[i].field != "type")
    && (forall i, j :: 0 <= i < j < |pairs| ==> pairs[i].field != pairs[j].field)
  }

  /** What no op may be asked for: no interface, no field, a type, or a field twice. */
  ghost predicate Malformed(pairs: seq<Pair>, iface: string) {
    || iface == "" || |pairs| == 0
    || (exists i :: 0 <= i < |pairs| && pairs[i].field == "type")
    || (exists i, j :: 0 <= i < j < |pairs| && pairs[i].field == pairs[j].field)
  }

  function FieldNames(pairs: seq<Pair>): seq<string> {
    seq(|pairs|, i requires 0 <= i < |pairs| => pairs[i].field)
  }

  /** The requested fields an interface has; one it lacks is not there either. */
  function Current(pairs: seq<Pair>, fields: Fields): Fields {
    map f | f in fields && f in FieldNames(pairs) :: fields[f]
  }

  ghost predicate IsSatisfied(pairs: seq<Pair>, current: Fields) {
    forall i :: 0 <= i < |pairs| ==> pairs[i].field in current && FieldsEqual(current[pairs[i].field], pairs[i].value)
  }

  method Satisfied(pairs: seq<Pair>, current: Fields) returns (ok: bool)
    ensures ok <==> IsSatisfied(pairs, current)
  {
    for k := 0 to |pairs|
      invariant forall i ::
          0 <= i < k ==> pairs[i].field in current && FieldsEqual(current[pairs[i].field], pairs[i].value)
    {
      if pairs[k].field !in current || !FieldsEqual(current[pairs[k].field], pairs[k].value) { return false; }
    }
    return true;
  }

  lemma {:induction false} ParamsHold(pairs: seq<Pair>, iface: string, i: nat)
    requires Valid(pairs, iface) && i < |pairs|
    ensures pairs[i].field in Params(pairs) && Params(pairs)[pairs[i].field] == pairs[i].value
    decreases |pairs|
  {
    if i < |pairs| - 1 {
      assert pairs[i].field != pairs[|pairs| - 1].field;
      ParamsHold(pairs[..|pairs| - 1], iface, i);
    }
  }

  lemma {:induction false} ParamsFrom(pairs: seq<Pair>, f: string)
    requires f in Params(pairs)
    ensures exists i :: 0 <= i < |pairs| && pairs[i].field == f
  {
    if pairs != [] && pairs[|pairs| - 1].field != f { ParamsFrom(pairs[..|pairs| - 1], f); }
  }

  /** The server stores every field it was sent, a boolean in any spelling. */
  ghost predicate KeepsAll(sent: Fields, stored: Fields) {
    forall f :: f in sent ==> f in stored && SameSpelled(sent[f], stored[f])
  }

  /** A set converges: the op is satisfied exactly when the server keeps what it was sent. */
  lemma SetConverges(pairs: seq<Pair>, iface: string, stored: Fields)
    requires Valid(pairs, iface)
    ensures IsSatisfied(pairs, Current(pairs, stored)) <==> KeepsAll(Params(pairs), stored)
  {
    forall i | 0 <= i < |pairs|
      ensures pairs[i].field in Params(pairs) && Params(pairs)[pairs[i].field] == pairs[i].value
      ensures pairs[i].field in Current(pairs, stored) <==> pairs[i].field in stored
    {
      ParamsHold(pairs, iface, i);
      assert FieldNames(pairs)[i] == pairs[i].field;
    }
    forall f | f in Params(pairs) ensures exists i :: 0 <= i < |pairs| && pairs[i].field == f { ParamsFrom(pairs, f); }
  }

  class NetworkFieldsEnsure {
    const node: Node
    const iface: string
    const pairs: seq<Pair>
    const hash: Fields -> string
    var applied: seq<string>

    constructor (node: Node, iface: string, pairs: seq<Pair>, hash: Fields -> string)
      ensures this.node == node && this.iface == iface && this.pairs == pairs && this.hash == hash && applied == []
    {
      this.node, this.iface, this.pairs, this.hash, applied := node, iface, pairs, hash, [];
    }

    // The calls of one Apply, counted from n: the first snapshot, the stage, the second
    // snapshot, the commit, its task, the kernel check.

    function FirstAt(n: nat): nat { n }

    function SecondAt(n: nat): nat { n + 2 }

    function CommitAt(n: nat): nat { n + 3 }

    /** What the stage sends: the pairs, each as asked, and the type the interface has in the
        given view; nothing else. */
    ghost predicate Asks(r: Request, view: Config) {
      && Typed(view) && r.Put? && r.iface == iface
      && "type" in r.fields && r.fields["type"] == view[iface]["type"]
      && (forall i :: 0 <= i < |pairs| ==> pairs[i].field in r.fields && r.fields[pairs[i].field] == pairs[i].value)
      && (forall f :: f in r.fields ==> f == "type" || exists i :: 0 <= i < |pairs| && pairs[i].field == f)
    }

    lemma ParamsAsk(view: Config)
      requires Valid(pairs, iface) && Typed(view)
      ensures Asks(Put(iface, Params(pairs)["type" := view[iface]["type"]]), view)
    {
      forall i | 0 <= i < |pairs|
        ensures pairs[i].field in Params(pairs) && Params(pairs)[pairs[i].field] == pairs[i].value
      {
        ParamsHold(pairs, iface, i);
      }
      forall f | f in Params(pairs) ensures exists i :: 0 <= i < |pairs| && pairs[i].field == f {
        ParamsFrom(pairs, f);
      }
    }

    /** The stage, if there is one, asked for what the first snapshot called for. */
    ghost predicate StagesAsked(before: seq<Write>, after: seq<Write>, trace: seq<NodeState>, n: nat)
      requires before <= after
    {
      before != after ==>
        && |trace| > FirstAt(n) && after[|before|].Stage?
        && Asks(after[|before|].request, View(trace[FirstAt(n)]))
    }

    /** The interface is there and has a type. */
    predicate Typed(view: Config) {
      iface in view && "type" in view[iface] && view[iface]["type"] != ""
    }

    /** The pre-stage snapshot, and the interface's current type from it. */
    method Prepare() returns (before: Option<Config>, ifaceType: string)
      modifies node`st, node`trace, node`faults
      ensures Ticks(old(node.st), node.st) && node.trace == old(node.trace) + [node.st]
      ensures before.Some? ==>
        && before.value == View(node.st) && Typed(before.value) && ifaceType == before.value[iface]["type"]
      ensures old(node.faults) <= node.faults
      ensures before.None? ==> old(node.faults) < node.faults || !Typed(View(node.st))
    {
      before := node.FetchAll();
      ifaceType := "";
      if before.None? || iface !in before.value || "type" !in before.value[iface] || before.value[iface]["type"] == "" {
        return None, "";
      }
      ifaceType := before.value[iface]["type"];
    }

    /** The guard: a fresh snapshot agrees with the one before the stage on every other
        interface. */
    method OthersUnchanged(before: Config, beforeHashes: map<string, string>) returns (same: bool)
      requires GoodHash(hash) && beforeHashes == OtherHashes(hash, before, iface)
      modifies node`st, node`trace, node`faults
      ensures Ticks(old(node.st), node.st) && node.trace == old(node.trace) + [node.st]
      ensures same ==> SameOthers(before, View(node.st), iface)
      ensures old(node.faults) <= node.faults
      ensures !same ==>
        old(node.faults) < node.faults || View(node.st) == map[] || !SameOthers(before, View(node.st), iface)
    {
      var after := node.FetchAll();
      if after.None? { return false; }
      var afterHashes := OtherInterfaceHashes(hash, after.value, iface);
      var diffs := ChangedOtherInterfaces(before, after.value, beforeHashes, afterHashes);
      HashesTellOthers(hash, before, after.value, iface);
      same := diffs == [];
    }

    /** The second snapshot agrees with the first one on every other interface. */
    ghost predicate GuardHeld(trace: seq<NodeState>, n: nat)
      requires |trace| > SecondAt(n)
    {
      SameOthers(View(trace[FirstAt(n)]), View(trace[SecondAt(n)]), iface)
    }

    /** Why a run whose every call was answered may stop before its commit: no type to send,
        an empty list, or another interface that differs. */
    ghost predicate StopJustified(trace: seq<NodeState>, n: nat) {
      && |trace| > FirstAt(n)
      && (|| !Typed(View(trace[FirstAt(n)]))
          || (|trace| > SecondAt(n) && (View(trace[SecondAt(n)]) == map[] || !GuardHeld(trace, n))))
    }

    method Stage(ghost view: Config, ifaceType: string) returns (ok: bool)
      requires Valid(pairs, iface) && Typed(view) && ifaceType == view[iface]["type"]
      modifies node
      ensures node.trace == old(node.trace) + [node.st] && node.faults == old(node.faults) + (if ok then 0 else 1)
      ensures |node.writes| == |old(node.writes)| + 1 && old(node.writes) <= node.writes
      ensures var w := node.writes[|old(node.writes)|]; w.Stage? && w.ok == ok && Asks(w.request, view)
      ensures KeepsRunning(old(node.st), node.st)
    {
      ParamsAsk(view);
      ok := node.StageRequest(Put(iface, Params(pairs)["type" := ifaceType]));
    }

    /** Steps 1 to 4: snapshot, stage, and the guard. go says that the stage stands and
        no other interface changed. */
    method StageGuarded() returns (go: bool)
      requires GoodHash(hash) && Valid(pairs, iface)
      modifies node
      ensures old(node.writes) <= node.writes && old(node.trace) <= node.trace
      ensures go ==> |node.writes| == |old(node.writes)| + 1 && node.writes[|old(node.writes)|].ok
      ensures !go ==> Disciplined(old(node.writes), node.writes, false) && !Committed(old(node.writes), node.writes)
      ensures Cleared(old(node.writes), node.writes, node.st) && KeepsRunning(old(node.st), node.st)
      ensures go ==>
        && |node.trace| == SecondAt(|old(node.trace)|) + 1 && node.trace[SecondAt(|old(node.trace)|)] == node.st
        && GuardHeld(node.trace, |old(node.trace)|)
      ensures old(node.faults) <= node.faults
      ensures !go && old(node.faults) == node.faults ==> StopJustified(node.trace, |old(node.trace)|)
      ensures StagesAsked(old(node.writes), node.writes, node.trace, |old(node.trace)|)
    {
      var before, ifaceType := Prepare();
      if before.None? { return false; }
      go := StageThenGuard(before.value, ifaceType);
    }

    /** Steps 2 to 4, the stage being the next call. */
    method StageThenGuard(before: Config, ifaceType: string) returns (go: bool)
      requires GoodHash(hash) && Valid(pairs, iface) && Typed(before) && ifaceType == before[iface]["type"]
      modifies node
      ensures old(node.writes) < node.writes && old(node.trace) <= node.trace && old(node.faults) <= node.faults
      ensures node.writes[|old(node.writes)|].Stage? && Asks(node.writes[|old(node.writes)|].request, before)
      ensures go ==> |node.writes| == |old(node.writes)| + 1 && node.writes[|old(node.writes)|].ok
      ensures !go ==> Disciplined(old(node.writes), node.writes, false) && !Committed(old(node.writes), node.writes)
      ensures Cleared(old(node.writes), node.writes, node.st) && KeepsRunning(old(node.st), node.st)
      ensures go ==>
        && |node.trace| == |old(node.trace)| + 2 && node.trace[|old(node.trace)| + 1] == node.st
        && SameOthers(before, View(node.st), iface)
      ensures !go && old(node.faults) == node.faults ==>
        && |node.trace| > |old(node.trace)| + 1
        && var now := View(node.trace[|old(node.trace)| + 1]); now == map[] || !SameOthers(before, now, iface)
    {
      var beforeHashes := OtherInterfaceHashes(hash, before, iface);
      var ok := Stage(before, ifaceType);
      if !ok { return false; } // never reverted: what is pending is most likely someone else's
      go := OthersUnchanged(before, beforeHashes);
      if go { return; }
      var reverted := node.RevertStage();
    }

    /** Whatever the node, PVE and everyone else do: the writes are a stage that failed, or
        one stage followed by one discard or one commit, and a discard never follows a
        commit that was accepted. While the others only stage and discard, what runs is the
        old file or the whole of the file staged when the worker took it; and if they do
        nothing from the second snapshot on, a success leaves every other interface as the
        first snapshot had it pending. */
    method Apply() returns (ok: bool)
      requires GoodHash(hash)
      modifies this, node
      ensures old(node.writes) <= node.writes && old(node.trace) <= node.trace
      ensures Disciplined(old(node.writes), node.writes, ok) && Cleared(old(node.writes), node.writes, node.st)
      ensures !Committed(old(node.writes), node.writes) ==> KeepsRunning(old(node.st), node.st)
      ensures Committed(old(node.writes), node.writes) ==>
        && |node.trace| > CommitAt(|old(node.trace)|) && GuardHeld(node.trace, |old(node.trace)|)
        && KeepsRunning(old(node.st), node.trace[SecondAt(|old(node.trace)|)])
        && NeverMixed(node.trace[SecondAt(|old(node.trace)|)], node.st)
      ensures ok ==> Verified(node.trace, |old(node.trace)|, node.st)
      ensures StagesAsked(old(node.writes), node.writes, node.trace, |old(node.trace)|)
      ensures !ok && old(node.faults) == node.faults ==>
        Malformed(pairs, iface) || StopJustified(node.trace, |old(node.trace)|) || !LinkOf(node.st, iface).present
      ensures ok ==> |applied| == |pairs| && forall i :: 0 <= i < |pairs| ==> applied[i] == pairs[i].field
      ensures !ok ==> applied == if Malformed(pairs, iface) then old(applied) else []
      ensures Malformed(pairs, iface) ==> !ok && node.writes == old(node.writes)
    {
      if !Valid(pairs, iface) { return false; }
      applied := [];
      var go := StageGuarded();
      if !go { return false; }
      ok := CommitVerified();
      if ok { applied := FieldNames(pairs); }
    }

    /** A success: a whole file runs, it has every other interface as it was pending before
        the stage unless somebody acted since the second snapshot, and the link is there. */
    ghost predicate Verified(trace: seq<NodeState>, n: nat, st: NodeState) {
      && |trace| > SecondAt(n)
      && RunsWhole(trace[SecondAt(n)], st)
      && (Undisturbed(trace[SecondAt(n)], st) ==> SameOthers(View(trace[FirstAt(n)]), st.running, iface))
      && LinkOf(st, iface).present
    }

    /** Steps 5 and 6: commit, wait for the task, and check the kernel. A commit whose
        outcome is unknown is reverted; one that was accepted never is. */
    method CommitVerified() returns (ok: bool)
      modifies node
      ensures old(node.writes) <= node.writes && old(node.trace) < node.trace
      ensures CommitWrites(node.writes[|old(node.writes)|..], ok) && Cleared(old(node.writes), node.writes, node.st)
      ensures NeverMixed(old(node.st), node.st)
      ensures ok ==> RunsWhole(old(node.st), node.st) && LinkOf(node.st, iface).present
      ensures old(node.faults) <= node.faults
      ensures !ok && old(node.faults) == node.faults ==> !LinkOf(node.st, iface).present
    {
      var accepted := node.CommitStage();
      if !accepted {
        var reverted := node.RevertStage();
        return false;
      }
      var done := node.WaitForTask();
      if !done { return false; }
      var link := node.LinkState(iface);
      return link.Some? && link.value.present;
    }
  }
}
