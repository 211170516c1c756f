/** Bridge isolation (internal/idempotent/bridgeisolation.go): the hookscript's name, and
    the op's account of what it wrote over all the attempts of one run. */
module BridgeIsolation {
  import opened Common
  import opened Text
  import opened Order
  import opened AppliedList
  import Engine

  /** The op as configured. */
  datatype Isolation = Isolation(vmid: int, netIndices: seq<int>, storageID: string)

  predicate SafeStorageID(s: string) {
    s != "" && forall i :: 0 <= i < |s| ==>
      'a' <= s[i] <= 'z' || 'A' <= s[i] <= 'Z' || '0' <= s[i] <= '9' || s[i] == '-' || s[i] == '_' || s[i] == '.'
  }

  predicate Valid(op: Isolation) {
    && op.vmid > 0 && op.netIndices != []
    && (forall i :: 0 <= i < |op.netIndices| ==> op.netIndices[i] >= 0)
    && (forall i, j :: 0 <= i < j < |op.netIndices| ==> op.netIndices[i] != op.netIndices[j])
    && SafeStorageID(op.storageID)
  }

  // ---- the name ----

  const DIGITS := "0123456789"

  function Itoa(n: int): string
    decreases n < 0, if n < 0 then -n else n
  {
    if n < 0 then "-" + Itoa(-n)
    else if n < 10 then [DIGITS[n]]
    else Itoa(n / 10) + [DIGITS[n % 10]]
  }

  function ItoaAll(ns: seq<int>): seq<string> {
    if ns == [] then [] else [Itoa(ns[0])] + ItoaAll(ns[1..])
  }

  function NetIndicesSuffix(op: Isolation): string {
    "net" + Join(ItoaAll(Sort(op.netIndices, IntLe)), '-')
  }

  function SnippetFilename(op: Isolation): string {
    "pveforge-bridge-isolate-vm" + Itoa(op.vmid) + "-" + NetIndicesSuffix(op) + ".sh"
  }

  function WantedHookscript(op: Isolation): string {
    op.storageID + ":snippets/" + SnippetFilename(op)
  }

  function TapName(op: Isolation, index: int): string {
    "tap" + Itoa(op.vmid) + "i" + Itoa(index)
  }

  function TapNaming(op: Isolation): int -> string {
    index => TapName(op, index)
  }

  lemma {:induction false} ItoaDigits(n: nat)
    ensures Itoa(n) != "" && forall i :: 0 <= i < |Itoa(n)| ==> Itoa(n)[i] in DIGITS
  {
    if n >= 10 { ItoaDigits(n / 10); }
  }

  /** The number that a decimal numeral stands for. */
  function Value(s: string): int {
    if s == "" then 0 else 10 * Value(s[..|s| - 1]) + (s[|s| - 1] as int - '0' as int)
  }

  /** Itoa writes the decimal numeral: no leading zero, and its value is the number. */
  lemma {:induction false} ItoaValue(n: nat)
    ensures Value(Itoa(n)) == n && (n > 0 ==> Itoa(n)[0] != '0')
    decreases n
  {
    ItoaDigits(n);
    var s := Itoa(n);
    assert s[..|s| - 1] == if n < 10 then "" else Itoa(n / 10);
    assert s[|s| - 1] == DIGITS[n % 10] && DIGITS[n % 10] as int == n % 10 + '0' as int;
    if n >= 10 {
      ItoaValue(n / 10);
      ItoaDigits(n / 10);
      assert s[0] == Itoa(n / 10)[0];
    }
  }

  lemma ItoaInjective(m: nat, n: nat)
    requires Itoa(m) == Itoa(n)
    ensures m == n
  {
    ItoaValue(m);
    ItoaValue(n);
  }

  lemma {:induction false} ItoaAllInjective(a: seq<int>, b: seq<int>)
    requires (forall i :: 0 <= i < |a| ==> a[i] >= 0) && (forall i :: 0 <= i < |b| ==> b[i] >= 0)
    requires ItoaAll(a) == ItoaAll(b)
    ensures a == b
  {
    if a != [] && b != [] {
      assert ItoaAll(a)[0] == Itoa(a[0]) && ItoaAll(b)[0] == Itoa(b[0]);
      assert ItoaAll(a)[1..] == ItoaAll(a[1..]) && ItoaAll(b)[1..] == ItoaAll(b[1..]);
      ItoaInjective(a[0], b[0]);
      ItoaAllInjective(a[1..], b[1..]);
      assert a == [a[0]] + a[1..] && b == [b[0]] + b[1..];
    }
  }

  lemma {:induction false} ItoaAllDigits(ns: seq<int>)
    requires forall i :: 0 <= i < |ns| ==> ns[i] >= 0
    ensures |ItoaAll(ns)| == |ns| && forall p :: p in ItoaAll(ns) ==> '-' !in p
  {
    if ns != [] {
      ItoaDigits(ns[0]);
      ItoaAllDigits(ns[1..]);
    }
  }

  /** Text up to the first separator, and after it, is determined. */
  lemma {:induction false} CutUnique(a: string, x: string, b: string, y: string, sep: char)
    requires sep !in a && sep !in b
    requires a + [sep] + x == b + [sep] + y
    ensures a == b && x == y
  {
    SplitCons(a, sep, x);
    SplitCons(b, sep, y);
    var s := a + [sep] + x;
    assert Split(s, sep)[0] == a && Split(s, sep)[0] == b;
    assert x == s[|a| + 1..];
  }

  lemma SortedIndices(op: Isolation)
    requires Valid(op)
    ensures var s := Sort(op.netIndices, IntLe);
      && Sorted(s, IntLe) && multiset(s) == multiset(op.netIndices)
      && s != [] && (forall i :: 0 <= i < |s| ==> s[i] >= 0)
  {
    SortSorts(op.netIndices, IntLe);
    var s := Sort(op.netIndices, IntLe);
    assert |multiset(s)| == |multiset(op.netIndices)|;
    forall i | 0 <= i < |s| ensures s[i] >= 0 {
      assert s[i] in multiset(op.netIndices);
    }
  }

  /** The suffix names the set of indices, in whatever order they were given. */
  lemma SuffixNamesTheSet(a: Isolation, b: Isolation)
    requires Valid(a) && Valid(b)
    ensures NetIndicesSuffix(a) == NetIndicesSuffix(b) <==> (set i | i in a.netIndices) == (set i | i in b.netIndices)
  {
    var sa, sb := Sort(a.netIndices, IntLe), Sort(b.netIndices, IntLe);
    SortedIndices(a);
    SortedIndices(b);
    if NetIndicesSuffix(a) == NetIndicesSuffix(b) {
      var ja, jb := Join(ItoaAll(sa), '-'), Join(ItoaAll(sb), '-');
      assert NetIndicesSuffix(a)[3..] == ja && NetIndicesSuffix(b)[3..] == jb;
      ItoaAllDigits(sa);
      ItoaAllDigits(sb);
      SplitJoin(ItoaAll(sa), '-');
      SplitJoin(ItoaAll(sb), '-');
      ItoaAllInjective(sa, sb);
      SameElements(a.netIndices, b.netIndices);
    } else if (set i | i in a.netIndices) == (set i | i in b.netIndices) {
      SameBag(a.netIndices, b.netIndices);
      SortedUnique(sa, sb, IntLe);
    }
  }

  lemma SameElements(a: seq<int>, b: seq<int>)
    requires multiset(a) == multiset(b)
    ensures (set i | i in a) == (set i | i in b)
  {
    forall i ensures i in a <==> i in b {
      assert i in a <==> i in multiset(a);
      assert i in b <==> i in multiset(b);
    }
  }

  ghost predicate Distinct<T>(s: seq<T>) {
    forall i, j :: 0 <= i < j < |s| ==> s[i] != s[j]
  }

  lemma {:induction false} CountOnce(s: seq<int>, x: int)
    requires Distinct(s)
    ensures multiset(s)[x] == if x in s then 1 else 0
  {
    if s != [] {
      CountOnce(s[1..], x);
      assert s == [s[0]] + s[1..];
    }
  }

  lemma SameBag(a: seq<int>, b: seq<int>)
    requires Distinct(a) && Distinct(b) && (set i | i in a) == (set i | i in b)
    ensures multiset(a) == multiset(b)
  {
    var all := set i | i in a;
    forall x: int ensures multiset(a)[x] == multiset(b)[x] {
      CountOnce(a, x);
      CountOnce(b, x);
      assert x in all <==> x in a;
      assert x in all <==> x in b;
    }
  }

  lemma SameTail(p: string, x: string, y: string)
    requires p + x == p + y
    ensures x == y
  {
    assert x == (p + x)[|p|..] && y == (p + y)[|p|..];
  }

  lemma SameHead(x: string, y: string, p: string)
    requires x + p == y + p
    ensures x == y
  {
    assert |x| == |y|;
    assert x == (x + p)[..|x|] && y == (y + p)[..|y|];
  }

  /** Two names of one shape agree in each of their parts. */
  lemma SameParts(start: string, a: string, x: string, b: string, y: string, sep: char, end: string)
    requires sep !in a && sep !in b
    requires start + a + [sep] + x + end == start + b + [sep] + y + end
    ensures a == b && x == y
  {
    assert start + a + [sep] + x + end == start + (a + [sep] + (x + end));
    assert start + b + [sep] + y + end == start + (b + [sep] + (y + end));
    SameTail(start, a + [sep] + (x + end), b + [sep] + (y + end));
    CutUnique(a, x + end, b, y + end, sep);
    SameHead(x, y, end);
  }

  lemma SameWanted(a: string, x: string, b: string, y: string)
    requires ':' !in a && ':' !in b
    requires a + ":snippets/" + x == b + ":snippets/" + y
    ensures a == b && x == y
  {
    assert a + ":snippets/" + x == a + [':'] + ("snippets/" + x);
    assert b + ":snippets/" + y == b + [':'] + ("snippets/" + y);
    CutUnique(a, "snippets/" + x, b, "snippets/" + y, ':');
    SameTail("snippets/", x, y);
  }

  /** The hookscript value is a faithful name: it tells storage, VM and the set of net
      indices apart, and nothing else. */
  lemma FaithfulName(a: Isolation, b: Isolation)
    requires Valid(a) && Valid(b)
    ensures WantedHookscript(a) == WantedHookscript(b) <==>
      a.storageID == b.storageID && a.vmid == b.vmid && (set i | i in a.netIndices) == (set i | i in b.netIndices)
  {
    SuffixNamesTheSet(a, b);
    if WantedHookscript(a) == WantedHookscript(b) {
      SameWanted(a.storageID, SnippetFilename(a), b.storageID, SnippetFilename(b));
      ItoaDigits(a.vmid);
      ItoaDigits(b.vmid);
      SameParts("pveforge-bridge-isolate-vm", Itoa(a.vmid), NetIndicesSuffix(a),
                Itoa(b.vmid), NetIndicesSuffix(b), '-', ".sh");
      ItoaInjective(a.vmid, b.vmid);
    }
  }

  lemma SortIs(s: seq<int>, t: seq<int>)
    requires multiset(s) == multiset(t) && Sorted(t, IntLe)
    ensures Sort(s, IntLe) == t
  {
    SortSorts(s, IntLe);
    SortedUnique(Sort(s, IntLe), t, IntLe);
  }

  lemma ItoaTwo(i: int, j: int)
    ensures ItoaAll([i, j]) == [Itoa(i), Itoa(j)]
  {
    assert [i, j][1..] == [j] && [j][1..] == [];
    assert ItoaAll([j]) == [Itoa(j)];
  }

  lemma NameText(storage: string, vm: string, suffix: string)
    ensures storage + ":snippets/" + ("pveforge-bridge-isolate-vm" + vm + "-" + ("net" + suffix) + ".sh")
         == storage + ":snippets/pveforge-bridge-isolate-vm" + vm + "-net" + suffix + ".sh"
  {
    var start := storage + ":snippets/";
    assert start + "pveforge-bridge-isolate-vm" == storage + ":snippets/pveforge-bridge-isolate-vm";
    assert "-" + ("net" + suffix) == "-net" + suffix;
  }

  /** The name written out, for two indices given in either order. */
  lemma NameOfTwo(op: Isolation, i: nat, j: nat)
    requires i < j && (op.netIndices == [i, j] || op.netIndices == [j, i])
    ensures var suffix := Itoa(i) + "-" + Itoa(j);
      WantedHookscript(op)
      == op.storageID + ":snippets/pveforge-bridge-isolate-vm" + Itoa(op.vmid) + "-net" + suffix + ".sh"
  {
    SortIs(op.netIndices, [i, j]);
    ItoaTwo(i, j);
    var parts := [Itoa(i), Itoa(j)];
    assert parts[1..] == [Itoa(j)];
    assert Join(parts, '-') == Itoa(i) + "-" + Itoa(j);
    NameText(op.storageID, Itoa(op.vmid), Join(parts, '-'));
  }

  // ---- the remote ----

  datatype Tap = Tap(present: bool, isolated: bool)

  /** taps holds the kernel's tap devices, by name. */
  datatype Vm = Vm(hookscript: string, digest: string, running: bool, taps: map<string, Tap>)

  /** Around one call: someone else changes the VM just before it; it succeeds or not; one
      that does not may have been refused as root-only, or have lost its reply after it
      took effect. */
  datatype Weather = Weather(outside: Option<Vm>, ok: bool, rootOnly: bool, applied: bool)

  const CALM := Weather(None, true, false, false)

  type World = nat -> Weather

  /** What a call changed. */
  datatype Effect = Uploaded(storage: string, file: string) | Wired(hookscript: string) | Isolated(tap: string)

  /** An effect, and whether its caller was told. */
  datatype Entry = Entry(effect: Effect, answered: bool)

  /** The VM, the calls made so far, and the remote's own record of what they changed. */
  datatype Remote = Remote(vm: Vm, clock: nat, log: seq<Entry>)

  datatype Reply = Done | DigestConflict | RootOnly | NoReply

  function Blow(w: World, r: Remote): Remote {
    var outside := w(r.clock).outside;
    r.(vm := if outside.Some? then outside.value else r.vm, clock := r.clock + 1)
  }

  function NoTap(): Tap { Tap(false, false) }

  function TapOf(vm: Vm, name: string): Tap {
    if name in vm.taps then vm.taps[name] else NoTap()
  }

  /** The VM after an effect; an upload is beside it. */
  function After(vm: Vm, e: Effect): Vm {
    match e
    case Uploaded(_, _) => vm
    case Wired(value) => vm.(hookscript := value)
    case Isolated(tap) => vm.(taps := vm.taps[tap := Tap(true, true)])
  }

  /** A call that writes; under a digest it writes only to the VM that has it. */
  function Call(w: World, r: Remote, e: Effect, digest: Option<string>): (Reply, Remote) {
    var now := w(r.clock);
    var r1 := Blow(w, r);
    var matches := digest.None? || digest.value == r1.vm.digest;
    if now.ok && !matches then (DigestConflict, r1)
    else if !now.ok && now.rootOnly then (RootOnly, r1)
    else if matches && (now.ok || now.applied) then
      (if now.ok then Done else NoReply, r1.(vm := After(r1.vm, e), log := r1.log + [Entry(e, now.ok)]))
    else (NoReply, r1)
  }

  // ---- the op ----

  /** The remote, and the op's own fields. */
  datatype State = State(remote: Remote, digest: string, hookscript: string, running: bool, applied: seq<string>)

  /** What a read shows. */
  datatype View = View(hookscript: string, running: bool, taps: map<int, Tap>)

  /** The word the op records for an effect. */
  function Word(e: Effect): string {
    match e
    case Uploaded(_, _) => "snippet"
    case Wired(_) => "hookscript"
    case Isolated(tap) => tap
  }

  function Record(s: State, what: string): State {
    s.(applied := AppendOnce(s.applied, what))
  }

  function ReadTaps(w: World, name: int -> string, r: Remote, indices: seq<int>, seen: map<int, Tap>)
    : (Option<map<int, Tap>>, Remote)
    decreases |indices|
  {
    if indices == [] then (Some(seen), r)
    else
      var r1 := Blow(w, r);
      var tap := TapOf(r1.vm, name(indices[0]));
      if !w(r.clock).ok then (None, r1) else ReadTaps(w, name, r1, indices[1..], seen[indices[0] := tap])
  }

  function ReadOp(w: World, op: Isolation, s: State): (Option<View>, State) {
    var r1 := Blow(w, s.remote);
    if !w(s.remote.clock).ok then (None, s.(remote := r1))
    else
      var s1 := State(r1, r1.vm.digest, r1.vm.hookscript, r1.vm.running, s.applied);
      if !s1.running then (Some(View(s1.hookscript, false, map[])), s1)
      else
        var (taps, r2) := ReadTaps(w, TapNaming(op), r1, op.netIndices, map[]);
        (if taps.None? then None else Some(View(s1.hookscript, true, taps.value)), s1.(remote := r2))
  }

  predicate Satisfied(op: Isolation, v: View) {
    && v.hookscript == WantedHookscript(op)
    && (v.running ==> forall i :: i in op.netIndices ==> i in v.taps && v.taps[i].present && v.taps[i].isolated)
  }

  /** All that an op is to do to a VM. */
  datatype Plan = Plan(upload: Effect, wanted: string, taps: seq<Effect>)

  function PlanOf(op: Isolation): Plan {
    Plan(Uploaded(op.storageID, SnippetFilename(op)), WantedHookscript(op), TapEffects(TapNaming(op), op.netIndices))
  }

  function TapEffects(name: int -> string, indices: seq<int>): seq<Effect> {
    if indices == [] then [] else [Isolated(name(indices[0]))] + TapEffects(name, indices[1..])
  }

  function ApplyTaps(w: World, s: State, taps: seq<Effect>): (Engine.ApplyOutcome, State)
    decreases |taps|
  {
    if taps == [] then (Engine.Applied, s)
    else
      var (reply, r1) := Call(w, s.remote, taps[0], None);
      if !reply.Done? then (Engine.Refused, s.(remote := r1))
      else ApplyTaps(w, Record(s.(remote := r1), Word(taps[0])), taps[1..])
  }

  function Live(w: World, s: State, plan: Plan): (Engine.ApplyOutcome, State) {
    if s.running then ApplyTaps(w, s, plan.taps) else (Engine.Applied, s)
  }

  /** The config write: under the digest the read saw, or over SSH when PVE refuses it
      as root-only. */
  function SetHookscript(w: World, s: State, plan: Plan): (Engine.ApplyOutcome, State) {
    var (reply, r1) := Call(w, s.remote, Wired(plan.wanted), Some(s.digest));
    match reply
    case Done => Live(w, Record(s.(remote := r1), "hookscript"), plan)
    case DigestConflict => (Engine.Conflict, s.(remote := r1))
    case NoReply => (Engine.Refused, s.(remote := r1))
    case RootOnly =>
      var (overSsh, r2) := Call(w, r1, Wired(plan.wanted), None);
      if !overSsh.Done? then (Engine.Refused, s.(remote := r2))
      else Live(w, Record(s.(remote := r2), "hookscript"), plan)
  }

  function ApplyPlan(w: World, s: State, plan: Plan): (Engine.ApplyOutcome, State) {
    var (reply, r1) := Call(w, s.remote, plan.upload, None);
    if !reply.Done? then (Engine.Refused, s.(remote := r1))
    else AfterUpload(w, Record(s.(remote := r1), "snippet"), plan)
  }

  function AfterUpload(w: World, s: State, plan: Plan): (Engine.ApplyOutcome, State) {
    if s.hookscript != plan.wanted then SetHookscript(w, s, plan) else Live(w, s, plan)
  }

  function ApplyOp(w: World, op: Isolation, s: State): (Engine.ApplyOutcome, State) {
    if !Valid(op) then (Engine.Refused, s) else ApplyPlan(w, s, PlanOf(op))
  }

  function IsolationOp(w: World, op: Isolation): Engine.Op<State, View> {
    Engine.Op(
      (s: State) => ReadOp(w, op, s),
      (s: State, v: View) => Satisfied(op, v),
      (s: State) => ApplyOp(w, op, s),
      None, None, None)
  }

  /** A stopped VM that is reported satisfied is wired to a name generated for exactly this
      VM, storage and set of indices, and for no other. */
  lemma SatisfiedNamesThisSet(op: Isolation, other: Isolation, v: View)
    requires Valid(op) && Valid(other) && !v.running && v.hookscript == WantedHookscript(other)
    ensures Satisfied(op, v) <==>
      && op.storageID == other.storageID && op.vmid == other.vmid
      && (set i | i in op.netIndices) == (set i | i in other.netIndices)
  {
    FaithfulName(op, other);
  }

  // ---- the op's account of what it changed ----

  /** The words of the effects whose callers were told. */
  function Told(log: seq<Entry>): seq<string> {
    if log == [] then []
    else Told(log[..|log| - 1]) + (if log[|log| - 1].answered then [Word(log[|log| - 1].effect)] else [])
  }

  predicate AllTold(log: seq<Entry>) {
    forall i :: 0 <= i < |log| ==> log[i].answered
  }

  /** The op recorded every effect the remote has on record and answered for, each once, in
      first-write order, and nothing else. */
  ghost predicate Accounted(s: State) {
    s.applied == Once(Told(s.remote.log))
  }

  lemma ToldStep(log: seq<Entry>, e: Entry)
    ensures Told(log + [e]) == Told(log) + (if e.answered then [Word(e.effect)] else [])
  {
    assert (log + [e])[..|log|] == log;
  }

  /** One call: an answered one leaves one effect on the record, and if the op records its
      word it stays accounted; one without an answer leaves at most one, unanswered. */
  lemma CallAccounts(w: World, s: State, e: Effect, digest: Option<string>)
    requires Accounted(s)
    ensures var (reply, r1) := Call(w, s.remote, e, digest);
      && (reply.Done? ==> r1.log == s.remote.log + [Entry(e, true)] && Accounted(Record(s.(remote := r1), Word(e))))
      && (reply.NoReply? ==> r1.log == s.remote.log || r1.log == s.remote.log + [Entry(e, false)])
      && (!reply.Done? ==> Accounted(s.(remote := r1)))
      && (reply.DigestConflict? || reply.RootOnly? ==> r1.log == s.remote.log)
  {
    var (reply, r1) := Call(w, s.remote, e, digest);
    if r1.log == s.remote.log + [Entry(e, true)] { AnsweredAccounts(s, r1, e); }
    if r1.log == s.remote.log + [Entry(e, false)] { UnansweredAccounts(s, r1, e); }
  }

  lemma AnsweredAccounts(s: State, r1: Remote, e: Effect)
    requires Accounted(s) && r1.log == s.remote.log + [Entry(e, true)]
    ensures Accounted(Record(s.(remote := r1), Word(e)))
  {
    ToldStep(s.remote.log, Entry(e, true));
    OnceStep(Told(s.remote.log), Word(e));
  }

  lemma UnansweredAccounts(s: State, r1: Remote, e: Effect)
    requires Accounted(s) && r1.log == s.remote.log + [Entry(e, false)]
    ensures Accounted(s.(remote := r1))
  {
    ToldStep(s.remote.log, Entry(e, false));
    assert Told(s.remote.log) + [] == Told(s.remote.log);
  }

  lemma {:induction false} ReadTapsKeeps(w: World, name: int -> string, r: Remote, indices: seq<int>,
                                         seen: map<int, Tap>)
    ensures ReadTaps(w, name, r, indices, seen).1.log == r.log
    decreases |indices|
  {
    if indices != [] && w(r.clock).ok {
      var r1 := Blow(w, r);
      var tap := TapOf(r1.vm, name(indices[0]));
      ReadTapsKeeps(w, name, r1, indices[1..], seen[indices[0] := tap]);
    }
  }

  /** What one attempt added to the remote's record. */
  ghost predicate Adds(before: seq<Entry>, outcome: Engine.ApplyOutcome, after: seq<Entry>, whole: seq<Effect>) {
    && before <= after
    && var more := after[|before|..];
       match outcome
       case Applied => more == Entries(whole)
       case Conflict => AllTold(more)
       case Refused => more == [] || AllTold(more[..|more| - 1])
  }

  function Entries(effects: seq<Effect>): seq<Entry> {
    seq(|effects|, i requires 0 <= i < |effects| => Entry(effects[i], true))
  }

  /** One more answered effect before what is added. */
  lemma AddsOneMore(before: seq<Entry>, e: Effect, outcome: Engine.ApplyOutcome, after: seq<Entry>, whole: seq<Effect>)
    requires Adds(before + [Entry(e, true)], outcome, after, whole)
    ensures Adds(before, outcome, after, [e] + whole)
  {
    var mid := before + [Entry(e, true)];
    assert after[|before|..] == [Entry(e, true)] + after[|mid|..];
    assert outcome.Applied? ==> Entries([e] + whole) == [Entry(e, true)] + Entries(whole);
    if outcome.Refused? && after[|mid|..] != [] {
      var more := after[|mid|..];
      assert ([Entry(e, true)] + more)[..|more|] == [Entry(e, true)] + more[..|more| - 1];
    }
  }

  lemma {:induction false} ApplyTapsAccounts(w: World, s: State, taps: seq<Effect>)
    requires Accounted(s)
    ensures var (outcome, s1) := ApplyTaps(w, s, taps);
      Accounted(s1) && !outcome.Conflict? && Adds(s.remote.log, outcome, s1.remote.log, taps)
    decreases |taps|
  {
    if taps != [] {
      CallAccounts(w, s, taps[0], None);
      var (reply, r1) := Call(w, s.remote, taps[0], None);
      if reply.Done? {
        var s1 := Record(s.(remote := r1), Word(taps[0]));
        ApplyTapsAccounts(w, s1, taps[1..]);
        var (outcome, s2) := ApplyTaps(w, s1, taps[1..]);
        AddsOneMore(s.remote.log, taps[0], outcome, s2.remote.log, taps[1..]);
        assert [taps[0]] + taps[1..] == taps;
      } else {
        NothingElse(s.remote.log, taps[0], r1.log, taps);
      }
    } else {
      assert Entries([]) == [];
    }
  }

  /** A call without an answer ends the attempt. */
  lemma NothingElse(before: seq<Entry>, e: Effect, after: seq<Entry>, whole: seq<Effect>)
    requires after == before || after == before + [Entry(e, false)]
    ensures Adds(before, Engine.Refused, after, whole)
  {
  }

  /** What isolates the running VM. */
  function LiveEffects(plan: Plan, running: bool): seq<Effect> {
    if running then plan.taps else []
  }

  lemma LiveAccounts(w: World, s: State, plan: Plan)
    requires Accounted(s)
    ensures var (outcome, s1) := Live(w, s, plan);
      && Accounted(s1) && !outcome.Conflict?
      && Adds(s.remote.log, outcome, s1.remote.log, LiveEffects(plan, s.running))
  {
    if s.running { ApplyTapsAccounts(w, s, plan.taps); } else { assert Entries([]) == []; }
  }

  lemma SetHookscriptAccounts(w: World, s: State, plan: Plan)
    requires Accounted(s)
    ensures var (outcome, s1) := SetHookscript(w, s, plan);
      && Accounted(s1)
      && Adds(s.remote.log, outcome, s1.remote.log, [Wired(plan.wanted)] + LiveEffects(plan, s.running))
  {
    var e := Wired(plan.wanted);
    var whole := [e] + LiveEffects(plan, s.running);
    CallAccounts(w, s, e, Some(s.digest));
    var (reply, r1) := Call(w, s.remote, e, Some(s.digest));
    match reply {
      case Done => WiredThenLive(w, s, s.(remote := r1), e, plan);
      case DigestConflict => assert r1.log[|s.remote.log|..] == [];
      case NoReply => NothingElse(s.remote.log, e, r1.log, whole);
      case RootOnly =>
        CallAccounts(w, s.(remote := r1), e, None);
        var (overSsh, r2) := Call(w, r1, e, None);
        if overSsh.Done? {
          WiredThenLive(w, s, s.(remote := r2), e, plan);
        } else {
          NothingElse(s.remote.log, e, r2.log, whole);
        }
    }
  }

  lemma WiredThenLive(w: World, s: State, s1: State, e: Effect, plan: Plan)
    requires Accounted(Record(s1, "hookscript")) && s1.running == s.running
    requires s1.remote.log == s.remote.log + [Entry(e, true)]
    ensures var (outcome, s2) := Live(w, Record(s1, "hookscript"), plan);
      && Accounted(s2) && !outcome.Conflict?
      && Adds(s.remote.log, outcome, s2.remote.log, [e] + LiveEffects(plan, s.running))
  {
    LiveAccounts(w, Record(s1, "hookscript"), plan);
    var (outcome, s2) := Live(w, Record(s1, "hookscript"), plan);
    AddsOneMore(s.remote.log, e, outcome, s2.remote.log, LiveEffects(plan, s.running));
  }

  /** What follows the upload: the hookscript unless it was already the wanted one, and
      every tap of a running VM. */
  function RestEffects(s: State, plan: Plan): seq<Effect> {
    (if s.hookscript == plan.wanted then [] else [Wired(plan.wanted)]) + LiveEffects(plan, s.running)
  }

  lemma AfterUploadAccounts(w: World, s: State, plan: Plan)
    requires Accounted(s)
    ensures var (outcome, s1) := AfterUpload(w, s, plan);
      Accounted(s1) && Adds(s.remote.log, outcome, s1.remote.log, RestEffects(s, plan))
  {
    if s.hookscript != plan.wanted {
      SetHookscriptAccounts(w, s, plan);
    } else {
      LiveAccounts(w, s, plan);
      assert RestEffects(s, plan) == LiveEffects(plan, s.running);
    }
  }

  /** All an attempt is to change. */
  function WholeEffects(s: State, plan: Plan): seq<Effect> {
    [plan.upload] + RestEffects(s, plan)
  }

  lemma ApplyPlanAccounts(w: World, s: State, plan: Plan)
    requires Accounted(s) && plan.upload.Uploaded?
    ensures var (outcome, s1) := ApplyPlan(w, s, plan);
      Accounted(s1) && Adds(s.remote.log, outcome, s1.remote.log, WholeEffects(s, plan))
  {
    CallAccounts(w, s, plan.upload, None);
    var (reply, r1) := Call(w, s.remote, plan.upload, None);
    if reply.Done? {
      var s1 := Record(s.(remote := r1), "snippet");
      AfterUploadAccounts(w, s1, plan);
      var (outcome, s2) := AfterUpload(w, s1, plan);
      AddsOneMore(s.remote.log, plan.upload, outcome, s2.remote.log, RestEffects(s, plan));
    } else {
      NothingElse(s.remote.log, plan.upload, r1.log, WholeEffects(s, plan));
    }
  }

  /** Every attempt, however it ends, leaves the op's record and the remote's in agreement.
      One that succeeds changed exactly what it was to change, in that order; one that ends
      in a conflict was told of everything it changed; one that fails may have lost the reply
      to its last call, and to no other. */
  lemma ApplyAccounts(w: World, op: Isolation, s: State)
    requires Accounted(s)
    ensures var (outcome, s1) := ApplyOp(w, op, s);
      && Accounted(s1) && (outcome.Applied? ==> Valid(op))
      && Adds(s.remote.log, outcome, s1.remote.log, WholeEffects(s, PlanOf(op)))
  {
    if Valid(op) { ApplyPlanAccounts(w, s, PlanOf(op)); }
  }

  // ---- the remote changes only by calls ----

  datatype Ask = Looks | Writes(effect: Effect, digest: Option<string>)

  function Answer(w: World, r: Remote, a: Ask): Remote {
    match a
    case Looks => Blow(w, r)
    case Writes(e, digest) => Call(w, r, e, digest).1
  }

  function Answers(w: World, r: Remote, asks: seq<Ask>): Remote
    decreases |asks|
  {
    if asks == [] then r else Answers(w, Answer(w, r, asks[0]), asks[1..])
  }

  /** Some calls, each keeping the remote's own record, lead from one remote to the other. */
  ghost predicate Through(w: World, a: Remote, b: Remote) {
    exists asks :: Answers(w, a, asks) == b
  }

  lemma {:induction false} AnswersInTurn(w: World, r: Remote, first: seq<Ask>, rest: seq<Ask>)
    ensures Answers(w, r, first + rest) == Answers(w, Answers(w, r, first), rest)
    decreases |first|
  {
    if first == [] {
      assert first + rest == rest;
    } else {
      assert (first + rest)[1..] == first[1..] + rest;
      AnswersInTurn(w, Answer(w, r, first[0]), first[1..], rest);
    }
  }

  lemma ThroughThen(w: World, a: Remote, b: Remote, ask: Ask)
    requires Through(w, a, b)
    ensures Through(w, a, Answer(w, b, ask))
  {
    var asks :| Answers(w, a, asks) == b;
    AnswersInTurn(w, a, asks, [ask]);
    assert Answers(w, b, [ask]) == Answer(w, b, ask);
  }

  lemma ThroughNothing(w: World, a: Remote)
    ensures Through(w, a, a)
  {
    assert Answers(w, a, []) == a;
  }

  lemma {:induction false} ReadTapsThrough(w: World, name: int -> string, a: Remote, r: Remote, indices: seq<int>,
                                           seen: map<int, Tap>)
    requires Through(w, a, r)
    ensures Through(w, a, ReadTaps(w, name, r, indices, seen).1)
    decreases |indices|
  {
    if indices != [] {
      ThroughThen(w, a, r, Looks);
      var r1 := Blow(w, r);
      var tap := TapOf(r1.vm, name(indices[0]));
      ReadTapsThrough(w, name, a, r1, indices[1..], seen[indices[0] := tap]);
    }
  }

  lemma {:induction false} ApplyTapsThrough(w: World, a: Remote, s: State, taps: seq<Effect>)
    requires Through(w, a, s.remote)
    ensures Through(w, a, ApplyTaps(w, s, taps).1.remote)
    decreases |taps|
  {
    if taps != [] {
      ThroughThen(w, a, s.remote, Writes(taps[0], None));
      var r1 := Call(w, s.remote, taps[0], None).1;
      ApplyTapsThrough(w, a, Record(s.(remote := r1), Word(taps[0])), taps[1..]);
    }
  }

  lemma LiveThrough(w: World, a: Remote, s: State, plan: Plan)
    requires Through(w, a, s.remote)
    ensures Through(w, a, Live(w, s, plan).1.remote)
  {
    if s.running { ApplyTapsThrough(w, a, s, plan.taps); }
  }

  lemma SetHookscriptThrough(w: World, a: Remote, s: State, plan: Plan)
    requires Through(w, a, s.remote)
    ensures Through(w, a, SetHookscript(w, s, plan).1.remote)
  {
    ThroughThen(w, a, s.remote, Writes(Wired(plan.wanted), Some(s.digest)));
    var (reply, r1) := Call(w, s.remote, Wired(plan.wanted), Some(s.digest));
    if reply.Done? {
      LiveThrough(w, a, Record(s.(remote := r1), "hookscript"), plan);
    } else if reply.RootOnly? {
      ThroughThen(w, a, r1, Writes(Wired(plan.wanted), None));
      var r2 := Call(w, r1, Wired(plan.wanted), None).1;
      LiveThrough(w, a, Record(s.(remote := r2), "hookscript"), plan);
    }
  }

  lemma ApplyThrough(w: World, a: Remote, op: Isolation, s: State)
    requires Through(w, a, s.remote)
    ensures Through(w, a, ApplyOp(w, op, s).1.remote)
  {
    var plan := PlanOf(op);
    ThroughThen(w, a, s.remote, Writes(plan.upload, None));
    var r1 := Call(w, s.remote, plan.upload, None).1;
    var s1 := Record(s.(remote := r1), "snippet");
    SetHookscriptThrough(w, a, s1, plan);
    LiveThrough(w, a, s1, plan);
  }

  /** Everything on record was answered for; nothing but calls changed the remote a that the
      run began with. */
  ghost predicate InStep(w: World, a: Remote, s: State) {
    Through(w, a, s.remote) && Accounted(s) && AllTold(s.remote.log)
  }

  /** So but for the last call. */
  ghost predicate InStepButLast(w: World, a: Remote, s: State) {
    && Through(w, a, s.remote) && Accounted(s)
    && (s.remote.log == [] || AllTold(s.remote.log[..|s.remote.log| - 1]))
  }

  ghost predicate Ended(w: World, a: Remote, outcome: Engine.ApplyOutcome, s: State) {
    match outcome
    case Conflict => InStep(w, a, s)
    case Applied => InStep(w, a, s) && s.remote.log != []
    case Refused => InStepButLast(w, a, s)
  }

  ghost function Account(w: World, a: Remote): Engine.Contract<State> {
    Engine.Contract(
      (s: State) => InStep(w, a, s),
      (s: State) => InStep(w, a, s) && s.remote.log != [],
      (s: State) => InStepButLast(w, a, s))
  }

  lemma AddsKeepsTold(before: seq<Entry>, outcome: Engine.ApplyOutcome, after: seq<Entry>, whole: seq<Effect>)
    requires AllTold(before) && Adds(before, outcome, after, whole)
    ensures !outcome.Refused? ==> AllTold(after)
    ensures outcome.Refused? ==> after == [] || AllTold(after[..|after| - 1])
    ensures outcome.Applied? && whole != [] ==> after != []
  {
    var more := after[|before|..];
    assert after == before + more;
    if outcome.Refused? && more != [] { assert after[..|after| - 1] == before + more[..|more| - 1]; }
  }

  lemma {:induction false} ToldAll(log: seq<Entry>)
    requires AllTold(log)
    ensures Told(log) == [] <==> log == []
  {
    if log != [] { assert log[|log| - 1].answered; }
  }

  lemma ReadKeeps(w: World, a: Remote, op: Isolation, s: State)
    requires Through(w, a, s.remote)
    ensures var s1 := ReadOp(w, op, s).1;
      s1.applied == s.applied && s1.remote.log == s.remote.log && Through(w, a, s1.remote)
  {
    var r1 := Blow(w, s.remote);
    ThroughThen(w, a, s.remote, Looks);
    ReadTapsKeeps(w, TapNaming(op), r1, op.netIndices, map[]);
    ReadTapsThrough(w, TapNaming(op), a, r1, op.netIndices, map[]);
  }

  lemma AttemptEnds(w: World, a: Remote, s: State, outcome: Engine.ApplyOutcome, s1: State, whole: seq<Effect>)
    requires InStep(w, a, s) && whole != []
    requires Through(w, a, s1.remote) && Accounted(s1) && Adds(s.remote.log, outcome, s1.remote.log, whole)
    ensures Ended(w, a, outcome, s1)
  {
    AddsKeepsTold(s.remote.log, outcome, s1.remote.log, whole);
  }

  lemma ApplyKeeps(w: World, a: Remote, op: Isolation, s: State)
    requires InStep(w, a, s)
    ensures Ended(w, a, ApplyOp(w, op, s).0, ApplyOp(w, op, s).1)
  {
    ApplyAccounts(w, op, s);
    ApplyThrough(w, a, op, s);
    AttemptEnds(w, a, s, ApplyOp(w, op, s).0, ApplyOp(w, op, s).1, WholeEffects(s, PlanOf(op)));
  }

  lemma AccountMet(w: World, a: Remote, op: Isolation)
    ensures Engine.Meets(IsolationOp(w, op), Account(w, a))
  {
    var o := IsolationOp(w, op);
    forall s: State {:trigger o.read(s)} | InStep(w, a, s)
      ensures InStep(w, a, o.read(s).1) && o.read(s).1.remote.log == s.remote.log
    {
      ReadKeeps(w, a, op, s);
    }
    forall s: State {:trigger o.apply(s)} | InStep(w, a, s) ensures Ended(w, a, o.apply(s).0, o.apply(s).1) {
      ApplyKeeps(w, a, op, s);
    }
  }

  /** Nothing but its calls changed the remote, and Applied lists exactly what it has on
      record as changed and answered for. Nothing else is on record, except that an attempt
      that failed may have lost the reply to its last call; so Wrote() is true exactly when
      something was changed, unless the run failed. A changed run wrote. */
  ghost predicate ToldExactly(w: World, start: Remote, e: Engine.Ended<State, View>) {
    var applied, log := e.state.applied, e.state.remote.log;
    && Through(w, start, e.state.remote)
    && applied == Once(Told(log))
    && (e.result != Err(Engine.ApplyFailed(false)) ==> AllTold(log) && (applied != [] <==> log != []))
    && (log != [] ==> AllTold(log[..|log| - 1]))
    && (e.result.Ok? && e.result.value.changed ==> applied != [])
  }

  /** Over a whole run, retries included and however it ends. */
  lemma WroteIsExact(w: World, op: Isolation, s: State, force: bool, lockFree: bool)
    requires s.applied == [] && s.remote.log == []
    ensures ToldExactly(w, s.remote, Engine.RunSpec(IsolationOp(w, op), s, force, lockFree))
  {
    ThroughNothing(w, s.remote);
    AccountMet(w, s.remote, op);
    Engine.RunKeepsContract(IsolationOp(w, op), Account(w, s.remote), s, force, lockFree);
    EndTells(w, s.remote, Engine.RunSpec(IsolationOp(w, op), s, force, lockFree));
  }

  lemma EndTells(w: World, start: Remote, e: Engine.Ended<State, View>)
    requires Engine.Ends(e, Account(w, start))
    ensures ToldExactly(w, start, e)
  {
    AppliedTells(e.state.applied, e.state.remote.log);
  }

  lemma AppliedTells(applied: seq<string>, log: seq<Entry>)
    requires applied == Once(Told(log))
    ensures AllTold(log) ==> (applied != [] <==> log != []) && (log != [] ==> AllTold(log[..|log| - 1]))
  {
    OnceEmpty(Told(log));
    if AllTold(log) { ToldAll(log); }
  }

  /** Why Changed is not enough: a run whose first attempt uploads the snippet and loses
      the digest race to someone who sets the same hookscript ends as a no-op. */
  lemma NoOpRunThatWrote() returns (w: World, op: Isolation, s: State)
    ensures Valid(op) && s.applied == [] && s.remote.log == []
    ensures var e := Engine.RunSpec(IsolationOp(w, op), s, false, true);
      && e.result.Ok? && !e.result.value.changed && e.state.applied == ["snippet"]
      && e.state.remote.log == [Entry(PlanOf(op).upload, true)]
  {
    op := Isolation(105, [0], "local");
    var plan := PlanOf(op);
    var theirs := Vm(plan.wanted, "2", false, map[]);
    w := (i: nat) => Weather(if i == 2 then Some(theirs) else None, true, false, false);
    s := State(Remote(Vm("", "1", false, map[]), 0, []), "", "", false, []);
    assert |plan.wanted| > 0;
    var s1 := State(Remote(s.remote.vm, 1, []), "1", "", false, []);
    assert ReadOp(w, op, s) == (Some(View("", false, map[])), s1);
    var s3 := LosesDigest(w, s1, plan, theirs);
    LosesRace(w, op, s, s1, s3, plan.wanted, theirs);
  }

  /** An attempt that uploads, and then finds the VM under another digest. */
  lemma LosesDigest(w: World, s: State, plan: Plan, theirs: Vm) returns (s1: State)
    requires s.applied == [] && s.remote.log == [] && s.remote.clock == 1 && s.digest != theirs.digest
    requires s.hookscript != plan.wanted && plan.upload.Uploaded?
    requires w(1) == CALM && w(2) == CALM.(outside := Some(theirs))
    ensures ApplyPlan(w, s, plan) == (Engine.Conflict, s1)
    ensures s1.remote == Remote(theirs, 3, [Entry(plan.upload, true)]) && s1.applied == ["snippet"]
  {
    var uploaded := [Entry(plan.upload, true)];
    assert [] + uploaded == uploaded && AppendOnce([], "snippet") == ["snippet"];
    var s2 := s.(remote := Remote(s.remote.vm, 2, uploaded), applied := ["snippet"]);
    s1 := s2.(remote := Remote(theirs, 3, uploaded));
    assert SetHookscript(w, s2, plan) == (Engine.Conflict, s1);
  }

  /** The engine's course from a conflict to a read that is satisfied. */
  lemma LosesRace(w: World, op: Isolation, s: State, s1: State, s3: State, wanted: string, theirs: Vm)
    requires wanted == WantedHookscript(op) && theirs.hookscript == wanted && !theirs.running
    requires s3.remote.vm == theirs && w(s3.remote.clock).outside.None? && w(s3.remote.clock).ok
    requires ReadOp(w, op, s) == (Some(View("", false, map[])), s1) && wanted != ""
    requires ApplyOp(w, op, s1) == (Engine.Conflict, s3)
    ensures var e := Engine.RunSpec(IsolationOp(w, op), s, false, true);
      && e.result.Ok? && !e.result.value.changed
      && e.state.applied == s3.applied && e.state.remote.log == s3.remote.log
  {
    var o := IsolationOp(w, op);
    var (view, s4) := ReadOp(w, op, s3);
    assert view == Some(View(wanted, false, map[])) && Satisfied(op, view.value);
    var calls := [Engine.Lock] + [Engine.Read(true), Engine.Apply(Engine.Conflict)];
    assert Engine.Attempts(o, s, false, 1, [Engine.Lock]) == Engine.Attempts(o, s3, false, 2, calls);
    assert Engine.Attempts(o, s3, false, 2, calls) == Engine.NoOp(o, s4, view.value, calls + [Engine.Read(true)]);
  }

  // ---- what an apply achieves ----

  /** The effect's tap is there and isolated. */
  predicate Shows(vm: Vm, e: Effect) {
    e.Isolated? && e.tap in vm.taps && vm.taps[e.tap] == Tap(true, true)
  }

  lemma {:induction false} CalmTaps(w: World, s: State, taps: seq<Effect>)
    requires (forall i: nat :: w(i) == CALM) && forall k :: 0 <= k < |taps| ==> taps[k].Isolated?
    ensures var (outcome, s1) := ApplyTaps(w, s, taps);
      var vm, vm1 := s.remote.vm, s1.remote.vm;
      && outcome.Applied? && vm1.hookscript == vm.hookscript && vm1.running == vm.running
      && (forall e :: Shows(vm, e) ==> Shows(vm1, e))
      && (forall k :: 0 <= k < |taps| ==> Shows(vm1, taps[k]))
    decreases |taps|
  {
    if taps != [] {
      var r1 := Call(w, s.remote, taps[0], None).1;
      assert Shows(r1.vm, taps[0]);
      CalmTaps(w, Record(s.(remote := r1), Word(taps[0])), taps[1..]);
    }
  }

  /** Wired to the wanted script, and every tap of it isolated while it runs. */
  ghost predicate IsIsolated(plan: Plan, vm: Vm) {
    && vm.hookscript == plan.wanted
    && (vm.running ==> forall k :: 0 <= k < |plan.taps| ==> Shows(vm, plan.taps[k]))
  }

  lemma {:induction false} TapEffectsAre(name: int -> string, indices: seq<int>)
    ensures |TapEffects(name, indices)| == |indices|
    ensures forall k :: 0 <= k < |indices| ==> TapEffects(name, indices)[k] == Isolated(name(indices[k]))
  {
    if indices != [] { TapEffectsAre(name, indices[1..]); }
  }

  lemma CalmPlan(w: World, s: State, plan: Plan)
    requires (forall i: nat :: w(i) == CALM) && forall k :: 0 <= k < |plan.taps| ==> plan.taps[k].Isolated?
    requires plan.upload.Uploaded? && s.hookscript == s.remote.vm.hookscript
    requires s.running == s.remote.vm.running && s.digest == s.remote.vm.digest
    ensures var (outcome, s1) := ApplyPlan(w, s, plan);
      outcome.Applied? && IsIsolated(plan, s1.remote.vm) && s1.remote.vm.running == s.remote.vm.running
  {
    var r1 := Call(w, s.remote, plan.upload, None).1;
    var s1 := Record(s.(remote := r1), "snippet");
    var r2 := Call(w, r1, Wired(plan.wanted), Some(s1.digest)).1;
    var s2 := if s1.hookscript == plan.wanted then s1 else Record(s1.(remote := r2), "hookscript");
    assert ApplyPlan(w, s, plan) == Live(w, s2, plan);
    if s2.running { CalmTaps(w, s2, plan.taps); }
  }

  /** An apply does what it is for: when nobody interferes and nothing fails, the VM as it
      was read is isolated, on the tap of each of its net indices. */
  lemma CalmApply(w: World, op: Isolation, s: State)
    requires Valid(op) && forall i: nat :: w(i) == CALM
    requires s.hookscript == s.remote.vm.hookscript
    requires s.running == s.remote.vm.running && s.digest == s.remote.vm.digest
    ensures var (outcome, s1) := ApplyOp(w, op, s);
      outcome.Applied? && IsIsolated(PlanOf(op), s1.remote.vm) && s1.remote.vm.running == s.remote.vm.running
    ensures |PlanOf(op).taps| == |op.netIndices|
    ensures forall k :: 0 <= k < |op.netIndices| ==>
        PlanOf(op).taps[k] == Isolated("tap" + Itoa(op.vmid) + "i" + Itoa(op.netIndices[k]))
  {
    TapEffectsAre(TapNaming(op), op.netIndices);
    CalmPlan(w, s, PlanOf(op));
  }

  lemma {:induction false} CalmReadTaps(w: World, name: int -> string, r: Remote, indices: seq<int>,
                                        seen: map<int, Tap>)
    requires forall i: nat :: w(i) == CALM
    ensures var (taps, r1) := ReadTaps(w, name, r, indices, seen);
      && taps.Some? && r1.vm == r.vm && (forall i :: i in taps.value <==> i in seen || i in indices)
      && (forall i :: i in taps.value ==>
            taps.value[i] == if i in indices then TapOf(r.vm, name(i)) else if i in seen then seen[i] else NoTap())
    decreases |indices|
  {
    if indices != [] {
      var r1 := Blow(w, r);
      CalmReadTaps(w, name, r1, indices[1..], seen[indices[0] := TapOf(r1.vm, name(indices[0]))]);
      assert forall i :: i in indices <==> i == indices[0] || i in indices[1..];
    }
  }

  lemma {:induction false} ReadTapsAnswered(w: World, name: int -> string, r: Remote, indices: seq<int>,
                                            seen: map<int, Tap>)
    ensures var (taps, r1) := ReadTaps(w, name, r, indices, seen);
      taps.Some? <==> AllAnswered(w, r.clock, |indices|)
    decreases |indices|
  {
    if indices != [] {
      var r1 := Blow(w, r);
      ReadTapsAnswered(w, name, r1, indices[1..], seen[indices[0] := TapOf(r1.vm, name(indices[0]))]);
    }
  }

  /** The next calls, so many of them, are answered. */
  ghost predicate AllAnswered(w: World, clock: nat, calls: nat) {
    forall c: nat :: clock <= c < clock + calls ==> w(c).ok
  }

  /** A read shows the VM only if every call of it was answered, the VM's and, while it runs,
      each tap's; and the op's fields are then those of the VM at that instant. */
  lemma ReadAnswered(w: World, op: Isolation, s: State)
    ensures var (view, s1) := ReadOp(w, op, s);
      var vm := if w(s.remote.clock).outside.Some? then w(s.remote.clock).outside.value else s.remote.vm;
      && (view.Some? <==> AllAnswered(w, s.remote.clock, 1 + if vm.running then |op.netIndices| else 0))
      && (view.Some? ==>
            && s1.digest == vm.digest && s1.hookscript == view.value.hookscript == vm.hookscript
            && s1.running == view.value.running == vm.running)
  {
    var c := s.remote.clock;
    ReadTapsAnswered(w, TapNaming(op), Blow(w, s.remote), op.netIndices, map[]);
    assert AllAnswered(w, c, 1) <==> w(c).ok;
    assert AllAnswered(w, c, 1 + |op.netIndices|) <==> w(c).ok && AllAnswered(w, c + 1, |op.netIndices|);
    var r1 := Blow(w, s.remote);
    if w(c).ok && r1.vm.running {
      assert ReadOp(w, op, s).0.Some? <==> ReadTaps(w, TapNaming(op), r1, op.netIndices, map[]).0.Some?;
    }
  }

  /** What Satisfied says of a read is so of the VM: wired to the wanted script, and with
      every tap of its net indices isolated while it runs, and it says no otherwise. */
  lemma SatisfiedIsIsolated(w: World, op: Isolation, s: State)
    requires forall i: nat :: w(i) == CALM
    ensures var (view, s1) := ReadOp(w, op, s); var vm := s.remote.vm;
      && view.Some? && s1.remote.vm == vm && s1.applied == s.applied
      && s1.digest == vm.digest && s1.hookscript == vm.hookscript && s1.running == vm.running
      && (Satisfied(op, view.value) <==>
            && vm.hookscript == WantedHookscript(op)
            && (vm.running ==> forall i :: i in op.netIndices ==>
                  TapOf(vm, "tap" + Itoa(op.vmid) + "i" + Itoa(i)) == Tap(true, true)))
  {
    CalmReadTaps(w, TapNaming(op), Blow(w, s.remote), op.netIndices, map[]);
  }

  /** A whole run, when nobody interferes and nothing fails: the VM ends isolated, and the run
      reports a change exactly if it was not. */
  lemma CalmRun(w: World, op: Isolation, s: State)
    requires op.vmid > 0 && op.netIndices != [] && SafeStorageID(op.storageID)
    requires forall i :: 0 <= i < |op.netIndices| ==> op.netIndices[i] >= 0
    requires forall i, j :: 0 <= i < j < |op.netIndices| ==> op.netIndices[i] != op.netIndices[j]
    requires forall i: nat :: w(i) == CALM
    ensures var e := Engine.RunSpec(IsolationOp(w, op), s, false, true);
      && e.result.Ok? && IsIsolated(PlanOf(op), e.state.remote.vm)
      && (e.result.value.changed <==> !IsIsolated(PlanOf(op), s.remote.vm))
  {
    var o := IsolationOp(w, op);
    SatisfiedIsIsolated(w, op, s);
    PlanIsolates(op, s.remote.vm);
    var (view, s1) := ReadOp(w, op, s);
    if !Satisfied(op, view.value) {
      CalmApply(w, op, s1);
      var (outcome, s2) := ApplyOp(w, op, s1);
      SatisfiedIsIsolated(w, op, s2);
      var calls := [Engine.Lock] + [Engine.Read(true), Engine.Apply(outcome)];
      assert Engine.Attempts(o, s, false, 1, [Engine.Lock]) == Engine.Changed(o, s2, view.value, calls);
    }
  }

  lemma PlanIsolates(op: Isolation, vm: Vm)
    ensures IsIsolated(PlanOf(op), vm) <==>
      && vm.hookscript == WantedHookscript(op)
      && (vm.running ==> forall i :: i in op.netIndices ==> TapOf(vm, TapName(op, i)) == Tap(true, true))
  {
    var taps := PlanOf(op).taps;
    TapEffectsAre(TapNaming(op), op.netIndices);
    forall k | 0 <= k < |taps|
      ensures Shows(vm, taps[k]) <==> TapOf(vm, TapName(op, op.netIndices[k])) == Tap(true, true)
    {
      assert taps[k] == Isolated(TapName(op, op.netIndices[k]));
    }
    if forall k :: 0 <= k < |taps| ==> Shows(vm, taps[k]) {
      forall i | i in op.netIndices ensures TapOf(vm, TapName(op, i)) == Tap(true, true) {
        var k :| 0 <= k < |op.netIndices| && op.netIndices[k] == i;
        assert Shows(vm, taps[k]);
      }
    }
  }

  // ---- the op as it runs ----

  /** The client's calls, each changing the remote as Call says. */
  class Client {
    const w: World
    var remote: Remote

    constructor (w: World, vm: Vm)
      ensures this.w == w && remote == Remote(vm, 0, [])
    {
      this.w, this.remote := w, Remote(vm, 0, []);
    }

    /** A read of the VM, or of a tap. */
    method Get() returns (ok: bool)
      modifies this
      ensures ok == w(old(remote).clock).ok && remote == Blow(w, old(remote))
    {
      ok := w(remote.clock).ok;
      remote := Blow(w, remote);
    }

    method UploadSnippet(storage: string, file: string) returns (reply: Reply)
      modifies this
      ensures (reply, remote) == Call(w, old(remote), Uploaded(storage, file), None)
    {
      var r := Call(w, remote, Uploaded(storage, file), None);
      reply, remote := r.0, r.1;
    }

    method SetHookscriptCAS(value: string, digest: string) returns (reply: Reply)
      modifies this
      ensures (reply, remote) == Call(w, old(remote), Wired(value), Some(digest))
    {
      var r := Call(w, remote, Wired(value), Some(digest));
      reply, remote := r.0, r.1;
    }

    method SetHookscriptOverSSH(value: string) returns (reply: Reply)
      modifies this
      ensures (reply, remote) == Call(w, old(remote), Wired(value), None)
    {
      var r := Call(w, remote, Wired(value), None);
      reply, remote := r.0, r.1;
    }

    method SetBridgePortIsolated(tap: string) returns (reply: Reply)
      modifies this
      ensures (reply, remote) == Call(w, old(remote), Isolated(tap), None)
    {
      var r := Call(w, remote, Isolated(tap), None);
      reply, remote := r.0, r.1;
    }
  }

  class BridgeIsolationEnsure {
    const client: Client
    const op: Isolation
    var digest: string
    var hookscript: string
    var running: bool
    var applied: seq<string>

    constructor (client: Client, op: Isolation)
      ensures this.client == client && this.op == op && applied == []
    {
      this.client, this.op := client, op;
      digest, hookscript, running, applied := "", "", false, [];
    }

    ghost function Now(): State
      reads this, client
    {
      State(client.remote, digest, hookscript, running, applied)
    }

    method Read() returns (view: Option<View>)
      modifies this, client
      ensures (view, Now()) == ReadOp(client.w, op, old(Now()))
    {
      var ok := client.Get();
      if !ok { return None; }
      digest, hookscript, running := client.remote.vm.digest, client.remote.vm.hookscript, client.remote.vm.running;
      if !running { return Some(View(hookscript, false, map[])); }
      var taps := ReadAllTaps();
      return if taps.None? then None else Some(View(hookscript, true, taps.value));
    }

    method ReadAllTaps() returns (taps: Option<map<int, Tap>>)
      modifies client
      ensures (taps, client.remote) == ReadTaps(client.w, TapNaming(op), old(client.remote), op.netIndices, map[])
    {
      var seen: map<int, Tap> := map[];
      var i := 0;
      assert op.netIndices[0..] == op.netIndices;
      while i < |op.netIndices|
        invariant 0 <= i <= |op.netIndices|
        invariant ReadTaps(client.w, TapNaming(op), old(client.remote), op.netIndices, map[])
               == ReadTaps(client.w, TapNaming(op), client.remote, op.netIndices[i..], seen)
      {
        assert op.netIndices[i..][1..] == op.netIndices[i + 1..];
        var read := client.Get();
        if !read { return None; }
        var name := TapName(op, op.netIndices[i]);
        var tap := TapOf(client.remote.vm, name);
        seen := seen[op.netIndices[i] := tap];
        i := i + 1;
      }
      return Some(seen);
    }

    method Apply() returns (outcome: Engine.ApplyOutcome)
      modifies this, client
      ensures (outcome, Now()) == ApplyOp(client.w, op, old(Now()))
    {
      if !Valid(op) { return Engine.Refused; }
      var reply := client.UploadSnippet(op.storageID, SnippetFilename(op));
      if !reply.Done? { return Engine.Refused; }
      applied := AppendOnce(applied, "snippet");
      if hookscript != WantedHookscript(op) {
        outcome := Wire();
      } else {
        outcome := IsolateTaps();
      }
    }

    method Wire() returns (outcome: Engine.ApplyOutcome)
      modifies this`applied, client
      ensures (outcome, Now()) == SetHookscript(client.w, old(Now()), PlanOf(op))
    {
      var wanted := WantedHookscript(op);
      var reply := client.SetHookscriptCAS(wanted, digest);
      match reply {
        case DigestConflict => return Engine.Conflict;
        case NoReply => return Engine.Refused;
        case Done =>
        case RootOnly =>
          var overSsh := client.SetHookscriptOverSSH(wanted);
          if !overSsh.Done? { return Engine.Refused; }
      }
      applied := AppendOnce(applied, "hookscript");
      outcome := IsolateTaps();
    }

    method IsolateTaps() returns (outcome: Engine.ApplyOutcome)
      modifies this`applied, client
      ensures (outcome, Now()) == Live(client.w, old(Now()), PlanOf(op))
    {
      if !running { return Engine.Applied; }
      var i := 0;
      assert op.netIndices[0..] == op.netIndices;
      while i < |op.netIndices|
        invariant 0 <= i <= |op.netIndices|
        invariant ApplyTaps(client.w, old(Now()), PlanOf(op).taps)
               == ApplyTaps(client.w, Now(), TapEffects(TapNaming(op), op.netIndices[i..]))
      {
        assert op.netIndices[i..][1..] == op.netIndices[i + 1..];
        var reply := client.SetBridgePortIsolated(TapName(op, op.netIndices[i]));
        if !reply.Done? { return Engine.Refused; }
        applied := AppendOnce(applied, TapName(op, op.netIndices[i]));
        i := i + 1;
      }
      return Engine.Applied;
    }
  }
}
