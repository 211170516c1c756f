/** `vm create --unique-tag` (cmd/pveforge/vm.go): any number of creates, any lag of the
    guest list, and anyone else creating, destroying and retagging guests meanwhile. */
module UniqueTag {
  import opened Text

  /** A guest under its present tags. A retag keeps the id; a new guest under an old VMID
      has a new one. */
  datatype Guest = Guest(id: nat, vmid: nat, qemu: bool, tags: set<string>)

  /** Tags match case-folded, as whole tags. */
  ghost predicate Carries(g: Guest, tag: string) {
    exists t :: t in g.tags && Lower(t) == Lower(tag)
  }

  /** Where one create is. Its VM g came to be at a point of the cluster's history, when
      the list could still answer with states from a point on. Locked, Checked and Waiting
      hold the tag's lock; Silent, Warned and Interrupted have succeeded; an Unanswered
      create lost its reply. */
  datatype Phase =
    | Idle
    | Locked
    | Checked
    | Waiting(g: Guest, at: nat, from: nat)
    | Silent(g: Guest, at: nat, from: nat)
    | Warned(g: Guest, at: nat, from: nat)
    | Interrupted(g: Guest, at: nat, from: nat)
    | Unanswered(g: Guest, at: nat, from: nat)
    | Failed

  datatype Create = Create(tag: string, vmid: nat, phase: Phase)

  /** hist is the cluster, change by change; the list answers with one of its states, never
      one older than it answered before (seen). */
  datatype State = State(
    hist: seq<set<Guest>>, seen: nat, nextId: nat, locks: map<string, nat>, creates: seq<Create>)

  /** One create takes its next step, having been shown the given list; or anyone else
      changes the cluster. */
  datatype Label = Act(p: nat, to: Phase, view: nat) | Outside(next: set<Guest>, nextId: nat)

  ghost function Now(s: State): set<Guest>
    requires s.hist != []
  {
    s.hist[|s.hist| - 1]
  }

  predicate Holds(ph: Phase) { ph.Locked? || ph.Checked? || ph.Waiting? }

  predicate Made(ph: Phase) {
    ph.Waiting? || ph.Silent? || ph.Warned? || ph.Interrupted? || ph.Unanswered?
  }

  predicate SameTag(a: Create, b: Create) { Lower(a.tag) == Lower(b.tag) }

  /** FindGuestByTagFold finds g: it alone carries the tag. */
  ghost predicate Finds(view: set<Guest>, tag: string, g: Guest) {
    g in view && Carries(g, tag) && forall h :: h in view && Carries(h, tag) ==> h == g
  }

  ghost predicate NoneCarries(view: set<Guest>, tag: string) {
    forall h :: h in view ==> !Carries(h, tag)
  }

  /** waitTagVisible's match: the one guest carrying the tag is a VM of this VMID. */
  ghost predicate Shows(view: set<Guest>, c: Create) {
    exists g :: Finds(view, c.tag, g) && g.qemu && g.vmid == c.vmid
  }

  /** The steps of one create, shown state v of the cluster's history. */
  ghost predicate May(s: State, c: Create, to: Phase, v: nat)
    requires s.hist != [] && v < |s.hist|
  {
    match c.phase
    case Idle => to == Locked && Lower(c.tag) !in s.locks
    case Locked => // a list that could not be read refuses too
      to == Failed || (to == Checked && NoneCarries(s.hist[v], c.tag))
    case Checked => // a VMID that is taken, or a create that PVE refused; a reply may be lost
      to == Failed
      || ((to.Waiting? || to.Unanswered?) && to.at == |s.hist| && to.from == v && Makes(s, c, to.g))
    case Waiting(g, at, from) => // anything but the match is polled past, until time runs out or a signal comes
      || to == (if Shows(s.hist[v], c) then Silent(g, at, from) else c.phase)
      || to == Warned(g, at, from) || to == Interrupted(g, at, from)
    case _ => false
  }

  /** PVE makes the VM: the VMID was free, and its tags hold the create's own. */
  ghost predicate Makes(s: State, c: Create, g: Guest)
    requires s.hist != []
  {
    && g.id == s.nextId && g.vmid == c.vmid && g.qemu && Carries(g, c.tag)
    && forall h :: h in Now(s) ==> h.vmid != c.vmid
  }

  /** Anyone else: guests go, are retagged, or are new. */
  ghost predicate Changes(now: set<Guest>, nextId: nat, next: set<Guest>, after: nat) {
    && nextId <= after
    && forall g :: g in next ==>
         || nextId <= g.id < after
         || exists h :: h in now && h.id == g.id && h.vmid == g.vmid && h.qemu == g.qemu
  }

  ghost predicate Next(s: State, l: Label, t: State)
    requires s.hist != []
  {
    match l
    case Act(p, to, v) =>
      && p < |s.creates| && s.seen <= v < |s.hist|
      && var c := s.creates[p];
         var made := c.phase.Checked? && to != Failed;
      && May(s, c, to, v)
      && t.creates == s.creates[p := c.(phase := to)]
      && t.seen == v
      && t.locks == (if Holds(to) then s.locks[Lower(c.tag) := p] else s.locks - {Lower(c.tag)})
      && t.hist == (if made then s.hist + [Now(s) + {to.g}] else s.hist)
      && t.nextId == (if made then s.nextId + 1 else s.nextId)
    case Outside(next, nextId) =>
      Changes(Now(s), s.nextId, next, nextId) && t == s.(hist := s.hist + [next], nextId := nextId)
  }

  ghost predicate Init(s: State) {
    && |s.hist| == 1 && s.seen == 0 && s.locks == map[]
    && (forall g :: g in s.hist[0] ==> g.id < s.nextId)
    && forall p :: 0 <= p < |s.creates| ==> s.creates[p].phase == Idle
  }

  ghost predicate Run(states: seq<State>, labels: seq<Label>) {
    && |states| == |labels| + 1 && Init(states[0])
    && forall i :: 0 <= i < |labels| ==> states[i].hist != [] && Next(states[i], labels[i], states[i + 1])
  }

  // ---- the claim, and when it holds ----

  /** The guest is in the list, carrying the tag. */
  ghost predicate Listed(view: set<Guest>, id: nat, tag: string) {
    exists h :: h in view && h.id == id && Carries(h, tag)
  }

  /** The create's VM exists, and has carried the tag ever since it was made, whatever else
      was done to its tags. */
  ghost predicate Kept(hist: seq<set<Guest>>, c: Create)
    requires Made(c.phase)
  {
    forall k :: c.phase.at <= k < |hist| ==> Listed(hist[k], c.phase.g.id, c.tag)
  }

  /** No other create with the tag has a VM that kept it, and every list that a check may
      still be shown has this create's VM. */
  ghost predicate Alone(s: State, p: nat)
    requires p < |s.creates| && Made(s.creates[p].phase)
  {
    && (forall q :: 0 <= q < |s.creates| && q != p ==>
          SameTag(s.creates[p], s.creates[q]) && Made(s.creates[q].phase) ==> !Kept(s.hist, s.creates[q]))
    && (forall v :: s.seen <= v < |s.hist| ==> Listed(s.hist[v], s.creates[p].phase.g.id, s.creates[p].tag))
  }

  /** A create that ended silently, whose VM kept the tag, and that is not alone. */
  ghost predicate Misled(s: State, p: nat) {
    p < |s.creates| && s.creates[p].phase.Silent? && Kept(s.hist, s.creates[p]) && !Alone(s, p)
  }

  /** Among the states that the list could still answer with when the VM was made, and from
      before it was, one shows as the tag's only guest a VM with this create's VMID. */
  ghost predicate HasTwin(hist: seq<set<Guest>>, c: Create)
    requires Made(c.phase)
  {
    exists k :: c.phase.from <= k < c.phase.at && k < |hist| && Shows(hist[k], c)
  }

  // ---- what every run keeps ----

  ghost predicate HistoryOk(s: State) {
    && s.hist != [] && s.seen < |s.hist|
    && forall i, g :: 0 <= i < |s.hist| && g in s.hist[i] ==> g.id < s.nextId
  }

  ghost predicate LocksOk(s: State) {
    && (forall p :: 0 <= p < |s.creates| && Holds(s.creates[p].phase) ==>
          Lower(s.creates[p].tag) in s.locks && s.locks[Lower(s.creates[p].tag)] == p)
    && forall f :: f in s.locks ==>
         s.locks[f] < |s.creates| && Holds(s.creates[s.locks[f]].phase) && Lower(s.creates[s.locks[f]].tag) == f
  }

  /** What a create made came to be when it says, and not before. */
  ghost predicate BirthOk(s: State, c: Create) {
    Made(c.phase) ==>
      && c.phase.from < c.phase.at < |s.hist| && c.phase.from <= s.seen && c.phase.g.id < s.nextId
      && Listed(s.hist[c.phase.at], c.phase.g.id, c.tag)
      && forall k, h :: 0 <= k < c.phase.at && h in s.hist[k] ==> h.id != c.phase.g.id
  }

  /** Creates make different guests; while one waits, the others of its tag made theirs
      before. */
  ghost predicate PairOk(p: Create, q: Create) {
    && (Made(p.phase) && Made(q.phase) ==> p.phase.g.id != q.phase.g.id)
    && (SameTag(p, q) && p.phase.Waiting? && Made(q.phase) ==> q.phase.at < p.phase.at)
  }

  ghost predicate Inv(s: State) {
    && HistoryOk(s) && LocksOk(s)
    && (forall p :: 0 <= p < |s.creates| ==> BirthOk(s, s.creates[p]))
    && forall p, q :: 0 <= p < |s.creates| && 0 <= q < |s.creates| && p != q ==>
         PairOk(s.creates[p], s.creates[q])
  }

  predicate ActsAs(l: Label, p: nat) {
    l.Act? && l.p == p
  }

  lemma LocksStep(s: State, l: Label, t: State)
    requires s.hist != [] && LocksOk(s) && Next(s, l, t)
    ensures LocksOk(t)
  {
  }

  lemma HistoryStep(s: State, l: Label, t: State)
    requires HistoryOk(s) && Next(s, l, t)
    ensures HistoryOk(t) && s.hist <= t.hist && s.seen <= t.seen && s.nextId <= t.nextId
  {
  }

  lemma BirthStep(s: State, l: Label, t: State, p: nat)
    requires HistoryOk(s) && Next(s, l, t) && p < |s.creates| && BirthOk(s, s.creates[p])
    ensures p < |t.creates| && BirthOk(t, t.creates[p])
  {
    assert forall k :: 0 <= k < |s.hist| ==> t.hist[k] == s.hist[k];
  }

  lemma PairStep(s: State, l: Label, t: State, p: nat, q: nat)
    requires HistoryOk(s) && LocksOk(s) && Next(s, l, t) && p < |s.creates| && q < |s.creates| && p != q
    requires BirthOk(s, s.creates[p]) && BirthOk(s, s.creates[q]) && PairOk(s.creates[p], s.creates[q])
    ensures |t.creates| == |s.creates| && PairOk(t.creates[p], t.creates[q])
  {
  }

  lemma InvStep(s: State, l: Label, t: State)
    requires Inv(s) && Next(s, l, t)
    ensures Inv(t)
  {
    HistoryStep(s, l, t);
    LocksStep(s, l, t);
    forall p | 0 <= p < |t.creates| ensures BirthOk(t, t.creates[p]) {
      BirthStep(s, l, t, p);
    }
    forall p, q | 0 <= p < |t.creates| && 0 <= q < |t.creates| && p != q
      ensures PairOk(t.creates[p], t.creates[q])
    {
      PairStep(s, l, t, p, q);
    }
  }

  lemma {:induction false} InvHolds(states: seq<State>, labels: seq<Label>)
    requires Run(states, labels)
    ensures Inv(states[|labels|])
    decreases |labels|
  {
    if |labels| > 0 {
      var n := |labels| - 1;
      assert Next(states[n], labels[n], states[n + 1]);
      assert Run(states[..n + 1], labels[..n]);
      InvHolds(states[..n + 1], labels[..n]);
      InvStep(states[n], labels[n], states[n + 1]);
    }
  }

  // ---- a silent success is alone ----

  /** The create is about to make its VM, or has made one that kept the tag. */
  ghost predicate Past(hist: seq<set<Guest>>, c: Create) {
    c.phase == Checked || (Made(c.phase) && Kept(hist, c))
  }

  /** The oldest list a check may still be shown is one from after the VM was made, and no
      other create with the tag is past its check. */
  ghost predicate Settled(s: State, p: nat)
    requires p < |s.creates| && s.creates[p].phase.Silent?
  {
    && s.creates[p].phase.at <= s.seen
    && forall q :: 0 <= q < |s.creates| && q != p && SameTag(s.creates[p], s.creates[q]) ==>
         !Past(s.hist, s.creates[q])
  }

  lemma KeptBefore(a: seq<set<Guest>>, b: seq<set<Guest>>, c: Create)
    requires a <= b && Made(c.phase) && Kept(b, c)
    ensures Kept(a, c)
  {
    assert forall k :: 0 <= k < |a| ==> a[k] == b[k];
  }

  /** A list from after both VMs were made cannot show one of them as the tag's only guest. */
  lemma ShownAlone(hist: seq<set<Guest>>, c: Create, d: Create, v: nat)
    requires Made(c.phase) && Made(d.phase) && SameTag(c, d) && c.phase.g.id != d.phase.g.id
    requires c.phase.at <= v < |hist| && d.phase.at <= v && Kept(hist, c) && Kept(hist, d)
    ensures !Shows(hist[v], c)
  {
    assert Listed(hist[v], c.phase.g.id, c.tag) && Listed(hist[v], d.phase.g.id, d.tag);
    var g :| g in hist[v] && g.id == c.phase.g.id && Carries(g, c.tag);
    var h :| h in hist[v] && h.id == d.phase.g.id && Carries(h, d.tag);
    assert Carries(h, c.tag);
  }

  /** The step that ends a wait silently. */
  lemma TurnsSettled(s: State, l: Label, t: State)
    requires Inv(s) && l.Act? && l.to.Silent? && Next(s, l, t)
    requires Kept(t.hist, t.creates[l.p]) && !HasTwin(t.hist, t.creates[l.p])
    ensures Settled(t, l.p)
  {
    var p, v := l.p, l.view;
    var c := s.creates[p];
    assert BirthOk(s, c) && Shows(s.hist[v], c) && Shows(t.hist[v], t.creates[p]);
    assert c.phase.at <= v;
    forall q | 0 <= q < |s.creates| && q != p && SameTag(c, s.creates[q])
      ensures !Past(s.hist, s.creates[q])
    {
      assert PairOk(c, s.creates[q]);
      if Made(s.creates[q].phase) && Kept(s.hist, s.creates[q]) { ShownAlone(s.hist, c, s.creates[q], v); }
    }
  }

  /** A check made while a silent VM keeps the tag is shown it, and so refuses. */
  lemma CheckIsShown(s: State, p: nat, v: nat)
    requires p < |s.creates| && s.creates[p].phase.Silent? && Settled(s, p) && Kept(s.hist, s.creates[p])
    requires s.seen <= v < |s.hist|
    ensures Listed(s.hist[v], s.creates[p].phase.g.id, s.creates[p].tag) && !NoneCarries(s.hist[v], s.creates[p].tag)
  {
  }

  /** One step of a create that is not past its check, when every list it may be shown has a
      guest with the tag. */
  lemma StaysBack(s: State, l: Label, t: State, q: nat)
    requires s.hist != [] && Next(s, l, t) && s.hist <= t.hist && q < |s.creates| && !Past(s.hist, s.creates[q])
    requires l.Act? ==> l.view < |s.hist| && (l.p == q ==> !NoneCarries(s.hist[l.view], s.creates[q].tag))
    ensures !Past(t.hist, t.creates[q])
  {
    var c := t.creates[q];
    if Made(c.phase) && Kept(t.hist, c) { KeptBefore(s.hist, t.hist, c); }
  }

  lemma SameCarries(view: set<Guest>, a: Create, b: Create)
    requires SameTag(a, b)
    ensures NoneCarries(view, a.tag) <==> NoneCarries(view, b.tag)
  {
    forall g | g in view ensures Carries(g, a.tag) <==> Carries(g, b.tag) { }
  }

  lemma StaysSettled(s: State, l: Label, t: State, p: nat)
    requires Inv(s) && Next(s, l, t) && p < |s.creates| && s.creates[p].phase.Silent? && Settled(s, p)
    requires t.creates[p] == s.creates[p] && Kept(t.hist, t.creates[p])
    ensures Settled(t, p)
  {
    HistoryStep(s, l, t);
    KeptBefore(s.hist, t.hist, s.creates[p]);
    if l.Act? { CheckIsShown(s, p, l.view); }
    forall q | 0 <= q < |s.creates| && q != p && SameTag(s.creates[p], s.creates[q])
      ensures !Past(t.hist, t.creates[q])
    {
      if l.Act? { SameCarries(s.hist[l.view], s.creates[p], s.creates[q]); }
      StaysBack(s, l, t, q);
    }
  }

  lemma {:induction false} SettledHolds(states: seq<State>, labels: seq<Label>, p: nat)
    requires Run(states, labels)
    requires var s := states[|labels|];
      && p < |s.creates| && s.creates[p].phase.Silent?
      && Kept(s.hist, s.creates[p]) && !HasTwin(s.hist, s.creates[p])
    ensures Settled(states[|labels|], p)
    decreases |labels|
  {
    var n := |labels| - 1;
    assert n >= 0;
    var s, t := states[n], states[n + 1];
    assert Next(s, labels[n], t) && Run(states[..n + 1], labels[..n]);
    InvHolds(states[..n + 1], labels[..n]);
    HistoryStep(s, labels[n], t);
    if ActsAs(labels[n], p) {
      TurnsSettled(s, labels[n], t);
    } else {
      KeptBefore(s.hist, t.hist, t.creates[p]);
      assert forall k :: 0 <= k < |s.hist| ==> t.hist[k] == s.hist[k];
      SettledHolds(states[..n + 1], labels[..n], p);
      StaysSettled(s, labels[n], t, p);
    }
  }

  /** The main result: in every run of any number of creates, whoever else does what and
      however far the list lags, a create that ended silently, and whose VM has kept the tag,
      is alone, unless the list could show a twin of its VM from before it was made. */
  lemma SilentSuccessIsAlone(states: seq<State>, labels: seq<Label>, p: nat)
    requires Run(states, labels)
    requires var s := states[|labels|];
      && p < |s.creates| && s.creates[p].phase.Silent?
      && Kept(s.hist, s.creates[p]) && !HasTwin(s.hist, s.creates[p])
    ensures Alone(states[|labels|], p)
  {
    SettledHolds(states, labels, p);
    var s := states[|labels|];
    forall v | s.seen <= v < |s.hist| ensures Listed(s.hist[v], s.creates[p].phase.g.id, s.creates[p].tag) {
      CheckIsShown(s, p, v);
    }
  }

  /** It is enough that the VMID was not used under the tag before. */
  lemma UnusedVmidHasNoTwin(hist: seq<set<Guest>>, c: Create)
    requires Made(c.phase) && c.phase.at <= |hist|
    requires forall k, h :: 0 <= k < c.phase.at && h in hist[k] && h.qemu && h.vmid == c.vmid ==> !Carries(h, c.tag)
    ensures !HasTwin(hist, c)
  {
  }

  // ---- and exactly then ----

  lemma Extend(states: seq<State>, labels: seq<Label>, l: Label, t: State)
    requires Run(states, labels) && states[|labels|].hist != [] && Next(states[|labels|], l, t)
    ensures Run(states + [t], labels + [l])
  {
  }

  ghost predicate Continues(states: seq<State>, labels: seq<Label>, ss: seq<State>, ls: seq<Label>) {
    Run(ss, ls) && states <= ss && labels <= ls
  }

  /** The run goes on and comes to a state in which the create was misled. */
  ghost predicate CanBeMisled(states: seq<State>, labels: seq<Label>, p: nat) {
    exists ss: seq<State>, ls: seq<Label> :: Continues(states, labels, ss, ls) && Misled(ss[|ls|], p)
  }

  /** A twin that the list can still show misleads the wait at its next poll. */
  lemma TwinMisleads(states: seq<State>, labels: seq<Label>, p: nat, k: nat)
    requires Run(states, labels)
    requires var s := states[|labels|];
      && p < |s.creates| && s.creates[p].phase.Waiting? && Kept(s.hist, s.creates[p])
      && s.seen <= k < s.creates[p].phase.at && k < |s.hist| && Shows(s.hist[k], s.creates[p])
    ensures CanBeMisled(states, labels, p)
  {
    var s := states[|labels|];
    var c := s.creates[p];
    InvHolds(states, labels);
    assert BirthOk(s, c);
    var silent := Silent(c.phase.g, c.phase.at, c.phase.from);
    var t := s.(creates := s.creates[p := c.(phase := silent)], seen := k, locks := s.locks - {Lower(c.tag)});
    Extend(states, labels, Act(p, silent, k), t);
    assert !Listed(t.hist[k], c.phase.g.id, c.tag);
    assert Misled(t, p);
    var ss, ls := states + [t], labels + [Act(p, silent, k)];
    assert ss[|ls|] == t && Continues(states, labels, ss, ls);
  }

  /** A create's VM, and when it came to be, stay what they are. */
  lemma {:induction false} BirthStays(states: seq<State>, labels: seq<Label>, n: nat, p: nat)
    requires Run(states, labels) && n <= |labels| && p < |states[n].creates| && Made(states[n].creates[p].phase)
    ensures var s, t := states[n], states[|labels|];
      && s.hist <= t.hist && p < |t.creates| && Made(t.creates[p].phase)
      && t.creates[p].tag == s.creates[p].tag && t.creates[p].vmid == s.creates[p].vmid
      && t.creates[p].phase.g == s.creates[p].phase.g && t.creates[p].phase.at == s.creates[p].phase.at
      && t.creates[p].phase.from == s.creates[p].phase.from
    decreases |labels| - n
  {
    if n < |labels| {
      assert Next(states[n], labels[n], states[n + 1]);
      BirthStays(states, labels, n + 1, p);
    }
  }

  /** Whatever the run goes on to, only a twin from before the VM was made misleads. */
  lemma MisledHadTwin(states: seq<State>, labels: seq<Label>, ss: seq<State>, ls: seq<Label>, p: nat)
    requires Run(states, labels) && Continues(states, labels, ss, ls) && Misled(ss[|ls|], p)
    requires var s := states[|labels|];
      p < |s.creates| && Made(s.creates[p].phase) && s.creates[p].phase.at < |s.hist|
    ensures HasTwin(states[|labels|].hist, states[|labels|].creates[p])
  {
    var s, t := states[|labels|], ss[|ls|];
    assert ss[|labels|] == s;
    BirthStays(ss, ls, |labels|, p);
    if !HasTwin(t.hist, t.creates[p]) { SilentSuccessIsAlone(ss, ls, p); }
    var k :| t.creates[p].phase.from <= k < t.creates[p].phase.at && k < |t.hist| && Shows(t.hist[k], t.creates[p]);
    assert t.hist[k] == s.hist[k];
  }

  /** When a VM has just been made: some continuation of the run ends with its create misled
      exactly if the list can show a twin of it. */
  lemma MisledExactlyByTwin(states: seq<State>, labels: seq<Label>, p: nat)
    requires Run(states, labels)
    requires var s := states[|labels|];
      && p < |s.creates| && s.creates[p].phase.Waiting? && s.creates[p].phase.from == s.seen
      && s.creates[p].phase.at == |s.hist| - 1
    ensures CanBeMisled(states, labels, p) <==> HasTwin(states[|labels|].hist, states[|labels|].creates[p])
  {
    var s := states[|labels|];
    var c := s.creates[p];
    InvHolds(states, labels);
    assert BirthOk(s, c);
    if HasTwin(s.hist, c) {
      var k :| c.phase.from <= k < c.phase.at && k < |s.hist| && Shows(s.hist[k], c);
      TwinMisleads(states, labels, p, k);
    }
    if CanBeMisled(states, labels, p) {
      var ss: seq<State>, ls: seq<Label> :| Continues(states, labels, ss, ls) && Misled(ss[|ls|], p);
      MisledHadTwin(states, labels, ss, ls, p);
    }
  }

  // ---- what being misled can lead to ----

  /** Two creates with one tag, for VMIDs 100 and 101. */
  function Two(hist: seq<set<Guest>>, seen: nat, nextId: nat, locks: map<string, nat>,
               first: Phase, second: Phase): State
  {
    State(hist, seen, nextId, locks, [Create("a", 100, first), Create("a", 101, second)])
  }

  function Tagged(id: nat, vmid: nat): Guest { Guest(id, vmid, true, {"a"}) }

  lemma TaggedCarries(id: nat, vmid: nat)
    ensures Carries(Tagged(id, vmid), "a")
  {
  }

  /** The first create passes its check; a guest with the tag and its VMID comes and goes. */
  lemma MisledCheck() returns (states: seq<State>, labels: seq<Label>)
    ensures Run(states, labels)
    ensures states[|labels|] == Two([{}, {Tagged(0, 100)}, {}], 0, 1, map[Lower("a") := 0], Checked, Idle)
  {
    var locks := map[Lower("a") := 0];
    states, labels := [Two([{}], 0, 0, map[], Idle, Idle)], [];
    var s1 := Two([{}], 0, 0, locks, Locked, Idle);
    Extend(states, labels, Act(0, Locked, 0), s1);
    states, labels := states + [s1], labels + [Act(0, Locked, 0)];
    var s2 := Two([{}], 0, 0, locks, Checked, Idle);
    Extend(states, labels, Act(0, Checked, 0), s2);
    states, labels := states + [s2], labels + [Act(0, Checked, 0)];
    var s3 := Two([{}, {Tagged(0, 100)}], 0, 1, locks, Checked, Idle);
    Extend(states, labels, Outside({Tagged(0, 100)}, 1), s3);
    states, labels := states + [s3], labels + [Outside({Tagged(0, 100)}, 1)];
    var s4 := Two([{}, {Tagged(0, 100)}, {}], 0, 1, locks, Checked, Idle);
    Extend(states, labels, Outside({}, 1), s4);
    states, labels := states + [s4], labels + [Outside({}, 1)];
  }

  /** Its wait is shown that guest and ends silently. */
  lemma MisledWait() returns (states: seq<State>, labels: seq<Label>)
    ensures Run(states, labels)
    ensures states[|labels|]
         == Two([{}, {Tagged(0, 100)}, {}, {Tagged(1, 100)}], 1, 2, map[], Silent(Tagged(1, 100), 3, 0), Idle)
  {
    states, labels := MisledCheck();
    TaggedCarries(0, 100);
    TaggedCarries(1, 100);
    var hist := [{}, {Tagged(0, 100)}, {}, {Tagged(1, 100)}];
    var made := Waiting(Tagged(1, 100), 3, 0);
    var s5 := Two(hist, 0, 2, map[Lower("a") := 0], made, Idle);
    assert {} + {Tagged(1, 100)} == {Tagged(1, 100)};
    assert s5.hist == states[|labels|].hist + [{} + {Tagged(1, 100)}];
    Extend(states, labels, Act(0, made, 0), s5);
    states, labels := states + [s5], labels + [Act(0, made, 0)];
    assert Finds(hist[1], "a", Tagged(0, 100));
    var silent := Silent(Tagged(1, 100), 3, 0);
    var s6 := Two(hist, 1, 2, map[], silent, Idle);
    Extend(states, labels, Act(0, silent, 1), s6);
    states, labels := states + [s6], labels + [Act(0, silent, 1)];
  }

  /** A wait that took a twin for its own VM, and a next create that is shown a list from
      between the two, passes its check and makes a second VM while the first one exists. */
  lemma ReusedVmidMisleads() returns (states: seq<State>, labels: seq<Label>)
    ensures Run(states, labels)
    ensures var s := states[|labels|];
      && |s.creates| == 2 && Misled(s, 0) && SameTag(s.creates[0], s.creates[1])
      && Made(s.creates[1].phase) && Kept(s.hist, s.creates[1])
  {
    states, labels := MisledWait();
    TaggedCarries(1, 100);
    TaggedCarries(2, 101);
    var hist := [{}, {Tagged(0, 100)}, {}, {Tagged(1, 100)}];
    var silent, made, locks := Silent(Tagged(1, 100), 3, 0), Waiting(Tagged(2, 101), 4, 2), map[Lower("a") := 1];
    var s7 := Two(hist, 1, 2, locks, silent, Locked);
    Extend(states, labels, Act(1, Locked, 1), s7);
    states, labels := states + [s7], labels + [Act(1, Locked, 1)];
    var s8 := Two(hist, 2, 2, locks, silent, Checked);
    Extend(states, labels, Act(1, Checked, 2), s8);
    states, labels := states + [s8], labels + [Act(1, Checked, 2)];
    var s9 := Two(hist + [{Tagged(1, 100), Tagged(2, 101)}], 2, 3, locks, silent, made);
    assert {Tagged(1, 100)} + {Tagged(2, 101)} == {Tagged(1, 100), Tagged(2, 101)};
    Extend(states, labels, Act(1, made, 2), s9);
    states, labels := states + [s9], labels + [Act(1, made, 2)];
    assert Tagged(1, 100) in s9.hist[3] && Tagged(1, 100) in s9.hist[4] && Tagged(2, 101) in s9.hist[4];
    assert Kept(s9.hist, s9.creates[0]) && Kept(s9.hist, s9.creates[1]);
  }
}
