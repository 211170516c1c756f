/** PVE's node-wide network staging area and the calls both network ops share
    (internal/idempotent/networkbridge.go). */
module NetworkStage {
  import opened Common

  type Fields = map<string, string>

  /** An interfaces file: every interface's fields, by name. */
  type Config = map<string, Fields>

  datatype Link = Link(present: bool, up: bool)

  const NO_LINK := Link(false, false)

  /** A node: what runs, what is staged over it, the apply worker of a commit that has
      not run yet, the kernel's links, and each file that a worker took, in order. How
      often someone else has acted (moves), and how often by more than staging or
      discarding (edits). */
  datatype NodeState = NodeState(
    running: Config, staged: Option<Config>, worker: bool, links: map<string, Link>, landed: seq<Config>,
    moves: nat, edits: nat)

  /** Reads see the staged file while there is one. */
  function View(s: NodeState): Config {
    if s.staged.Some? then s.staged.value else s.running
  }

  function LinkOf(s: NodeState, iface: string): Link {
    if iface in s.links then s.links[iface] else NO_LINK
  }

  /** The worker consumes the whole staged file, whatever is in it, and reconfigures the
      kernel; with nothing staged it leaves the file as it is. */
  ghost predicate Lands(a: NodeState, b: NodeState) {
    && a.worker
    && b == a.(running := View(a), staged := None, worker := false, links := b.links, landed := a.landed + [View(a)])
  }

  ghost predicate Later(a: NodeState, b: NodeState) {
    a.edits <= b.edits && b.edits - a.edits <= b.moves - a.moves
  }

  /** Nothing but the staging area changed. */
  ghost predicate Intact(a: NodeState, b: NodeState) {
    b.running == a.running && b.worker == a.worker && b.links == a.links && b.landed == a.landed
  }

  /** The pending worker ran once: what runs is the whole of the file that was staged when
      it did. */
  ghost predicate LandedOnce(a: NodeState, b: NodeState) {
    a.worker && !b.worker && b.landed == a.landed + [b.running]
  }

  /** Between two calls a pending worker may land, and anyone else may do anything. While
      they only stage and discard, nothing else changes. */
  ghost predicate Ticks(a: NodeState, b: NodeState) {
    && Later(a, b)
    && (a.moves == b.moves ==> b == a || Lands(a, b))
    && (a.edits == b.edits ==> Intact(a, b) || LandedOnce(a, b))
  }

  /** What a stage asked for. */
  datatype Request = Post(fields: Fields) | Put(iface: string, fields: Fields) | Delete(iface: string)

  datatype Write = Stage(request: Request, ok: bool) | Commit(ok: bool) | Revert(ok: bool)

  datatype Fetched = Found(fields: Fields) | Missing | Unreadable

  /** No worker is pending and nobody else acts. */
  ghost predicate Undisturbed(a: NodeState, b: NodeState) {
    !a.worker && a.moves == b.moves
  }

  /** No worker is pending, and whoever else acts only stages and discards. */
  ghost predicate OnlyStaging(a: NodeState, b: NodeState) {
    !a.worker && a.edits == b.edits
  }

  /** A whole-node discard: whether or not the pending worker got there first. */
  ghost predicate Discards(a: NodeState, ok: bool, b: NodeState) {
    && Later(a, b)
    && (ok ==> b.staged.None?)
    && (a.moves == b.moves ==>
          || b == a.(staged := b.staged)
          || (LandedOnce(a, b) && b.running == View(a)))
    && (a.edits == b.edits ==> Intact(a, b) || LandedOnce(a, b))
  }

  class Node {
    var st: NodeState
    ghost var trace: seq<NodeState> // the node as each call of ours found or left it
    ghost var writes: seq<Write>
    ghost var faults: nat // calls that got no usable answer

    constructor (st: NodeState)
      ensures this.st == st && trace == [] && writes == [] && faults == 0
    {
      this.st, trace, writes, faults := st, [], [], 0;
    }

    method Tick()
      modifies this`st
      ensures Ticks(old(st), st)
    {
      var staging: bool, landing: bool, again: bool, editing: bool := *, *, *, *;
      if staging { StageOutside(); }
      if landing && st.worker { Land(); }
      if again { StageOutside(); }
      if editing {
        var r: Config, s: Option<Config>, w: bool, l: map<string, Link>, f: seq<Config> := *, *, *, *, *;
        st := NodeState(r, s, w, l, f, st.moves + 1, st.edits + 1);
      }
    }

    /** Anyone else stages, changes what is staged, or discards it, any number of times. */
    method StageOutside()
      modifies this`st
      ensures st == old(st).(staged := st.staged, moves := old(st.moves) + 1)
    {
      var s: Option<Config> := *;
      st := st.(staged := s, moves := st.moves + 1);
    }

    method Land()
      requires st.worker
      modifies this`st
      ensures Lands(old(st), st)
    {
      var l: map<string, Link> := *;
      st := st.(running := View(st), staged := None, worker := false, links := l, landed := st.landed + [View(st)]);
    }

    /** GET of one interface. */
    method FetchInterface(iface: string) returns (r: Fetched)
      modifies this`st, this`trace, this`faults
      ensures trace == old(trace) + [st]
      ensures Ticks(old(st), st)
      ensures r.Found? ==> iface in View(st) && r.fields == View(st)[iface]
      ensures r.Missing? ==> iface !in View(st)
      ensures faults == old(faults) + (if r.Unreadable? then 1 else 0)
    {
      Tick();
      var readable: bool := *;
      r := if !readable then Unreadable else if iface in View(st) then Found(View(st)[iface]) else Missing;
      trace, faults := trace + [st], faults + if readable then 0 else 1;
    }

    /** GET of the list; an empty list is refused. */
    method FetchAll() returns (r: Option<Config>)
      modifies this`st, this`trace, this`faults
      ensures trace == old(trace) + [st]
      ensures Ticks(old(st), st)
      ensures r.Some? ==> r.value == View(st)
      ensures if r.Some? || View(st) == map[] then faults >= old(faults) else faults == old(faults) + 1
    {
      Tick();
      var readable: bool := *;
      r := if readable && View(st) != map[] then Some(View(st)) else None;
      trace, faults := trace + [st], faults + if readable then 0 else 1;
    }

    method LinkState(iface: string) returns (r: Option<Link>)
      modifies this`st, this`trace, this`faults
      ensures trace == old(trace) + [st]
      ensures Ticks(old(st), st)
      ensures r.Some? ==> r.value == LinkOf(st, iface)
      ensures faults == old(faults) + (if r.None? then 1 else 0)
    {
      Tick();
      var readable: bool := *;
      r := if readable then Some(LinkOf(st, iface)) else None;
      trace, faults := trace + [st], faults + if readable then 0 else 1;
    }

    /** The request is all that is known of a stage: PVE may write anything into the
        staging area on it, and may have done so even when the call failed. */
    method StageRequest(request: Request) returns (ok: bool)
      modifies this
      ensures trace == old(trace) + [st]
      ensures writes == old(writes) + [Stage(request, ok)] && faults == old(faults) + (if ok then 0 else 1)
      ensures Later(old(st), st) && (ok ==> st.staged.Some?)
      ensures Undisturbed(old(st), st) ==> st == old(st).(staged := st.staged)
      ensures OnlyStaging(old(st), st) ==> Intact(old(st), st)
    {
      Tick();
      ok := *;
      var effect: bool, c: Config := *, *;
      if ok || effect { st := st.(staged := Some(c)); }
      writes, trace, faults := writes + [Stage(request, ok)], trace + [st], faults + if ok then 0 else 1;
    }

    /** Starts the apply worker; without an answer it may have been started. */
    method CommitStage() returns (ok: bool)
      modifies this
      ensures trace == old(trace) + [st]
      ensures writes == old(writes) + [Commit(ok)] && faults == old(faults) + (if ok then 0 else 1)
      ensures Later(old(st), st) && (ok ==> st.worker)
      ensures Undisturbed(old(st), st) ==> st == old(st).(worker := st.worker)
      ensures OnlyStaging(old(st), st) ==> Intact(old(st).(worker := st.worker), st)
    {
      Tick();
      ok := *;
      var started: bool := *;
      if ok || started { st := st.(worker := true); }
      writes, trace, faults := writes + [Commit(ok)], trace + [st], faults + if ok then 0 else 1;
    }

    /** The whole-node discard of whatever is staged. */
    method RevertStage() returns (ok: bool)
      modifies this
      ensures trace == old(trace) + [st]
      ensures writes == old(writes) + [Revert(ok)] && faults == old(faults) + (if ok then 0 else 1)
      ensures Discards(old(st), ok, st)
    {
      Tick();
      ok := *;
      var effect: bool := *;
      if ok || effect { st := st.(staged := None); }
      writes, trace, faults := writes + [Revert(ok)], trace + [st], faults + if ok then 0 else 1;
    }

    /** A task that ended well has run; one that did not may have. */
    method WaitForTask() returns (ok: bool)
      modifies this`st, this`trace, this`faults
      ensures trace == old(trace) + [st]
      ensures Ticks(old(st), st)
      ensures ok && old(st).worker && st.moves == old(st.moves) ==> Lands(old(st), st)
      ensures ok && old(st).worker && st.edits == old(st.edits) ==> LandedOnce(old(st), st)
      ensures faults == old(faults) + (if ok then 0 else 1)
    {
      Tick();
      ok := *;
      if ok && st.worker { Land(); }
      trace, faults := trace + [st], faults + if ok then 0 else 1;
    }
  }

  // ---- what every Apply does with the staging area ----

  /** The writes of one Apply. */
  ghost predicate Disciplined(before: seq<Write>, after: seq<Write>, ok: bool) {
    && before <= after
    && var w := after[|before|..];
       if ok then |w| == 2 && w[0].Stage? && w[0].ok && w[1] == Commit(true)
       else
         || w == []
         || (|w| == 1 && w[0].Stage? && !w[0].ok)
         || (|w| == 2 && w[0].Stage? && w[0].ok && (w[1].Revert? || w[1] == Commit(true)))
         || (|w| == 3 && w[0].Stage? && w[0].ok && w[1] == Commit(false) && w[2].Revert?)
  }

  /** One more write, a discard. */
  ghost predicate Discarded(before: seq<Write>, after: seq<Write>) {
    |after| == |before| + 1 && after[..|before|] == before && after[|before|].Revert?
  }

  /** The writes from the commit on. */
  ghost predicate CommitWrites(w: seq<Write>, ok: bool) {
    w == [Commit(true)] || (!ok && |w| == 2 && w[0] == Commit(false) && w[1].Revert?)
  }

  ghost predicate Committed(before: seq<Write>, after: seq<Write>)
    requires before <= after
  {
    exists i :: |before| <= i < |after| && after[i].Commit?
  }

  /** After a discard that succeeded, nothing is left staged. */
  ghost predicate Cleared(before: seq<Write>, after: seq<Write>, b: NodeState)
    requires before <= after
  {
    after != before && after[|after| - 1] == Revert(true) ==> b.staged.None?
  }

  /** The running file is the old one, and no worker is pending, whoever else stages or
      discards. */
  ghost predicate KeepsRunning(a: NodeState, b: NodeState) {
    Later(a, b) && (OnlyStaging(a, b) ==> Intact(a, b))
  }

  /** Whoever else stages or discards: the running file is the old one, or the whole of the
      file that was staged at the instant the worker took it; and if nobody else acts, that
      is the file that was pending at the start. */
  ghost predicate NeverMixed(a: NodeState, b: NodeState) {
    && Later(a, b)
    && (OnlyStaging(a, b) ==>
          || (b.running == a.running && b.landed == a.landed)
          || (!b.worker && b.landed == a.landed + [b.running]))
    && (Undisturbed(a, b) ==> b.running == a.running || b.running == View(a))
  }

  /** A commit whose task ended well: the running file is the whole of the file that was
      staged when the worker took it, and if nobody else acted, the one pending at the start. */
  ghost predicate RunsWhole(a: NodeState, b: NodeState) {
    && (OnlyStaging(a, b) ==> !b.worker && b.landed == a.landed + [b.running])
    && (Undisturbed(a, b) ==> b.running == View(a))
  }

  // ---- the guard's comparisons ----

  /** SHA-256 of the canonical JSON, as a hex digest: it tells field maps apart. */
  ghost predicate GoodHash(hash: Fields -> string) {
    && (forall f: Fields :: hash(f) != "")
    && (forall f: Fields, g: Fields :: hash(f) == hash(g) ==> f == g)
  }

  function CanonicalHash(hash: Fields -> string, fields: Fields): string {
    hash(fields - {"digest"})
  }

  /** The same interface, as far as the node-wide digest aside. */
  predicate SameStanza(f: Fields, g: Fields) {
    f - {"digest"} == g - {"digest"}
  }

  /** Every other interface is there or not alike, and the same. */
  ghost predicate SameOthers(a: Config, b: Config, iface: string) {
    forall name ::
        name != iface ==> (name in a <==> name in b) && (name in a && name in b ==> SameStanza(a[name], b[name]))
  }
}
