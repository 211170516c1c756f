/** The read-compare-mutate engine (internal/idempotent/op.go), once and for every op. */
module Engine {
  import opened Common

  datatype ApplyOutcome = Applied | Conflict | Refused

  /** An op over a state S: S holds the op's own fields, the remote system and whatever
      decides the outcome of each call; C is what a read shows of the current state. The
      optional parts are ReReader, PostApplier and NoopChecker; their bool says whether the
      check passed. */
  datatype Op<!S, !C> = Op(
    read: S -> (Option<C>, S),
    satisfied: (S, C) -> bool,
    apply: S -> (ApplyOutcome, S),
    reRead: Option<S -> (Option<C>, S)>,
    postApply: Option<S -> (bool, S)>,
    postNoop: Option<S -> (bool, S)>)

  datatype Report<C> = Report(changed: bool, before: C, after: C, afterErr: bool, postErr: bool)

  datatype RunError = LockRefused | ReadFailed | ApplyFailed(conflict: bool)

  /** The calls a run makes, in order. */
  datatype Call =
    | Lock | Unlock
    | Read(ok: bool) | Apply(outcome: ApplyOutcome)
    | ReRead(ok: bool) | PostApply(passed: bool) | PostNoop(passed: bool)

  datatype Ended<S, C> = Ended(result: Result<Report<C>, RunError>, state: S, calls: seq<Call>)

  const MAX_CONFLICT_RETRIES := 3

  function RereadOf<S, C>(op: Op<S, C>): S -> (Option<C>, S) {
    if op.reRead.Some? then op.reRead.value else op.read
  }

  /** Run, under the lock, from attempt on. */
  function Attempts<S, C>(op: Op<S, C>, s: S, force: bool, attempt: nat, calls: seq<Call>): Ended<S, C>
    requires 1 <= attempt <= MAX_CONFLICT_RETRIES
    decreases MAX_CONFLICT_RETRIES - attempt
  {
    var (current, s1) := op.read(s);
    if current.None? then Ended(Err(ReadFailed), s1, calls + [Read(false)])
    else if !force && op.satisfied(s1, current.value) then
      NoOp(op, s1, current.value, calls + [Read(true)])
    else
      var (outcome, s2) := op.apply(s1);
      var calls2 := calls + [Read(true), Apply(outcome)];
      match outcome
      case Applied => Changed(op, s2, current.value, calls2)
      case Refused => Ended(Err(ApplyFailed(false)), s2, calls2)
      case Conflict =>
        if attempt < MAX_CONFLICT_RETRIES then Attempts(op, s2, force, attempt + 1, calls2)
        else Ended(Err(ApplyFailed(true)), s2, calls2)
  }

  function NoOp<S, C>(op: Op<S, C>, s: S, current: C, calls: seq<Call>): Ended<S, C> {
    if op.postNoop.None? then Ended(Ok(Report(false, current, current, false, false)), s, calls)
    else
      var (passed, s1) := op.postNoop.value(s);
      Ended(Ok(Report(false, current, current, false, !passed)), s1, calls + [PostNoop(passed)])
  }

  function Changed<S, C>(op: Op<S, C>, s: S, before: C, calls: seq<Call>): Ended<S, C> {
    var (after, s1) := RereadOf(op)(s);
    var calls1 := calls + [ReRead(after.Some?)];
    var report := Report(true, before, if after.Some? then after.value else before, after.None?, false);
    if op.postApply.None? then Ended(Ok(report), s1, calls1)
    else
      var (passed, s2) := op.postApply.value(s1);
      Ended(Ok(report.(postErr := !passed)), s2, calls1 + [PostApply(passed)])
  }

  /** What Run does: nothing at all without the lock, and everything inside one hold. */
  function RunSpec<S, C>(op: Op<S, C>, s: S, force: bool, lockFree: bool): Ended<S, C> {
    if !lockFree then Ended(Err(LockRefused), s, [])
    else
      var e := Attempts(op, s, force, 1, [Lock]);
      e.(calls := e.calls + [Unlock])
  }

  method Run<S, C>(op: Op<S, C>, s0: S, force: bool, lockFree: bool)
    returns (result: Result<Report<C>, RunError>, s: S, calls: seq<Call>)
    ensures Ended(result, s, calls) == RunSpec(op, s0, force, lockFree)
  {
    s, calls := s0, [];
    if !lockFree { return Err(LockRefused), s, calls; }
    calls := [Lock];
    var attempt := 1;
    while true
      invariant 1 <= attempt <= MAX_CONFLICT_RETRIES
      invariant Attempts(op, s0, force, 1, [Lock]) == Attempts(op, s, force, attempt, calls)
      decreases MAX_CONFLICT_RETRIES - attempt
    {
      var (current, s1) := op.read(s);
      s := s1;
      if current.None? {
        return Err(ReadFailed), s, calls + [Read(false)] + [Unlock];
      }
      calls := calls + [Read(true)];
      var report := Report(false, current.value, current.value, false, false);
      if !force && op.satisfied(s, current.value) {
        if op.postNoop.Some? {
          var (passed, s2) := op.postNoop.value(s);
          s, calls, report := s2, calls + [PostNoop(passed)], report.(postErr := !passed);
        }
        return Ok(report), s, calls + [Unlock];
      }
      var (outcome, s2) := op.apply(s);
      ghost var before := calls[..|calls| - 1];
      s, calls := s2, calls + [Apply(outcome)];
      assert calls == before + [Read(true), Apply(outcome)];
      if outcome != Applied {
        if outcome.Conflict? && attempt < MAX_CONFLICT_RETRIES {
          attempt := attempt + 1;
          continue;
        }
        return Err(ApplyFailed(outcome.Conflict?)), s, calls + [Unlock];
      }
      report := report.(changed := true);
      var (after, s3) := RereadOf(op)(s);
      s, calls := s3, calls + [ReRead(after.Some?)];
      report := if after.Some? then report.(after := after.value) else report.(afterErr := true);
      if op.postApply.Some? {
        var (passed, s4) := op.postApply.value(s);
        s, calls, report := s4, calls + [PostApply(passed)], report.(postErr := !passed);
      }
      return Ok(report), s, calls + [Unlock];
    }
  }

  // ---- what every run does, whatever the op ----

  /** k attempts a conflict superseded. */
  function Superseded(k: nat): seq<Call> {
    if k == 0 then [] else [Read(true), Apply(Conflict)] + Superseded(k - 1)
  }

  /** The calls after the superseded attempts, for each way a run can end. */
  function LastCalls<S, C>(op: Op<S, C>, result: Result<Report<C>, RunError>): seq<Call> {
    match result
    case Err(LockRefused) => []
    case Err(ReadFailed) => [Read(false)]
    case Err(ApplyFailed(conflict)) => [Read(true), Apply(if conflict then Conflict else Refused)]
    case Ok(r) =>
      if r.changed then
        [Read(true), Apply(Applied), ReRead(!r.afterErr)] + (if op.postApply.Some? then [PostApply(!r.postErr)] else [])
      else
        [Read(true)] + (if op.postNoop.Some? then [PostNoop(!r.postErr)] else [])
  }

  lemma NoOpShape<S, C>(op: Op<S, C>, s: S, current: C, calls: seq<Call>)
    ensures var e := NoOp(op, s, current, calls);
      && e.result.Ok? && !e.result.value.changed && e.calls == calls + LastCalls(op, e.result)[1..]
  {
  }

  lemma ChangedShape<S, C>(op: Op<S, C>, s: S, before: C, calls: seq<Call>)
    ensures var e := Changed(op, s, before, calls);
      && e.result.Ok? && e.result.value.changed && e.calls == calls + LastCalls(op, e.result)[2..]
  {
    var e := Changed(op, s, before, calls);
    var (after, s1) := RereadOf(op)(s);
    if op.postApply.Some? {
      var (passed, s2) := op.postApply.value(s1);
      assert e.calls == calls + [ReRead(after.Some?)] + [PostApply(passed)];
      assert e.result.value.postErr == !passed && e.result.value.afterErr == after.None?;
    }
  }

  // ---- what a run calls, and why ----

  /** A read that an Apply follows: it showed something, and force or an op that is not
      satisfied with it asks for more. */
  ghost predicate AsksApply<S, C>(op: Op<S, C>, force: bool, start: S) {
    var (current, s) := op.read(start);
    current.Some? && (force || !op.satisfied(s, current.value))
  }

  /** Each attempt but the last read, applied and met a conflict, and the next began in the
      state that left. */
  ghost predicate Retried<S, C>(op: Op<S, C>, force: bool, starts: seq<S>) {
    forall i :: 0 <= i < |starts| - 1 ==>
      AsksApply(op, force, starts[i]) && op.apply(op.read(starts[i]).1) == (Conflict, starts[i + 1])
  }

  /** A report of no change: the read was satisfied, without force, and shows in the report. */
  ghost predicate NoChangeReported<S, C>(op: Op<S, C>, force: bool, start: S, r: Report<C>, end: S) {
    var (current, s) := op.read(start);
    && !force && current.Some? && op.satisfied(s, current.value)
    && r.before == r.after == current.value && !r.afterErr
    && (if op.postNoop.None? then end == s && !r.postErr else op.postNoop.value(s) == (!r.postErr, end))
  }

  /** A report of a change: an Apply succeeded; Before is what the read before it showed,
      After what the read after it showed, if it showed anything. */
  ghost predicate ChangeReported<S, C>(op: Op<S, C>, force: bool, start: S, r: Report<C>, end: S) {
    && AsksApply(op, force, start)
    && var (outcome, s) := op.apply(op.read(start).1);
       var (after, s1) := if op.reRead.Some? then op.reRead.value(s) else op.read(s);
    && outcome.Applied? && Some(r.before) == op.read(start).0
    && after == (if r.afterErr then None else Some(r.after)) && (r.afterErr ==> r.after == r.before)
    && (if op.postApply.None? then end == s1 && !r.postErr else op.postApply.value(s1) == (!r.postErr, end))
  }

  /** How a run's last attempt, begun in start, explains its end. */
  ghost predicate Explains<S, C>(op: Op<S, C>, force: bool, start: S, e: Ended<S, C>) {
    match e.result
    case Ok(r) =>
      if r.changed then ChangeReported(op, force, start, r, e.state) else NoChangeReported(op, force, start, r, e.state)
    case Err(LockRefused) => false
    case Err(ReadFailed) => op.read(start) == (None, e.state)
    case Err(ApplyFailed(conflict)) =>
      && AsksApply(op, force, start)
      && op.apply(op.read(start).1) == (if conflict then Conflict else Refused, e.state)
  }

  lemma NoOpExplained<S, C>(op: Op<S, C>, start: S, calls: seq<Call>)
    requires op.read(start).0.Some? && op.satisfied(op.read(start).1, op.read(start).0.value)
    ensures var e := NoOp(op, op.read(start).1, op.read(start).0.value, calls);
      e.result.Ok? && !e.result.value.changed && NoChangeReported(op, false, start, e.result.value, e.state)
  {
  }

  lemma ChangedExplained<S, C>(op: Op<S, C>, force: bool, start: S, calls: seq<Call>)
    requires AsksApply(op, force, start) && op.apply(op.read(start).1).0.Applied?
    ensures var e := Changed(op, op.apply(op.read(start).1).1, op.read(start).0.value, calls);
      e.result.Ok? && e.result.value.changed && ChangeReported(op, force, start, e.result.value, e.state)
  {
  }

  /** The states that the attempts begin in, from any attempt on. */
  lemma {:induction false} AttemptsShape<S, C>(op: Op<S, C>, s: S, force: bool, attempt: nat, calls: seq<Call>)
    returns (starts: seq<S>)
    requires 1 <= attempt <= MAX_CONFLICT_RETRIES
    ensures starts != [] && starts[0] == s && attempt + |starts| - 1 <= MAX_CONFLICT_RETRIES
    ensures var e := Attempts(op, s, force, attempt, calls);
      && Retried(op, force, starts) && Explains(op, force, starts[|starts| - 1], e)
      && e.calls == calls + Superseded(|starts| - 1) + LastCalls(op, e.result)
      && (e.result == Err(ApplyFailed(true)) ==> attempt + |starts| - 1 == MAX_CONFLICT_RETRIES)
    decreases MAX_CONFLICT_RETRIES - attempt
  {
    var e := Attempts(op, s, force, attempt, calls);
    var (current, s1) := op.read(s);
    assert calls + Superseded(0) == calls;
    if AsksApply(op, force, s) {
      var (outcome, s2) := op.apply(s1);
      if outcome.Conflict? && attempt < MAX_CONFLICT_RETRIES {
        var calls2 := calls + [Read(true), Apply(outcome)];
        var later := AttemptsShape(op, s2, force, attempt + 1, calls2);
        starts := [s] + later;
        RetriedFirst(op, force, s, later);
        assert calls2 + Superseded(|later| - 1) == calls + Superseded(|later|);
        assert starts[|starts| - 1] == later[|later| - 1];
        return;
      }
      if outcome.Applied? {
        ChangedShape(op, s2, current.value, calls + [Read(true), Apply(Applied)]);
        ChangedExplained(op, force, s, calls + [Read(true), Apply(Applied)]);
      }
    } else if current.Some? {
      NoOpShape(op, s1, current.value, calls + [Read(true)]);
      NoOpExplained(op, s, calls + [Read(true)]);
    }
    starts := [s];
    assert e.calls == calls + LastCalls(op, e.result);
  }

  lemma RetriedFirst<S, C>(op: Op<S, C>, force: bool, s: S, later: seq<S>)
    requires later != [] && Retried(op, force, later)
    requires AsksApply(op, force, s) && op.apply(op.read(s).1) == (Conflict, later[0])
    ensures Retried(op, force, [s] + later)
  {
    var starts := [s] + later;
    forall i | 0 <= i < |starts| - 1
      ensures AsksApply(op, force, starts[i]) && op.apply(op.read(starts[i]).1) == (Conflict, starts[i + 1])
    {
      if i > 0 { assert starts[i] == later[i - 1] && starts[i + 1] == later[i]; }
    }
  }

  /** Every run. Without the lock it calls nothing. With it, it makes at most three
      attempts, each after a conflict of the one before, and every call inside one hold; an
      Apply follows only a read that force or an unsatisfied op makes it follow; the last
      attempt explains the report and the error, and the calls are the ones it tells of. */
  lemma RunShape<S, C>(op: Op<S, C>, s: S, force: bool) returns (starts: seq<S>)
    ensures RunSpec(op, s, force, false) == Ended(Err(LockRefused), s, [])
    ensures 1 <= |starts| <= 3 && starts[0] == s
    ensures var e := RunSpec(op, s, force, true);
      && Retried(op, force, starts) && Explains(op, force, starts[|starts| - 1], e)
      && e.calls == [Lock] + Superseded(|starts| - 1) + LastCalls(op, e.result) + [Unlock]
      && (e.result == Err(ApplyFailed(true)) ==> |starts| == 3)
  {
    starts := AttemptsShape(op, s, force, 1, [Lock]);
  }

  /** Forced, a run never ends well without an Apply that succeeded. */
  lemma ForceApplies<S, C>(op: Op<S, C>, s: S, lockFree: bool)
    ensures var e := RunSpec(op, s, true, lockFree);
      e.result.Ok? ==> e.result.value.changed && Apply(Applied) in e.calls
  {
    if lockFree {
      var starts := RunShape(op, s, true);
      var e := RunSpec(op, s, true, true);
      if e.result.Ok? { assert LastCalls(op, e.result)[1] == Apply(Applied); }
    }
  }

  /** A contract for an op: idle holds until an Apply ends in something other than a
      conflict; done after an Apply that succeeded; failed after one that was refused. */
  datatype Contract<!S(!new)> = Contract(ghost idle: S -> bool, ghost done: S -> bool, ghost failed: S -> bool)

  ghost predicate Meets<S(!new), C>(op: Op<S, C>, c: Contract<S>) {
    && (forall s: S {:trigger op.read(s)} :: c.idle(s) ==> c.idle(op.read(s).1))
    && (forall s: S {:trigger op.apply(s)} :: c.idle(s) ==>
          match op.apply(s).0
          case Conflict => c.idle(op.apply(s).1)
          case Applied => c.done(op.apply(s).1)
          case Refused => c.failed(op.apply(s).1))
    && (forall s: S {:trigger RereadOf(op)(s)} :: c.done(s) ==> c.done(RereadOf(op)(s).1))
    && (op.postApply.Some? ==> forall s: S {:trigger op.postApply.value(s)} ::
          c.done(s) ==> c.done(op.postApply.value(s).1))
    && (op.postNoop.Some? ==> forall s: S {:trigger op.postNoop.value(s)} ::
          c.idle(s) ==> c.idle(op.postNoop.value(s).1))
  }

  /** The contract that gives what holds after each outcome, and before any what holds after
      a conflict. */
  ghost function ContractOf<S(!new)>(holds: (ApplyOutcome, S) -> bool): Contract<S> {
    Contract(s => holds(Conflict, s), s => holds(Applied, s), s => holds(Refused, s))
  }

  lemma MeetsByOutcome<S(!new), C>(op: Op<S, C>, holds: (ApplyOutcome, S) -> bool)
    requires op.reRead.None? && op.postApply.None? && op.postNoop.None?
    requires forall outcome: ApplyOutcome, s: S :: holds(outcome, s) ==> holds(outcome, op.read(s).1)
    requires forall s: S {:trigger op.apply(s)} :: holds(Conflict, s) ==> holds(op.apply(s).0, op.apply(s).1)
    ensures Meets(op, ContractOf(holds))
  {
  }

  ghost predicate Ends<S(!new), C>(e: Ended<S, C>, c: Contract<S>) {
    match e.result
    case Err(ApplyFailed(false)) => c.failed(e.state)
    case Err(_) => c.idle(e.state)
    case Ok(r) => if r.changed then c.done(e.state) else c.idle(e.state)
  }

  lemma {:induction false} AttemptsKeepContract<S(!new), C>(op: Op<S, C>, c: Contract<S>, s: S, force: bool,
                                                            attempt: nat, calls: seq<Call>)
    requires 1 <= attempt <= MAX_CONFLICT_RETRIES
    requires Meets(op, c) && c.idle(s)
    ensures Ends(Attempts(op, s, force, attempt, calls), c)
    decreases MAX_CONFLICT_RETRIES - attempt
  {
    var (current, s1) := op.read(s);
    if current.Some? && (force || !op.satisfied(s1, current.value)) {
      var (outcome, s2) := op.apply(s1);
      if outcome.Conflict? && attempt < MAX_CONFLICT_RETRIES {
        AttemptsKeepContract(op, c, s2, force, attempt + 1, calls + [Read(true), Apply(outcome)]);
      }
    }
  }

  /** The engine's proof rule: an op that meets a contract call by call ends every run
      in the state the contract gives that result. */
  lemma RunKeepsContract<S(!new), C>(op: Op<S, C>, c: Contract<S>, s: S, force: bool, lockFree: bool)
    requires Meets(op, c) && c.idle(s)
    ensures Ends(RunSpec(op, s, force, lockFree), c)
  {
    if lockFree { AttemptsKeepContract(op, c, s, force, 1, [Lock]); }
  }
}
