/** The token phase of a bootstrap run (internal/bootstrap/rotation.go).

    One PVE token name, this roster's copy of it, and a run whose remote commands can
    be refused, fail before or after taking effect, or time out and land later. */
module Rotation {
  import opened Common

  /** A token's secret. PVE never hands out the same secret twice, so a secret is the
      serial number of the mint that produced it: a token was created by a run exactly
      when its serial is not below the counter that run started from. */
  type Secret = nat

  /** A write whose command timed out and that PVE may still carry out. */
  datatype Late = Nothing | LateAdd(secret: Secret) | LateRemove

  /** The one token of the requested name on PVE. */
  datatype Table = Table(token: Option<Secret>, late: Late)

  datatype RunError = NoCommandSent | Transport | TimedOut

  datatype Reply =
    | Exit(code: nat, parsed: Option<Secret>) // parsed: the secret in the add's output, if it parses
    | Failed(error: RunError)

  /** What ValidateTokenGrants answers. Everything but Granted and Plain is a verdict. */
  datatype Answer = Granted | WrongScope | NoGrants | NotAuthorized | ScopeTooWide | Plain

  predicate IsVerdict(a: Answer) { a.WrongScope? || a.NoGrants? || a.NotAuthorized? || a.ScopeTooWide? }

  predicate PostMintRetryable(a: Answer) { a.NotAuthorized? || a.NoGrants? || a.WrongScope? }

  predicate HeldSecretRejected(a: Answer) { a.NotAuthorized? }

  predicate WriteOutcomeUnknown(e: RunError) { e.TimedOut? }

  /** Between two requests a late write lands, or does not yet. */
  ghost predicate Settles(before: Table, after: Table) {
    || after == before
    || (before.late.LateRemove? && after == Table(None, Nothing))
    || (before.late.LateAdd?
          && after == Table(if before.token.None? then Some(before.late.secret) else before.token, Nothing))
  }

  ghost predicate Removes(before: Table, reply: Reply, after: Table) {
    match reply
    case Exit(code, _) => if code == 0 then after == Table(None, Nothing) else after == before
    case Failed(NoCommandSent) => after == before
    case Failed(Transport) => after == before || after == Table(None, Nothing)
    case Failed(TimedOut) =>
      || after == before || after == Table(None, Nothing)
      || after == Table(before.token, LateRemove)
  }

  ghost predicate Adds(before: Table, next: Secret, reply: Reply, after: Table) {
    match reply
    case Exit(code, parsed) =>
      if code == 0 then
        before.token.None? && after == Table(Some(next), Nothing) && (parsed.Some? ==> parsed.value == next)
      else
        after == before
    case Failed(NoCommandSent) => after == before
    case Failed(Transport) => after == before || after == Table(Some(next), Nothing)
    case Failed(TimedOut) =>
      || after == before || after == Table(Some(next), Nothing)
      || after == Table(before.token, LateAdd(next))
  }

  /** A pveum command as PVE got it: a remove names the token that was there. */
  datatype Command =
    | Add(addReply: Reply)
    | Remove(target: Option<Secret>, reply: Reply)
    | List(present: Option<bool>)
    | Grant(granted: bool)

  predicate Done(reply: Reply) { reply.Exit? && reply.code == 0 }

  /** PVE, reached over SSH (pveum) and over the API (the grant validation). Only this
      run writes the token. */
  class Pve {
    var table: Table
    var next: Secret                         // the serial the next mint gets
    ghost var asked: seq<(Secret, Answer)>   // every validation, in order
    ghost var sent: seq<Command>             // every command, in order
    ghost var waits: nat                     // delays before another validation, so far
    ghost var doubts: nat                    // writes that timed out and reads that failed, so far
    ghost var faults: nat                    // calls that did not do what they were made for, so far

    constructor (table: Table, next: Secret)
      ensures this.table == table && this.next == next
      ensures asked == [] && sent == [] && waits == 0 && doubts == 0 && faults == 0
    {
      this.table, this.next, asked, sent, waits, doubts, faults := table, next, [], [], 0, 0, 0;
    }

    method Settle()
      modifies this`table
      ensures Settles(old(table), table)
    {
      var lands: bool := *;
      if lands {
        match table.late
        case Nothing =>
        case LateRemove => table := Table(None, Nothing);
        case LateAdd(s) => table := Table(if table.token.None? then Some(s) else table.token, Nothing);
      }
    }

    /** No write is issued while an earlier one may still land. */
    method RemoveToken() returns (reply: Reply)
      requires table.late.Nothing?
      modifies this`table, this`sent, this`doubts, this`faults
      ensures Removes(old(table), reply, table)
      ensures sent == old(sent) + [Remove(old(table.token), reply)]
      ensures faults == old(faults) + (if Done(reply) then 0 else 1)
      ensures doubts == old(doubts) + (if reply == Failed(TimedOut) then 1 else 0)
    {
      reply := *;
      var applied: bool, later: bool := *, *;
      sent := sent + [Remove(table.token, reply)];
      if !Done(reply) { faults := faults + 1; }
      match reply
      case Exit(code, _) => if code == 0 { table := Table(None, Nothing); }
      case Failed(NoCommandSent) =>
      case Failed(Transport) => if applied { table := Table(None, Nothing); }
      case Failed(TimedOut) =>
        doubts := doubts + 1;
        if applied { table := Table(None, Nothing); } else if later { table := table.(late := LateRemove); }
    }

    method AddToken() returns (reply: Reply)
      requires table.late.Nothing?
      modifies this`table, this`next, this`sent, this`doubts, this`faults
      ensures sent == old(sent) + [Add(reply)]
      ensures faults == old(faults) + (if Done(reply) && reply.parsed.Some? then 0 else 1)
      ensures doubts == old(doubts) + (if reply == Failed(TimedOut) then 1 else 0)
      ensures Adds(old(table), old(next), reply, table)
      ensures next == old(next) + (if table == old(table) then 0 else 1)
    {
      reply := *;
      var applied: bool, later: bool := *, *;
      if Done(reply) && table.token.Some? {
        reply := Exit(1, None); // PVE refuses a name that is taken
      }
      if Done(reply) && reply.parsed != Some(next) { reply := Exit(0, None); }
      sent := sent + [Add(reply)];
      if !Done(reply) || reply.parsed.None? { faults := faults + 1; }
      match reply
      case Exit(code, parsed) =>
        if code == 0 {
          table, next := Table(Some(next), Nothing), next + 1;
        }
      case Failed(NoCommandSent) =>
      case Failed(Transport) =>
        if applied && table.token.None? { table, next := Table(Some(next), Nothing), next + 1; }
      case Failed(TimedOut) =>
        doubts := doubts + 1;
        if applied && table.token.None? {
          table, next := Table(Some(next), Nothing), next + 1;
        } else if later {
          table, next := table.(late := LateAdd(next)), next + 1;
        }
    }

    /** A list that was read is truthful. */
    method ListToken() returns (present: Option<bool>)
      modifies this`table, this`sent, this`doubts, this`faults
      ensures Settles(old(table), table)
      ensures present.Some? ==> present.value == table.token.Some?
      ensures sent == old(sent) + [List(present)]
      ensures doubts == old(doubts) + (if present.None? then 1 else 0)
      ensures faults == old(faults) + (if present.None? then 1 else 0)
    {
      Settle();
      var readable: bool := *;
      present := if readable then Some(table.token.Some?) else None;
      sent := sent + [List(present)];
      if !readable { doubts, faults := doubts + 1, faults + 1; }
    }

    /** pveum acl modify, for each grant. */
    method GrantAll() returns (ok: bool)
      modifies this`sent, this`faults
      ensures sent == old(sent) + [Grant(ok)]
      ensures faults == old(faults) + (if ok then 0 else 1)
    {
      ok := *;
      sent := sent + [Grant(ok)];
      if !ok { faults := faults + 1; }
    }

    /** Granted, and every verdict but NotAuthorized, come from a read that
        authenticated (internal/pve/validate.go), so PVE holds exactly that secret. */
    method Validate(secret: Secret) returns (a: Answer)
      modifies this`table, this`asked
      ensures Settles(old(table), table)
      ensures asked == old(asked) + [(secret, a)]
      ensures !a.NotAuthorized? && !a.Plain? ==> table.token == Some(secret)
    {
      Settle();
      a := *;
      if table.token != Some(secret) && !a.Plain? { a := NotAuthorized; }
      asked := asked + [(secret, a)];
    }
  }

  /** The roster's copy: opens says whether it decrypts under this run's passphrase. */
  datatype Held = Held(id: string, secret: Secret, opens: bool)

  /** A failed write leaves the file unchanged. */
  class RosterFile {
    var held: Option<Held>
    ghost var faults: nat // reads and writes that failed, so far
    ghost var metas: nat  // writes of the target's other fields, so far

    constructor (held: Option<Held>)
      ensures this.held == held && faults == 0 && metas == 0
    {
      this.held, faults, metas := held, 0, 0;
    }

    method WriteToken(id: string, secret: Secret) returns (ok: bool)
      modifies this`held, this`faults
      ensures held == if ok then Some(Held(id, secret, true)) else old(held)
      ensures faults == old(faults) + (if ok then 0 else 1)
    {
      ok := *;
      if ok { held := Some(Held(id, secret, true)); } else { faults := faults + 1; }
    }

    method ClearToken() returns (ok: bool)
      modifies this`held, this`faults
      ensures held == if ok then None else old(held)
      ensures faults == old(faults) + (if ok then 0 else 1)
    {
      ok := *;
      if ok { held := None; } else { faults := faults + 1; }
    }

    /** The target's other fields. */
    method PersistMeta() returns (ok: bool)
      modifies this`faults, this`metas
      ensures faults == old(faults) + (if ok then 0 else 1) && metas == old(metas) + (if ok then 1 else 0)
    {
      ok := *;
      if !ok { faults := faults + 1; }
      if ok { metas := metas + 1; }
    }

    method Load() returns (r: Option<Option<Held>>)
      modifies this`faults
      ensures r.Some? ==> r.value == held
      ensures faults == old(faults) + (if r.None? then 1 else 0)
    {
      var ok: bool := *;
      r := if ok then Some(held) else None;
      if !ok { faults := faults + 1; }
    }
  }

  datatype Outcome = NoOutcome | Minted | Replaced | Reused | RevokedNotReplaced | Discarded
  datatype Validation = NoValidation | Verified | Unverified | ValidationFailed | NotRun
  datatype RosterToken = Untouched | Cleared | StaleRevoked | StaleAbsent
  datatype LeftoverState = NoLeftover | Exists | MayExist

  /** Result, as far as the token phase fills it in. */
  datatype Report = Report(
    outcome: Outcome,
    validation: Validation,
    rosterToken: RosterToken,
    priorRevoked: bool,
    priorUnknown: bool,
    leftoverToken: string,
    leftoverState: LeftoverState,
    orphaned: string)

  const BLANK := Report(NoOutcome, NoValidation, Untouched, false, false, "", NoLeftover, "")

  datatype Cause =
    | RosterUnreadable | TokenNotHeld | Undecryptable | NotChecked | SecretRejected | RemoveRefused
    | PriorUnknown | ClearFailed | AddFailed | AddRefused | BadAddOutput | GrantFailed | FreshRejected
    | PersistFailed | MetaNotPersisted | NotVerified

  /** An error: its cause, whether it wraps ErrPriorTokenRevoked, and whether it says
      that a cleanup left a token behind. */
  datatype Failure = Failure(cause: Cause, priorRevoked: bool, leftBehind: bool)

  /** What a run can observe or change, at one instant. */
  datatype World = World(table: Table, next: Secret, held: Option<Held>, doubts: nat)

  /** A token minted from serial n0 on is on PVE, or may still land there. */
  ghost predicate RunTokenLives(w: World, n0: Secret) {
    || (w.table.token.Some? && n0 <= w.table.token.value)
    || (w.table.late.LateAdd? && n0 <= w.table.late.secret)
  }

  ghost predicate HoldsRunToken(w: World, n0: Secret) {
    w.held.Some? && n0 <= w.held.value.secret
  }

  /** The leftover fields never lie: a token this run made that is or may come to be on
      PVE, and that the roster does not hold, is named; and it is said to exist only
      when it does, with no write pending that could still change that. */
  ghost predicate LeftoverHonest(r: Report, w: World, n0: Secret, fullID: string) {
    && (RunTokenLives(w, n0) && !HoldsRunToken(w, n0) ==> r.leftoverToken == fullID)
    && (r.leftoverState.Exists? ==> w.table.token.Some? && n0 <= w.table.token.value && w.table.late.Nothing?)
    && (r.leftoverState.NoLeftover? <==> r.leftoverToken == "")
    && (r.leftoverToken != "" ==> r.leftoverToken == fullID && !HoldsRunToken(w, n0))
  }

  /** The bounded post-mint window, as a function of the answers it got: a success ends
      it, a verdict that cannot be propagation lag ends it, and a plain error ends it
      only while no verdict was seen. */
  ghost predicate Window(answers: seq<(Secret, Answer)>, secret: Secret) {
    && |answers| <= 3
    && (forall i :: 0 <= i < |answers| ==> answers[i].0 == secret)
    && (forall i :: 0 <= i < |answers| - 1 ==> !answers[i].1.Granted? && !answers[i].1.ScopeTooWide?)
    && (|answers| > 1 ==> answers[0].1 in {NotAuthorized, NoGrants, WrongScope})
  }

  const POST_MINT_ATTEMPTS := 3

  /** No answer so far ended it. */
  ghost predicate OpenWindow(answers: seq<(Secret, Answer)>, secret: Secret) {
    && |answers| <= 3
    && (forall i :: 0 <= i < |answers| ==>
          answers[i].0 == secret && !answers[i].1.Granted? && !answers[i].1.ScopeTooWide?)
    && (answers != [] ==> PostMintRetryable(answers[0].1))
  }

  lemma WindowStep(answers: seq<(Secret, Answer)>, secret: Secret, a: Answer)
    requires OpenWindow(answers, secret) && |answers| < 3
    ensures Window(answers + [(secret, a)], secret)
    ensures PostMintRetryable(a) || (answers != [] && !a.Granted? && !a.ScopeTooWide?) ==>
      OpenWindow(answers + [(secret, a)], secret)
  {
  }

  /** The run's state through the token phase. */
  class Runner {
    const pve: Pve
    const roster: RosterFile
    const fullID: string
    var res: Report
    var removed: bool      // this run removed the roster-held token on PVE
    var cleanupErr: bool

    constructor (pve: Pve, roster: RosterFile, fullID: string)
      ensures this.pve == pve && this.roster == roster && this.fullID == fullID
      ensures res == BLANK && !removed && !cleanupErr
    {
      this.pve, this.roster, this.fullID := pve, roster, fullID;
      res, removed, cleanupErr := BLANK, false, false;
    }

    ghost function Faults(): nat
      reads pve`faults, roster`faults
    {
      pve.faults + roster.faults
    }

    ghost function Now(): World
      reads pve, roster
    {
      World(pve.table, pve.next, roster.held, pve.doubts)
    }

    method Fail(cause: Cause) returns (r: Option<Report>, err: Option<Failure>)
      modifies this`res
      ensures res == old(res).(outcome := if removed then RevokedNotReplaced else Discarded,
                               validation := if old(res).validation.NoValidation? then NotRun else old(res).validation)
      ensures r == Some(res) && err == Some(Failure(cause, removed, cleanupErr))
    {
      res := res.(outcome := if removed then RevokedNotReplaced else Discarded);
      if res.validation.NoValidation? { res := res.(validation := NotRun); }
      return Some(res), Some(Failure(cause, removed, cleanupErr));
    }

    method Leftover(state: LeftoverState)
      modifies this`res
      ensures res == old(res).(leftoverToken := fullID, leftoverState := state)
    {
      res := res.(leftoverToken := fullID, leftoverState := state);
    }

    /** Removes the token this run created: it is called only while PVE holds that one,
        and whatever it cannot prove gone it reports. */
    method RemoveFresh(ghost n0: Secret)
      requires pve.table.token.Some? && n0 <= pve.table.token.value && pve.table.late.Nothing?
      requires res.leftoverToken == "" && res.leftoverState.NoLeftover? && fullID != ""
      requires !HoldsRunToken(Now(), n0)
      modifies this`res, this`cleanupErr, pve`table, pve`sent, pve`doubts, pve`faults
      ensures old(pve.faults) <= pve.faults && old(pve.sent) < pve.sent
      ensures pve.sent[|old(pve.sent)|].Remove? && pve.sent[|old(pve.sent)|].target == old(pve.table.token)
      ensures forall i :: |old(pve.sent)| < i < |pve.sent| ==> pve.sent[i].List?
      ensures res.leftoverToken != "" ==> !Done(pve.sent[|old(pve.sent)|].reply)
      ensures old(pve.faults) == pve.faults ==> pve.table == Table(None, Nothing) && res.leftoverToken == ""
      ensures res == old(res).(leftoverToken := res.leftoverToken, leftoverState := res.leftoverState)
      ensures LeftoverHonest(res, Now(), n0, fullID)
      ensures pve.table.token.Some? ==> pve.table.token == old(pve.table.token)
      ensures !pve.table.late.LateAdd?
      ensures cleanupErr == (old(cleanupErr) || res.leftoverToken != "")
      ensures old(pve.doubts) <= pve.doubts && (res.leftoverState.MayExist? ==> old(pve.doubts) < pve.doubts)
    {
      var reply := pve.RemoveToken();
      if reply.Exit? && reply.code == 0 { return; }
      // Failed or ambiguous: read before claiming the token exists.
      var state := Exists;
      var present := pve.ListToken();
      match present {
        case Some(false) => return;
        case None => state := MayExist;
        case Some(true) =>
      }
      if reply.Failed? && WriteOutcomeUnknown(reply.error) {
        state := MayExist; // a timed-out remove may still land
      }
      cleanupErr := true;
      Leftover(state);
    }

    /** The delay before a retry, unless the run is cancelled in it. */
    method Delay() returns (ok: bool)
      modifies pve`waits, pve`faults
      ensures pve.waits == old(pve.waits) + 1 && pve.faults == old(pve.faults) + (if ok then 0 else 1)
    {
      ok := *;
      pve.waits := pve.waits + 1;
      if !ok { pve.faults := pve.faults + 1; }
    }

    /** A verdict that may be propagation lag is given time: only the third one counts,
        unless the run is cancelled. */
    method ValidatePostMint(secret: Secret) returns (verdict: Option<Answer>, nonVerdict: bool)
      requires pve.table.late.Nothing?
      modifies pve`table, pve`asked, pve`waits, pve`faults
      ensures pve.table == old(pve.table) && old(pve.faults) <= pve.faults
      ensures old(pve.faults) == pve.faults ==>
        pve.waits - old(pve.waits) == |pve.asked| - |old(pve.asked)| - 1
      ensures verdict.Some? && verdict.value != ScopeTooWide && old(pve.faults) == pve.faults ==>
        |pve.asked| == |old(pve.asked)| + 3
      ensures old(pve.asked) <= pve.asked
      ensures var answers := pve.asked[|old(pve.asked)|..];
        && answers != [] && Window(answers, secret)
        && (verdict.None? && !nonVerdict <==> answers[|answers| - 1].1.Granted?)
        && (nonVerdict <==> answers == [(secret, Plain)])
        && (verdict.Some? ==> verdict.value != Plain && (secret, verdict.value) in answers)
      ensures verdict.None? && !nonVerdict ==> pve.table.token == Some(secret)
    {
      var sawVerdict: Option<Answer> := None;
      ghost var answers: seq<(Secret, Answer)> := [];
      var attempt := 1;
      while attempt <= POST_MINT_ATTEMPTS
        invariant 1 <= attempt <= POST_MINT_ATTEMPTS + 1
        invariant pve.table == old(pve.table) && pve.faults == old(pve.faults)
        invariant pve.waits == old(pve.waits) + (if attempt > 1 then attempt - 2 else 0)
        invariant pve.asked == old(pve.asked) + answers && |answers| == attempt - 1
        invariant OpenWindow(answers, secret)
        invariant sawVerdict.Some? <==> attempt > 1
        invariant sawVerdict.Some? ==>
            PostMintRetryable(sawVerdict.value) && (secret, sawVerdict.value) in answers
      {
        if attempt > 1 {
          var waited := Delay();
          if !waited { return sawVerdict, false; }
        }
        var a := pve.Validate(secret);
        WindowStep(answers, secret, a);
        answers := answers + [(secret, a)];
        assert answers[|answers| - 1] == (secret, a);
        if a.Granted? {
          return None, false;
        } else if IsVerdict(a) && !PostMintRetryable(a) {
          return Some(a), false;
        } else if PostMintRetryable(a) {
          sawVerdict := Some(a);
        } else if sawVerdict.None? {
          return None, true;
        }
        attempt := attempt + 1;
      }
      return sawVerdict, false;
    }

    /** Every failure of the mint after the add may have run. */
    method Abandon(cause: Cause, ghost w0: World) returns (r: Option<Report>, err: Option<Failure>)
      requires FreshOnly(Now(), w0) && Unreported(res) && !cleanupErr && fullID != ""
      requires cause.FreshRejected? ==> res.validation.ValidationFailed?
      modifies this`res, this`cleanupErr, pve`table, pve`sent, pve`doubts, pve`faults
      ensures old(pve.faults) <= pve.faults && old(pve.sent) <= pve.sent
      ensures r == Some(res)
      ensures Abandoned(w0, old(res), removed, fullID, Now(), res, err)
      ensures err.Some? && err.value.cause == cause
      ensures Swept(w0.next, pve.sent[|old(pve.sent)|..], old(pve.faults) == pve.faults, Now(), res, err.value)
      ensures res.validation == if old(res).validation.NoValidation? then NotRun else old(res).validation
    {
      RemoveFresh(w0.next);
      r, err := Fail(cause);
    }

    /** The add failed without an answer: re-read, never infer. */
    method AddUnanswered(error: RunError, ghost w0: World) returns (r: Option<Report>, err: Option<Failure>)
      requires w0.table == Table(None, Nothing) && Adds(w0.table, w0.next, Failed(error), pve.table)
      requires w0.doubts + (if error.TimedOut? then 1 else 0) <= pve.doubts
      requires w0.next <= pve.next && Bounded(Now())
      requires roster.held == w0.held && (w0.held.Some? ==> w0.held.value.secret < w0.next)
      requires Unreported(res) && !cleanupErr && fullID != ""
      requires res.validation.NoValidation?
      modifies this`res, this`cleanupErr, pve`table, pve`sent, pve`doubts, pve`faults
      ensures old(pve.faults) <= pve.faults && old(pve.sent) <= pve.sent
      ensures r == Some(res)
      ensures Abandoned(w0, old(res), removed, fullID, Now(), res, err)
      ensures err.Some? && err.value.cause == AddFailed && res.validation.NotRun?
      ensures var sent := pve.sent[|old(pve.sent)|..];
        && CleanedUp(w0, sent, 1 + pve.faults - old(pve.faults), Now(), res, err.value)
        && RemovesOwn(sent, w0.next) && sent != []
    {
      var present := pve.ListToken();
      LostAdd(w0, error, old(pve.table), pve.table);
      match present {
        case Some(true) => // ours, but its secret was never received
          ghost var mid := pve.sent;
          assert mid[|old(pve.sent)|..] == [List(present)];
          r, err := Abandon(AddFailed, w0);
          Later(old(pve.sent), mid, pve.sent, w0.next);
          return;
        case None => Leftover(MayExist);
        case Some(false) => if WriteOutcomeUnknown(error) { Leftover(MayExist); }
      }
      r, err := Fail(AddFailed);
    }

    /** The forward half, from a name that is free with nothing pending: add, parse,
        grant, validate, persist. */
    method MintAndPersist(success: Outcome, orphan: string) returns (r: Option<Report>, err: Option<Failure>)
      requires pve.table == Table(None, Nothing)
      requires roster.held.Some? ==> roster.held.value.secret < pve.next
      requires Unreported(res) && !cleanupErr && fullID != ""
      requires (success.Minted? || success.Replaced?) && res.validation.NoValidation?
      modifies this`res, this`cleanupErr, pve, roster
      ensures err.None? ==> old(roster.metas) < roster.metas
      ensures old(pve.asked) <= pve.asked && old(Faults()) <= Faults()
      ensures err.Some? ==> Excused(old(Faults()), Faults(), pve.asked[|old(pve.asked)|..])
      ensures r == Some(res)
      ensures MintContract(old(Now()), old(res), removed, success, orphan, fullID, Now(), res, err)
      ensures err.None? ==> pve.table.token.Some? && (pve.table.token.value, Granted) in pve.asked[|old(pve.asked)|..]
      ensures old(pve.sent) < pve.sent
      ensures MintCommands(old(Now()), pve.sent[|old(pve.sent)|..], pve.asked[|old(pve.asked)|..],
                           Faults() - old(Faults()), Now(), res, err)
    {
      ghost var w0 := Now();
      var reply := pve.AddToken();
      ghost var added := pve.sent;
      assert added[|old(pve.sent)|..] == [Add(reply)];
      if reply.Failed? {
        r, err := AddUnanswered(reply.error, w0);
        Later(old(pve.sent), added, pve.sent, w0.next);
        return;
      }
      if reply.code != 0 {
        r, err := Fail(AddRefused);
        return;
      }
      if reply.parsed.None? {
        r, err := Abandon(BadAddOutput, w0);
        Later(old(pve.sent), added, pve.sent, w0.next);
        return;
      }
      r, err := GrantAndGoOn(reply.parsed.value, success, orphan, w0);
      Later(old(pve.sent), added, pve.sent, w0.next);
    }

    method GrantAndGoOn(secret: Secret, success: Outcome, orphan: string, ghost w0: World)
      returns (r: Option<Report>, err: Option<Failure>)
      requires pve.table == Table(Some(secret), Nothing) && FreshOnly(Now(), w0)
      requires Unreported(res) && !cleanupErr && fullID != ""
      requires (success.Minted? || success.Replaced?) && res.validation.NoValidation?
      modifies this`res, this`cleanupErr, pve`table, pve`asked, pve`sent, pve`waits, pve`doubts, pve`faults, roster
      ensures err.None? ==> old(roster.metas) < roster.metas
      ensures old(pve.asked) <= pve.asked && old(Faults()) <= Faults() && old(pve.sent) < pve.sent
      ensures err.Some? ==> Excused(old(Faults()), Faults(), pve.asked[|old(pve.asked)|..])
      ensures r == Some(res)
      ensures MintContract(w0, old(res), removed, success, orphan, fullID, Now(), res, err)
      ensures err.None? ==> (secret, Granted) in pve.asked[|old(pve.asked)|..] && pve.table.token == Some(secret)
      ensures MintCommands(w0, pve.sent[|old(pve.sent)|..], pve.asked[|old(pve.asked)|..],
                           Faults() - old(Faults()), Now(), res, err)
    {
      var granted := pve.GrantAll();
      ghost var mid := pve.sent;
      assert mid[|old(pve.sent)|..] == [Grant(granted)];
      if !granted {
        r, err := Abandon(GrantFailed, w0);
        Later(old(pve.sent), mid, pve.sent, w0.next);
        return;
      }
      r, err := ValidateAndPersist(secret, success, orphan, w0);
      Later(old(pve.sent), mid, pve.sent, w0.next);
      assert mid[|old(pve.sent)|..][0] == Grant(true);
    }

    method ValidateAndPersist(secret: Secret, success: Outcome, orphan: string, ghost w0: World)
      returns (r: Option<Report>, err: Option<Failure>)
      requires pve.table == Table(Some(secret), Nothing) && FreshOnly(Now(), w0)
      requires Unreported(res) && !cleanupErr && fullID != ""
      requires success.Minted? || success.Replaced?
      modifies this`res, this`cleanupErr, pve`table, pve`asked, pve`sent, pve`waits, pve`doubts, pve`faults, roster
      ensures err.None? ==> old(roster.metas) < roster.metas
      ensures old(pve.asked) <= pve.asked && old(Faults()) <= Faults()
      ensures err.Some? ==> Excused(old(Faults()), Faults(), pve.asked[|old(pve.asked)|..])
      ensures r == Some(res)
      ensures MintContract(w0, old(res), removed, success, orphan, fullID, Now(), res, err)
      ensures err.None? ==> (secret, Granted) in pve.asked[|old(pve.asked)|..] && pve.table.token == Some(secret)
      ensures old(pve.sent) <= pve.sent
      ensures var sent := pve.sent[|old(pve.sent)|..];
        && RemovesOwn(sent, w0.next)
        && (err.Some? && !HoldsRunToken(Now(), w0.next) ==>
              CleanedUp(w0, sent, Faults() - old(Faults()), Now(), res, err.value))
      ensures pve.asked[|old(pve.asked)|..] != []
      ensures ValidationHonest(w0.next, pve.asked[|old(pve.asked)|..], res, err)
    {
      var verdict, nonVerdict := ValidatePostMint(secret);
      if verdict.Some? {
        res := res.(validation := ValidationFailed);
        r, err := Abandon(FreshRejected, w0);
        return;
      }
      res := res.(validation := if nonVerdict then Unverified else Verified);
      r, err := Persist(secret, success, orphan, w0);
    }

    /** What was validated, or could not be, goes into the roster. */
    method Persist(secret: Secret, success: Outcome, orphan: string, ghost w0: World)
      returns (r: Option<Report>, err: Option<Failure>)
      requires pve.table == Table(Some(secret), Nothing) && FreshOnly(Now(), w0)
      requires Unreported(res) && !cleanupErr && fullID != ""
      requires (success.Minted? || success.Replaced?) && (res.validation.Verified? || res.validation.Unverified?)
      modifies this`res, this`cleanupErr, pve`table, pve`sent, pve`doubts, pve`faults, roster
      ensures err.None? ==> old(roster.metas) < roster.metas
      ensures old(Faults()) <= Faults() && old(pve.sent) <= pve.sent
      ensures err.Some? ==> old(Faults()) < Faults() || old(res).validation.Unverified?
      ensures r == Some(res) && res.validation == old(res).validation
      ensures err.Some? ==> !err.value.cause.FreshRejected? && !err.value.cause.AddFailed?
      ensures MintContract(w0, old(res), removed, success, orphan, fullID, Now(), res, err)
      ensures err.None? ==> pve.table.token == Some(secret)
      ensures var sent := pve.sent[|old(pve.sent)|..];
        && RemovesOwn(sent, w0.next)
        && (err.Some? && !HoldsRunToken(Now(), w0.next) ==>
              CleanedUp(w0, sent, Faults() - old(Faults()), Now(), res, err.value))
    {
      var ok := roster.WriteToken(fullID, secret);
      if !ok {
        r, err := Abandon(PersistFailed, w0);
        return;
      }
      res := res.(outcome := success, orphaned := orphan);
      var meta := roster.PersistMeta();
      if !meta { return Some(res), Some(Failure(MetaNotPersisted, false, false)); }
      if res.validation.Unverified? { return Some(res), Some(Failure(NotVerified, false, false)); }
      return Some(res), None;
    }

    /** Whether the roster-held token was revoked is unknown: the roster may point at a
        dead token, so it is cleared. */
    method EndPriorUnknown() returns (r: Option<Report>, err: Option<Failure>)
      modifies this`res, this`removed, roster`held, roster`faults
      ensures old(roster.faults) <= roster.faults
      ensures removed && r == Some(res)
      ensures roster.held == if res.rosterToken.Cleared? then None else old(roster.held)
      ensures res.rosterToken.Cleared? || res.rosterToken.StaleRevoked?
      ensures res == old(res).(priorRevoked := true, priorUnknown := true, rosterToken := res.rosterToken,
                               outcome := RevokedNotReplaced, validation := res.validation)
      ensures res.validation == if old(res).validation.NoValidation? then NotRun else old(res).validation
      ensures err == Some(Failure(PriorUnknown, true, cleanupErr))
    {
      removed := true;
      res := res.(priorRevoked := true, priorUnknown := true);
      var cleared := roster.ClearToken();
      res := res.(rosterToken := if cleared then Cleared else StaleRevoked);
      r, err := Fail(PriorUnknown);
    }

    /** Removes the roster-held token. On stop the run ends with (r, err). */
    method RemoveHeld() returns (r: Option<Report>, err: Option<Failure>, stop: bool)
      requires pve.table.token.Some? && pve.table.late.Nothing?
      requires res == BLANK && !removed && !cleanupErr
      modifies this`res, this`removed, pve`table, pve`sent, pve`doubts, pve`faults, roster`held, roster`faults
      ensures old(Faults()) <= Faults() && (stop ==> old(Faults()) < Faults() && err.Some?)
      ensures old(pve.sent) <= pve.sent
      ensures OnlyRemoves(pve.sent[|old(pve.sent)|..], old(pve.table.token))
      ensures stop && r.None? ==> err == Some(Failure(RemoveRefused, false, false))
      ensures !stop ==> pve.table == Table(None, Nothing) && roster.held == old(roster.held)
                        && removed && res == BLANK.(priorRevoked := true)
      ensures old(pve.doubts) <= pve.doubts
      ensures stop && r.None? ==> err.Some? && pve.table == old(pve.table) && roster.held == old(roster.held)
      ensures stop && r.Some? ==> r == Some(res) && UnknownContract(old(Now()), Now(), res, err)
    {
      var reply := pve.RemoveToken();
      if reply.Exit? {
        if reply.code != 0 { return None, Some(Failure(RemoveRefused, false, false)), true; }
        removed, res := true, res.(priorRevoked := true);
        return None, None, false;
      }
      // Ambiguous: the remove may have run. Re-read, never infer.
      var present := pve.ListToken();
      match present {
        case Some(false) =>
          removed, res := true, res.(priorRevoked := true);
          return None, None, false;
        case Some(true) =>
          if !WriteOutcomeUnknown(reply.error) { return None, Some(Failure(RemoveRefused, false, false)), true; }
        case None =>
      }
      r, err := EndPriorUnknown();
      stop := true;
    }

    /** The token phase: classify the run by what the roster holds, and perform it.
        present is the preflight's truthful answer. */
    method TokenPhase(present: bool) returns (r: Option<Report>, err: Option<Failure>)
      requires Settled(Now()) && present == pve.table.token.Some?
      requires res == BLANK && !removed && !cleanupErr && fullID != ""
      modifies this`res, this`removed, this`cleanupErr, pve, roster
      ensures err.None? ==> old(roster.metas) < roster.metas
      ensures old(Faults()) <= Faults() && old(pve.asked) <= pve.asked
      ensures r.None? ==>
          RefusalJustified(old(Now()), fullID, pve.asked[|old(pve.asked)|..], old(Faults()), Faults(), err)
      ensures r.Some? && err.Some? ==> Excused(old(Faults()), Faults(), pve.asked[|old(pve.asked)|..])
      ensures RunContract(old(Now()), fullID, pve.asked[|old(pve.asked)|..], Now(), r, err)
      ensures old(pve.sent) <= pve.sent
      ensures RunCommands(old(Now()), fullID, pve.sent[|old(pve.sent)|..], pve.asked[|old(pve.asked)|..],
                          Faults() - old(Faults()), Now(), r, err)
    {
      var loaded := roster.Load();
      if loaded.None? { return None, Some(Failure(RosterUnreadable, false, false)); }
      var held := loaded.value;
      if held.None? || held.value.id != fullID {
        if present { return None, Some(Failure(TokenNotHeld, false, false)); }
        // A changed token id: the old token is never removed or cleared.
        r, err := MintAndPersist(Minted, if held.None? then "" else held.value.id);
        return;
      }
      r, err := HeldPhase(held.value, present);
    }

    /** The roster holds exactly the requested token. */
    method HeldPhase(held: Held, present: bool) returns (r: Option<Report>, err: Option<Failure>)
      requires Settled(Now()) && present == pve.table.token.Some? && roster.held == Some(held) && held.id == fullID
      requires res == BLANK && !removed && !cleanupErr && fullID != ""
      modifies this`res, this`removed, this`cleanupErr, pve, roster
      ensures err.None? ==> old(roster.metas) < roster.metas
      ensures old(Faults()) <= Faults() && old(pve.asked) <= pve.asked
      ensures r.None? ==>
          RefusalJustified(old(Now()), fullID, pve.asked[|old(pve.asked)|..], old(Faults()), Faults(), err)
      ensures r.Some? && err.Some? ==> Excused(old(Faults()), Faults(), pve.asked[|old(pve.asked)|..])
      ensures RunContract(old(Now()), fullID, pve.asked[|old(pve.asked)|..], Now(), r, err)
      ensures old(pve.sent) <= pve.sent
      ensures RunCommands(old(Now()), fullID, pve.sent[|old(pve.sent)|..], pve.asked[|old(pve.asked)|..],
                          Faults() - old(Faults()), Now(), r, err)
    {
      if !held.opens {
        // Not a verdict about the token: a wrong passphrase fails the same way.
        if present { return None, Some(Failure(Undecryptable, false, false)); }
        ghost var w0 := Now();
        r, err := ReplaceHeld(present);
        Absent(w0, pve.asked[|old(pve.asked)|..], pve.sent[|old(pve.sent)|..], Faults() - old(Faults()), Now(), r, err);
        return;
      }
      var a := pve.Validate(held.secret);
      ghost var mid := pve.asked;
      assert mid[|old(pve.asked)|..] == [(held.secret, a)];
      if a.Granted? {
        res := res.(outcome := Reused, validation := Verified);
        var meta := roster.PersistMeta();
        return Some(res), if meta then None else Some(Failure(MetaNotPersisted, false, false));
      }
      if !IsVerdict(a) { return None, Some(Failure(NotChecked, false, false)); }
      if present && HeldSecretRejected(a) { return None, Some(Failure(SecretRejected, false, false)); }
      r, err := ReplaceCondemned(held, present, a);
      LaterAnswers(old(pve.asked), mid, pve.asked);
    }

    /** PVE answered a verdict about the held token. */
    method ReplaceCondemned(held: Held, present: bool, ghost a: Answer)
      returns (r: Option<Report>, err: Option<Failure>)
      requires Settled(Now()) && present == pve.table.token.Some? && roster.held == Some(held) && held.id == fullID
      requires res == BLANK && !removed && !cleanupErr && fullID != "" && held.opens && IsVerdict(a)
      requires present ==> pve.table.token == Some(held.secret) && !a.NotAuthorized?
      modifies this`res, this`removed, this`cleanupErr, pve, roster
      ensures err.None? ==> old(roster.metas) < roster.metas
      ensures old(Faults()) <= Faults() && old(pve.asked) <= pve.asked && old(pve.sent) <= pve.sent
      ensures r.None? ==> old(Faults()) < Faults() && err.Some? && err.value.cause == RemoveRefused
      ensures r.Some? && err.Some? ==> Excused(old(Faults()), Faults(), pve.asked[|old(pve.asked)|..])
      ensures var answers := [(held.secret, a)] + pve.asked[|old(pve.asked)|..];
        && RunContract(old(Now()), fullID, answers, Now(), r, err)
        && RunCommands(old(Now()), fullID, pve.sent[|old(pve.sent)|..], answers,
                       Faults() - old(Faults()), Now(), r, err)
    {
      ghost var w0 := Now();
      r, err := ReplaceHeld(present);
      Condemned(w0, a, pve.asked[|old(pve.asked)|..], pve.sent[|old(pve.sent)|..],
                Faults() - old(Faults()), Now(), r, err);
    }

    /** The held token is condemned or gone: remove it if it is there, clear the
        roster's copy, then mint. */
    method ReplaceHeld(present: bool) returns (r: Option<Report>, err: Option<Failure>)
      requires Settled(Now()) && present == pve.table.token.Some? && roster.held.Some?
      requires res == BLANK && !removed && !cleanupErr && fullID != ""
      modifies this`res, this`removed, this`cleanupErr, pve, roster
      ensures err.None? ==> old(roster.metas) < roster.metas
      ensures old(Faults()) <= Faults() && old(pve.asked) <= pve.asked
      ensures r.None? ==> old(Faults()) < Faults() && err.Some? && err.value.cause == RemoveRefused
      ensures r.Some? && err.Some? ==> Excused(old(Faults()), Faults(), pve.asked[|old(pve.asked)|..])
      ensures ReplaceContract(old(Now()), fullID, pve.asked[|old(pve.asked)|..], Now(), r, err)
      ensures old(pve.sent) <= pve.sent
      ensures ReplaceCommands(old(Now()), pve.sent[|old(pve.sent)|..], pve.asked[|old(pve.asked)|..],
                              Faults() - old(Faults()), Now(), r, err)
    {
      ghost var w0 := Now();
      if present {
        var stop;
        r, err, stop := RemoveHeld();
        OnlyPrior(pve.sent[|old(pve.sent)|..], w0);
        if stop { return; }
      }
      ghost var mid, spent := pve.sent, Faults();
      OnlyPrior(mid[|old(pve.sent)|..], w0);
      r, err := ClearAndMint(w0);
      OwnAfterPrior(old(pve.sent), mid, pve.sent, w0, pve.asked[|old(pve.asked)|..], spent - old(Faults()),
                    Faults() - spent, Now(), r, err);
    }

    /** The token is known dead now. The roster's copy is cleared BEFORE the add, so a later
        failure leaves "no token", never a pointer to a dead one. */
    method ClearAndMint(ghost w0: World) returns (r: Option<Report>, err: Option<Failure>)
      requires Settled(w0) && w0.held.Some? && w0.held == roster.held && w0.next == pve.next
      requires pve.table == Table(None, Nothing) && w0.doubts <= pve.doubts
      requires removed == w0.table.token.Some? && res == BLANK.(priorRevoked := removed)
      requires !cleanupErr && fullID != ""
      modifies this`res, this`cleanupErr, pve, roster
      ensures err.None? ==> old(roster.metas) < roster.metas
      ensures old(Faults()) <= Faults() && old(pve.asked) <= pve.asked && old(pve.sent) <= pve.sent
      ensures r.Some? && (err.Some? ==> Excused(old(Faults()), Faults(), pve.asked[|old(pve.asked)|..]))
      ensures ReplaceContract(w0, fullID, pve.asked[|old(pve.asked)|..], Now(), r, err)
      ensures OwnCommands(w0, pve.sent[|old(pve.sent)|..], pve.asked[|old(pve.asked)|..],
                          Faults() - old(Faults()), Now(), r, err)
    {
      var cleared := roster.ClearToken();
      if !cleared {
        res := res.(rosterToken := if removed then StaleRevoked else StaleAbsent);
        r, err := Fail(ClearFailed);
        return;
      }
      res := res.(rosterToken := Cleared);
      r, err := MintAndPersist(Replaced, "");
    }
  }

  lemma OwnAfterPrior(start: seq<Command>, mid: seq<Command>, end: seq<Command>, w0: World,
                      answers: seq<(Secret, Answer)>, before: int, spent: int,
                      w: World, r: Option<Report>, err: Option<Failure>)
    requires start <= mid <= end && 0 <= before && r.Some?
    requires OnlyRemoves(mid[|start|..], w0.table.token) && Settled(w0)
    requires w0.table.token.None? ==> mid == start
    requires OwnCommands(w0, end[|mid|..], answers, spent, w, r, err)
    ensures ReplaceCommands(w0, end[|start|..], answers, before + spent, w, r, err)
  {
    MintLater(start, mid, end, w0);
    assert mid == start ==> end[|start|..] == end[|mid|..];
  }

  /** What was sent before a mint does not blur what is said of it. */
  lemma MintLater(start: seq<Command>, mid: seq<Command>, end: seq<Command>, w0: World)
    requires start <= mid <= end
    requires OnlyRemoves(mid[|start|..], w0.table.token) && Settled(w0)
    requires RemovesOwn(end[|mid|..], w0.next)
    ensures PriorOrOwn(end[|start|..], w0)
    ensures FailedRemove(end[|start|..], w0.next) <==> FailedRemove(end[|mid|..], w0.next)
    ensures NotSeen(end[|mid|..]) ==> NotSeen(end[|start|..])
    ensures forall c :: c in end[|mid|..] ==> c in end[|start|..]
  {
    Later(start, mid, end, w0.next);
    OnlyPrior(mid[|start|..], w0);
  }

  lemma OnlyPrior(sent: seq<Command>, w0: World)
    requires OnlyRemoves(sent, w0.table.token) && Settled(w0)
    ensures PriorOrOwn(sent, w0) && !FailedRemove(sent, w0.next)
  {
  }

  /** After an add without an answer, and whatever landed since: the token that is there is
      this run's, and an add may be pending only if the command timed out. */
  lemma LostAdd(w0: World, error: RunError, added: Table, now: Table)
    requires w0.table == Table(None, Nothing) && Adds(w0.table, w0.next, Failed(error), added) && Settles(added, now)
    ensures now in {Table(None, Nothing), Table(Some(w0.next), Nothing), Table(None, LateAdd(w0.next))}
    ensures now.late.LateAdd? ==> error.TimedOut?
  {
  }

  /** What was sent later is the end of all that was sent. */
  lemma Later(start: seq<Command>, mid: seq<Command>, end: seq<Command>, n0: Secret)
    requires start <= mid <= end
    ensures end[|start|..] == mid[|start|..] + end[|mid|..]
    ensures FailedRemove(end[|start|..], n0) <==> FailedRemove(mid[|start|..], n0) || FailedRemove(end[|mid|..], n0)
    ensures RemovesOwn(end[|start|..], n0) <==> RemovesOwn(mid[|start|..], n0) && RemovesOwn(end[|mid|..], n0)
    ensures NotSeen(end[|mid|..]) ==> NotSeen(end[|start|..])
    ensures forall c :: c in end[|start|..] <==> c in mid[|start|..] || c in end[|mid|..]
  {
    var first, rest, all := mid[|start|..], end[|mid|..], end[|start|..];
    assert all == first + rest;
    assert forall i :: 0 <= i < |first| ==> all[i] == first[i];
    assert forall i :: 0 <= i < |rest| ==> all[|first| + i] == rest[i];
  }

  /** What was answered later is part of all that was answered, and its end. */
  lemma LaterAnswers(start: seq<(Secret, Answer)>, mid: seq<(Secret, Answer)>, end: seq<(Secret, Answer)>)
    requires start <= mid <= end
    ensures end[|start|..] == mid[|start|..] + end[|mid|..]
    ensures forall x :: x in mid[|start|..] || x in end[|mid|..] ==> x in end[|start|..]
  {
  }

  lemma HonestLater(n0: Secret, first: (Secret, Answer), rest: seq<(Secret, Answer)>, r: Report, err: Option<Failure>)
    requires ValidationHonest(n0, rest, r, err) && first.0 < n0 && !first.1.Granted?
    ensures ValidationHonest(n0, [first] + rest, r, err)
    ensures (exists i :: 0 <= i < |rest| && n0 <= rest[i].0) <==>
      exists i :: 0 <= i < |[first] + rest| && n0 <= ([first] + rest)[i].0
  {
    var all := [first] + rest;
    assert forall i :: 0 <= i < |rest| ==> all[i + 1] == rest[i];
    assert forall x :: x in rest ==> x in all;
  }

  /** A replacement after a verdict about the held token, as a whole run. */
  lemma Condemned(w0: World, a: Answer, rest: seq<(Secret, Answer)>, sent: seq<Command>, spent: int,
                  w: World, r: Option<Report>, err: Option<Failure>)
    requires Settled(w0) && w0.held.Some? && w0.held.value.opens && IsVerdict(a)
    requires w0.table.token.Some? ==> w0.table.token == Some(w0.held.value.secret) && !a.NotAuthorized?
    requires ReplaceContract(w0, w0.held.value.id, rest, w, r, err)
    requires ReplaceCommands(w0, sent, rest, spent, w, r, err)
    ensures var fullID, answers := w0.held.value.id, [(w0.held.value.secret, a)] + rest;
      && RunContract(w0, fullID, answers, w, r, err) && RunCommands(w0, fullID, sent, answers, spent, w, r, err)
  {
    var first := (w0.held.value.secret, a);
    assert ([first] + rest)[0] == first;
    if r.Some? {
      HonestLater(w0.next, first, rest, r.value, err);
    } else {
      assert [first] + rest == [first];
    }
  }

  /** A replacement of a token that is not there, as a whole run. */
  lemma Absent(w0: World, answers: seq<(Secret, Answer)>, sent: seq<Command>, spent: int,
               w: World, r: Option<Report>, err: Option<Failure>)
    requires Settled(w0) && w0.held.Some? && w0.table.token.None?
    requires ReplaceContract(w0, w0.held.value.id, answers, w, r, err)
    requires ReplaceCommands(w0, sent, answers, spent, w, r, err)
    ensures RunContract(w0, w0.held.value.id, answers, w, r, err)
    ensures RunCommands(w0, w0.held.value.id, sent, answers, spent, w, r, err)
  {
  }

  /** Every secret in sight was minted before serial w.next. */
  ghost predicate Bounded(w: World) {
    && (w.table.token.Some? ==> w.table.token.value < w.next)
    && (w.table.late.LateAdd? ==> w.table.late.secret < w.next)
    && (w.held.Some? ==> w.held.value.secret < w.next)
  }

  ghost predicate Unreported(r: Report) {
    r.leftoverToken == "" && r.leftoverState.NoLeftover? && !r.outcome.Minted? && !r.outcome.Replaced?
  }

  /** PVE holds a token minted since w0, and the roster what it held at w0. */
  ghost predicate FreshOnly(w: World, w0: World) {
    && Bounded(w) && w0.next <= w.next && w0.doubts <= w.doubts
    && w.table.token.Some? && w0.next <= w.table.token.value && w.table.late.Nothing?
    && w.held == w0.held && (w0.held.Some? ==> w0.held.value.secret < w0.next)
  }

  ghost predicate KeepsPrior(r0: Report, r: Report) {
    r.rosterToken == r0.rosterToken && r.priorRevoked == r0.priorRevoked && r.priorUnknown == r0.priorUnknown
  }

  /** A mint that did not survive: the roster is as it was, the outcome says whether
      this run revoked the prior token, and what may be left on PVE is named. */
  ghost predicate Abandoned(w0: World, r0: Report, removed: bool, fullID: string,
                            w: World, r: Report, err: Option<Failure>)
  {
    && KeepsPrior(r0, r) && r.orphaned == r0.orphaned
    && Evolves(w0, w) && w.held == w0.held && (r.leftoverState.MayExist? ==> w0.doubts < w.doubts)
    && (w.table.token.Some? ==> w0.next <= w.table.token.value)
    && LeftoverHonest(r, w, w0.next, fullID)
    && r.outcome == (if removed then RevokedNotReplaced else Discarded)
    && err.Some? && err.value.priorRevoked == removed && (err.value.leftBehind ==> r.leftoverToken == fullID)
    && (err.value.cause.FreshRejected? ==> r.validation.ValidationFailed?)
  }

  /** A mint the roster now holds: the very token PVE holds, with nothing pending. */
  ghost predicate Persisted(r0: Report, success: Outcome, orphan: string, fullID: string, n0: Secret,
                            w: World, r: Report, err: Option<Failure>)
  {
    && KeepsPrior(r0, r) && r.orphaned == orphan && r.outcome == success && Unleft(r)
    && w.held.Some? && w.held.value.id == fullID && w.held.value.opens && n0 <= w.held.value.secret
    && w.table == Table(Some(w.held.value.secret), Nothing)
    && (err.None? ==> r.validation.Verified?)
    && (err.Some? ==> (err.value.cause.MetaNotPersisted? || (err.value.cause.NotVerified? && r.validation.Unverified?))
                      && !err.value.priorRevoked && !err.value.leftBehind)
  }

  // ---- what is sent ----

  /** A remove of a token of this run was sent, and did not end well. */
  ghost predicate FailedRemove(sent: seq<Command>, n0: Secret) {
    exists i :: 0 <= i < |sent| && sent[i].Remove? && sent[i].target.Some? && n0 <= sent[i].target.value
      && !Done(sent[i].reply)
  }

  /** Only tokens of this run are removed. */
  ghost predicate RemovesOwn(sent: seq<Command>, n0: Secret) {
    forall i :: 0 <= i < |sent| && sent[i].Remove? ==> sent[i].target.Some? && n0 <= sent[i].target.value
  }

  /** The last command read the token list, and did not see the token. */
  ghost predicate NotSeen(sent: seq<Command>) {
    sent != [] && sent[|sent| - 1].List? && sent[|sent| - 1].present != Some(true)
  }

  /** After the remove of a fresh token: it is left behind only if that remove failed, and
      clean says that no call failed since. */
  ghost predicate Swept(n0: Secret, sent: seq<Command>, clean: bool, w: World, r: Report, f: Failure) {
    && RemovesOwn(sent, n0)
    && (r.leftoverToken != "" ==> FailedRemove(sent, n0)) && (f.leftBehind <==> r.leftoverToken != "")
    && (clean ==> r.leftoverToken == "" && !RunTokenLives(w, n0))
  }

  /** How a mint that did not survive is cleaned up; spent is how many calls failed. A
      leftover follows only a remove of it that failed, or an add without an answer after
      which the list did not show it. Where the only call that failed is the one that ended
      the mint, if any did, no token of the run is left. */
  ghost predicate CleanedUp(w0: World, sent: seq<Command>, spent: int, w: World, r: Report, f: Failure) {
    && (r.leftoverToken != "" ==> FailedRemove(sent, w0.next) || (f.cause.AddFailed? && NotSeen(sent)))
    && (f.leftBehind <==> r.leftoverToken != "" && FailedRemove(sent, w0.next))
    && (if f.cause.FreshRejected? then 0 else 1) <= spent
    && (spent <= (if f.cause.FreshRejected? then 0 else 1) && w.doubts == w0.doubts ==>
          r.leftoverToken == "" && !RunTokenLives(w, w0.next))
  }

  /** What the report says of the validation is what the answers say; those about secrets
      below n0 are about the token that was held before. */
  ghost predicate ValidationHonest(n0: Secret, answers: seq<(Secret, Answer)>, r: Report, err: Option<Failure>) {
    && (r.validation.Verified? <==> answers != [] && answers[|answers| - 1].1.Granted?)
    && (r.validation.Unverified? ==> answers != [] && answers[|answers| - 1].1.Plain?)
    && (r.validation.ValidationFailed? <==> err.Some? && err.value.cause.FreshRejected?)
    && (r.validation.ValidationFailed? ==>
          exists a: Answer, secret: Secret :: (secret, a) in answers && n0 <= secret && !a.Granted? && !a.Plain?)
    && (r.validation.NotRun? <==>
          !r.outcome.Reused? && forall i :: 0 <= i < |answers| ==> answers[i].0 < n0)
    && !r.validation.NoValidation?
  }

  /** Whatever is removed is the given token. */
  ghost predicate OnlyRemoves(sent: seq<Command>, token: Option<Secret>) {
    forall i :: 0 <= i < |sent| ==> sent[i].List? || (sent[i].Remove? && token.Some? && sent[i].target == token)
  }

  /** Whatever is removed is the token that was there, or one of this run. */
  ghost predicate PriorOrOwn(sent: seq<Command>, w0: World) {
    forall i :: 0 <= i < |sent| && sent[i].Remove? ==>
      sent[i].target.Some? && (sent[i].target == w0.table.token || w0.next <= sent[i].target.value)
  }

  /** A token of this run is validated only once its grants are there. */
  ghost predicate GrantsFirst(n0: Secret, sent: seq<Command>, answers: seq<(Secret, Answer)>) {
    (exists i :: 0 <= i < |answers| && n0 <= answers[i].0) ==> Grant(true) in sent
  }

  ghost predicate ReplaceCommands(w0: World, sent: seq<Command>, answers: seq<(Secret, Answer)>, spent: int,
                                  w: World, r: Option<Report>, err: Option<Failure>)
  {
    && PriorOrOwn(sent, w0) && GrantsFirst(w0.next, sent, answers)
    && (w0.table.token.None? ==> RemovesOwn(sent, w0.next))
    && (r.None? ==> answers == [])
    && (r.Some? ==>
          && ValidationHonest(w0.next, answers, r.value, err) && r.value.orphaned == ""
          && (err.Some? && !HoldsRunToken(w, w0.next) ==> CleanedUp(w0, sent, spent, w, r.value, err.value)))
  }

  /** The same, of what follows the remove of the token that was held. */
  ghost predicate OwnCommands(w0: World, sent: seq<Command>, answers: seq<(Secret, Answer)>, spent: int,
                              w: World, r: Option<Report>, err: Option<Failure>)
  {
    RemovesOwn(sent, w0.next) && ReplaceCommands(w0, sent, answers, spent, w, r, err)
  }

  /** A run's commands. A token that was there is the target of a remove only where that is
      justified; and what is left of the run's own mint is left in spite of its cleanup. */
  ghost predicate RunCommands(w0: World, fullID: string, sent: seq<Command>, answers: seq<(Secret, Answer)>,
                              spent: int, w: World, r: Option<Report>, err: Option<Failure>)
  {
    && PriorOrOwn(sent, w0) && GrantsFirst(w0.next, sent, answers)
    && (RemovesOwn(sent, w0.next) || RevocationJustified(w0, fullID, answers))
    && (r.Some? ==>
          && ValidationHonest(w0.next, answers, r.value, err) && MadeAs(w0, fullID, r.value)
          && (err.Some? && !HoldsRunToken(w, w0.next) ==> CleanedUp(w0, sent, spent, w, r.value, err.value)))
  }

  /** A token is replaced only under the id that the roster held, and otherwise minted; the
      one of another id that the roster held is then named as orphaned. */
  ghost predicate MadeAs(w0: World, fullID: string, r: Report) {
    && (r.outcome.Minted? ==> w0.held.None? || w0.held.value.id != fullID)
    && (r.outcome.Replaced? || r.outcome.Reused? ==> w0.held.Some? && w0.held.value.id == fullID)
    && r.orphaned == if r.outcome.Minted? && w0.held.Some? then w0.held.value.id else ""
  }

  /** A mint's commands: the token is validated only once its grants are there. */
  ghost predicate MintCommands(w0: World, sent: seq<Command>, answers: seq<(Secret, Answer)>, spent: int,
                               w: World, r: Report, err: Option<Failure>)
  {
    && RemovesOwn(sent, w0.next) && (answers != [] ==> Grant(true) in sent)
    && ValidationHonest(w0.next, answers, r, err)
    && (err.Some? && !HoldsRunToken(w, w0.next) ==> CleanedUp(w0, sent, spent, w, r, err.value))
  }

  ghost predicate Unleft(r: Report) { r.leftoverToken == "" && r.leftoverState.NoLeftover? }

  ghost predicate MintContract(w0: World, r0: Report, removed: bool, success: Outcome, orphan: string, fullID: string,
                               w: World, r: Report, err: Option<Failure>) {
    || Abandoned(w0, r0, removed, fullID, w, r, err)
    || (Evolves(w0, w) && Persisted(r0, success, orphan, fullID, w0.next, w, r, err))
  }

  /** Nothing pending, and every secret known was minted before now. */
  ghost predicate Settled(w: World) {
    w.table.late.Nothing? && Bounded(w)
  }

  /** How a run may change the world: tokens come and go only by this run's own mint and
      removes, and the roster's copy by its own clear and write. */
  ghost predicate Evolves(w0: World, w: World) {
    && w0.next <= w.next && w0.doubts <= w.doubts && Bounded(w)
    && (w.table.token.Some? ==> w.table.token == w0.table.token || w0.next <= w.table.token.value)
    && (w.held.Some? ==>
          w.held == w0.held || (w0.next <= w.held.value.secret && w.table == Table(Some(w.held.value.secret), Nothing)))
    && (w.table.late.LateAdd? ==> w.table.token.None? && w0.next <= w.table.late.secret)
  }

  ghost predicate UnknownContract(w0: World, w: World, r: Report, err: Option<Failure>) {
    && (w.table == w0.table || w.table == Table(None, Nothing) || w.table == Table(w0.table.token, LateRemove))
    && w.next == w0.next && w0.doubts < w.doubts
    && r == BLANK.(priorRevoked := true, priorUnknown := true, rosterToken := r.rosterToken,
                   outcome := RevokedNotReplaced, validation := NotRun)
    && (r.rosterToken.Cleared? || r.rosterToken.StaleRevoked?)
    && w.held == (if r.rosterToken.Cleared? then None else w0.held)
    && err == Some(Failure(PriorUnknown, true, false))
  }

  /** The token that was there when the run began is gone, or a remove that may still
      take it is pending. */
  ghost predicate PriorMayBeGone(w0: World, w: World) {
    w0.table.token.Some? && (w.table.token != w0.table.token || w.table.late.LateRemove?)
  }

  /** An error without a report speaks of no token that is gone or left. */
  ghost predicate SaysNothing(err: Option<Failure>) {
    err.Some? && !err.value.priorRevoked && !err.value.leftBehind
  }

  ghost predicate ReplaceContract(w0: World, fullID: string, answers: seq<(Secret, Answer)>,
                                  w: World, r: Option<Report>, err: Option<Failure>) {
    && Evolves(w0, w)
    && (r.None? ==> SaysNothing(err) && w.table == w0.table && w.held == w0.held)
    && (err.None? ==> Succeeded(fullID, answers, w, r))
    && (r.Some? ==> ReportHonest(w0, fullID, w, r.value, err) && !r.value.outcome.Reused? && !r.value.outcome.Minted?)
  }

  /** A nil error: the roster holds the requested id with a secret this run validated,
      and it is the token PVE holds. */
  ghost predicate Succeeded(fullID: string, answers: seq<(Secret, Answer)>, w: World, r: Option<Report>) {
    && r.Some? && (r.value.outcome.Minted? || r.value.outcome.Replaced? || r.value.outcome.Reused?)
    && w.held.Some? && w.held.value.id == fullID && w.held.value.opens
    && w.table == Table(Some(w.held.value.secret), Nothing)
    && (w.held.value.secret, Granted) in answers
  }

  /** What the report says about the token that was there before. */
  ghost predicate PriorHonest(w0: World, w: World, r: Report) {
    && (PriorMayBeGone(w0, w) ==> r.priorRevoked)
    && (r.priorRevoked ==> w0.table.token.Some? && (r.priorUnknown || w.table.token != w0.table.token))
    && (r.priorRevoked ==> w.held != w0.held || r.rosterToken.StaleRevoked?)
    && (r.rosterToken.StaleRevoked? ==> r.priorRevoked && w.held == w0.held)
    && (r.rosterToken.StaleAbsent? ==> w0.table.token.None? && w.held == w0.held)
    && (r.rosterToken.Untouched? ==> w.held == w0.held || HoldsRunToken(w, w0.next))
    && (w.held != w0.held ==> HoldsRunToken(w, w0.next) || w0.table.token.None? || r.priorRevoked)
    && (r.priorUnknown ==> r.outcome.RevokedNotReplaced?)
  }

  ghost predicate OutcomeHonest(w0: World, w: World, r: Report, err: Option<Failure>) {
    && (r.outcome.Minted? || r.outcome.Replaced? <==> HoldsRunToken(w, w0.next))
    && (r.outcome.Minted? ==> w0.table.token.None? && !r.priorRevoked)
    && (r.outcome.Reused? ==> w.table == w0.table && w.held == w0.held && !r.priorRevoked)
    && (r.outcome.RevokedNotReplaced? <==> r.priorRevoked && !HoldsRunToken(w, w0.next))
    && (r.outcome.Discarded? ==> err.Some? && !PriorMayBeGone(w0, w))
    && !r.outcome.NoOutcome?
    && (err.Some? ==> (err.value.priorRevoked <==> r.outcome.RevokedNotReplaced?))
    && (err.Some? && err.value.leftBehind ==> r.leftoverToken != "")
  }

  ghost predicate ReportHonest(w0: World, fullID: string, w: World, r: Report, err: Option<Failure>) {
    && LeftoverHonest(r, w, w0.next, fullID) && PriorHonest(w0, w, r) && OutcomeHonest(w0, w, r, err)
    && (r.leftoverState.MayExist? || r.priorUnknown ==> w0.doubts < w.doubts)
  }

  /** A token that was there is touched only when it is the very one the roster held,
      under this id, and PVE condemned its grants in this run. */
  ghost predicate RevocationJustified(w0: World, fullID: string, answers: seq<(Secret, Answer)>) {
    && w0.table.token.Some?
    && w0.held == Some(Held(fullID, w0.table.token.value, true))
    && exists a: Answer ::
         (w0.table.token.value, a) in answers && a in {WrongScope, NoGrants, ScopeTooWide}
  }

  /** Some call did not do what it was made for, or the last validation was not granted. */
  ghost predicate Excused(faults0: nat, faults: nat, answers: seq<(Secret, Answer)>) {
    faults0 < faults || (answers != [] && !answers[|answers| - 1].1.Granted?)
  }

  /** A run that touched nothing says why, and it is so. */
  ghost predicate RefusalJustified(w0: World, fullID: string, answers: seq<(Secret, Answer)>,
                                   faults0: nat, faults: nat, err: Option<Failure>)
  {
    && err.Some?
    && match err.value.cause
       case TokenNotHeld => w0.table.token.Some? && (w0.held.None? || w0.held.value.id != fullID)
       case Undecryptable => w0.table.token.Some? && w0.held.Some? && w0.held.value.id == fullID && !w0.held.value.opens
       case NotChecked => w0.held.Some? && answers == [(w0.held.value.secret, Plain)]
       case SecretRejected =>
         && w0.table.token.Some? && w0.held.Some?
         && answers == [(w0.held.value.secret, NotAuthorized)]
       case RosterUnreadable => faults0 < faults
       case RemoveRefused => faults0 < faults
       case _ => false
  }

  /** What every run of the token phase leaves behind. */
  ghost predicate RunContract(w0: World, fullID: string, answers: seq<(Secret, Answer)>,
                              w: World, r: Option<Report>, err: Option<Failure>) {
    && Evolves(w0, w)
    && (r.None? ==> SaysNothing(err) && w.table == w0.table && w.held == w0.held)
    && (err.None? ==> Succeeded(fullID, answers, w, r))
    && (r.Some? ==> ReportHonest(w0, fullID, w, r.value, err))
    && (PriorMayBeGone(w0, w) ==> RevocationJustified(w0, fullID, answers))
  }

  // ---- any number of runs ----

  datatype Run = Run(before: World, answers: seq<(Secret, Answer)>, after: World, report: Option<Report>,
      error: Option<Failure>)

  /** Between two runs nothing but a late write of the first changes anything, and by
      the start of the second it has landed or never will. */
  ghost predicate Follows(after: World, before: World) {
    && before.next == after.next && before.held == after.held && before.table.late.Nothing?
    && (Settles(after.table, before.table) || before.table == after.table.(late := Nothing))
  }

  /** The runs of one roster for one token id, one after the other. */
  ghost predicate History(runs: seq<Run>, fullID: string) {
    && fullID != ""
    && (forall i :: 0 <= i < |runs| ==>
          var run := runs[i];
          Settled(run.before) && RunContract(run.before, fullID, run.answers, run.after, run.report, run.error))
    && (forall i :: 0 < i < |runs| ==> Follows(runs[i - 1].after, runs[i].before))
  }

  /** A report that a token of this name may be left on PVE that the roster does not hold. */
  ghost predicate SaysUnheld(runs: seq<Run>) {
    exists i :: 0 <= i < |runs| && runs[i].report.Some?
      && (runs[i].report.value.leftoverToken != "" || runs[i].report.value.priorUnknown)
  }

  /** A report that the roster's copy points at a dead token. */
  ghost predicate SaysStale(runs: seq<Run>) {
    exists i :: 0 <= i < |runs| && runs[i].report.Some? && runs[i].report.value.rosterToken.StaleRevoked?
  }

  ghost predicate Unheld(w: World, n0: Secret) {
    || (w.table.token.Some? && n0 <= w.table.token.value
          && (w.held.None? || w.held.value.secret != w.table.token.value))
    || w.table.late.LateAdd?
  }

  ghost predicate Stale(w: World, n0: Secret) {
    w.held.Some? && n0 <= w.held.value.secret && (w.table.token != Some(w.held.value.secret) || !w.table.late.Nothing?)
  }

  lemma SaysMore(runs: seq<Run>, run: Run)
    ensures SaysUnheld(runs) ==> SaysUnheld(runs + [run])
    ensures SaysStale(runs) ==> SaysStale(runs + [run])
  {
    if SaysUnheld(runs) {
      var i :| 0 <= i < |runs| && runs[i].report.Some?
        && (runs[i].report.value.leftoverToken != "" || runs[i].report.value.priorUnknown);
      assert (runs + [run])[i] == runs[i];
    }
    if SaysStale(runs) {
      var i :| 0 <= i < |runs| && runs[i].report.Some? && runs[i].report.value.rosterToken.StaleRevoked?;
      assert (runs + [run])[i] == runs[i];
    }
  }

  /** One run cannot start an unheld token or a stale copy without reporting it. */
  lemma OneRunAccounts(run: Run, fullID: string, n0: Secret)
    requires fullID != "" && n0 <= run.before.next && Settled(run.before)
    requires RunContract(run.before, fullID, run.answers, run.after, run.report, run.error)
    ensures Unheld(run.after, n0) && !Unheld(run.before, n0) ==> SaysUnheld([run])
    ensures Stale(run.after, n0) && !Stale(run.before, n0) ==> SaysStale([run])
  {
    assert [run][0] == run;
  }

  /** Nor can what happens between two runs. */
  lemma GapAccounts(after: World, before: World, n0: Secret)
    requires Follows(after, before)
    ensures Unheld(before, n0) ==> Unheld(after, n0)
    ensures Stale(before, n0) ==> Stale(after, n0)
  {
  }

  lemma HistoryBefore(runs: seq<Run>, fullID: string)
    requires |runs| > 1 && History(runs, fullID)
    ensures History(runs[..|runs| - 1], fullID)
    ensures Follows(runs[|runs| - 2].after, runs[|runs| - 1].before)
  {
  }

  /** Over any number of runs: a token some run created that is on PVE (or may yet land)
      and that the roster does not hold was reported, and a roster copy some run wrote
      that no longer is the token on PVE was reported. */
  lemma {:induction false} AllAccounted(runs: seq<Run>, fullID: string)
    requires runs != [] && History(runs, fullID)
    ensures Unheld(runs[|runs| - 1].after, runs[0].before.next) ==> SaysUnheld(runs)
    ensures Stale(runs[|runs| - 1].after, runs[0].before.next) ==> SaysStale(runs)
    ensures runs[0].before.next <= runs[|runs| - 1].after.next
  {
    var k := |runs| - 1;
    var last := runs[k];
    var n0 := runs[0].before.next;
    if k == 0 {
      OneRunAccounts(last, fullID, n0);
      assert runs == [last];
    } else {
      var earlier := runs[..k];
      HistoryBefore(runs, fullID);
      AllAccounted(earlier, fullID);
      GapAccounts(earlier[k - 1].after, last.before, n0);
      OneRunAccounts(last, fullID, n0);
      assert runs == earlier + [last];
      SaysMore(earlier, last);
      SaysLast(earlier, last);
    }
  }

  lemma SaysLast(runs: seq<Run>, run: Run)
    ensures SaysUnheld([run]) ==> SaysUnheld(runs + [run])
    ensures SaysStale([run]) ==> SaysStale(runs + [run])
  {
    assert (runs + [run])[|runs|] == run;
  }
}
