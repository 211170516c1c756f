/** `network bridge create` and `destroy` (internal/idempotent/networkbridge.go): one
    interface staged, guarded by a watched management bridge and by two signals about the
    interface itself, committed, and checked in the kernel. */
module NetworkBridge {
  import opened Common
  import opened Text
  import opened Boolish
  import opened NetworkStage

  datatype Mode = Unset | Create | Destroy

  // ---- what is asked, and whether it is already so ----

  function NormalizeAutostart(v: string): Option<string> {
    match ParseBoolish(v)
    case Some(b) => Some(if b then "1" else "0")
    case None => None
  }

  /** Validate, for an op on a named node. */
  predicate Valid(mode: Mode, iface: string, mgmt: string, wanted: Fields) {
    && iface != "" && mgmt != "" && "iface" !in wanted
    && ("autostart" in wanted ==> NormalizeAutostart(wanted["autostart"]).Some?)
    && mode != Unset
    && (mode == Destroy ==> wanted == map[])
  }

  /** What no op may be asked for. */
  ghost predicate Malformed(mode: Mode, iface: string, mgmt: string, wanted: Fields) {
    || iface == "" || mgmt == "" || mode == Unset || (mode == Destroy && |wanted| > 0)
    || "iface" in wanted || ("autostart" in wanted && ParseBoolish(wanted["autostart"]) == None)
  }

  lemma MalformedIsRefused(mode: Mode, iface: string, mgmt: string, wanted: Fields)
    ensures Valid(mode, iface, mgmt, wanted) <==> !Malformed(mode, iface, mgmt, wanted)
  {
    assert |wanted| == 0 <==> wanted == map[];
  }

  /** What a create asks for, its defaults filled in. */
  function EffectiveWanted(mode: Mode, wanted: Fields): Fields {
    if mode != Create then map[]
    else
      var typed := if "type" in wanted then wanted else wanted["type" := "bridge"];
      if "autostart" !in typed then typed["autostart" := "1"]
      else
        match NormalizeAutostart(typed["autostart"])
        case Some(norm) => typed["autostart" := norm]
        case None => typed
  }

  predicate AutostartRequested(want: Fields) {
    "autostart" in want && NormalizeAutostart(want["autostart"]) == Some("1")
  }

  /** False for the ports that PVE starts with their bridge whatever autostart says. */
  predicate NegativeLivenessReliable(mode: Mode, want: Fields) {
    mode == Destroy
    || !("type" in want && want["type"] in {"OVSPort", "OVSIntPort", "OVSBond"} && "ovs_bridge" in want
        && want["ovs_bridge"] != "")
  }

  /** An absent autostart is PVE's way to say off; any other absent field is no match. */
  predicate FieldMatches(stored: Fields, field: string, want: string) {
    if field == "autostart" then FieldsEqual(if field in stored then stored[field] else "0", want)
    else field in stored && FieldsEqual(stored[field], want)
  }

  method Satisfied(mode: Mode, wanted: Fields, current: Option<Fields>) returns (ok: bool)
    ensures ok <==> IsSatisfied(mode, wanted, current)
    ensures mode == Destroy ==> (ok <==> current.None?)
    ensures ok ==> mode != Unset && (mode == Create ==> current.Some?)
  {
    if mode == Destroy { return current.None?; }
    if mode == Unset || current.None? { return false; }
    var want := EffectiveWanted(mode, wanted);
    var rest := want.Keys;
    while rest != {}
      invariant rest <= want.Keys
      invariant forall f :: f in want.Keys - rest ==> FieldMatches(current.value, f, want[f])
      decreases rest
    {
      var f :| f in rest;
      if !FieldMatches(current.value, f, want[f]) { return false; }
      rest := rest - {f};
    }
    return true;
  }

  predicate IsSatisfied(mode: Mode, wanted: Fields, current: Option<Fields>) {
    match mode
    case Destroy => current.None?
    case Unset => false
    case Create =>
      && current.Some?
      && forall f :: f in EffectiveWanted(mode, wanted) ==>
          FieldMatches(current.value, f, EffectiveWanted(mode, wanted)[f])
  }

  /** The request of a stage. */
  function RequestOf(mode: Mode, iface: string, wanted: Fields, converge: bool): Request {
    if mode != Create then Delete(iface)
    else if converge then Put(iface, EffectiveWanted(mode, wanted))
    else Post(EffectiveWanted(mode, wanted)["iface" := iface])
  }

  /** The request that is asked for, in the caller's terms: a destroy deletes the interface
      and no other; a create posts it, or puts it where it is there already, and sends every
      field the caller gave, a type and an autostart, and nothing else. */
  ghost predicate AsksFor(r: Request, mode: Mode, iface: string, wanted: Fields, there: bool) {
    match mode
    case Unset => false
    case Destroy => r == Delete(iface)
    case Create =>
      if there then r.Put? && r.iface == iface && SendsWanted(r.fields, wanted)
      else r.Post? && "iface" in r.fields && r.fields["iface"] == iface && SendsWanted(r.fields - {"iface"}, wanted)
  }

  /** A boolean autostart is sent as PVE writes one. */
  ghost predicate SendsWanted(sent: Fields, wanted: Fields) {
    && sent.Keys == wanted.Keys + {"type", "autostart"}
    && (forall f :: f in wanted && f != "autostart" ==> sent[f] == wanted[f])
    && ("type" !in wanted ==> sent["type"] == "bridge")
    && sent["autostart"] ==
         if "autostart" !in wanted || ParseBoolish(wanted["autostart"]) == Some(true) then "1" else "0"
  }

  lemma RequestAsks(mode: Mode, iface: string, mgmt: string, wanted: Fields, there: bool)
    requires Valid(mode, iface, mgmt, wanted)
    ensures AsksFor(RequestOf(mode, iface, wanted, there), mode, iface, wanted, there)
  {
    if mode == Create {
      var want := EffectiveWanted(mode, wanted);
      assert want["iface" := iface] - {"iface"} == want;
      assert SendsWanted(want, wanted);
    }
  }

  /** What a server may answer for fields it was sent: each of them, a boolean in any
      spelling, an autostart that is off left out, and any fields of its own. */
  ghost predicate Keeps(sent: Fields, stored: Fields) {
    forall f :: f in sent ==>
      if f in stored then SameSpelled(sent[f], stored[f]) else f == "autostart" && ParseBoolish(sent[f]) == Some(false)
  }

  /** A create converges: once a server keeps what either create request sent, the op is
      satisfied; and it is satisfied by nothing else. */
  lemma CreateConverges(iface: string, mgmt: string, wanted: Fields, stored: Fields, converge: bool)
    requires Valid(Create, iface, mgmt, wanted)
    ensures Keeps(RequestOf(Create, iface, wanted, converge).fields, stored) ==>
        IsSatisfied(Create, wanted, Some(stored))
    ensures IsSatisfied(Create, wanted, Some(stored)) <==> Keeps(EffectiveWanted(Create, wanted), stored)
  {
    OneAndZero();
    var want := EffectiveWanted(Create, wanted);
    var sent := RequestOf(Create, iface, wanted, converge).fields;
    assert forall f :: f in want ==> f in sent && sent[f] == want[f];
    forall f | f in want
      ensures FieldMatches(stored, f, want[f]) <==>
        if f in stored then SameSpelled(want[f], stored[f])
        else f == "autostart" && ParseBoolish(want[f]) == Some(false)
    {
      assert f == "autostart" ==> want[f] in {"0", "1"};
    }
  }

  /** What is sent is in PVE's own terms, keeps every field the caller gave but the
      spelling of autostart, always has a type, and is not changed by filling in again. */
  lemma WantedIsCanonical(iface: string, mgmt: string, wanted: Fields)
    requires Valid(Create, iface, mgmt, wanted)
    ensures var want := EffectiveWanted(Create, wanted);
      && EffectiveWanted(Create, want) == want
      && "type" in want && "autostart" in want && want["autostart"] in {"0", "1"}
      && want.Keys == wanted.Keys + {"type", "autostart"}
      && (forall f :: f in wanted && f != "autostart" ==> want[f] == wanted[f])
      && ("autostart" in wanted ==> FieldsEqual(want["autostart"], wanted["autostart"]))
      && (AutostartRequested(want) <==> "autostart" !in wanted || ParseBoolish(wanted["autostart"]) == Some(true))
  {
    OneAndZero();
  }

  // ---- the interface's two signals ----

  predicate ActiveTruthy(s: string) {
    Token(s) !in {"", "0", "false", "null"}
  }

  /** PVE's active field, whatever JSON value it came as, says no only in one of these words
      or as white space. */
  lemma ActiveWords(s: string)
    ensures ActiveTruthy(s) <==> !Blank(s) && !Spells(s, "0") && !Spells(s, "false") && !Spells(s, "null")
  {
    TokenSpells(s, "0");
    TokenSpells(s, "false");
    TokenSpells(s, "null");
    var pre, post := TrimParts(s);
    LowerEnds(Trim(s));
    if Blank(s) { TrimBlank(s); }
    if Trim(s) == "" { assert s == pre + post; }
  }

  predicate Active(view: Config, iface: string) {
    iface in view && "active" in view[iface] && ActiveTruthy(view[iface]["active"])
  }

  /** Neither signal already shows the state after the commit. */
  predicate NotYet(mode: Mode, active: bool, live: bool) {
    if mode == Create then !active && !live else active && live
  }

  /** Reads only, while nobody else acts. */
  ghost predicate Reads(a: NodeState, b: NodeState) {
    KeepsRunning(a, b) && (Undisturbed(a, b) ==> b == a)
  }

  class NetworkBridgeEnsure {
    const node: Node
    const iface: string
    const mgmt: string
    const wanted: Fields
    const mode: Mode
    const hash: Fields -> string
    var currentFields: Fields
    var preStanzaHash: string
    var preKernelState: Link

    constructor (node: Node, iface: string, mgmt: string, wanted: Fields, mode: Mode, hash: Fields -> string)
      ensures this.node == node && this.iface == iface && this.mgmt == mgmt
      ensures this.wanted == wanted && this.mode == mode && this.hash == hash
    {
      this.node, this.iface, this.mgmt, this.wanted, this.mode, this.hash := node, iface, mgmt, wanted, mode, hash;
      currentFields, preStanzaHash, preKernelState := map[], "", NO_LINK;
    }

    // The calls of one Apply, counted from n: the management bridge's stanza and link, for
    // a create the interface, the stage, the guard's three reads, the commit, its task, and
    // the two kernel checks.

    function StanzaAt(n: nat): nat { n }

    function LinkAt(n: nat): nat { n + 1 }

    /** A create only. */
    function ExistingAt(n: nat): nat { n + 2 }

    function StageAt(n: nat): nat { if mode == Create then n + 3 else n + 2 }

    function GuardAt(n: nat): nat { StageAt(n) + 1 }

    function CommitAt(n: nat): nat { GuardAt(n) + 3 }

    function MgmtCheckAt(n: nat): nat { CommitAt(n) + 2 }

    method Read() returns (r: Fetched)
      modifies node`st, node`trace, node`faults
      ensures Ticks(old(node.st), node.st)
      ensures r.Found? ==> iface in View(node.st) && r.fields == View(node.st)[iface]
      ensures r.Missing? ==> iface !in View(node.st)
      ensures node.faults == old(node.faults) + (if r.Unreadable? then 1 else 0)
    {
      r := node.FetchInterface(iface);
    }

    /** What the op remembers of the management bridge is what it was before the stage. */
    ghost predicate Remembers(trace: seq<NodeState>, n: nat)
      reads this
      requires |trace| > LinkAt(n)
    {
      && mgmt in View(trace[StanzaAt(n)])
      && currentFields == View(trace[StanzaAt(n)])[mgmt]
      && preStanzaHash == CanonicalHash(hash, currentFields)
      && preKernelState == LinkOf(trace[LinkAt(n)], mgmt)
    }

    /** Step 1: the management bridge's stanza and link before anything is staged. */
    method Snapshot() returns (go: bool)
      modifies this, node`st, node`trace, node`faults
      ensures Reads(old(node.st), node.st) && old(node.trace) <= node.trace
      ensures go ==> |node.trace| == LinkAt(|old(node.trace)|) + 1 && Remembers(node.trace, |old(node.trace)|)
      ensures old(node.faults) <= node.faults
      ensures !go && old(node.faults) == node.faults ==> StopJustified(node.trace, |old(node.trace)|)
    {
      var r := node.FetchInterface(mgmt);
      if !r.Found? { return false; }
      currentFields := r.fields;
      preStanzaHash := CanonicalHash(hash, currentFields);
      var link := node.LinkState(mgmt);
      if link.None? { return false; }
      preKernelState := link.value;
      go := true;
    }

    /** The interface exists as another type than a create wants, or as none. */
    predicate OtherType(view: Config) {
      && mode == Create && iface in view
      && !("type" in view[iface] && view[iface]["type"] == EffectiveWanted(mode, wanted)["type"] != "")
    }

    /** Whether a create converges an interface that exists; an unreadable one, or one of
        another type or of none, is refused. */
    method Converges() returns (r: Option<bool>)
      modifies node`st, node`trace, node`faults
      ensures Reads(old(node.st), node.st)
      ensures node.trace == old(node.trace) + if mode == Create then [node.st] else []
      ensures r.Some? ==> r.value == (mode == Create && iface in View(node.st)) && !OtherType(View(node.st))
      ensures old(node.faults) <= node.faults
      ensures r.None? && old(node.faults) == node.faults ==> OtherType(View(node.st))
    {
      if mode != Create { return Some(false); }
      var existing := node.FetchInterface(iface);
      match existing {
        case Unreadable => return None;
        case Missing => return Some(false);
        case Found(fields) =>
          var got := if "type" in fields then fields["type"] else "";
          if got == "" || got != EffectiveWanted(mode, wanted)["type"] { return None; }
          return Some(true);
      }
    }

    /** Step 4: both signals about the interface itself. */
    method GuardSelfCheck() returns (go: bool)
      modifies node`st, node`trace, node`faults
      ensures Reads(old(node.st), node.st) && old(node.trace) <= node.trace
      ensures old(node.faults) <= node.faults
      ensures go || old(node.faults) == node.faults ==>
        && |node.trace| == |old(node.trace)| + 2 && node.trace[|old(node.trace)| + 1] == node.st
        && (go <==>
              Active(View(node.trace[|old(node.trace)|]), iface) == LinkOf(node.st, iface).present == (mode != Create))
    {
      var r := node.FetchInterface(iface);
      if r.Unreadable? { return false; }
      var active := r.Found? && "active" in r.fields && ActiveTruthy(r.fields["active"]);
      var link := node.LinkState(iface);
      go := link.Some? && NotYet(mode, active, link.value.present);
    }

    /** The guard, its three reads starting at m: the management bridge's stanza is the given
        one, and neither signal shows the interface already as it is to become. */
    ghost predicate Passes(trace: seq<NodeState>, m: nat, stanza: Fields)
      requires |trace| > m + 2
    {
      && mgmt in View(trace[m]) && SameStanza(stanza, View(trace[m])[mgmt])
      && Active(View(trace[m + 1]), iface) == LinkOf(trace[m + 2], iface).present == (mode != Create)
    }

    ghost predicate GuardFailed(trace: seq<NodeState>, m: nat, stanza: Fields) {
      |trace| > m && (mgmt !in View(trace[m]) || (|trace| > m + 2 && !Passes(trace, m, stanza)))
    }

    /** Steps 3 to 5, and the discard that every failure there ends in. */
    method Guarded() returns (go: bool)
      requires GoodHash(hash) && preStanzaHash == CanonicalHash(hash, currentFields)
      modifies node
      ensures old(node.trace) <= node.trace && KeepsRunning(old(node.st), node.st)
      ensures if go then node.writes == old(node.writes) else Discarded(old(node.writes), node.writes)
      ensures old(node.writes) <= node.writes && Cleared(old(node.writes), node.writes, node.st)
      ensures go ==>
        && |node.trace| == |old(node.trace)| + 3 && node.trace[|old(node.trace)| + 2] == node.st
        && Passes(node.trace, |old(node.trace)|, currentFields)
        && Reads(old(node.st), node.trace[|old(node.trace)|]) && Reads(node.trace[|old(node.trace)|], node.st)
      ensures old(node.faults) <= node.faults
      ensures !go && old(node.faults) == node.faults ==> GuardFailed(node.trace, |old(node.trace)|, currentFields)
    {
      var pending := node.FetchInterface(mgmt);
      if pending.Found? {
        go := GuardSelfCheck();
        if go && CanonicalHash(hash, pending.fields) == preStanzaHash { return; }
      }
      go := false;
      var reverted := node.RevertStage();
    }

    /** Steps 6 to 8: commit, wait for the task, and check the kernel, the management
        bridge first. */
    method CommitVerified() returns (ok: bool)
      requires Valid(mode, iface, mgmt, wanted)
      modifies node
      ensures old(node.writes) <= node.writes && old(node.trace) < node.trace
      ensures CommitWrites(node.writes[|old(node.writes)|..], ok) && Cleared(old(node.writes), node.writes, node.st)
      ensures NeverMixed(old(node.st), node.st) && (ok ==> RunsWhole(old(node.st), node.st))
      ensures old(node.faults) <= node.faults
      ensures ok || old(node.faults) == node.faults ==>
        && |node.trace| > |old(node.trace)| + 2
        && ok == (LinkOf(node.trace[|old(node.trace)| + 2], mgmt) == preKernelState && LinkAsAsked(node.st))
    {
      var accepted := node.CommitStage();
      if !accepted {
        var reverted := node.RevertStage();
        return false;
      }
      var done := node.WaitForTask();
      if !done { return false; }
      var link := node.LinkState(mgmt);
      if link != Some(preKernelState) { return false; }
      ok := LiveAsAsked();
    }

    method LiveAsAsked() returns (ok: bool)
      requires Valid(mode, iface, mgmt, wanted)
      modifies node`st, node`trace, node`faults
      ensures Ticks(old(node.st), node.st) && node.trace == old(node.trace) + [node.st]
      ensures old(node.faults) <= node.faults
      ensures ok || old(node.faults) == node.faults ==> ok == LinkAsAsked(node.st)
    {
      var own := node.LinkState(iface);
      var want := EffectiveWanted(mode, wanted);
      AskedMeans(node.st);
      var wantExists := mode == Create && AutostartRequested(want);
      return own.Some? && (wantExists || NegativeLivenessReliable(mode, want) ==> own.value.present == wantExists);
    }

    /** The interface is live if it was asked to be, and otherwise is not, except for a
        port that its bridge starts. */
    ghost predicate LinkAsAsked(s: NodeState) {
      if mode == Create && ("autostart" !in wanted || ParseBoolish(wanted["autostart"]) == Some(true)) then
        LinkOf(s, iface).present
      else
        (mode == Create && BridgeStarts()) || !LinkOf(s, iface).present
    }

    lemma AskedMeans(s: NodeState)
      requires Valid(mode, iface, mgmt, wanted)
      ensures var want := EffectiveWanted(mode, wanted);
        var live := mode == Create && AutostartRequested(want);
        LinkAsAsked(s) <==> (live || NegativeLivenessReliable(mode, want) ==> LinkOf(s, iface).present == live)
    {
      if mode == Create { WantedIsCanonical(iface, mgmt, wanted); }
    }

    /** An OVS port, attached to a bridge. */
    ghost predicate BridgeStarts() {
      && "type" in wanted && wanted["type"] in {"OVSPort", "OVSIntPort", "OVSBond"}
      && "ovs_bridge" in wanted && wanted["ovs_bridge"] != ""
    }

    /** Whatever the node, PVE and everyone else do: the writes are a stage that failed, or
        one stage followed by one discard or one commit, a discard never follows a commit
        that was accepted, and a commit follows only a guard that held. While the others
        only stage and discard, what runs is the old file or the whole of the file staged
        when the worker took it, and an interface that is already as it was to become is
        never committed. */
    method Apply() returns (ok: bool)
      requires GoodHash(hash)
      modifies this, node
      ensures old(node.writes) <= node.writes && old(node.trace) <= node.trace
      ensures Disciplined(old(node.writes), node.writes, ok) && Cleared(old(node.writes), node.writes, node.st)
      ensures Malformed(mode, iface, mgmt, wanted) ==> !ok && node.writes == old(node.writes)
      ensures StagesAsked(old(node.writes), node.writes, node.trace, |old(node.trace)|)
      ensures !Committed(old(node.writes), node.writes) ==> KeepsRunning(old(node.st), node.st)
      ensures Committed(old(node.writes), node.writes) ==>
        && |node.trace| > CommitAt(|old(node.trace)|) && GuardHeld(node.trace, |old(node.trace)|)
        && KeepsRunning(old(node.st), node.trace[GuardAt(|old(node.trace)|)])
        && NeverMixed(node.trace[GuardAt(|old(node.trace)|)], node.st)
      ensures ok ==> Verified(node.trace, |old(node.trace)|, node.st)
      ensures !ok && old(node.faults) == node.faults ==>
        || Malformed(mode, iface, mgmt, wanted) || StopJustified(node.trace, |old(node.trace)|)
        || (|node.trace| > MgmtCheckAt(|old(node.trace)|) && !Checked(node.trace, |old(node.trace)|, node.st))
      ensures OnlyStaging(old(node.st), node.st) && LinkOf(old(node.st), iface).present == (mode == Create) ==>
        !ok && !Committed(old(node.writes), node.writes)
    {
      MalformedIsRefused(mode, iface, mgmt, wanted);
      if !Valid(mode, iface, mgmt, wanted) { return false; }
      ok := ApplyValid();
    }

    method ApplyValid() returns (ok: bool)
      requires GoodHash(hash) && Valid(mode, iface, mgmt, wanted)
      modifies this, node
      ensures old(node.writes) <= node.writes && old(node.trace) <= node.trace
      ensures Disciplined(old(node.writes), node.writes, ok) && Cleared(old(node.writes), node.writes, node.st)
      ensures StagesAsked(old(node.writes), node.writes, node.trace, |old(node.trace)|)
      ensures !Committed(old(node.writes), node.writes) ==> KeepsRunning(old(node.st), node.st)
      ensures Committed(old(node.writes), node.writes) ==>
        && |node.trace| > CommitAt(|old(node.trace)|) && GuardHeld(node.trace, |old(node.trace)|)
        && KeepsRunning(old(node.st), node.trace[GuardAt(|old(node.trace)|)])
        && NeverMixed(node.trace[GuardAt(|old(node.trace)|)], node.st)
      ensures ok ==> Verified(node.trace, |old(node.trace)|, node.st)
      ensures !ok && old(node.faults) == node.faults ==>
        || StopJustified(node.trace, |old(node.trace)|)
        || (|node.trace| > MgmtCheckAt(|old(node.trace)|) && !Checked(node.trace, |old(node.trace)|, node.st))
      ensures OnlyStaging(old(node.st), node.st) && LinkOf(old(node.st), iface).present == (mode == Create) ==>
        !ok && !Committed(old(node.writes), node.writes)
    {
      var go := StageGuarded();
      if !go { return false; }
      ok := CommitVerified();
    }

    /** Steps 7 and 8: the management bridge's link is what it was, and the interface's as asked. */
    ghost predicate Checked(trace: seq<NodeState>, n: nat, st: NodeState)
      requires |trace| > MgmtCheckAt(n)
    {
      LinkOf(trace[MgmtCheckAt(n)], mgmt) == LinkOf(trace[LinkAt(n)], mgmt) && LinkAsAsked(st)
    }

    /** A success: the checks passed, a whole file runs, and it has the management bridge as
        it was before the stage, unless somebody acted since the guard read it. */
    ghost predicate Verified(trace: seq<NodeState>, n: nat, st: NodeState) {
      && |trace| > MgmtCheckAt(n) && Checked(trace, n, st)
      && RunsWhole(trace[GuardAt(n)], st)
      && (Undisturbed(trace[GuardAt(n)], st) ==>
            && mgmt in View(trace[StanzaAt(n)]) && mgmt in st.running
            && SameStanza(View(trace[StanzaAt(n)])[mgmt], st.running[mgmt]))
    }

    /** The guard held: the management bridge's stanza did not change from before the stage
        to after it, and the interface was not yet as it was to become. */
    ghost predicate GuardHeld(trace: seq<NodeState>, n: nat)
      requires |trace| > GuardAt(n) + 2
    {
      mgmt in View(trace[StanzaAt(n)]) && Passes(trace, GuardAt(n), View(trace[StanzaAt(n)])[mgmt])
    }

    /** Why a run whose every call was answered may stop before its commit. */
    ghost predicate StopJustified(trace: seq<NodeState>, n: nat) {
      && |trace| > StanzaAt(n)
      && (|| mgmt !in View(trace[StanzaAt(n)])
          || (|trace| > ExistingAt(n) && OtherType(View(trace[ExistingAt(n)])))
          || GuardFailed(trace, GuardAt(n), View(trace[StanzaAt(n)])[mgmt]))
    }

    /** The stage, if there is one, asked for what the view before it called for. */
    ghost predicate StagesAsked(before: seq<Write>, after: seq<Write>, trace: seq<NodeState>, n: nat)
      requires before <= after
    {
      before != after ==>
        && |trace| > StageAt(n) && after[|before|].Stage? && !OtherType(View(trace[ExistingAt(n)]))
        && AsksFor(after[|before|].request, mode, iface, wanted, iface in View(trace[ExistingAt(n)]))
    }

    /** What is read before the stage. */
    method Prepare() returns (converge: Option<bool>)
      modifies this, node`st, node`trace, node`faults
      ensures Reads(old(node.st), node.st) && old(node.trace) <= node.trace && old(node.faults) <= node.faults
      ensures converge.None? && old(node.faults) == node.faults ==> StopJustified(node.trace, |old(node.trace)|)
      ensures converge.Some? ==>
        && |node.trace| == StageAt(|old(node.trace)|) && Remembers(node.trace, |old(node.trace)|)
        && if mode == Create
           then converge.value == (iface in View(node.trace[ExistingAt(|old(node.trace)|)]))
             && !OtherType(View(node.trace[ExistingAt(|old(node.trace)|)]))
           else !converge.value
    {
      var go := Snapshot();
      if !go { return None; }
      converge := Converges();
    }

    /** Steps 1 to 5. */
    method StageGuarded() returns (go: bool)
      requires GoodHash(hash) && Valid(mode, iface, mgmt, wanted)
      modifies this, node
      ensures old(node.writes) <= node.writes && old(node.trace) <= node.trace
      ensures StagesAsked(old(node.writes), node.writes, node.trace, |old(node.trace)|)
      ensures KeepsRunning(old(node.st), node.st) && Cleared(old(node.writes), node.writes, node.st)
      ensures go ==> |node.writes| == |old(node.writes)| + 1 && node.writes[|old(node.writes)|].ok
      ensures !go ==> Disciplined(old(node.writes), node.writes, false) && !Committed(old(node.writes), node.writes)
      ensures go ==>
        && |node.trace| == CommitAt(|old(node.trace)|) && node.st == node.trace[GuardAt(|old(node.trace)|) + 2]
        && GuardHeld(node.trace, |old(node.trace)|) && Remembers(node.trace, |old(node.trace)|)
        && KeepsRunning(old(node.st), node.trace[GuardAt(|old(node.trace)|)])
        && Reads(node.trace[GuardAt(|old(node.trace)|)], node.st)
      ensures old(node.faults) <= node.faults
      ensures !go && old(node.faults) == node.faults ==> StopJustified(node.trace, |old(node.trace)|)
    {
      var converge := Prepare();
      if converge.None? { return false; }
      go := StageThenGuard(converge.value);
    }

    /** Steps 2 to 5, the stage being the next call. */
    method StageThenGuard(converge: bool) returns (go: bool)
      requires Valid(mode, iface, mgmt, wanted)
      requires GoodHash(hash) && preStanzaHash == CanonicalHash(hash, currentFields)
      modifies node
      ensures old(node.writes) < node.writes && old(node.trace) < node.trace
      ensures KeepsRunning(old(node.st), node.st) && Cleared(old(node.writes), node.writes, node.st)
      ensures node.writes[|old(node.writes)|].Stage?
      ensures AsksFor(node.writes[|old(node.writes)|].request, mode, iface, wanted, converge)
      ensures go ==> |node.writes| == |old(node.writes)| + 1 && node.writes[|old(node.writes)|].ok
      ensures !go ==> Disciplined(old(node.writes), node.writes, false) && !Committed(old(node.writes), node.writes)
      ensures go ==>
        && |node.trace| == |old(node.trace)| + 4 && node.st == node.trace[|old(node.trace)| + 3]
        && Passes(node.trace, |old(node.trace)| + 1, currentFields)
        && KeepsRunning(old(node.st), node.trace[|old(node.trace)| + 1])
        && Reads(node.trace[|old(node.trace)| + 1], node.st)
      ensures old(node.faults) <= node.faults
      ensures !go && old(node.faults) == node.faults ==>
        GuardFailed(node.trace, |old(node.trace)| + 1, currentFields)
    {
      RequestAsks(mode, iface, mgmt, wanted, converge);
      go := node.StageRequest(RequestOf(mode, iface, wanted, converge));
      if !go { return; } // never reverted: what is pending is most likely someone else's
      go := Guarded();
    }
  }
}
