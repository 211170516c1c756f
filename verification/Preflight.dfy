/** The checks before anything is removed (internal/bootstrap/rotation.go): the roles and
    their privileges, the node, and whether the token's owner can hold what is asked. */
module Preflight {
  import opened Common
  import opened Text
  import opened Order
  import opened AclPath

  /** An entry of the role list; its privs field may be missing. */
  datatype Role = Role(id: string, privs: Option<string>)

  /** What each read answers, None where it could not be verified; perms is what the owner
      holds at a path, each privilege with its propagate flag. */
  datatype Answers = Answers(
    roles: Option<seq<Role>>, nodes: Option<seq<string>>, ownerActive: Option<bool>,
    perms: string -> Option<map<string, bool>>, tokens: Option<seq<string>>, writable: bool)

  datatype Refusal =
    | Unreadable | UnknownRole(role: string) | BadRole(role: string) | EmptyRole(role: string)
    | PinnedMismatch(path: string, missing: seq<string>, extra: seq<string>)
    | UnknownNode | OwnerDisabled | OwnerLacks(path: string, missing: seq<string>, flagOnly: seq<string>) | NotWritable

  predicate Letter(c: char) { 'a' <= c <= 'z' || 'A' <= c <= 'Z' }

  predicate PrivName(p: string) {
    p != "" && Letter(p[0]) && forall i :: 0 <= i < |p| ==> Letter(p[i]) || '0' <= p[i] <= '9' || p[i] == '.'
  }

  function ParseRolePrivs(privs: Option<string>): Option<seq<string>> {
    if privs.None? then None
    else if privs.value == "" then Some([])
    else if forall i :: 0 <= i < |Split(privs.value, ',')| ==> PrivName(Split(privs.value, ',')[i]) then
      Some(Split(privs.value, ','))
    else None
  }

  function FirstRole(roles: seq<Role>, id: string): Option<Role> {
    if roles == [] then None else if roles[0].id == id then Some(roles[0]) else FirstRole(roles[1..], id)
  }

  /** A role's privileges, if it exists, is well formed and grants something. */
  function RolePrivs(roles: seq<Role>, id: string): Result<seq<string>, Refusal> {
    match FirstRole(roles, id)
    case None => Err(UnknownRole(id))
    case Some(role) =>
      match ParseRolePrivs(role.privs)
      case None => Err(BadRole(id))
      case Some(privs) => if privs == [] then Err(EmptyRole(id)) else Ok(privs)
  }

  /** The privileges that a role list's text names: "" names none, and any other text is
      exactly their names joined. */
  ghost predicate Reads(text: string, privs: seq<string>) {
    if privs == [] then text == "" else Join(privs, ',') == text && forall p :: p in privs ==> PrivName(p)
  }

  lemma ParsedPrivs(text: string, privs: seq<string>)
    ensures ParseRolePrivs(Some(text)) == Some(privs) <==> Reads(text, privs)
  {
    JoinSplit(text, ',');
    var parts := Split(text, ',');
    if Reads(text, privs) && privs != [] {
      forall p | p in privs ensures ',' !in p { assert PrivName(p); }
      SplitJoin(privs, ',');
      assert forall i :: 0 <= i < |parts| ==> parts[i] in privs;
      assert PrivName(parts[0]) && Split("", ',') == [""];
    }
    if ParseRolePrivs(Some(text)) == Some(privs) && privs != [] {
      forall p | p in privs ensures PrivName(p) { var i :| 0 <= i < |parts| && parts[i] == p; }
    }
  }

  /** The first entry of a role. */
  ghost predicate IsFirst(roles: seq<Role>, id: string, k: int) {
    0 <= k < |roles| && roles[k].id == id && forall j :: 0 <= j < k ==> roles[j].id != id
  }

  lemma {:induction false} FirstRoleIs(roles: seq<Role>, id: string)
    ensures FirstRole(roles, id).None? <==> forall j :: 0 <= j < |roles| ==> roles[j].id != id
    ensures FirstRole(roles, id).Some? ==> exists k :: IsFirst(roles, id, k) && FirstRole(roles, id) == Some(roles[k])
  {
    if roles != [] {
      if roles[0].id == id {
        assert IsFirst(roles, id, 0);
      } else {
        FirstRoleIs(roles[1..], id);
        if FirstRole(roles[1..], id).Some? {
          var k :| IsFirst(roles[1..], id, k) && FirstRole(roles[1..], id) == Some(roles[1..][k]);
          assert forall j :: 0 < j < k + 1 ==> roles[j] == roles[1..][j - 1];
          assert IsFirst(roles, id, k + 1);
        }
        assert forall j :: 0 < j < |roles| ==> roles[j] == roles[1..][j - 1];
      }
    }
  }

  /** A role grants what the text of its first entry names, if that is anything. */
  lemma RoleGrants(roles: seq<Role>, id: string, privs: seq<string>)
    ensures RolePrivs(roles, id) == Ok(privs) <==>
      privs != [] && exists k :: IsFirst(roles, id, k) && roles[k].privs.Some? && Reads(roles[k].privs.value, privs)
  {
    FirstRoleIs(roles, id);
    forall k, l | IsFirst(roles, id, k) && IsFirst(roles, id, l) ensures k == l { }
    if FirstRole(roles, id).Some? {
      var k :| IsFirst(roles, id, k) && FirstRole(roles, id) == Some(roles[k]);
      if roles[k].privs.Some? { ParsedPrivs(roles[k].privs.value, privs); }
    }
  }

  /** What a refusal over a role says is so. */
  ghost predicate RoleRefused(e: Refusal, roles: seq<Role>) {
    match e
    case UnknownRole(id) => forall k :: 0 <= k < |roles| ==> roles[k].id != id
    case EmptyRole(id) => exists k :: IsFirst(roles, id, k) && roles[k].privs == Some("")
    case BadRole(id) =>
      exists k ::
        IsFirst(roles, id, k) && (roles[k].privs.Some? ==> forall privs :: !Reads(roles[k].privs.value, privs))
    case _ => false
  }

  lemma RefusedRole(roles: seq<Role>, id: string)
    ensures RolePrivs(roles, id).Err? ==>
      RoleRefused(RolePrivs(roles, id).error, roles) && RolePrivs(roles, id).error.role == id
  {
    FirstRoleIs(roles, id);
    if FirstRole(roles, id).Some? {
      var k :| IsFirst(roles, id, k) && FirstRole(roles, id) == Some(roles[k]);
      if roles[k].privs.Some? {
        forall privs: seq<string>
          ensures ParseRolePrivs(roles[k].privs) == Some(privs) <==> Reads(roles[k].privs.value, privs)
        {
          ParsedPrivs(roles[k].privs.value, privs);
        }
        assert ParseRolePrivs(roles[k].privs) == Some([]) ==> Reads(roles[k].privs.value, []);
      }
    }
  }

  // ---- the comparisons ----

  function Without(a: seq<string>, b: seq<string>): seq<string> {
    if a == [] then []
    else Without(a[..|a| - 1], b) + (if a[|a| - 1] in b then [] else [a[|a| - 1]])
  }

  lemma {:induction false} WithoutHas(a: seq<string>, b: seq<string>)
    ensures forall x :: x in Without(a, b) <==> x in a && x !in b
    ensures Without(a, b) == [] <==> forall i :: 0 <= i < |a| ==> a[i] in b
  {
    if a != [] {
      var init := a[..|a| - 1];
      WithoutHas(init, b);
      assert a == init + [a[|a| - 1]];
    }
  }

  predicate SameSet(a: seq<string>, b: seq<string>) {
    (forall i :: 0 <= i < |a| ==> a[i] in b) && (forall i :: 0 <= i < |b| ==> b[i] in a)
  }

  lemma Difference(a: seq<string>, b: seq<string>)
    ensures Sort(Without(a, b), StrLe) == [] <==> forall i :: 0 <= i < |a| ==> a[i] in b
    ensures forall x :: x in Sort(Without(a, b), StrLe) <==> x in a && x !in b
  {
    WithoutHas(a, b);
    SortHas(Without(a, b));
    SortEmpty(Without(a, b));
  }

  /** The members of one list that the other lacks, sorted. */
  method SetDiff(a: seq<string>, b: seq<string>) returns (onlyA: seq<string>, onlyB: seq<string>)
    ensures onlyA == Sort(Without(a, b), StrLe) && onlyB == Sort(Without(b, a), StrLe)
    ensures onlyA == [] && onlyB == [] <==> SameSet(a, b)
    ensures forall x :: (x in onlyA <==> x in a && x !in b) && (x in onlyB <==> x in b && x !in a)
  {
    var inA: set<string>, inB: set<string> := {}, {};
    for i := 0 to |a|
      invariant forall x :: x in inA <==> x in a[..i]
    {
      inA := inA + {a[i]};
    }
    onlyB := [];
    for i := 0 to |b|
      invariant onlyB == Without(b[..i], a) && forall x :: x in inB <==> x in b[..i]
    {
      assert b[..i + 1][..i] == b[..i] && a[..|a|] == a;
      inB := inB + {b[i]};
      if b[i] !in inA { onlyB := onlyB + [b[i]]; }
    }
    onlyA := [];
    for i := 0 to |a|
      invariant onlyA == Without(a[..i], b)
    {
      assert a[..i + 1][..i] == a[..i] && b[..|b|] == b;
      if a[i] !in inB { onlyA := onlyA + [a[i]]; }
    }
    assert a[..|a|] == a && b[..|b|] == b;
    Difference(a, b);
    Difference(b, a);
    onlyA, onlyB := Sort(onlyA, StrLe), Sort(onlyB, StrLe);
  }

  lemma SortEmpty(s: seq<string>)
    ensures Sort(s, StrLe) == [] <==> s == []
  {
  }

  /** What an owner lacks of the given privileges, and what it holds only without
      propagating, when that is asked. */
  function Missing(perms: map<string, bool>, privs: seq<string>): seq<string> {
    if privs == [] then []
    else Missing(perms, privs[..|privs| - 1]) + (if privs[|privs| - 1] in perms then [] else [privs[|privs| - 1]])
  }

  function FlagOnly(perms: map<string, bool>, propagate: bool, privs: seq<string>): seq<string> {
    if privs == [] then []
    else
      var p := privs[|privs| - 1];
      FlagOnly(perms, propagate, privs[..|privs| - 1]) + (if p in perms && propagate && !perms[p] then [p] else [])
  }

  /** The members of a list, sorted. */
  lemma SortHas(s: seq<string>)
    ensures Sorted(Sort(s, StrLe), StrLe) && forall p :: p in Sort(s, StrLe) <==> p in s
  {
    StrLeOrders();
    SortSorts(s, StrLe);
    forall p ensures p in Sort(s, StrLe) <==> p in s {
      assert p in Sort(s, StrLe) <==> p in multiset(Sort(s, StrLe));
      assert p in s <==> p in multiset(s);
    }
  }

  lemma Coverage(perms: map<string, bool>, propagate: bool, privs: seq<string>)
    ensures var missing, flagOnly := Sort(Missing(perms, privs), StrLe), Sort(FlagOnly(perms, propagate, privs), StrLe);
      && Sorted(missing, StrLe) && Sorted(flagOnly, StrLe)
      && (forall p :: p in missing <==> p in privs && p !in perms)
      && (forall p :: p in flagOnly <==> p in privs && p in perms && propagate && !perms[p])
  {
    SortHas(Missing(perms, privs));
    SortHas(FlagOnly(perms, propagate, privs));
    forall p: string
      ensures p in Missing(perms, privs) <==> p in privs && p !in perms
      ensures p in FlagOnly(perms, propagate, privs) <==> p in privs && p in perms && propagate && !perms[p]
    {
      MissingHas(perms, propagate, privs, p);
    }
  }

  method OwnerCovers(perms: map<string, bool>, propagate: bool, privs: seq<string>)
    returns (missing: seq<string>, flagOnly: seq<string>)
    ensures missing == Sort(Missing(perms, privs), StrLe) && flagOnly == Sort(FlagOnly(perms, propagate, privs), StrLe)
    ensures Sorted(missing, StrLe) && Sorted(flagOnly, StrLe)
    ensures forall p :: p in missing <==> p in privs && p !in perms
    ensures forall p :: p in flagOnly <==> p in privs && p in perms && propagate && !perms[p]
  {
    Coverage(perms, propagate, privs);
    missing, flagOnly := [], [];
    for i := 0 to |privs|
      invariant missing == Missing(perms, privs[..i]) && flagOnly == FlagOnly(perms, propagate, privs[..i])
    {
      assert privs[..i + 1][..i] == privs[..i];
      if privs[i] !in perms { missing := missing + [privs[i]]; }
      else if propagate && !perms[privs[i]] { flagOnly := flagOnly + [privs[i]]; }
    }
    assert privs[..|privs|] == privs;
    missing, flagOnly := Sort(missing, StrLe), Sort(flagOnly, StrLe);
  }

  lemma {:induction false} MissingHas(perms: map<string, bool>, propagate: bool, privs: seq<string>, p: string)
    ensures p in Missing(perms, privs) <==> p in privs && p !in perms
    ensures p in FlagOnly(perms, propagate, privs) <==> p in privs && p in perms && propagate && !perms[p]
    decreases |privs|
  {
    if privs != [] {
      MissingHas(perms, propagate, privs[..|privs| - 1], p);
      assert privs == privs[..|privs| - 1] + [privs[|privs| - 1]];
    }
  }

  /** What PVE lets a privilege-separated token hold: what it was granted, cut down to what
      its owner holds, flag by flag. */
  function TokenHolds(perms: map<string, bool>, propagate: bool, privs: seq<string>): map<string, bool> {
    map p | p in privs && p in perms :: propagate && perms[p]
  }

  function Asked(propagate: bool, privs: seq<string>): map<string, bool> {
    map p | p in privs :: propagate
  }

  lemma {:induction false} CoversSteps(perms: map<string, bool>, propagate: bool, privs: seq<string>)
    ensures Missing(perms, privs) == [] && FlagOnly(perms, propagate, privs) == [] <==>
      forall i :: 0 <= i < |privs| ==> privs[i] in perms && (propagate ==> perms[privs[i]])
    decreases |privs|
  {
    if privs != [] {
      var most, last := privs[..|privs| - 1], privs[|privs| - 1];
      CoversSteps(perms, propagate, most);
      var ok := last in perms && (propagate ==> perms[last]);
      assert Missing(perms, privs) == [] && FlagOnly(perms, propagate, privs) == [] <==>
        Missing(perms, most) == [] && FlagOnly(perms, propagate, most) == [] && ok;
      assert privs == most + [last];
    }
  }

  /** An owner covers a grant exactly when the intersection loses nothing of it. */
  lemma CoversIffNothingLost(perms: map<string, bool>, propagate: bool, privs: seq<string>)
    ensures Missing(perms, privs) == [] && FlagOnly(perms, propagate, privs) == [] <==>
      TokenHolds(perms, propagate, privs) == Asked(propagate, privs)
  {
    CoversSteps(perms, propagate, privs);
    var holds, asked := TokenHolds(perms, propagate, privs), Asked(propagate, privs);
    if holds == asked {
      forall i | 0 <= i < |privs| ensures privs[i] in perms && (propagate ==> perms[privs[i]]) {
        assert privs[i] in asked && privs[i] in holds && holds[privs[i]] == asked[privs[i]];
      }
    }
  }

  // ---- the checks ----

  const ROOT := "root@pam"

  /** What a grant confers: its pinned privileges, or its role's. */
  function Conferred(g: Grant, privs: seq<string>): seq<string> {
    if g.privs.Some? then g.privs.value else privs
  }

  predicate RoleOk(roles: seq<Role>, g: Grant) {
    RolePrivs(roles, g.role).Ok? && (g.privs.Some? ==> SameSet(g.privs.value, RolePrivs(roles, g.role).value))
  }

  predicate OwnerOk(a: Answers, roles: seq<Role>, g: Grant) {
    RolePrivs(roles, g.role).Ok? && a.perms(g.path).Some?
    && var privs := Conferred(g, RolePrivs(roles, g.role).value);
       Missing(a.perms(g.path).value, privs) == [] && FlagOnly(a.perms(g.path).value, g.propagate, privs) == []
  }

  /** A pinned grant's own refusal: what its pins and its role's privileges differ in. */
  ghost predicate PinRefused(e: Refusal, privs: seq<string>, g: Grant) {
    && e.PinnedMismatch? && e.path == g.path && g.privs.Some? && (e.missing != [] || e.extra != [])
    && forall p :: (p in e.missing <==> p in g.privs.value && p !in privs)
                && (p in e.extra <==> p in privs && p !in g.privs.value)
  }

  ghost predicate WantRefused(e: Refusal, roles: seq<Role>, want: seq<Grant>) {
    || (RoleRefused(e, roles) && exists i :: 0 <= i < |want| && want[i].role == e.role)
    || exists i :: 0 <= i < |want| && RolePrivs(roles, want[i].role).Ok?
         && PinRefused(e, RolePrivs(roles, want[i].role).value, want[i])
  }

  method CheckRoles(roles: seq<Role>, want: seq<Grant>) returns (r: Option<Refusal>)
    ensures r.None? <==> forall i :: 0 <= i < |want| ==> RoleOk(roles, want[i])
    ensures r.Some? ==> WantRefused(r.value, roles, want)
  {
    for i := 0 to |want|
      invariant forall k :: 0 <= k < i ==> RolePrivs(roles, want[k].role).Ok?
    {
      var privs := RolePrivs(roles, want[i].role);
      if privs.Err? {
        RefusedRole(roles, want[i].role);
        assert !RoleOk(roles, want[i]);
        return Some(privs.error);
      }
    }
    for i := 0 to |want|
      invariant forall k :: 0 <= k < i ==> RoleOk(roles, want[k])
    {
      r := CheckPinned(want[i], RolePrivs(roles, want[i].role).value);
      assert r.None? <==> RoleOk(roles, want[i]);
      if r.Some? { return; }
    }
    return None;
  }

  method CheckPinned(g: Grant, privs: seq<string>) returns (r: Option<Refusal>)
    ensures r.None? <==> (g.privs.Some? ==> SameSet(g.privs.value, privs))
    ensures r.Some? ==> PinRefused(r.value, privs, g)
  {
    if g.privs.None? { return None; }
    var missing, extra := SetDiff(g.privs.value, privs);
    return if missing != [] || extra != [] then Some(PinnedMismatch(g.path, missing, extra)) else None;
  }

  /** A refusal of an owner: it is not active, or lacks what a grant confers, at its path. */
  ghost predicate OwnerRefused(e: Refusal, a: Answers, roles: seq<Role>, want: seq<Grant>) {
    match e
    case OwnerDisabled => a.ownerActive == Some(false)
    case Unreadable => a.ownerActive.None? || exists i :: 0 <= i < |want| && a.perms(want[i].path).None?
    case OwnerLacks(path, missing, flagOnly) =>
      && (missing != [] || flagOnly != [])
      && exists i :: 0 <= i < |want| && want[i].path == path && LacksOf(e, a, roles, want[i])
    case _ => false
  }

  ghost predicate LacksOf(e: Refusal, a: Answers, roles: seq<Role>, g: Grant)
    requires e.OwnerLacks?
  {
    && a.perms(g.path).Some? && RolePrivs(roles, g.role).Ok?
    && var held := a.perms(g.path).value;
       var privs := if g.privs.Some? then g.privs.value else RolePrivs(roles, g.role).value;
    && (forall p :: p in e.missing <==> p in privs && p !in held)
    && (forall p :: p in e.flagOnly <==> p in privs && p in held && g.propagate && !held[p])
  }

  /** Nothing is read for root, whose tokens PVE does not cut down. */
  method CheckOwner(a: Answers, owner: string, roles: seq<Role>, want: seq<Grant>) returns (r: Option<Refusal>)
    requires forall i :: 0 <= i < |want| ==> RoleOk(roles, want[i])
    ensures r.None? <==>
        owner == ROOT || (a.ownerActive == Some(true) && forall i :: 0 <= i < |want| ==> OwnerOk(a, roles, want[i]))
    ensures r.Some? ==> OwnerRefused(r.value, a, roles, want)
  {
    if owner == ROOT { return None; }
    if a.ownerActive.None? { return Some(Unreadable); }
    if !a.ownerActive.value { return Some(OwnerDisabled); }
    for i := 0 to |want|
      invariant forall k :: 0 <= k < i ==> OwnerOk(a, roles, want[k])
    {
      assert RoleOk(roles, want[i]);
      var perms := a.perms(want[i].path);
      if perms.None? { return Some(Unreadable); }
      var privs := Conferred(want[i], RolePrivs(roles, want[i].role).value);
      var missing, flagOnly := OwnerCovers(perms.value, want[i].propagate, privs);
      SortEmpty(Missing(perms.value, privs));
      SortEmpty(FlagOnly(perms.value, want[i].propagate, privs));
      if missing != [] || flagOnly != [] {
        r := Some(OwnerLacks(want[i].path, missing, flagOnly));
        assert LacksOf(r.value, a, roles, want[i]);
        return;
      }
    }
    return None;
  }

  predicate Passes(a: Answers, want: seq<Grant>, node: string, owner: string) {
    && a.roles.Some? && (forall i :: 0 <= i < |want| ==> RoleOk(a.roles.value, want[i]))
    && a.nodes.Some? && node in a.nodes.value
    && (owner == ROOT
          || (a.ownerActive == Some(true) && forall i :: 0 <= i < |want| ==> OwnerOk(a, a.roles.value, want[i])))
    && a.tokens.Some? && a.writable
  }

  /** What a refusal says is so. */
  ghost predicate Refused(e: Refusal, a: Answers, want: seq<Grant>, node: string, owner: string) {
    || (e.Unreadable? && (a.roles.None? || a.nodes.None? || a.tokens.None?))
    || (e.NotWritable? && !a.writable)
    || (e.UnknownNode? && a.nodes.Some? && node !in a.nodes.value)
    || (a.roles.Some? && WantRefused(e, a.roles.value, want))
    || (a.roles.Some? && owner != "root@pam" && OwnerRefused(e, a, a.roles.value, want))
  }

  /** Every check there is before a remove, and whether the token is there. */
  method Check(a: Answers, want: seq<Grant>, node: string, owner: string, tokenID: string)
    returns (r: Result<bool, Refusal>)
    ensures r.Ok? <==> Passes(a, want, node, owner)
    ensures r.Ok? ==> r.value == (tokenID in a.tokens.value)
    ensures r.Err? ==> Refused(r.error, a, want, node, owner)
  {
    if a.roles.None? { return Err(Unreadable); }
    var refusal := CheckRoles(a.roles.value, want);
    if refusal.Some? { return Err(refusal.value); }
    if a.nodes.None? { return Err(Unreadable); }
    if node !in a.nodes.value { return Err(UnknownNode); }
    refusal := CheckOwner(a, owner, a.roles.value, want);
    if refusal.Some? { return Err(refusal.value); }
    if a.tokens.None? { return Err(Unreadable); }
    if !a.writable { return Err(NotWritable); }
    return Ok(tokenID in a.tokens.value);
  }

  /** So a token minted after the checks can validate: at every path it holds exactly its
      role's privileges, each as far as was asked; and an owner other than root for whom
      that is not so is refused. */
  lemma PassingGrantsAreHeld(a: Answers, want: seq<Grant>, node: string, owner: string, i: nat)
    requires Passes(a, want, node, owner) && i < |want|
    ensures var g := want[i]; var role := RolePrivs(a.roles.value, g.role);
      && role.Ok? && SameSet(Conferred(g, role.value), role.value)
      && (owner != ROOT ==>
            a.perms(g.path).Some?
                && TokenHolds(a.perms(g.path).value, g.propagate, role.value) == Asked(g.propagate, role.value))
  {
    var g := want[i];
    assert RoleOk(a.roles.value, g);
    var role := RolePrivs(a.roles.value, g.role).value;
    if owner != ROOT {
      assert OwnerOk(a, a.roles.value, g);
      CoversSteps(a.perms(g.path).value, g.propagate, Conferred(g, role));
      forall k | 0 <= k < |role|
        ensures role[k] in a.perms(g.path).value && (g.propagate ==> a.perms(g.path).value[role[k]])
      {
        assert role[k] in Conferred(g, role);
      }
      CoversSteps(a.perms(g.path).value, g.propagate, role);
      CoversIffNothingLost(a.perms(g.path).value, g.propagate, role);
    }
  }
}
