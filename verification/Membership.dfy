/** The access inventory (internal/bootstrap/inventory.go): users and groups are read
    separately, and each user is given the ACL entries of the groups it is in. */
module Membership {
  import opened Common
  import opened Text

  datatype AccessUser = AccessUser(userID: string, groups: seq<string>, groupsListed: bool)

  /** users is empty where the members are not listed. */
  datatype AccessGroup = AccessGroup(groupID: string, users: seq<string>, usersListed: bool)

  datatype MemberError =
    | NoGroupsField(user: string)
    | NoSuchGroup(user: string, group: string)
    | NotAMember(user: string, group: string)
    | NoSuchUser(group: string, user: string)
    | NotItsGroup(group: string, user: string)

  /** A later entry of an id takes the place of an earlier one. */
  function LastUser(users: seq<AccessUser>, id: string): Option<AccessUser> {
    if users == [] then None
    else if users[|users| - 1].userID == id then Some(users[|users| - 1])
    else LastUser(users[..|users| - 1], id)
  }

  function LastGroup(groups: seq<AccessGroup>, id: string): Option<AccessGroup> {
    if groups == [] then None
    else if groups[|groups| - 1].groupID == id then Some(groups[|groups| - 1])
    else LastGroup(groups[..|groups| - 1], id)
  }

  /** The group list bears out that the user is in the group. */
  predicate GroupBears(groups: seq<AccessGroup>, user: string, group: string) {
    var g := LastGroup(groups, group);
    g.Some? && (g.value.usersListed ==> user in g.value.users)
  }

  /** The user list bears out that the group has the member. */
  predicate UserBears(users: seq<AccessUser>, group: string, user: string) {
    var u := LastUser(users, user);
    u.Some? && group in u.value.groups
  }

  predicate UserOk(groups: seq<AccessGroup>, u: AccessUser) {
    forall k :: 0 <= k < |u.groups| ==> GroupBears(groups, u.userID, u.groups[k])
  }

  predicate GroupOk(users: seq<AccessUser>, g: AccessGroup) {
    forall k :: 0 <= k < |g.users| ==> UserBears(users, g.groupID, g.users[k])
  }

  predicate Agree(users: seq<AccessUser>, groups: seq<AccessGroup>) {
    && (forall i :: 0 <= i < |users| ==> users[i].groupsListed)
    && (forall i :: 0 <= i < |users| ==> UserOk(groups, users[i]))
    && (forall j :: 0 <= j < |groups| ==> GroupOk(users, groups[j]))
  }

  /** What the error says is so. */
  ghost predicate Names(e: MemberError, users: seq<AccessUser>, groups: seq<AccessGroup>) {
    match e
    case NoGroupsField(u) => exists i :: 0 <= i < |users| && users[i].userID == u && !users[i].groupsListed
    case NoSuchGroup(u, g) =>
      && LastGroup(groups, g).None?
      && exists i :: 0 <= i < |users| && users[i].userID == u && g in users[i].groups
    case NotAMember(u, g) =>
      && LastGroup(groups, g).Some? && u !in LastGroup(groups, g).value.users
      && exists i :: 0 <= i < |users| && users[i].userID == u && g in users[i].groups
    case NoSuchUser(g, u) =>
      && LastUser(users, u).None?
      && exists j :: 0 <= j < |groups| && groups[j].groupID == g && u in groups[j].users
    case NotItsGroup(g, u) =>
      && LastUser(users, u).Some? && g !in LastUser(users, u).value.groups
      && exists j :: 0 <= j < |groups| && groups[j].groupID == g && u in groups[j].users
  }

  method GroupsById(groups: seq<AccessGroup>) returns (byGroup: map<string, AccessGroup>)
    ensures forall id :: if id in byGroup then LastGroup(groups, id) == Some(byGroup[id])
        else LastGroup(groups, id) == None
  {
    byGroup := map[];
    for i := 0 to |groups|
      invariant forall id :: if id in byGroup then LastGroup(groups[..i], id) == Some(byGroup[id])
          else LastGroup(groups[..i], id) == None
    {
      assert groups[..i + 1][..i] == groups[..i];
      byGroup := byGroup[groups[i].groupID := groups[i]];
    }
    assert groups[..|groups|] == groups;
  }

  method UsersById(users: seq<AccessUser>) returns (byUser: map<string, AccessUser>, err: Option<MemberError>)
    ensures err.None? <==> forall i :: 0 <= i < |users| ==> users[i].groupsListed
    ensures err.Some? ==> err.value.NoGroupsField? && Names(err.value, users, [])
    ensures err.None? ==>
      forall id :: if id in byUser then LastUser(users, id) == Some(byUser[id]) else LastUser(users, id) == None
  {
    byUser := map[];
    for i := 0 to |users|
      invariant forall k :: 0 <= k < i ==> users[k].groupsListed
      invariant forall id :: if id in byUser then LastUser(users[..i], id) == Some(byUser[id])
          else LastUser(users[..i], id) == None
    {
      if !users[i].groupsListed { return byUser, Some(NoGroupsField(users[i].userID)); }
      assert users[..i + 1][..i] == users[..i];
      byUser := byUser[users[i].userID := users[i]];
    }
    assert users[..|users|] == users;
    return byUser, None;
  }

  method CheckUser(byGroup: map<string, AccessGroup>, ghost groups: seq<AccessGroup>, u: AccessUser)
    returns (err: Option<MemberError>)
    requires forall id :: if id in byGroup then LastGroup(groups, id) == Some(byGroup[id])
        else LastGroup(groups, id) == None
    ensures err.None? <==> UserOk(groups, u)
    ensures err.Some? ==> (err.value.NoSuchGroup? || err.value.NotAMember?) && Names(err.value, [u], groups)
  {
    for k := 0 to |u.groups|
      invariant forall i :: 0 <= i < k ==> GroupBears(groups, u.userID, u.groups[i])
    {
      var g := u.groups[k];
      assert [u][0] == u && g in u.groups;
      if g !in byGroup { return Some(NoSuchGroup(u.userID, g)); }
      if byGroup[g].usersListed && u.userID !in byGroup[g].users { return Some(NotAMember(u.userID, g)); }
    }
    return None;
  }

  method CheckGroup(byUser: map<string, AccessUser>, ghost users: seq<AccessUser>, g: AccessGroup)
    returns (err: Option<MemberError>)
    requires forall id :: if id in byUser then LastUser(users, id) == Some(byUser[id]) else LastUser(users, id) == None
    ensures err.None? <==> GroupOk(users, g)
    ensures err.Some? ==> (err.value.NoSuchUser? || err.value.NotItsGroup?) && Names(err.value, users, [g])
  {
    for k := 0 to |g.users|
      invariant forall i :: 0 <= i < k ==> UserBears(users, g.groupID, g.users[i])
    {
      var m := g.users[k];
      assert [g][0] == g && m in g.users;
      if m !in byUser { return Some(NoSuchUser(g.groupID, m)); }
      if g.groupID !in byUser[m].groups { return Some(NotItsGroup(g.groupID, m)); }
    }
    return None;
  }

  method CheckMembership(users: seq<AccessUser>, groups: seq<AccessGroup>) returns (err: Option<MemberError>)
    ensures err.None? <==> Agree(users, groups)
    ensures err.Some? ==> Names(err.value, users, groups)
  {
    var byGroup := GroupsById(groups);
    var byUser;
    byUser, err := UsersById(users);
    if err.Some? { return; }
    for i := 0 to |users|
      invariant forall k :: 0 <= k < i ==> UserOk(groups, users[k])
    {
      err := CheckUser(byGroup, groups, users[i]);
      if err.Some? { return; }
    }
    for j := 0 to |groups|
      invariant forall k :: 0 <= k < j ==> GroupOk(users, groups[k])
    {
      err := CheckGroup(byUser, users, groups[j]);
      if err.Some? { return; }
    }
    return None;
  }

  // ---- what agreement means ----

  ghost predicate UniqueIds(users: seq<AccessUser>, groups: seq<AccessGroup>) {
    && (forall i, j :: 0 <= i < j < |users| ==> users[i].userID != users[j].userID)
    && (forall i, j :: 0 <= i < j < |groups| ==> groups[i].groupID != groups[j].groupID)
  }

  ghost predicate UserSays(users: seq<AccessUser>, user: string, group: string) {
    exists i :: 0 <= i < |users| && users[i].userID == user && group in users[i].groups
  }

  ghost predicate GroupSays(groups: seq<AccessGroup>, user: string, group: string) {
    exists j :: 0 <= j < |groups| && groups[j].groupID == group && user in groups[j].users
  }

  /** The two lists define one membership: where members are listed they are exactly the
      users that name the group, and every group that is named exists. */
  ghost predicate SameMembership(users: seq<AccessUser>, groups: seq<AccessGroup>) {
    && (forall i :: 0 <= i < |users| ==> users[i].groupsListed)
    && (forall u, g :: UserSays(users, u, g) ==>
          exists j :: 0 <= j < |groups| && groups[j].groupID == g && (groups[j].usersListed ==> u in groups[j].users))
    && (forall u, g :: GroupSays(groups, u, g) ==> UserSays(users, u, g))
  }

  lemma {:induction false} LastUserIs(users: seq<AccessUser>, id: string)
    ensures LastUser(users, id).Some? <==> exists i :: 0 <= i < |users| && users[i].userID == id
    ensures LastUser(users, id).Some? ==> LastUser(users, id).value.userID == id && LastUser(users, id).value in users
  {
    if users != [] && users[|users| - 1].userID != id { LastUserIs(users[..|users| - 1], id); }
  }

  lemma {:induction false} LastGroupIs(groups: seq<AccessGroup>, id: string)
    ensures LastGroup(groups, id).Some? <==> exists i :: 0 <= i < |groups| && groups[i].groupID == id
    ensures LastGroup(groups, id).Some? ==>
        LastGroup(groups, id).value.groupID == id && LastGroup(groups, id).value in groups
  {
    if groups != [] && groups[|groups| - 1].groupID != id { LastGroupIs(groups[..|groups| - 1], id); }
  }

  lemma GroupBearsMeans(users: seq<AccessUser>, groups: seq<AccessGroup>, u: string, g: string)
    requires UniqueIds(users, groups)
    ensures GroupBears(groups, u, g) <==>
        exists j :: 0 <= j < |groups| && groups[j].groupID == g && (groups[j].usersListed ==> u in groups[j].users)
  {
    LastGroupIs(groups, g);
  }

  lemma UserBearsMeans(users: seq<AccessUser>, groups: seq<AccessGroup>, g: string, u: string)
    requires UniqueIds(users, groups)
    ensures UserBears(users, g, u) <==> UserSays(users, u, g)
  {
    LastUserIs(users, u);
  }

  /** With no id listed twice, the check passes exactly when the lists define one
      membership. */
  lemma AgreeIsSameMembership(users: seq<AccessUser>, groups: seq<AccessGroup>)
    requires UniqueIds(users, groups)
    ensures Agree(users, groups) <==> SameMembership(users, groups)
  {
    forall u: string, g: string
      ensures GroupBears(groups, u, g) <==>
          exists j :: 0 <= j < |groups| && groups[j].groupID == g && (groups[j].usersListed ==> u in groups[j].users)
      ensures UserBears(users, g, u) <==> UserSays(users, u, g)
    {
      GroupBearsMeans(users, groups, u, g);
      UserBearsMeans(users, groups, g, u);
    }
    if Agree(users, groups) {
      forall u, g | UserSays(users, u, g) ensures GroupBears(groups, u, g) {
        var i :| 0 <= i < |users| && users[i].userID == u && g in users[i].groups;
        assert UserOk(groups, users[i]);
        var k :| 0 <= k < |users[i].groups| && users[i].groups[k] == g;
      }
      forall u, g | GroupSays(groups, u, g) ensures UserSays(users, u, g) {
        var j :| 0 <= j < |groups| && groups[j].groupID == g && u in groups[j].users;
        assert GroupOk(users, groups[j]);
        var k :| 0 <= k < |groups[j].users| && groups[j].users[k] == u;
      }
    }
    if SameMembership(users, groups) {
      forall i | 0 <= i < |users| ensures UserOk(groups, users[i]) {
        forall k | 0 <= k < |users[i].groups| ensures GroupBears(groups, users[i].userID, users[i].groups[k]) {
          assert UserSays(users, users[i].userID, users[i].groups[k]);
        }
      }
      forall j | 0 <= j < |groups| ensures GroupOk(users, groups[j]) {
        forall k | 0 <= k < |groups[j].users| ensures UserBears(users, groups[j].groupID, groups[j].users[k]) {
          assert GroupSays(groups, groups[j].users[k], groups[j].groupID);
        }
      }
    }
  }

  // ---- the join ----

  datatype Acl = Acl(path: string, role: string, kind: string, ugid: string, propagate: bool, escalating: seq<string>,
      via: string)

  function Held(acls: seq<Acl>, kind: string, id: string, via: string): seq<Acl> {
    if acls == [] then []
    else
      var last := acls[|acls| - 1];
      Held(acls[..|acls| - 1], kind, id, via)
      + (if last.kind == kind && last.ugid == id then [last.(via := via)] else [])
  }

  method HeldBy(acls: seq<Acl>, kind: string, id: string, via: string) returns (out: seq<Acl>)
    ensures out == Held(acls, kind, id, via)
  {
    out := [];
    for i := 0 to |acls|
      invariant out == Held(acls[..i], kind, id, via)
    {
      assert acls[..i + 1][..i] == acls[..i];
      if acls[i].kind == kind && acls[i].ugid == id { out := out + [acls[i].(via := via)]; }
    }
    assert acls[..|acls|] == acls;
  }

  function GroupAcls(acls: seq<Acl>, groups: seq<string>): seq<Acl> {
    if groups == [] then []
    else GroupAcls(acls, groups[..|groups| - 1]) + Held(acls, "group", groups[|groups| - 1], groups[|groups| - 1])
  }

  method UserAcls(acls: seq<Acl>, u: AccessUser) returns (out: seq<Acl>)
    ensures out == Held(acls, "user", u.userID, "") + GroupAcls(acls, u.groups)
  {
    out := HeldBy(acls, "user", u.userID, "");
    ghost var own := out;
    for k := 0 to |u.groups|
      invariant out == own + GroupAcls(acls, u.groups[..k])
    {
      assert u.groups[..k + 1][..k] == u.groups[..k];
      var more := HeldBy(acls, "group", u.groups[k], u.groups[k]);
      out := out + more;
    }
    assert u.groups[..|u.groups|] == u.groups;
  }

  lemma {:induction false} HeldHas(acls: seq<Acl>, kind: string, id: string, via: string, e: Acl)
    ensures e in Held(acls, kind, id, via) <==>
        exists i :: 0 <= i < |acls| && acls[i].kind == kind && acls[i].ugid == id && e == acls[i].(via := via)
    decreases |acls|
  {
    if acls != [] {
      var n := |acls| - 1;
      HeldHas(acls[..n], kind, id, via, e);
      var more := if acls[n].kind == kind && acls[n].ugid == id then [acls[n].(via := via)] else [];
      assert Held(acls, kind, id, via) == Held(acls[..n], kind, id, via) + more;
      assert acls == acls[..n] + [acls[n]];
    }
  }

  lemma {:induction false} GroupAclsFrom(acls: seq<Acl>, groups: seq<string>, e: Acl) returns (k: nat)
    requires e in GroupAcls(acls, groups)
    ensures k < |groups| && e in Held(acls, "group", groups[k], groups[k])
    decreases |groups|
  {
    var n := |groups| - 1;
    if e in Held(acls, "group", groups[n], groups[n]) { return n; }
    k := GroupAclsFrom(acls, groups[..n], e);
  }

  lemma {:induction false} GroupAclsInto(acls: seq<Acl>, groups: seq<string>, k: nat, e: Acl)
    requires k < |groups| && e in Held(acls, "group", groups[k], groups[k])
    ensures e in GroupAcls(acls, groups)
    decreases |groups|
  {
    if k < |groups| - 1 { GroupAclsInto(acls, groups[..|groups| - 1], k, e); }
  }

  /** An entry the user holds: it names the user, or a group that either list puts the user
      in, and then says through which. */
  ghost predicate Holds(u: AccessUser, groups: seq<AccessGroup>, a: Acl, e: Acl) {
    || (a.kind == "user" && a.ugid == u.userID && e == a.(via := ""))
    || (a.kind == "group" && (a.ugid in u.groups || GroupSays(groups, u.userID, a.ugid)) && e == a.(via := a.ugid))
  }

  /** When the check has passed, a user is given exactly the entries it holds. */
  lemma JoinIsExact(users: seq<AccessUser>, groups: seq<AccessGroup>, acls: seq<Acl>, u: AccessUser, e: Acl)
    requires Agree(users, groups) && LastUser(users, u.userID) == Some(u)
    ensures e in Held(acls, "user", u.userID, "") + GroupAcls(acls, u.groups) <==>
      exists i :: 0 <= i < |acls| && Holds(u, groups, acls[i], e)
  {
    HeldHas(acls, "user", u.userID, "", e);
    if e in GroupAcls(acls, u.groups) {
      var k := GroupAclsFrom(acls, u.groups, e);
      HeldHas(acls, "group", u.groups[k], u.groups[k], e);
    }
    forall g: string
      ensures e in Held(acls, "group", g, g) <==>
        exists i :: 0 <= i < |acls| && acls[i].kind == "group" && acls[i].ugid == g && e == acls[i].(via := g)
    {
      HeldHas(acls, "group", g, g, e);
    }
    forall g | GroupSays(groups, u.userID, g) ensures g in u.groups {
      var j :| 0 <= j < |groups| && groups[j].groupID == g && u.userID in groups[j].users;
      assert GroupOk(users, groups[j]);
      var k :| 0 <= k < |groups[j].users| && groups[j].users[k] == u.userID;
    }
    forall i | 0 <= i < |acls| && Holds(u, groups, acls[i], e)
      ensures e in Held(acls, "user", u.userID, "") + GroupAcls(acls, u.groups)
    {
      if acls[i].kind == "group" && e == acls[i].(via := acls[i].ugid) && acls[i].ugid in u.groups {
        var k :| 0 <= k < |u.groups| && u.groups[k] == acls[i].ugid;
        GroupAclsInto(acls, u.groups, k, e);
      }
    }
  }

  // ---- the inventory ----

  datatype Entry = Entry(path: string, role: string, kind: string, ugid: string, propagate: bool)

  datatype Account = NotPAM | Unchecked | Absent | Found(uid: nat)

  datatype InventoryUser = InventoryUser(userID: string, groups: seq<string>, acls: seq<Acl>, account: Account)

  function NameOf(userID: string): string {
    match Cut(userID, '@')
    case Some((name, _)) => name
    case None => userID
  }

  function RealmOf(userID: string): string {
    match Cut(userID, '@')
    case Some((_, realm)) => realm
    case None => ""
  }

  /** getent would take such a name for a number. */
  predicate NumericKey(name: string) {
    var d := if name != "" && name[0] == '+' then name[1..] else name;
    AllDigits(d)
  }

  predicate AllDigits(s: string) {
    s != "" && forall i :: 0 <= i < |s| ==> '0' <= s[i] <= '9'
  }

  /** Looked up on the node: a @pam user whose name is no number. */
  predicate LookedUp(userID: string) {
    RealmOf(userID) == "pam" && !NumericKey(NameOf(userID))
  }

  function AccountOf(userID: string, accounts: map<string, nat>): Account {
    if RealmOf(userID) != "pam" then NotPAM
    else if NumericKey(NameOf(userID)) then Unchecked
    else if NameOf(userID) in accounts then Found(accounts[NameOf(userID)])
    else Absent
  }

  /** A user of the node's own realm, and its name there. */
  ghost predicate PamUser(userID: string, name: string) {
    '@' !in name && userID == name + "@pam"
  }

  /** A number, or one after a plus sign. */
  ghost predicate Number(name: string) {
    exists digits :: Digits(digits) && (name == digits || name == "+" + digits)
  }

  ghost predicate Digits(s: string) {
    s != "" && forall i :: 0 <= i < |s| ==> '0' <= s[i] <= '9'
  }

  /** What an inventory says of a user's account, given the node's own. */
  ghost predicate AccountTold(account: Account, userID: string, accounts: map<string, nat>) {
    match account
    case NotPAM => forall name :: !PamUser(userID, name)
    case Unchecked => exists name :: PamUser(userID, name) && Number(name)
    case Absent => exists name :: PamUser(userID, name) && !Number(name) && name !in accounts
    case Found(uid) =>
      exists name :: PamUser(userID, name) && !Number(name) && name in accounts && accounts[name] == uid
  }

  /** The user's account is to be asked for. */
  ghost predicate NeedsAccount(userID: string) {
    exists name :: PamUser(userID, name) && !Number(name)
  }

  lemma NumericIsNumber(name: string)
    ensures NumericKey(name) <==> Number(name)
  {
    var d := if name != "" && name[0] == '+' then name[1..] else name;
    assert AllDigits(d) <==> Digits(d);
    if name != "" && name[0] == '+' {
      assert name == "+" + d && !Digits(name);
      forall digits: string | name == "+" + digits ensures digits == d { }
    } else {
      forall digits: string ensures name != "+" + digits { }
    }
    if Digits(d) { assert name == d || name == "+" + d; }
  }

  lemma PamName(userID: string, name: string)
    ensures PamUser(userID, name) <==> RealmOf(userID) == "pam" && NameOf(userID) == name
  {
    CutSound(userID, '@');
    if PamUser(userID, name) {
      assert name + "@pam" == name + ['@'] + "pam";
      CutAt(name, '@', "pam");
    }
    if RealmOf(userID) == "pam" && NameOf(userID) == name {
      assert userID == name + ['@'] + "pam";
      assert ['@'] + "pam" == "@pam";
    }
  }

  lemma AccountIsTold(userID: string, accounts: map<string, nat>)
    ensures AccountTold(AccountOf(userID, accounts), userID, accounts)
    ensures LookedUp(userID) <==> NeedsAccount(userID)
  {
    var name := NameOf(userID);
    NumericIsNumber(name);
    forall other: string ensures PamUser(userID, other) <==> RealmOf(userID) == "pam" && name == other {
      PamName(userID, other);
    }
    if RealmOf(userID) == "pam" { assert PamUser(userID, name); }
  }

  function AclOf(e: Entry, roles: map<string, seq<string>>, escalating: seq<string> -> seq<string>): Acl {
    Acl(e.path, e.role, e.kind, e.ugid, e.propagate, if e.role in roles then escalating(roles[e.role]) else [], "")
  }

  function UserEntry(u: AccessUser, acls: seq<Acl>, accounts: map<string, nat>): InventoryUser {
    InventoryUser(u.userID, u.groups, Held(acls, "user", u.userID, "") + GroupAcls(acls, u.groups),
        AccountOf(u.userID, accounts))
  }

  method Acls(entries: seq<Entry>, roles: map<string, seq<string>>, escalating: seq<string> -> seq<string>)
    returns (r: Option<seq<Acl>>)
    ensures r.Some? <==> forall i :: 0 <= i < |entries| ==> entries[i].role in roles
    ensures r.Some? ==> |r.value| == |entries|
    ensures r.Some? ==> forall i :: 0 <= i < |entries| ==> r.value[i] == AclOf(entries[i], roles, escalating)
  {
    var acls := [];
    for i := 0 to |entries|
      invariant |acls| == i
      invariant forall k ::
          0 <= k < i ==> entries[k].role in roles && acls[k] == AclOf(entries[k], roles, escalating)
    {
      if entries[i].role !in roles { return None; }
      acls := acls + [AclOf(entries[i], roles, escalating)];
    }
    return Some(acls);
  }

  /** The inventory's users, in the user list's order. */
  function Entries(users: seq<AccessUser>, acls: seq<Acl>, accounts: map<string, nat>): (r: seq<InventoryUser>)
    ensures |r| == |users|
  {
    if users == [] then []
    else Entries(users[..|users| - 1], acls, accounts) + [UserEntry(users[|users| - 1], acls, accounts)]
  }

  lemma {:induction false} EntriesAt(users: seq<AccessUser>, acls: seq<Acl>, accounts: map<string, nat>, i: nat)
    requires i < |users|
    ensures Entries(users, acls, accounts)[i] == UserEntry(users[i], acls, accounts)
    decreases |users|
  {
    if i < |users| - 1 { EntriesAt(users[..|users| - 1], acls, accounts, i); }
  }

  predicate SomeLookedUp(users: seq<AccessUser>) {
    users != [] && (LookedUp(users[|users| - 1].userID) || SomeLookedUp(users[..|users| - 1]))
  }

  method Join(users: seq<AccessUser>, acls: seq<Acl>) returns (inv: seq<InventoryUser>, ask: bool)
    ensures inv == Entries(users, acls, map[]) && (ask <==> SomeLookedUp(users))
  {
    inv, ask := [], false;
    for i := 0 to |users|
      invariant inv == Entries(users[..i], acls, map[]) && (ask <==> SomeLookedUp(users[..i]))
    {
      assert users[..i + 1][..i] == users[..i];
      var held := UserAcls(acls, users[i]);
      inv := inv + [InventoryUser(users[i].userID, users[i].groups, held, AccountOf(users[i].userID, map[]))];
      ask := ask || LookedUp(users[i].userID);
    }
    assert users[..|users|] == users;
  }

  function Fill(u: InventoryUser, accounts: map<string, nat>): InventoryUser {
    if u.account == Absent && NameOf(u.userID) in accounts then u.(account := Found(accounts[NameOf(u.userID)])) else u
  }

  method FillIn(joined: seq<InventoryUser>, accounts: map<string, nat>) returns (inv: seq<InventoryUser>)
    ensures |inv| == |joined| && forall k :: 0 <= k < |inv| ==> inv[k] == Fill(joined[k], accounts)
  {
    inv := joined;
    for i := 0 to |inv|
      invariant |inv| == |joined|
      invariant forall k :: 0 <= k < |inv| ==> inv[k] == if k < i then Fill(joined[k], accounts) else joined[k]
    {
      if inv[i].account == Absent && NameOf(inv[i].userID) in accounts {
        inv := inv[i := inv[i].(account := Found(accounts[NameOf(inv[i].userID)]))];
      }
    }
  }

  lemma FillOne(u: AccessUser, acls: seq<Acl>, accounts: map<string, nat>)
    ensures Fill(UserEntry(u, acls, map[]), accounts) == UserEntry(u, acls, accounts)
  {
  }

  lemma FillCompletes(users: seq<AccessUser>, inv: seq<InventoryUser>, acls: seq<Acl>, accounts: map<string, nat>)
    requires |inv| == |users| && forall k :: 0 <= k < |inv| ==> inv[k] == Fill(Entries(users, acls, map[])[k], accounts)
    ensures inv == Entries(users, acls, accounts)
  {
    forall k | 0 <= k < |users| ensures inv[k] == Entries(users, acls, accounts)[k] {
      EntriesAt(users, acls, map[], k);
      EntriesAt(users, acls, accounts, k);
      FillOne(users[k], acls, accounts);
      assert inv[k] == Fill(UserEntry(users[k], acls, map[]), accounts);
    }
  }

  lemma {:induction false} NobodyLookedUp(users: seq<AccessUser>, acls: seq<Acl>, accounts: map<string, nat>)
    requires !SomeLookedUp(users)
    ensures Entries(users, acls, accounts) == Entries(users, acls, map[])
    decreases |users|
  {
    if users != [] { NobodyLookedUp(users[..|users| - 1], acls, accounts); }
  }

  lemma {:induction false} SomeNeeded(users: seq<AccessUser>)
    ensures SomeLookedUp(users) <==> exists k :: 0 <= k < |users| && NeedsAccount(users[k].userID)
    decreases |users|
  {
    if users != [] {
      var n := |users| - 1;
      SomeNeeded(users[..n]);
      AccountIsTold(users[n].userID, map[]);
      assert users == users[..n] + [users[n]];
    }
  }

  /** An entry of the inventory, in its own words: who it is about, its account, and what it
      holds, its own entries first and then those of each of its groups. */
  ghost predicate Tells(e: InventoryUser, u: AccessUser, users: seq<AccessUser>, groups: seq<AccessGroup>,
                        acls: seq<Acl>, accounts: map<string, nat>)
  {
    && e.userID == u.userID && e.groups == u.groups
    && AccountTold(e.account, u.userID, accounts)
    && (UniqueIds(users, groups) ==>
          forall a: Acl :: a in e.acls <==> exists i :: 0 <= i < |acls| && Holds(u, groups, acls[i], a))
    && e.acls == Held(acls, "user", u.userID, "") + GroupAcls(acls, u.groups)
  }

  lemma EntryTells(users: seq<AccessUser>, groups: seq<AccessGroup>, acls: seq<Acl>, accounts: map<string, nat>, k: nat)
    requires Agree(users, groups) && k < |users|
    ensures Tells(Entries(users, acls, accounts)[k], users[k], users, groups, acls, accounts)
  {
    var u := users[k];
    EntriesAt(users, acls, accounts, k);
    AccountIsTold(u.userID, accounts);
    if UniqueIds(users, groups) {
      OnlyUser(users, k);
      forall a: Acl
        ensures a in Held(acls, "user", u.userID, "") + GroupAcls(acls, u.groups) <==>
          exists i :: 0 <= i < |acls| && Holds(u, groups, acls[i], a)
      {
        JoinIsExact(users, groups, acls, u, a);
      }
    }
  }

  lemma {:induction false} OnlyUser(users: seq<AccessUser>, k: nat)
    requires k < |users| && forall i, j :: 0 <= i < j < |users| ==> users[i].userID != users[j].userID
    ensures LastUser(users, users[k].userID) == Some(users[k])
    decreases |users|
  {
    if k < |users| - 1 { OnlyUser(users[..|users| - 1], k); }
  }

  /** Nothing is defaulted: it is every user, in the list's order, with all it holds and its
      account, or no inventory. The node's accounts (getent's answer, none if it could not be
      verified) are asked for only when a user is to be looked up, and then filled in. */
  method Inventory(users: seq<AccessUser>, groups: seq<AccessGroup>, entries: seq<Entry>,
                   roles: map<string, seq<string>>,
                   escalating: seq<string> -> seq<string>, accounts: Option<map<string, nat>>)
    returns (r: Option<seq<InventoryUser>>, acls: seq<Acl>)
    ensures r.Some? <==>
      && (forall i :: 0 <= i < |entries| ==> entries[i].role in roles)
      && Agree(users, groups)
      && (accounts.Some? || forall k :: 0 <= k < |users| ==> !NeedsAccount(users[k].userID))
    ensures r.Some? ==> |acls| == |entries| && |r.value| == |users|
    ensures r.Some? ==> forall i :: 0 <= i < |entries| ==>
        var e := entries[i];
        acls[i] == Acl(e.path, e.role, e.kind, e.ugid, e.propagate, escalating(roles[e.role]), "")
    ensures r.Some? ==> forall k :: 0 <= k < |users| ==>
        Tells(r.value[k], users[k], users, groups, acls, if accounts.Some? then accounts.value else map[])
  {
    SomeNeeded(users);
    var built := Acls(entries, roles, escalating);
    if built.None? { return None, []; }
    acls := built.value;
    var err := CheckMembership(users, groups);
    if err.Some? { return None, acls; }
    var inv, ask := Join(users, acls);
    forall k | 0 <= k < |users|
      ensures Tells(Entries(users, acls, if accounts.Some? then accounts.value else map[])[k], users[k], users, groups,
                    acls, if accounts.Some? then accounts.value else map[])
    {
      EntryTells(users, groups, acls, if accounts.Some? then accounts.value else map[], k);
    }
    if !ask {
      NobodyLookedUp(users, acls, if accounts.Some? then accounts.value else map[]);
      return Some(inv), acls;
    }
    if accounts.None? { return None, acls; }
    inv := FillIn(inv, accounts.value);
    FillCompletes(users, inv, acls, accounts.value);
    return Some(inv), acls;
  }
}
