/** Permission computation (discordgo/restapi.go, memberPermissions) and role colour
    (discordgo/state.go, firstRoleColorColor). */
module Permissions {
  import opened Outcome

  /** A 64-bit mask as the set of its bit positions: `|=` is union, `&= ^` is difference, and the test
      `p & bit == bit` for a one-bit constant is membership. */
  type Mask = set<nat>

  const ADMINISTRATOR := 3
  const ALL_TEXT: Mask := {10, 11, 12, 13, 14, 15, 16, 17}
  const ALL_VOICE: Mask := {8, 10, 20, 21, 22, 23, 24, 25}
  const ALL_CHANNEL: Mask := ALL_TEXT + ALL_VOICE + {0, 28, 4, 6, 7}
  const ALL: Mask := ALL_CHANNEL + {1, 2, 5, 3, 29, 30}

  const ROLE_OVERWRITE := 0
  const MEMBER_OVERWRITE := 1

  datatype Role = Role(id: string, permissions: Mask, color: int, position: int)

  datatype Overwrite = Overwrite(id: string, kind: int, deny: Mask, allow: Mask)

  // ---- what the loops of memberPermissions compute ----

  /** The first role with this id, as the loop with a break finds it. */
  function FindRole(roles: seq<Role>, id: string): (r: Option<Role>)
    ensures r.Some? ==> r.value in roles && r.value.id == id
    ensures r.None? ==> forall x :: x in roles ==> x.id != id
  {
    if roles == [] then None else if roles[0].id == id then Some(roles[0]) else FindRole(roles[1..], id)
  }

  /** `p` with the permissions of the held roles added one role after the other. */
  function Granted(p: Mask, roles: seq<Role>, held: seq<string>): Mask {
    if roles == [] then p
    else
      var n := |roles| - 1;
      var q := Granted(p, roles[..n], held);
      if roles[n].id in held then q + roles[n].permissions else q
  }

  function FindEveryone(ows: seq<Overwrite>, guildID: string): (r: Option<Overwrite>)
    ensures r.Some? ==> r.value in ows && r.value.id == guildID
    ensures r.None? ==> forall x :: x in ows ==> x.id != guildID
  {
    if ows == [] then None else if ows[0].id == guildID then Some(ows[0]) else FindEveryone(ows[1..], guildID)
  }

  function FindMember(ows: seq<Overwrite>, userID: string): (r: Option<Overwrite>)
    ensures r.Some? ==> r.value in ows && r.value.id == userID && r.value.kind == MEMBER_OVERWRITE
    ensures r.None? ==> forall x :: x in ows ==> !(x.id == userID && x.kind == MEMBER_OVERWRITE)
  {
    if ows == [] then None
    else if ows[0].kind == MEMBER_OVERWRITE && ows[0].id == userID then Some(ows[0])
    else FindMember(ows[1..], userID)
  }

  predicate ForHeldRole(o: Overwrite, held: seq<string>) {
    o.kind == ROLE_OVERWRITE && o.id in held
  }

  function RoleDenies(ows: seq<Overwrite>, held: seq<string>): Mask {
    if ows == [] then {}
    else
      var n := |ows| - 1;
      var d := RoleDenies(ows[..n], held);
      if ForHeldRole(ows[n], held) then d + ows[n].deny else d
  }

  function RoleAllows(ows: seq<Overwrite>, held: seq<string>): Mask {
    if ows == [] then {}
    else
      var n := |ows| - 1;
      var a := RoleAllows(ows[..n], held);
      if ForHeldRole(ows[n], held) then a + ows[n].allow else a
  }

  function Override(p: Mask, deny: Mask, allow: Mask): Mask {
    p - deny + allow
  }

  function OverrideBy(p: Mask, o: Option<Overwrite>): Mask {
    if o.Some? then Override(p, o.value.deny, o.value.allow) else p
  }

  /** Everything memberPermissions reads. */
  datatype Case = Case(
    guildID: string, ownerID: string, roles: seq<Role>, overwrites: seq<Overwrite>, userID: string, held: seq<string>)

  function Base(c: Case): Mask {
    var everyone := FindRole(c.roles, c.guildID);
    Granted(if everyone.Some? then everyone.value.permissions else {}, c.roles, c.held)
  }

  function RaiseAdministrator(p: Mask, to: Mask): Mask {
    if ADMINISTRATOR in p then p + to else p
  }

  function Overridden(c: Case): Mask {
    var p := OverrideBy(RaiseAdministrator(Base(c), ALL), FindEveryone(c.overwrites, c.guildID));
    var q := Override(p, RoleDenies(c.overwrites, c.held), RoleAllows(c.overwrites, c.held));
    OverrideBy(q, FindMember(c.overwrites, c.userID))
  }

  function PermissionsOf(c: Case): Mask {
    if c.userID == c.ownerID then ALL else RaiseAdministrator(Overridden(c), ALL_CHANNEL)
  }

  /** memberPermissions; its loops are the methods below, in the same order. */
  method MemberPermissions(c: Case) returns (p: Mask)
    ensures p == PermissionsOf(c)
  {
    if c.userID == c.ownerID {
      return ALL;
    }
    p := EveryonePermissions(c.roles, c.guildID);
    p := AddHeldRoles(p, c.roles, c.held);
    if ADMINISTRATOR in p {
      p := p + ALL;
    }
    p := ApplyEveryone(p, c.overwrites, c.guildID);
    var denies, allows := RoleOverwrites(c.overwrites, c.held);
    p := p - denies;
    p := p + allows;
    p := ApplyMember(p, c.overwrites, c.userID);
    if ADMINISTRATOR in p {
      p := p + ALL_CHANNEL;
    }
  }

  method EveryonePermissions(roles: seq<Role>, guildID: string) returns (p: Mask)
    ensures p == var everyone := FindRole(roles, guildID); if everyone.Some? then everyone.value.permissions else {}
  {
    p := {};
    for i := 0 to |roles|
      invariant p == {} && FindRole(roles[i..], guildID) == FindRole(roles, guildID)
    {
      if roles[i].id == guildID {
        p := p + roles[i].permissions;
        break;
      }
    }
  }

  method AddHeldRoles(base: Mask, roles: seq<Role>, held: seq<string>) returns (p: Mask)
    ensures p == Granted(base, roles, held)
  {
    p := base;
    for k := 0 to |roles|
      invariant p == Granted(base, roles[..k], held)
    {
      assert roles[..k + 1][..k] == roles[..k];
      var found := Holds(held, roles[k].id);
      if found {
        p := p + roles[k].permissions;
      }
    }
    assert roles[..|roles|] == roles;
  }

  method ApplyEveryone(base: Mask, ows: seq<Overwrite>, guildID: string) returns (p: Mask)
    ensures p == OverrideBy(base, FindEveryone(ows, guildID))
  {
    p := base;
    for i := 0 to |ows|
      invariant p == base && FindEveryone(ows[i..], guildID) == FindEveryone(ows, guildID)
    {
      if guildID == ows[i].id {
        p := p - ows[i].deny;
        p := p + ows[i].allow;
        break;
      }
    }
  }

  method ApplyMember(base: Mask, ows: seq<Overwrite>, userID: string) returns (p: Mask)
    ensures p == OverrideBy(base, FindMember(ows, userID))
  {
    p := base;
    for i := 0 to |ows|
      invariant p == base && FindMember(ows[i..], userID) == FindMember(ows, userID)
    {
      if ows[i].kind == MEMBER_OVERWRITE && ows[i].id == userID {
        p := p - ows[i].deny;
        p := p + ows[i].allow;
        break;
      }
    }
  }

  /** The inner loops over the member's role ids, with their break. */
  method Holds(held: seq<string>, id: string) returns (found: bool)
    ensures found <==> id in held
  {
    for i := 0 to |held|
      invariant id !in held[..i]
    {
      if held[i] == id {
        return true;
      }
    }
    found := false;
  }

  method RoleOverwrites(ows: seq<Overwrite>, held: seq<string>) returns (denies: Mask, allows: Mask)
    ensures denies == RoleDenies(ows, held) && allows == RoleAllows(ows, held)
  {
    denies, allows := {}, {};
    for k := 0 to |ows|
      invariant denies == RoleDenies(ows[..k], held) && allows == RoleAllows(ows[..k], held)
    {
      assert ows[..k + 1][..k] == ows[..k];
      var found := Holds(held, ows[k].id);
      if ows[k].kind == ROLE_OVERWRITE && found {
        denies := denies + ows[k].deny;
        allows := allows + ows[k].allow;
      }
    }
    assert ows[..|ows|] == ows;
  }

  // ---- the per-bit meaning ----

  /** Some role the member has, @everyone included, grants the bit. */
  ghost predicate RoleGrants(c: Case, bit: nat) {
    (exists r :: r in c.roles && r.id in c.held && bit in r.permissions)
    || exists r :: FirstRole(c.roles, c.guildID, r) && bit in r.permissions
  }

  /** The role of everybody: the first with the guild's id. */
  ghost predicate FirstRole(roles: seq<Role>, guildID: string, r: Role) {
    exists i :: 0 <= i < |roles| && roles[i] == r && r.id == guildID
                && forall j :: 0 <= j < i ==> roles[j].id != guildID
  }

  lemma {:induction false} FindRoleExactly(roles: seq<Role>, id: string, r: Role)
    ensures FindRole(roles, id) == Some(r) <==> FirstRole(roles, id, r)
  {
    if roles != [] {
      FindRoleExactly(roles[1..], id, r);
      if FirstRole(roles[1..], id, r) && roles[0].id != id {
        var i :| 0 <= i < |roles[1..]| && roles[1..][i] == r && r.id == id
                 && forall j :: 0 <= j < i ==> roles[1..][j].id != id;
        assert roles[i + 1] == r;
        assert forall j :: 0 < j < i + 1 ==> roles[j] == roles[1..][j - 1];
      }
      if FirstRole(roles, id, r) && roles[0].id != id {
        var i :| 0 <= i < |roles| && roles[i] == r && r.id == id && forall j :: 0 <= j < i ==> roles[j].id != id;
        assert roles[1..][i - 1] == r;
      }
    }
  }

  lemma EverybodysRole(c: Case, bit: nat)
    ensures var e := FindRole(c.roles, c.guildID);
            e.Some? && bit in e.value.permissions
            <==> exists r :: FirstRole(c.roles, c.guildID, r) && bit in r.permissions
  {
    forall r
      ensures FindRole(c.roles, c.guildID) == Some(r) <==> FirstRole(c.roles, c.guildID, r)
    {
      FindRoleExactly(c.roles, c.guildID, r);
    }
  }

  /** Administrators start with everything. */
  ghost predicate StartsWith(c: Case, bit: nat) {
    RoleGrants(c, bit) || (RoleGrants(c, ADMINISTRATOR) && bit in ALL)
  }

  ghost predicate SomeRoleAllows(c: Case, bit: nat) {
    exists o :: o in c.overwrites && o.kind == 0 && o.id in c.held && bit in o.allow
  }

  ghost predicate SomeRoleDenies(c: Case, bit: nat) {
    exists o :: o in c.overwrites && o.kind == 0 && o.id in c.held && bit in o.deny
  }

  /** The first overwrite for the user. Overwrites of type 0 are for roles, those of type 1 for members. */
  ghost predicate ForMember(ows: seq<Overwrite>, userID: string, o: Overwrite) {
    exists i :: 0 <= i < |ows| && ows[i] == o && o.kind == 1 && o.id == userID
                && forall j :: 0 <= j < i ==> !(ows[j].kind == 1 && ows[j].id == userID)
  }

  /** The first overwrite with the guild's id, of whatever type. */
  ghost predicate ForEveryone(ows: seq<Overwrite>, guildID: string, o: Overwrite) {
    exists i :: 0 <= i < |ows| && ows[i] == o && o.id == guildID && forall j :: 0 <= j < i ==> ows[j].id != guildID
  }

  lemma {:induction false} FindMemberExactly(ows: seq<Overwrite>, userID: string, o: Overwrite)
    ensures FindMember(ows, userID) == Some(o) <==> ForMember(ows, userID, o)
  {
    if ows != [] {
      FindMemberExactly(ows[1..], userID, o);
      if ForMember(ows[1..], userID, o) && !(ows[0].kind == 1 && ows[0].id == userID) {
        var i :| 0 <= i < |ows[1..]| && ows[1..][i] == o && o.kind == 1 && o.id == userID
                 && forall j :: 0 <= j < i ==> !(ows[1..][j].kind == 1 && ows[1..][j].id == userID);
        assert ows[i + 1] == o;
        assert forall j :: 0 < j < i + 1 ==> ows[j] == ows[1..][j - 1];
      }
      if ForMember(ows, userID, o) && !(ows[0].kind == 1 && ows[0].id == userID) {
        var i :| 0 <= i < |ows| && ows[i] == o && o.kind == 1 && o.id == userID
                 && forall j :: 0 <= j < i ==> !(ows[j].kind == 1 && ows[j].id == userID);
        assert ows[1..][i - 1] == o;
      }
    }
  }

  lemma {:induction false} FindEveryoneExactly(ows: seq<Overwrite>, guildID: string, o: Overwrite)
    ensures FindEveryone(ows, guildID) == Some(o) <==> ForEveryone(ows, guildID, o)
  {
    if ows != [] {
      FindEveryoneExactly(ows[1..], guildID, o);
      if ForEveryone(ows[1..], guildID, o) && ows[0].id != guildID {
        var i :| 0 <= i < |ows[1..]| && ows[1..][i] == o && o.id == guildID
                 && forall j :: 0 <= j < i ==> ows[1..][j].id != guildID;
        assert ows[i + 1] == o;
        assert forall j :: 0 < j < i + 1 ==> ows[j] == ows[1..][j - 1];
      }
      if ForEveryone(ows, guildID, o) && ows[0].id != guildID {
        var i :| 0 <= i < |ows| && ows[i] == o && o.id == guildID && forall j :: 0 <= j < i ==> ows[j].id != guildID;
        assert ows[1..][i - 1] == o;
      }
    }
  }

  /** The first of these that speaks about the bit decides it: member allow, member deny, role allow,
      role deny, everyone allow, everyone deny, the roles' own permissions. */
  ghost predicate Decides(c: Case, bit: nat) {
    if exists o :: ForMember(c.overwrites, c.userID, o) && bit in o.allow then true
    else if exists o :: ForMember(c.overwrites, c.userID, o) && bit in o.deny then false
    else if SomeRoleAllows(c, bit) then true
    else if SomeRoleDenies(c, bit) then false
    else if exists o :: ForEveryone(c.overwrites, c.guildID, o) && bit in o.allow then true
    else if exists o :: ForEveryone(c.overwrites, c.guildID, o) && bit in o.deny then false
    else StartsWith(c, bit)
  }

  /** What the two searches say about the bit. */
  lemma FirstOverwrites(c: Case, bit: nat)
    ensures var m := FindMember(c.overwrites, c.userID);
            && (m.Some? && bit in m.value.allow <==> exists o :: ForMember(c.overwrites, c.userID, o) && bit in o.allow)
            && (m.Some? && bit in m.value.deny <==> exists o :: ForMember(c.overwrites, c.userID, o) && bit in o.deny)
    ensures var e := FindEveryone(c.overwrites, c.guildID);
            && (e.Some? && bit in e.value.allow <==>
                  exists o :: ForEveryone(c.overwrites, c.guildID, o) && bit in o.allow)
            && (e.Some? && bit in e.value.deny <==>
                  exists o :: ForEveryone(c.overwrites, c.guildID, o) && bit in o.deny)
  {
    forall o
      ensures FindMember(c.overwrites, c.userID) == Some(o) <==> ForMember(c.overwrites, c.userID, o)
      ensures FindEveryone(c.overwrites, c.guildID) == Some(o) <==> ForEveryone(c.overwrites, c.guildID, o)
    {
      FindMemberExactly(c.overwrites, c.userID, o);
      FindEveryoneExactly(c.overwrites, c.guildID, o);
    }
  }

  lemma {:induction false} GrantedBits(p: Mask, roles: seq<Role>, held: seq<string>, bit: nat)
    ensures bit in Granted(p, roles, held)
            <==> bit in p || exists r :: r in roles && r.id in held && bit in r.permissions
  {
    if roles != [] {
      var n := |roles| - 1;
      GrantedBits(p, roles[..n], held, bit);
      assert forall r :: r in roles <==> r in roles[..n] || r == roles[n];
    }
  }

  lemma {:induction false} RoleAllowBits(ows: seq<Overwrite>, held: seq<string>, bit: nat)
    ensures bit in RoleAllows(ows, held) <==> exists o :: o in ows && ForHeldRole(o, held) && bit in o.allow
  {
    if ows != [] {
      var n := |ows| - 1;
      RoleAllowBits(ows[..n], held, bit);
      assert forall o :: o in ows <==> o in ows[..n] || o == ows[n];
    }
  }

  lemma {:induction false} RoleDenyBits(ows: seq<Overwrite>, held: seq<string>, bit: nat)
    ensures bit in RoleDenies(ows, held) <==> exists o :: o in ows && ForHeldRole(o, held) && bit in o.deny
  {
    if ows != [] {
      var n := |ows| - 1;
      RoleDenyBits(ows[..n], held, bit);
      assert forall o :: o in ows <==> o in ows[..n] || o == ows[n];
    }
  }

  lemma RaiseBits(p: Mask, to: Mask, bit: nat)
    ensures bit in RaiseAdministrator(p, to) <==> bit in p || (ADMINISTRATOR in p && bit in to)
  {
  }

  lemma StartBits(c: Case, bit: nat)
    ensures bit in RaiseAdministrator(Base(c), ALL) <==> StartsWith(c, bit)
  {
    RaiseBits(Base(c), ALL, bit);
    var everyone := FindRole(c.roles, c.guildID);
    var e := if everyone.Some? then everyone.value.permissions else {};
    GrantedBits(e, c.roles, c.held, bit);
    GrantedBits(e, c.roles, c.held, ADMINISTRATOR);
    EverybodysRole(c, bit);
    EverybodysRole(c, ADMINISTRATOR);
  }

  lemma OverriddenBits(c: Case, bit: nat)
    ensures bit in Overridden(c) <==> Decides(c, bit)
  {
    StartBits(c, bit);
    FirstOverwrites(c, bit);
    RoleAllowBits(c.overwrites, c.held, bit);
    RoleDenyBits(c.overwrites, c.held, bit);
    var start := RaiseAdministrator(Base(c), ALL);
    var everyone, member := FindEveryone(c.overwrites, c.guildID), FindMember(c.overwrites, c.userID);
    var p := OverrideBy(start, everyone);
    var q := Override(p, RoleDenies(c.overwrites, c.held), RoleAllows(c.overwrites, c.held));
    assert bit in RoleAllows(c.overwrites, c.held) <==> SomeRoleAllows(c, bit);
    assert bit in RoleDenies(c.overwrites, c.held) <==> SomeRoleDenies(c, bit);
    assert bit in p <==>
      if everyone.Some? && bit in everyone.value.allow then true
      else if everyone.Some? && bit in everyone.value.deny then false else bit in start;
    assert bit in Overridden(c) <==>
      if member.Some? && bit in member.value.allow then true
      else if member.Some? && bit in member.value.deny then false else bit in q;
  }

  /** The meaning of the result, bit by bit, for everybody: owners have PermissionAll; everyone else has
      what the precedence order decides, plus all channel permissions if it decides for Administrator. */
  lemma PermissionBits(c: Case, bit: nat)
    ensures c.userID == c.ownerID ==> PermissionsOf(c) == ALL
    ensures c.userID != c.ownerID ==>
              (bit in PermissionsOf(c) <==> Decides(c, bit) || (Decides(c, ADMINISTRATOR) && bit in ALL_CHANNEL))
  {
    OverriddenBits(c, bit);
    OverriddenBits(c, ADMINISTRATOR);
    RaiseBits(Overridden(c), ALL_CHANNEL, bit);
  }

  // ---- order does not matter ----

  predicate UniqueRoleIds(roles: seq<Role>) {
    forall i, j :: 0 <= i < j < |roles| ==> roles[i].id != roles[j].id
  }

  predicate UniqueOverwriteIds(ows: seq<Overwrite>) {
    forall i, j :: 0 <= i < j < |ows| ==> ows[i].id != ows[j].id
  }

  ghost predicate SameElements<T(!new)>(a: seq<T>, b: seq<T>) {
    forall x :: x in a <==> x in b
  }

  /** The same guild, channel and member, listed in another order. */
  ghost predicate Reordered(c: Case, d: Case) {
    && c.guildID == d.guildID && c.ownerID == d.ownerID && c.userID == d.userID
    && SameElements(c.roles, d.roles) && SameElements(c.overwrites, d.overwrites) && SameElements(c.held, d.held)
  }

  lemma SameRole(a: seq<Role>, b: seq<Role>, id: string)
    requires UniqueRoleIds(a) && SameElements(a, b)
    ensures FindRole(a, id) == FindRole(b, id)
  {
    var x, y := FindRole(a, id), FindRole(b, id);
    assert y.Some? ==> y.value in a;
    assert x.Some? ==> x.value in b;
  }

  lemma SameOverwrite(a: seq<Overwrite>, b: seq<Overwrite>, id: string)
    requires UniqueOverwriteIds(a) && SameElements(a, b)
    ensures FindEveryone(a, id) == FindEveryone(b, id) && FindMember(a, id) == FindMember(b, id)
  {
    var x, y := FindEveryone(a, id), FindEveryone(b, id);
    assert y.Some? ==> y.value in a;
    assert x.Some? ==> x.value in b;
    var u, v := FindMember(a, id), FindMember(b, id);
    assert v.Some? ==> v.value in a;
    assert u.Some? ==> u.value in b;
  }

  /** The bits behind the names. */
  lemma MaskValues()
    ensures ADMINISTRATOR == 3
    ensures ALL_CHANNEL
            == {0, 4, 6, 7, 8, 10, 11, 12, 13, 14, 15, 16, 17, 20, 21, 22, 23, 24, 25, 28}
    ensures ALL == ALL_CHANNEL + {1, 2, 3, 5, 29, 30}
  {
  }

  lemma RoleOverwritesReordered(c: Case, d: Case, bit: nat)
    requires Reordered(c, d)
    ensures SomeRoleAllows(c, bit) == SomeRoleAllows(d, bit) && SomeRoleDenies(c, bit) == SomeRoleDenies(d, bit)
  {
    assert forall o :: o in c.overwrites && o.id in c.held <==> o in d.overwrites && o.id in d.held;
  }

  lemma GrantsReordered(c: Case, d: Case, bit: nat)
    requires Reordered(c, d) && UniqueRoleIds(c.roles)
    ensures RoleGrants(c, bit) == RoleGrants(d, bit)
  {
    SameRole(c.roles, d.roles, c.guildID);
    EverybodysRole(c, bit);
    EverybodysRole(d, bit);
    assert forall r :: r in c.roles && r.id in c.held <==> r in d.roles && r.id in d.held;
  }

  lemma DecidesReordered(c: Case, d: Case, bit: nat)
    requires Reordered(c, d) && UniqueRoleIds(c.roles) && UniqueOverwriteIds(c.overwrites)
    ensures Decides(c, bit) == Decides(d, bit)
  {
    RoleOverwritesReordered(c, d, bit);
    GrantsReordered(c, d, bit);
    GrantsReordered(c, d, ADMINISTRATOR);
    SameOverwrite(c.overwrites, d.overwrites, c.guildID);
    SameOverwrite(c.overwrites, d.overwrites, c.userID);
    FirstOverwrites(c, bit);
    FirstOverwrites(d, bit);
  }

  /** With unique ids, permuting guild roles, member roles or overwrites changes nobody's permissions. */
  lemma OrderIrrelevant(c: Case, d: Case)
    requires Reordered(c, d) && UniqueRoleIds(c.roles) && UniqueOverwriteIds(c.overwrites)
    ensures PermissionsOf(c) == PermissionsOf(d)
  {
    if c.userID != c.ownerID {
      forall bit: nat
        ensures bit in PermissionsOf(c) <==> bit in PermissionsOf(d)
      {
        PermissionBits(c, bit);
        PermissionBits(d, bit);
        DecidesReordered(c, d, bit);
        DecidesReordered(c, d, ADMINISTRATOR);
      }
    }
  }

  // ---- role colour ----

  /** Highest position first, as Roles.Less orders. */
  ghost predicate ByPosition(roles: seq<Role>) {
    forall i, j :: 0 <= i < j < |roles| ==> roles[i].position >= roles[j].position
  }

  predicate HeldColour(r: Role, held: seq<string>) {
    r.id in held && r.color != 0
  }

  ghost predicate IsTopColour(roles: seq<Role>, held: seq<string>, r: Role) {
    r in roles && HeldColour(r, held) && forall x :: x in roles && HeldColour(x, held) ==> x.position <= r.position
  }

  /** What the colour of a member should be. */
  ghost predicate IsMemberColour(guildID: string, roles: seq<Role>, held: seq<string>, color: int) {
    if exists r :: r in roles && HeldColour(r, held) then exists r :: IsTopColour(roles, held, r) && color == r.color
    else if exists r :: r in roles && r.id == guildID then exists r :: r in roles && r.id == guildID && color == r.color
    else color == 0
  }

  class Guild {
    const id: string
    const ownerID: string
    var roles: seq<Role>

    constructor (id: string, ownerID: string, roles: seq<Role>)
      ensures this.id == id && this.ownerID == ownerID && this.roles == roles
    {
      this.id, this.ownerID, this.roles := id, ownerID, roles;
    }

    /** `sort.Sort(roles)`: only that the result is a permutation in order is used, as the library promises no more. */
    method SortRoles()
      modifies this
      ensures ByPosition(roles) && multiset(roles) == multiset(old(roles))
    {
      var sorted: seq<Role> := [];
      for k := 0 to |roles|
        invariant roles == old(roles)
        invariant ByPosition(sorted) && multiset(sorted) == multiset(roles[..k])
      {
        assert roles[..k + 1] == roles[..k] + [roles[k]];
        InsertSorts(sorted, roles[k]);
        InsertPermutes(sorted, roles[k]);
        sorted := Insert(sorted, roles[k]);
      }
      assert roles[..|roles|] == roles;
      roles := sorted;
    }

    method FirstRoleColor(memberRoles: seq<string>) returns (color: int)
      modifies this
      ensures multiset(roles) == multiset(old(roles))
      ensures IsMemberColour(id, old(roles), memberRoles, color)
    {
      SortRoles();
      MultisetElements(roles, old(roles));
      color := ScanColours(roles, old(roles), id, memberRoles);
    }
  }

  /** The two scans over the sorted roles. */
  method ScanColours(sorted: seq<Role>, ghost roles: seq<Role>, guildID: string, held: seq<string>) returns (color: int)
    requires ByPosition(sorted) && SameElements(sorted, roles)
    ensures IsMemberColour(guildID, roles, held, color)
  {
    for i := 0 to |sorted|
      invariant forall j :: 0 <= j < i ==> !HeldColour(sorted[j], held)
    {
      var found := Holds(held, sorted[i].id);
      if found && sorted[i].color != 0 {
        assert IsTopColour(roles, held, sorted[i]);
        return sorted[i].color;
      }
    }
    assert !exists r :: r in roles && HeldColour(r, held);
    for i := 0 to |sorted|
      invariant forall j :: 0 <= j < i ==> sorted[j].id != guildID
    {
      if sorted[i].id == guildID {
        assert sorted[i] in roles;
        return sorted[i].color;
      }
    }
    color := 0;
  }

  function Insert(sorted: seq<Role>, r: Role): seq<Role> {
    if sorted == [] || r.position > sorted[0].position then [r] + sorted
    else [sorted[0]] + Insert(sorted[1..], r)
  }

  lemma {:induction false} InsertPermutes(sorted: seq<Role>, r: Role)
    ensures multiset(Insert(sorted, r)) == multiset(sorted + [r])
  {
    if sorted == [] || r.position > sorted[0].position {
      assert multiset([r] + sorted) == multiset{r} + multiset(sorted);
    } else {
      InsertPermutes(sorted[1..], r);
      assert sorted + [r] == [sorted[0]] + (sorted[1..] + [r]);
    }
  }

  lemma {:induction false} InsertSorts(sorted: seq<Role>, r: Role)
    requires ByPosition(sorted)
    ensures ByPosition(Insert(sorted, r))
  {
    if sorted != [] && r.position <= sorted[0].position {
      InsertSorts(sorted[1..], r);
      InsertPermutes(sorted[1..], r);
      var tail := Insert(sorted[1..], r);
      forall i | 0 <= i < |tail|
        ensures tail[i].position <= sorted[0].position
      {
        assert tail[i] in multiset(tail);
        assert tail[i] in sorted[1..] + [r];
      }
    }
  }

  lemma MultisetElements(a: seq<Role>, b: seq<Role>)
    requires multiset(a) == multiset(b)
    ensures SameElements(a, b)
  {
    forall x
      ensures x in a <==> x in b
    {
      assert x in a <==> x in multiset(a);
    }
  }

  /** So the in-place sort of a colour lookup changes nobody's permissions. */
  lemma ColourLookupKeepsPermissions(c: Case, sorted: seq<Role>)
    requires UniqueRoleIds(c.roles) && UniqueOverwriteIds(c.overwrites) && multiset(sorted) == multiset(c.roles)
    ensures PermissionsOf(c.(roles := sorted)) == PermissionsOf(c)
  {
    MultisetElements(sorted, c.roles);
    OrderIrrelevant(c, c.(roles := sorted));
  }
}
