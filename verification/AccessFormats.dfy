/**
 The two formats of permissions on a resource: the old access_control dictionary and the list of grants.
 */
module AccessFormats {
  import opened Common

  datatype Principal = User | Group | OtherPrincipal

  datatype Permission = Read | Write | OtherPermission

  datatype Grant = Grant(principal: Principal, id: string, permission: Permission)

  datatype Lists = Lists(groups: seq<string>, users: seq<string>)

  /** The dictionary; a missing key is None, and {} has neither. */
  datatype Control = Control(read: Option<Lists>, write: Option<Lists>)

  const PUBLIC: string := "*"

  predicate PublicRead(g: Grant) {
    g.principal == User && g.id == PUBLIC && g.permission == Read
  }

  // ---------------------------------------------------------------- lists of ids

  /** Each element once, where it stands first. */
  function Dedup(s: seq<string>): (r: seq<string>)
    ensures forall x :: x in r <==> x in s
    ensures Distinct(r)
  {
    if s == [] then [] else
      var init, last := s[..|s| - 1], s[|s| - 1];
      assert s == init + [last];
      if last in Dedup(init) then Dedup(init) else Dedup(init) + [last]
  }

  predicate OfKind(g: Grant, principal: Principal, permission: Permission) {
    g.principal == principal && g.permission == permission && !PublicRead(g)
  }

  /** The ids of the grants of a kind; the public read grant is passed over. */
  function Ids(grants: seq<Grant>, principal: Principal, permission: Permission): seq<string> {
    if grants == [] then [] else
      var g := grants[|grants| - 1];
      Ids(grants[..|grants| - 1], principal, permission) + (if OfKind(g, principal, permission) then [g.id] else [])
  }

  lemma IdsOneMore(grants: seq<Grant>, g: Grant, p: Principal, q: Permission)
    ensures Ids(grants + [g], p, q) == if OfKind(g, p, q) then Ids(grants, p, q) + [g.id] else Ids(grants, p, q)
  {
  }

  lemma {:induction false} IdsConcat(a: seq<Grant>, b: seq<Grant>, principal: Principal, permission: Permission)
    ensures Ids(a + b, principal, permission) == Ids(a, principal, permission) + Ids(b, principal, permission)
    decreases |b|
  {
    if b == [] {
      assert a + b == a && Ids(a, principal, permission) + [] == Ids(a, principal, permission);
    } else {
      var init, last := b[..|b| - 1], b[|b| - 1];
      IdsConcat(a, init, principal, permission);
      assert (a + b)[..|a + b| - 1] == a + init;
      Assoc(Ids(a, principal, permission), Ids(init, principal, permission),
            if OfKind(last, principal, permission) then [last.id] else []);
    }
  }

  lemma {:induction false} IdsExactly(grants: seq<Grant>, principal: Principal, permission: Permission, id: string)
    ensures id in Ids(grants, principal, permission) <==>
      Grant(principal, id, permission) in grants && !PublicRead(Grant(principal, id, permission))
  {
    if grants != [] {
      var init, last := grants[..|grants| - 1], grants[|grants| - 1];
      IdsExactly(init, principal, permission, id);
      assert grants == init + [last];
    }
  }

  // ---------------------------------------------------------------- dictionary to grants

  function GrantsFor(principal: Principal, ids: seq<string>, permission: Permission): seq<Grant> {
    seq(|ids|, i requires 0 <= i < |ids| => Grant(principal, ids[i], permission))
  }

  function Section(lists: Option<Lists>, permission: Permission): seq<Grant> {
    match lists
    case None => []
    case Some(l) => GrantsFor(Group, l.groups, permission) + GrantsFor(User, l.users, permission)
  }

  function ToGrants(isFile: bool, control: Option<Control>): seq<Grant> {
    match control
    case None => if isFile then [] else [Grant(User, PUBLIC, Read)]
    case Some(c) => Section(c.read, Read) + Section(c.write, Write)
  }

  /** The two inner loops of access_control_to_grants. */
  method AddSection(grants: seq<Grant>, lists: Option<Lists>, permission: Permission) returns (r: seq<Grant>)
    ensures r == grants + Section(lists, permission)
  {
    r := grants;
    if lists == None {
      return;
    }
    var l := lists.value;
    for i := 0 to |l.groups|
      invariant r == grants + GrantsFor(Group, l.groups[..i], permission)
    {
      assert GrantsFor(Group, l.groups[..i + 1], permission) == GrantsFor(Group, l.groups[..i], permission) + [Grant(Group, l.groups[i], permission)];
      r := r + [Grant(Group, l.groups[i], permission)];
    }
    assert l.groups[..|l.groups|] == l.groups;
    ghost var mid := r;
    for i := 0 to |l.users|
      invariant r == mid + GrantsFor(User, l.users[..i], permission)
    {
      assert GrantsFor(User, l.users[..i + 1], permission) == GrantsFor(User, l.users[..i], permission) + [Grant(User, l.users[i], permission)];
      r := r + [Grant(User, l.users[i], permission)];
    }
    assert l.users[..|l.users|] == l.users;
  }

  /** access_control_to_grants */
  method AccessControlToGrants(isFile: bool, control: Option<Control>) returns (grants: seq<Grant>)
    ensures grants == ToGrants(isFile, control)
  {
    grants := [];
    match control {
      case None =>
        if !isFile {
          grants := [Grant(User, PUBLIC, Read)];
        }
      case Some(c) =>
        grants := AddSection(grants, c.read, Read);
        grants := AddSection(grants, c.write, Write);
    }
  }

  // ---------------------------------------------------------------- grants to dictionary

  function Collected(grants: seq<Grant>, permission: Permission): Lists {
    Lists(Dedup(Ids(grants, Group, permission)), Dedup(Ids(grants, User, permission)))
  }

  ghost predicate IsPublic(grants: seq<Grant>) {
    exists i :: 0 <= i < |grants| && PublicRead(grants[i])
  }

  /** One turn of the loop of grants_to_access_control. */
  function AddGrant(c: Lists, g: Grant, permission: Permission): Lists {
    if PublicRead(g) || g.permission != permission then c
    else if g.principal == Group && g.id !in c.groups then c.(groups := c.groups + [g.id])
    else if g.principal == User && g.id !in c.users then c.(users := c.users + [g.id])
    else c
  }

  lemma CollectOne(grants: seq<Grant>, g: Grant, p: Principal, q: Permission)
    ensures var before := Dedup(Ids(grants, p, q));
      Dedup(Ids(grants + [g], p, q)) == if OfKind(g, p, q) && g.id !in before then before + [g.id] else before
  {
    IdsOneMore(grants, g, p, q);
    DedupOneMore(Ids(grants, p, q), g.id);
  }

  lemma AddGrantCollects(grants: seq<Grant>, g: Grant, permission: Permission)
    ensures Collected(grants + [g], permission) == AddGrant(Collected(grants, permission), g, permission)
  {
    CollectOne(grants, g, Group, permission);
    CollectOne(grants, g, User, permission);
  }

  lemma DedupOneMore(s: seq<string>, x: string)
    ensures Dedup(s + [x]) == if x in Dedup(s) then Dedup(s) else Dedup(s) + [x]
  {
  }

  /** grants_to_access_control */
  method GrantsToAccessControl(grants: seq<Grant>) returns (r: Option<Control>)
    ensures r == None <==> IsPublic(grants)
    ensures r.Some? ==> r.value == if grants == [] then Control(None, None)
      else Control(Some(Collected(grants, Read)), Some(Collected(grants, Write)))
  {
    if grants == [] {
      return Some(Control(None, None));
    }
    var read, write := Lists([], []), Lists([], []);
    var isPublic := false;
    for i := 0 to |grants|
      invariant read == Collected(grants[..i], Read) && write == Collected(grants[..i], Write)
      invariant isPublic <==> exists k :: 0 <= k < i && PublicRead(grants[k])
    {
      var g := grants[i];
      assert grants[..i + 1] == grants[..i] + [g];
      AddGrantCollects(grants[..i], g, Read);
      AddGrantCollects(grants[..i], g, Write);
      isPublic := isPublic || PublicRead(g);
      read, write := AddGrant(read, g, Read), AddGrant(write, g, Write);
    }
    assert grants[..|grants|] == grants;
    if isPublic {
      return None;
    }
    r := Some(Control(Some(read), Some(write)));
  }

  /** The dictionary for a list of grants. */
  ghost function ToControl(grants: seq<Grant>): Option<Control> {
    if IsPublic(grants) then None
    else if grants == [] then Some(Control(None, None))
    else Some(Control(Some(Collected(grants, Read)), Some(Collected(grants, Write))))
  }

  // ---------------------------------------------------------------- round trips

  lemma IdsOfOneMore(principal: Principal, init: seq<string>, last: string, permission: Permission, p: Principal, q: Permission)
    requires principal == User && permission == Read ==> last != PUBLIC
    ensures Ids(GrantsFor(principal, init + [last], permission), p, q) ==
      if p == principal && q == permission then Ids(GrantsFor(principal, init, permission), p, q) + [last]
      else Ids(GrantsFor(principal, init, permission), p, q)
  {
    var sofar := GrantsFor(principal, init, permission);
    assert GrantsFor(principal, init + [last], permission) == sofar + [Grant(principal, last, permission)];
    IdsOneMore(sofar, Grant(principal, last, permission), p, q);
  }

  lemma {:induction false} IdsOfGrantsFor(principal: Principal, ids: seq<string>, permission: Permission, p: Principal, q: Permission)
    requires principal == User && permission == Read ==> PUBLIC !in ids
    ensures Ids(GrantsFor(principal, ids, permission), p, q) == if p == principal && q == permission then ids else []
  {
    if ids != [] {
      var init, last := ids[..|ids| - 1], ids[|ids| - 1];
      assert last in ids && forall x :: x in init ==> x in ids;
      IdsOfGrantsFor(principal, init, permission, p, q);
      assert init + [last] == ids;
      IdsOfOneMore(principal, init, last, permission, p, q);
    }
  }

  function ListsOf(lists: Option<Lists>): Lists {
    match lists
    case None => Lists([], [])
    case Some(l) => l
  }

  /** The wildcard among the readers makes the resource public. */
  predicate NamesEveryone(c: Control) {
    PUBLIC in ListsOf(c.read).users
  }

  lemma IdsOfSection(lists: Option<Lists>, permission: Permission, p: Principal, q: Permission)
    requires permission == Read ==> PUBLIC !in ListsOf(lists).users
    ensures Ids(Section(lists, permission), p, q) ==
      if q != permission then [] else if p == Group then ListsOf(lists).groups else if p == User then ListsOf(lists).users else []
  {
    if lists.Some? {
      var l := lists.value;
      IdsConcat(GrantsFor(Group, l.groups, permission), GrantsFor(User, l.users, permission), p, q);
      IdsOfGrantsFor(Group, l.groups, permission, p, q);
      IdsOfGrantsFor(User, l.users, permission, p, q);
    }
  }

  lemma IdsOfToGrants(isFile: bool, c: Control, p: Principal, q: Permission)
    requires !NamesEveryone(c) && (p == Group || p == User) && (q == Read || q == Write)
    ensures Ids(ToGrants(isFile, Some(c)), p, q) ==
      var l := ListsOf(if q == Read then c.read else c.write);
      if p == Group then l.groups else l.users
  {
    IdsConcat(Section(c.read, Read), Section(c.write, Write), p, q);
    IdsOfSection(c.read, Read, p, q);
    IdsOfSection(c.write, Write, p, q);
  }

  function DedupLists(l: Lists): Lists {
    Lists(Dedup(l.groups), Dedup(l.users))
  }

  predicate NoIds(c: Control) {
    ListsOf(c.read) == Lists([], []) && ListsOf(c.write) == Lists([], [])
  }

  lemma SectionIsEmpty(lists: Option<Lists>, permission: Permission)
    ensures Section(lists, permission) == [] <==> ListsOf(lists) == Lists([], [])
  {
  }

  lemma PublicSection(c: Control, isFile: bool)
    ensures IsPublic(ToGrants(isFile, Some(c))) <==> NamesEveryone(c)
  {
    var grants := ToGrants(isFile, Some(c));
    if NamesEveryone(c) {
      var l := c.read.value;
      var k :| 0 <= k < |l.users| && l.users[k] == PUBLIC;
      assert grants[|l.groups| + k] == Grant(User, PUBLIC, Read);
    }
  }

  /** From the dictionary to grants and back: the public dictionary and the wildcard reader give the public one
      (a file without dictionary becomes private), a dictionary without ids becomes {}, and any other comes
      back with duplicates removed and missing keys filled. */
  lemma DictionaryReturns(isFile: bool, control: Option<Control>)
    ensures ToControl(ToGrants(isFile, control)) ==
      match control
      case None => if isFile then Some(Control(None, None)) else None
      case Some(c) =>
        if NamesEveryone(c) then None
        else if NoIds(c) then Some(Control(None, None))
        else Some(Control(Some(DedupLists(ListsOf(c.read))), Some(DedupLists(ListsOf(c.write)))))
  {
    match control
    case None =>
      if !isFile {
        assert PublicRead(ToGrants(isFile, None)[0]);
      }
    case Some(c) =>
      PublicSection(c, isFile);
      SectionIsEmpty(c.read, Read);
      SectionIsEmpty(c.write, Write);
      if !NamesEveryone(c) {
        IdsOfToGrants(isFile, c, Group, Read);
        IdsOfToGrants(isFile, c, User, Read);
        IdsOfToGrants(isFile, c, Group, Write);
        IdsOfToGrants(isFile, c, User, Write);
      }
  }

  /** The grants that the dictionary can express. */
  predicate Proper(g: Grant) {
    (g.principal == User || g.principal == Group) && (g.permission == Read || g.permission == Write)
  }

  lemma InSection(lists: Lists, permission: Permission, g: Grant)
    ensures g in Section(Some(lists), permission) <==>
      g.permission == permission && ((g.principal == Group && g.id in lists.groups) || (g.principal == User && g.id in lists.users))
  {
    var a, b := GrantsFor(Group, lists.groups, permission), GrantsFor(User, lists.users, permission);
    if g.id in lists.groups {
      var i :| 0 <= i < |lists.groups| && lists.groups[i] == g.id;
      assert a[i] == Grant(Group, g.id, permission) && a[i] in a;
    }
    if g.id in lists.users {
      var i :| 0 <= i < |lists.users| && lists.users[i] == g.id;
      assert b[i] == Grant(User, g.id, permission) && b[i] in b;
    }
    assert g in a + b <==> g in a || g in b;
  }

  /** The grants after the way through the dictionary. */
  ghost function Through(isFile: bool, grants: seq<Grant>): seq<Grant> {
    ToGrants(isFile, ToControl(grants))
  }

  lemma GrantsReturnUnlessPublic(isFile: bool, grants: seq<Grant>, g: Grant)
    requires !IsPublic(grants)
    ensures g in Through(isFile, grants) <==> g in grants && Proper(g)
  {
    if grants != [] {
      InSection(Collected(grants, Read), Read, g);
      InSection(Collected(grants, Write), Write, g);
      IdsExactly(grants, g.principal, g.permission, g.id);
      if g in grants {
        var i :| 0 <= i < |grants| && grants[i] == g;
        assert !PublicRead(grants[i]);
      }
    }
  }

  /** From grants to the dictionary and back: the proper grants come back, as a set, exactly when none of them
      is the public read, or it is the only one and the resource is not a file. */
  lemma GrantsReturnExactly(isFile: bool, grants: seq<Grant>)
    ensures (forall g :: g in Through(isFile, grants) <==> g in grants && Proper(g))
      <==> !IsPublic(grants) || (!isFile && forall g :: g in grants && Proper(g) ==> PublicRead(g))
  {
    if !IsPublic(grants) {
      forall g: Grant
        ensures g in Through(isFile, grants) <==> g in grants && Proper(g)
      {
        GrantsReturnUnlessPublic(isFile, grants, g);
      }
    } else {
      var i :| 0 <= i < |grants| && PublicRead(grants[i]);
      assert grants[i] == Grant(User, PUBLIC, Read) && grants[i] in grants;
      assert Through(isFile, grants) == if isFile then [] else [Grant(User, PUBLIC, Read)];
      assert !isFile ==> forall g :: g in Through(isFile, grants) <==> g == Grant(User, PUBLIC, Read);
    }
  }

  /** Next to the public read grant a user's write grant is lost. */
  lemma WriteGrantIsLost(isFile: bool, user: string)
    ensures var grants := [Grant(User, PUBLIC, Read), Grant(User, user, Write)];
      Grant(User, user, Write) in grants && Proper(Grant(User, user, Write)) && Grant(User, user, Write) !in Through(isFile, grants)
  {
    var grants := [Grant(User, PUBLIC, Read), Grant(User, user, Write)];
    assert PublicRead(grants[0]);
    assert IsPublic(grants);
  }
}
