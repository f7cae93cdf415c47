/**
 Normalizing the grants of a form, and the checks on the table of grants: the single check, and the batch,
 query and user-list forms that must agree with it.
 */
module AccessGrants {
  import opened Common
  import opened AccessFormats

  // ---------------------------------------------------------------- normalizing

  /** An element of the payload; id is "" if it has none. */
  datatype Item = NotAGrant | Item(id: string, grant: Grant)

  datatype Entry = Entry(id: string, grant: Grant)

  predicate Accepted(item: Item) {
    item.Item? && Proper(item.grant) && item.grant.id != ""
  }

  /** The position of a key in the dictionary of the grants kept so far; its length if it is missing. */
  function Position(kept: seq<Entry>, g: Grant): (r: nat)
    ensures r <= |kept| && (r < |kept| ==> kept[r].grant == g)
    ensures r == |kept| ==> forall i :: 0 <= i < |kept| ==> kept[i].grant != g
  {
    if kept == [] then 0 else
      var r := Position(kept[..|kept| - 1], g);
      if r < |kept| - 1 then r else if kept[|kept| - 1].grant == g then |kept| - 1 else |kept|
  }

  /** deduped[key] = entry: a key keeps its place, and the last value wins. */
  function Put(kept: seq<Entry>, e: Entry): seq<Entry> {
    var k := Position(kept, e.grant);
    if k < |kept| then kept[k := e] else kept + [e]
  }

  /** The loop, with the uuid drawn for each element. */
  function Normalized(items: seq<Item>, draws: seq<string>): seq<Entry>
    requires |items| == |draws|
  {
    if items == [] then [] else
      var n := |items| - 1;
      var kept := Normalized(items[..n], draws[..n]);
      if Accepted(items[n]) then Put(kept, Entry(if items[n].id != "" then items[n].id else draws[n], items[n].grant)) else kept
  }

  ghost predicate NormalForm(entries: seq<Entry>) {
    && (forall i, j :: 0 <= i < j < |entries| ==> entries[i].grant != entries[j].grant)
    && (forall i :: 0 <= i < |entries| ==> Proper(entries[i].grant) && entries[i].grant.id != "" && entries[i].id != "")
  }

  /** A uuid, which is never empty. */
  method DrawId() returns (id: string)
    ensures id != ""
  {
    id := *;
    if id == "" {
      id := "0";
    }
  }

  ghost predicate NoneEmpty(draws: seq<string>) {
    forall i :: 0 <= i < |draws| ==> draws[i] != ""
  }

  /** normalize_access_grants */
  method NormalizeAccessGrants(items: Option<seq<Item>>) returns (r: seq<Entry>, ghost draws: seq<string>)
    ensures |draws| == |items.GetOr([])| && NoneEmpty(draws)
    ensures r == Normalized(items.GetOr([]), draws) && NormalForm(r)
  {
    r, draws := [], [];
    if items == None {
      return;
    }
    var all := items.value;
    for i := 0 to |all|
      invariant |draws| == i && NoneEmpty(draws) && r == Normalized(all[..i], draws)
    {
      var id := DrawId();
      assert all[..i + 1][..i] == all[..i] && (draws + [id])[..i] == draws;
      if Accepted(all[i]) {
        r := Put(r, Entry(if all[i].id != "" then all[i].id else id, all[i].grant));
      }
      draws := draws + [id];
    }
    assert all[..|all|] == all;
    NormalizedIsNormal(all, draws);
  }

  lemma PutKeepsNormal(kept: seq<Entry>, e: Entry)
    requires NormalForm(kept) && Proper(e.grant) && e.grant.id != "" && e.id != ""
    ensures NormalForm(Put(kept, e))
  {
  }

  lemma {:induction false} NormalizedIsNormal(items: seq<Item>, draws: seq<string>)
    requires |items| == |draws| && NoneEmpty(draws)
    ensures NormalForm(Normalized(items, draws))
  {
    if items != [] {
      var n := |items| - 1;
      NormalizedIsNormal(items[..n], draws[..n]);
      if Accepted(items[n]) {
        PutKeepsNormal(Normalized(items[..n], draws[..n]), Entry(if items[n].id != "" then items[n].id else draws[n], items[n].grant));
      }
    }
  }

  ghost predicate Holds(entries: seq<Entry>, g: Grant) {
    exists k :: 0 <= k < |entries| && entries[k].grant == g
  }

  ghost predicate Asked(items: seq<Item>, g: Grant) {
    exists i :: 0 <= i < |items| && Accepted(items[i]) && items[i].grant == g
  }

  lemma PutHolds(kept: seq<Entry>, e: Entry, g: Grant)
    ensures Holds(Put(kept, e), g) <==> Holds(kept, g) || g == e.grant
  {
    var after, p := Put(kept, e), Position(kept, e.grant);
    if Holds(kept, g) {
      var k :| 0 <= k < |kept| && kept[k].grant == g;
      assert after[k].grant == g;
    }
    assert after[p] == e;
  }

  /** Exactly the accepted triples are kept. */
  lemma {:induction false} KeepsExactlyTheAccepted(items: seq<Item>, draws: seq<string>, g: Grant)
    requires |items| == |draws|
    ensures Holds(Normalized(items, draws), g) <==> Asked(items, g)
  {
    if items != [] {
      var n := |items| - 1;
      var init := items[..n];
      KeepsExactlyTheAccepted(init, draws[..n], g);
      assert forall i :: 0 <= i < n ==> init[i] == items[i];
      if Accepted(items[n]) {
        PutHolds(Normalized(init, draws[..n]), Entry(if items[n].id != "" then items[n].id else draws[n], items[n].grant), g);
      }
    }
  }

  /** Of elements with the same triple the last one's id is kept. */
  lemma {:induction false} LastIdWins(items: seq<Item>, draws: seq<string>, i: nat, k: nat)
    requires |items| == |draws| && i < |items| && Accepted(items[i]) && items[i].id != ""
    requires forall j :: i < j < |items| ==> !(Accepted(items[j]) && items[j].grant == items[i].grant)
    requires NoneEmpty(draws) && k < |Normalized(items, draws)| && Normalized(items, draws)[k].grant == items[i].grant
    ensures Normalized(items, draws)[k].id == items[i].id
  {
    var n := |items| - 1;
    var kept := Normalized(items[..n], draws[..n]);
    NormalizedIsNormal(items, draws);
    if i == n {
      var e := Entry(items[n].id, items[n].grant);
      assert Put(kept, e)[Position(kept, e.grant)] == e;
    } else if Accepted(items[n]) {
      assert items[n].grant != items[i].grant;
      assert k < |kept| && kept[k] == Normalized(items, draws)[k];
      LastIdWins(items[..n], draws[..n], i, k);
    } else {
      LastIdWins(items[..n], draws[..n], i, k);
    }
  }

  function AsItems(entries: seq<Entry>): seq<Item> {
    seq(|entries|, i requires 0 <= i < |entries| => Item(entries[i].id, entries[i].grant))
  }

  lemma NewKeyIsAppended(kept: seq<Entry>, e: Entry)
    requires forall i :: 0 <= i < |kept| ==> kept[i].grant != e.grant
    ensures Put(kept, e) == kept + [e]
  {
  }

  lemma NormalizedNext(items: seq<Item>, draws: seq<string>, item: Item, id: string)
    requires |items| == |draws|
    ensures var kept := Normalized(items, draws);
      Normalized(items + [item], draws + [id])
        == if Accepted(item) then Put(kept, Entry(if item.id != "" then item.id else id, item.grant)) else kept
  {
    assert (items + [item])[..|items|] == items && (draws + [id])[..|draws|] == draws;
  }

  lemma NormalizeOneMore(init: seq<Entry>, last: Entry, draws: seq<string>, id: string)
    requires NormalForm(init + [last]) && |draws| == |init| && Normalized(AsItems(init), draws) == init
    ensures Normalized(AsItems(init + [last]), draws + [id]) == init + [last]
  {
    assert AsItems(init + [last]) == AsItems(init) + [Item(last.id, last.grant)];
    assert (init + [last])[|init|] == last;
    NormalizedNext(AsItems(init), draws, Item(last.id, last.grant), id);
    forall i | 0 <= i < |init|
      ensures init[i].grant != last.grant
    {
      assert (init + [last])[i] == init[i];
    }
    NewKeyIsAppended(init, last);
  }

  /** Normalizing again changes nothing, whatever is drawn. */
  lemma {:induction false} NormalizingTwiceIsOnce(entries: seq<Entry>, draws: seq<string>)
    requires NormalForm(entries) && |draws| == |entries|
    ensures Normalized(AsItems(entries), draws) == entries
  {
    if entries != [] {
      var n := |entries| - 1;
      NormalizingTwiceIsOnce(entries[..n], draws[..n]);
      assert entries[..n] + [entries[n]] == entries && draws[..n] + [draws[n]] == draws;
      NormalizeOneMore(entries[..n], entries[n], draws[..n], draws[n]);
    }
  }

  // ---------------------------------------------------------------- checks on the table

  datatype Row = Row(kind: string, resource: string, grant: Grant)

  /** Who is in which group, read in either direction. */
  datatype Membership = Membership(group: string, user: string)

  function GroupsOf(memberships: set<Membership>, user: string): set<string> {
    set m | m in memberships && m.user == user :: m.group
  }

  function UsersOf(memberships: set<Membership>, group: string): set<string> {
    set m | m in memberships && m.group == group :: m.user
  }

  /** The alternatives of the query: everyone, the user, a group of the user. */
  predicate Covers(g: Grant, user: string, groups: set<string>) {
    || (g.principal == User && g.id == PUBLIC)
    || (g.principal == User && g.id == user)
    || (groups != {} && g.principal == Group && g.id in groups)
  }

  /** has_access; groups is None where the caller leaves it to be read from the memberships. */
  predicate HasAccess(table: set<Row>, memberships: set<Membership>, user: string, kind: string, resource: string,
                      permission: Permission, groups: Option<set<string>>)
  {
    var all := groups.GetOr(GroupsOf(memberships, user));
    exists row :: row in table && row.kind == kind && row.resource == resource && row.grant.permission == permission
      && Covers(row.grant, user, all)
  }

  /** get_accessible_resource_ids: one query for many resources. */
  function AccessibleResourceIds(table: set<Row>, memberships: set<Membership>, user: string, kind: string,
                                 resources: seq<string>, permission: Permission, groups: Option<set<string>>): set<string>
  {
    if resources == [] then {} else
      var all := groups.GetOr(GroupsOf(memberships, user));
      set row | row in table && row.kind == kind && row.resource in resources && row.grant.permission == permission
        && Covers(row.grant, user, all) :: row.resource
  }

  /** The batch check is the single check, resource by resource. */
  lemma BatchIsSingle(table: set<Row>, memberships: set<Membership>, user: string, kind: string,
                      resources: seq<string>, permission: Permission, groups: Option<set<string>>, r: string)
    ensures r in AccessibleResourceIds(table, memberships, user, kind, resources, permission, groups)
      <==> r in resources && HasAccess(table, memberships, user, kind, r, permission, groups)
  {
  }

  datatype Document = Document(id: string, owner: string)

  /** grant_exists of has_permission_filter; user "" stands for none given. */
  predicate GrantExists(table: set<Row>, kind: string, d: Document, permission: Permission, user: string, groups: set<string>) {
    exists row :: row in table && row.kind == kind && row.resource == d.id && row.grant.permission == permission
      && (|| (row.grant.principal == User && row.grant.id == PUBLIC)
          || (user != "" && row.grant.principal == User && row.grant.id == user)
          || (groups != {} && row.grant.principal == Group && row.grant.id in groups))
  }

  /** has_permission_filter: without user and groups the query is not filtered. */
  function PermissionFilter(table: set<Row>, kind: string, documents: set<Document>, permission: Permission,
                            user: string, groups: set<string>): set<Document>
  {
    if user == "" && groups == {} then documents
    else set d | d in documents && (GrantExists(table, kind, d, permission, user, groups) || (user != "" && d.owner == user))
  }

  /** For a user the filter keeps exactly the documents that are owned or accepted by the single check. */
  lemma FilterIsOwnedOrSingle(table: set<Row>, memberships: set<Membership>, kind: string, documents: set<Document>,
                              permission: Permission, user: string, groups: set<string>, d: Document)
    requires user != ""
    ensures d in PermissionFilter(table, kind, documents, permission, user, groups)
      <==> d in documents && (d.owner == user || HasAccess(table, memberships, user, kind, d.id, permission, Some(groups)))
  {
  }

  /** Without a user the filter keeps everything, or with groups what is accepted for somebody known only by them. */
  lemma FilterWithoutUser(table: set<Row>, memberships: set<Membership>, kind: string, documents: set<Document>,
                          permission: Permission, groups: set<string>, d: Document)
    ensures groups == {} ==> PermissionFilter(table, kind, documents, permission, "", groups) == documents
    ensures groups != {} ==>
      (d in PermissionFilter(table, kind, documents, permission, "", groups)
       <==> d in documents && HasAccess(table, memberships, PUBLIC, kind, d.id, permission, Some(groups)))
  {
  }

  /** _has_read_only_permission_filter for a user. */
  predicate PersonalGrant(table: set<Row>, kind: string, d: Document, permission: Permission, user: string, groups: set<string>) {
    exists row :: row in table && row.kind == kind && row.resource == d.id && row.grant.permission == permission
      && ((row.grant.principal == User && row.grant.id == user) || (groups != {} && row.grant.principal == Group && row.grant.id in groups))
  }

  predicate PublicGrant(table: set<Row>, kind: string, d: Document, permission: Permission) {
    exists row :: row in table && row.kind == kind && row.resource == d.id && row.grant.permission == permission
      && row.grant.principal == User && row.grant.id == PUBLIC
  }

  predicate ReadOnlyFilter(table: set<Row>, kind: string, d: Document, user: string, groups: set<string>) {
    && PersonalGrant(table, kind, d, Read, user, groups)
    && !PersonalGrant(table, kind, d, Write, user, groups)
    && !PublicGrant(table, kind, d, Read)
    && d.owner != user
  }

  /** The single check splits into everyone's grant and one's own. */
  lemma SinglePublicOrPersonal(table: set<Row>, memberships: set<Membership>, kind: string, d: Document,
                               permission: Permission, user: string, groups: set<string>)
    ensures HasAccess(table, memberships, user, kind, d.id, permission, Some(groups))
      <==> PublicGrant(table, kind, d, permission) || PersonalGrant(table, kind, d, permission, user, groups)
  {
  }

  /** Listed as read-only are exactly the documents of others that are not public and that the user, not counting
      everyone's grants, may read and not write. */
  lemma ReadOnlyExactly(table: set<Row>, memberships: set<Membership>, kind: string, d: Document, user: string, groups: set<string>)
    requires user != PUBLIC
    ensures
      var own := set row | row in table && !(row.grant.principal == User && row.grant.id == PUBLIC);
      ReadOnlyFilter(table, kind, d, user, groups) <==>
      && d.owner != user && !HasAccess(table, memberships, PUBLIC, kind, d.id, Read, Some({}))
      && HasAccess(own, memberships, user, kind, d.id, Read, Some(groups))
      && !HasAccess(own, memberships, user, kind, d.id, Write, Some(groups))
  {
    var own := set row | row in table && !(row.grant.principal == User && row.grant.id == PUBLIC);
    OwnAccess(table, own, memberships, kind, d, Read, user, groups);
    OwnAccess(table, own, memberships, kind, d, Write, user, groups);
    SinglePublicOrPersonal(table, memberships, kind, d, Read, PUBLIC, {});
  }

  lemma OwnAccess(table: set<Row>, own: set<Row>, memberships: set<Membership>, kind: string, d: Document,
                  permission: Permission, user: string, groups: set<string>)
    requires user != PUBLIC && own == set row | row in table && !(row.grant.principal == User && row.grant.id == PUBLIC)
    ensures HasAccess(own, memberships, user, kind, d.id, permission, Some(groups))
      <==> PersonalGrant(table, kind, d, permission, user, groups)
  {
  }

  /** A document listed as read-only can be read, and can still be written exactly when everyone may write it. */
  lemma ReadOnlyIsWritableExactly(table: set<Row>, memberships: set<Membership>, kind: string, d: Document, user: string, groups: set<string>)
    requires ReadOnlyFilter(table, kind, d, user, groups)
    ensures HasAccess(table, memberships, user, kind, d.id, Read, Some(groups))
    ensures HasAccess(table, memberships, user, kind, d.id, Write, Some(groups)) <==> PublicGrant(table, kind, d, Write)
  {
  }

  /** Such a document: one read grant for a user, one write grant for everyone. */
  lemma ReadOnlyButWritable(kind: string, d: Document, user: string, memberships: set<Membership>)
    requires user != d.owner && user != PUBLIC
    ensures var table := {Row(kind, d.id, Grant(User, user, Read)), Row(kind, d.id, Grant(User, PUBLIC, Write))};
      ReadOnlyFilter(table, kind, d, user, {}) && HasAccess(table, memberships, user, kind, d.id, Write, Some({}))
  {
    var read, write := Row(kind, d.id, Grant(User, user, Read)), Row(kind, d.id, Grant(User, PUBLIC, Write));
    var table := {read, write};
    assert read in table && write in table;
    assert PersonalGrant(table, kind, d, Read, user, {});
    assert PublicGrant(table, kind, d, Write);
    ReadOnlyIsWritableExactly(table, memberships, kind, d, user, {});
  }

  // ---------------------------------------------------------------- the users with access

  datatype Account = Account(id: string, pending: bool)

  /** The grants of a resource for a permission. */
  function GrantsOf(table: set<Row>, kind: string, resource: string, permission: Permission): set<Grant> {
    set row | row in table && row.kind == kind && row.resource == resource && row.grant.permission == permission :: row.grant
  }

  ghost predicate Reached(grants: set<Grant>, memberships: set<Membership>, user: string) {
    exists g :: g in grants && ((g.principal == User && g.id == user) || (g.principal == Group && Membership(g.id, user) in memberships))
  }

  lemma ReachedStep(done: set<Grant>, g: Grant, memberships: set<Membership>, user: string)
    ensures Reached(done + {g}, memberships, user) <==>
      Reached(done, memberships, user) || (g.principal == User && g.id == user) || (g.principal == Group && Membership(g.id, user) in memberships)
  {
  }

  /** The second loop of get_users_with_access: user ids of the grants, going from groups to their users. */
  method CollectUserIds(grants: set<Grant>, memberships: set<Membership>) returns (ids: set<string>)
    ensures forall u :: u in ids <==> Reached(grants, memberships, u)
  {
    ids := {};
    var rest := grants;
    while rest != {}
      invariant rest <= grants
      invariant forall u :: u in ids <==> Reached(grants - rest, memberships, u)
      decreases |rest|
    {
      var g :| g in rest;
      ghost var done := grants - rest;
      rest := rest - {g};
      assert grants - rest == done + {g};
      forall u: string
        ensures Reached(grants - rest, memberships, u) <==>
          Reached(done, memberships, u) || (g.principal == User && g.id == u) || (g.principal == Group && Membership(g.id, u) in memberships)
      {
        ReachedStep(done, g, memberships, u);
      }
      if g.principal == User {
        ids := ids + {g.id};
      } else if g.principal == Group {
        assert forall u :: u in UsersOf(memberships, g.id) <==> Membership(g.id, u) in memberships;
        ids := ids + UsersOf(memberships, g.id);
      }
    }
    assert grants - rest == grants;
  }

  /** The two directions of the memberships agree with the single check. */
  lemma ReachedIsSingle(table: set<Row>, memberships: set<Membership>, kind: string, resource: string, permission: Permission, user: string)
    requires Grant(User, PUBLIC, permission) !in GrantsOf(table, kind, resource, permission)
    ensures Reached(GrantsOf(table, kind, resource, permission), memberships, user)
      <==> HasAccess(table, memberships, user, kind, resource, permission, None)
  {
    var grants, groups := GrantsOf(table, kind, resource, permission), GroupsOf(memberships, user);
    if Reached(grants, memberships, user) {
      var g :| g in grants && ((g.principal == User && g.id == user) || (g.principal == Group && Membership(g.id, user) in memberships));
      var row :| row in table && row.kind == kind && row.resource == resource && row.grant.permission == permission && row.grant == g;
      if g.principal == Group {
        assert Membership(g.id, user).group in groups;
      }
      assert Covers(row.grant, user, groups);
    }
    if HasAccess(table, memberships, user, kind, resource, permission, None) {
      var row :| row in table && row.kind == kind && row.resource == resource && row.grant.permission == permission
        && Covers(row.grant, user, groups);
      assert row.grant in grants;
      if row.grant.principal == Group {
        var m :| m in memberships && m.user == user && m.group == row.grant.id;
        assert m == Membership(row.grant.id, user);
      }
    }
  }

  lemma PublicCoversAll(table: set<Row>, memberships: set<Membership>, kind: string, resource: string, permission: Permission, user: string)
    requires Grant(User, PUBLIC, permission) in GrantsOf(table, kind, resource, permission)
    ensures HasAccess(table, memberships, user, kind, resource, permission, None)
  {
  }

  /** get_users_with_access: exactly the accounts that the single check accepts, except that a public resource
      lists no pending account. */
  method GetUsersWithAccess(table: set<Row>, memberships: set<Membership>, accounts: set<Account>, kind: string,
                            resource: string, permission: Permission) returns (users: set<Account>)
    ensures var public := Grant(User, PUBLIC, permission) in GrantsOf(table, kind, resource, permission);
      forall a :: a in users <==> a in accounts && HasAccess(table, memberships, a.id, kind, resource, permission, None) && (public ==> !a.pending)
  {
    var grants := GrantsOf(table, kind, resource, permission);
    if Grant(User, PUBLIC, permission) in grants {
      forall u: string
        ensures HasAccess(table, memberships, u, kind, resource, permission, None)
      {
        PublicCoversAll(table, memberships, kind, resource, permission, u);
      }
      return set a | a in accounts && !a.pending;
    }
    var ids := CollectUserIds(grants, memberships);
    forall u: string
      ensures u in ids <==> HasAccess(table, memberships, u, kind, resource, permission, None)
    {
      ReachedIsSingle(table, memberships, kind, resource, permission, u);
    }
    users := set a | a in accounts && a.id in ids;
  }

  // ---------------------------------------------------------------- what the formats mean

  /** Who the dictionary lets in. */
  predicate DictionaryAllows(isFile: bool, control: Option<Control>, user: string, groups: set<string>, permission: Permission) {
    match control
    case None => !isFile && permission == Read
    case Some(c) =>
      && (permission == Read || permission == Write)
      && var l := ListsOf(if permission == Read then c.read else c.write);
        PUBLIC in l.users || user in l.users || exists g :: g in groups && g in l.groups
  }

  ghost predicate GrantsAllow(grants: seq<Grant>, user: string, groups: set<string>, permission: Permission) {
    exists i :: 0 <= i < |grants| && grants[i].permission == permission && Covers(grants[i], user, groups)
  }

  ghost predicate SomeGrantAllows(grants: seq<Grant>, user: string, groups: set<string>, permission: Permission) {
    exists g: Grant :: g in grants && g.permission == permission && Covers(g, user, groups)
  }

  lemma AllowedByMember(grants: seq<Grant>, user: string, groups: set<string>, permission: Permission)
    ensures GrantsAllow(grants, user, groups, permission) <==> SomeGrantAllows(grants, user, groups, permission)
  {
  }

  function ListsFor(c: Control, permission: Permission): Lists {
    ListsOf(if permission == Read then c.read else c.write)
  }

  lemma InToGrants(isFile: bool, c: Control, g: Grant)
    ensures g in ToGrants(isFile, Some(c)) <==>
      Proper(g) && g.id in (if g.principal == Group then ListsFor(c, g.permission).groups else ListsFor(c, g.permission).users)
  {
    InSection(ListsOf(c.read), Read, g);
    InSection(ListsOf(c.write), Write, g);
    var a, b := Section(c.read, Read), Section(c.write, Write);
    assert g in a + b <==> g in a || g in b;
    assert c.read.Some? ==> c.read == Some(ListsOf(c.read));
    assert c.write.Some? ==> c.write == Some(ListsOf(c.write));
  }

  /** The grants made from a dictionary let in whom the dictionary lets in. */
  lemma DictionaryMeansItsGrants(isFile: bool, control: Option<Control>, user: string, groups: set<string>, permission: Permission)
    requires permission == Read || permission == Write
    ensures GrantsAllow(ToGrants(isFile, control), user, groups, permission) <==> DictionaryAllows(isFile, control, user, groups, permission)
  {
    var grants := ToGrants(isFile, control);
    AllowedByMember(grants, user, groups, permission);
    match control
    case None =>
      if !isFile && permission == Read {
        assert Grant(User, PUBLIC, Read) in grants;
      }
    case Some(c) =>
      if SomeGrantAllows(grants, user, groups, permission) {
        var g: Grant :| g in grants && g.permission == permission && Covers(g, user, groups);
        InToGrants(isFile, c, g);
      }
      if DictionaryAllows(isFile, control, user, groups, permission) {
        var l := ListsFor(c, permission);
        InToGrants(isFile, c, Grant(User, PUBLIC, permission));
        InToGrants(isFile, c, Grant(User, user, permission));
        if !(PUBLIC in l.users || user in l.users) {
          var g :| g in groups && g in l.groups;
          InToGrants(isFile, c, Grant(Group, g, permission));
          assert Covers(Grant(Group, g, permission), user, groups);
        } else {
          assert Covers(Grant(User, PUBLIC, permission), user, groups) && Covers(Grant(User, user, permission), user, groups);
        }
      }
  }

  /** The dictionary made from grants lets in whom the grants let in, except that of public grants only the
      right to read is left, and for a file not even that. */
  lemma GrantsMeanTheirDictionary(isFile: bool, grants: seq<Grant>, user: string, groups: set<string>, permission: Permission)
    requires permission == Read || permission == Write
    ensures DictionaryAllows(isFile, ToControl(grants), user, groups, permission) <==>
      if IsPublic(grants) then !isFile && permission == Read else GrantsAllow(grants, user, groups, permission)
  {
    if !IsPublic(grants) {
      var through := Through(isFile, grants);
      DictionaryMeansItsGrants(isFile, ToControl(grants), user, groups, permission);
      AllowedByMember(grants, user, groups, permission);
      AllowedByMember(through, user, groups, permission);
      forall g: Grant
        ensures g in through <==> g in grants && Proper(g)
      {
        GrantsReturnUnlessPublic(isFile, grants, g);
      }
      if SomeGrantAllows(grants, user, groups, permission) {
        var g: Grant :| g in grants && g.permission == permission && Covers(g, user, groups);
        assert Proper(g) && g in through;
      }
    }
  }

  /** A user who may write by a grant next to the public read grant may not by the dictionary made of them. */
  lemma WriterIsShutOut(isFile: bool, user: string)
    ensures var grants := [Grant(User, PUBLIC, Read), Grant(User, user, Write)];
      GrantsAllow(grants, user, {}, Write) && !DictionaryAllows(isFile, ToControl(grants), user, {}, Write)
  {
    var grants := [Grant(User, PUBLIC, Read), Grant(User, user, Write)];
    assert PublicRead(grants[0]);
    assert grants[1].permission == Write && Covers(grants[1], user, {});
  }
}
