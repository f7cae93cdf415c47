/**
 Channel membership: rows of (channel, user), changed by creating, adding, joining, leaving and removing, and
 the lookup of a direct-message channel by its exact members, which counts rows.  The counts say what they are
 meant to say because no change ever makes a second row for a channel and user.
 */
module ChannelMembers {
  import opened Common

  datatype Kind = Standard | Group | Direct

  datatype Member = Member(channel: string, user: string, active: bool)

  type Members = seq<Member>

  predicate Is(m: Member, channel: string, user: string) {
    m.channel == channel && m.user == user
  }

  /** At most one row per channel and user. */
  ghost predicate Unique(members: Members) {
    forall i, j :: 0 <= i < j < |members| ==> !(members[i].channel == members[j].channel && members[i].user == members[j].user)
  }

  /** The users with a row in a channel, active or not. */
  function Users(members: Members, channel: string): set<string> {
    set m | m in members && m.channel == channel :: m.user
  }

  // ---------------------------------------------------------------- the lookup

  /** func.count(user_id) of the channel's group */
  function RowCount(members: Members, channel: string): nat {
    if members == [] then 0
    else RowCount(members[..|members| - 1], channel) + (if members[|members| - 1].channel == channel then 1 else 0)
  }

  /** func.sum(case(user_id in users)) of the channel's group */
  function MatchCount(members: Members, channel: string, users: set<string>): nat {
    if members == [] then 0
    else
      var last := members[|members| - 1];
      MatchCount(members[..|members| - 1], channel, users) + (if last.channel == channel && last.user in users then 1 else 0)
  }

  /** The subquery with its two HAVING clauses; a channel without rows forms no group. */
  predicate Selected(members: Members, channel: string, users: set<string>) {
    && RowCount(members, channel) > 0
    && RowCount(members, channel) == |users|
    && MatchCount(members, channel, users) == |users|
  }

  lemma UsersOneMore(members: Members, last: Member, channel: string)
    ensures Users(members + [last], channel) == Users(members, channel) + (if last.channel == channel then {last.user} else {})
  {
  }

  lemma UniqueLast(members: Members)
    requires Unique(members) && members != []
    ensures var init, last := members[..|members| - 1], members[|members| - 1];
      Unique(init) && last.user !in Users(init, last.channel) && members == init + [last]
  {
  }

  /** Without double rows, the counts are sizes of sets. */
  lemma {:induction false} CountsAreSizes(members: Members, channel: string, users: set<string>)
    requires Unique(members)
    ensures RowCount(members, channel) == |Users(members, channel)|
    ensures MatchCount(members, channel, users) == |Users(members, channel) * users|
  {
    if members != [] {
      var init, last := members[..|members| - 1], members[|members| - 1];
      UniqueLast(members);
      CountsAreSizes(init, channel, users);
      UsersOneMore(init, last, channel);
      if last.channel == channel {
        AddOne(Users(init, channel), last.user, users);
      } else {
        assert Users(init, channel) + {} == Users(init, channel);
      }
    }
  }

  lemma AddOne(s: set<string>, x: string, t: set<string>)
    requires x !in s
    ensures |s + {x}| == |s| + 1
    ensures |(s + {x}) * t| == |s * t| + (if x in t then 1 else 0)
  {
    if x in t {
      assert (s + {x}) * t == s * t + {x};
    } else {
      assert (s + {x}) * t == s * t;
    }
  }

  lemma FullIntersection(s: set<string>, t: set<string>)
    requires |s| == |t| == |s * t|
    ensures s == t
  {
    assert s - s * t == {} by {
      assert |s - s * t| == |s| - |s * t|;
    }
    assert t - s * t == {} by {
      assert |t - s * t| == |t| - |s * t|;
    }
    assert forall x :: x in s ==> x in s * t;
    assert forall x :: x in t ==> x in s * t;
  }

  /** The two counts select exactly the channels whose users are the requested ones. */
  lemma SelectedExactly(members: Members, channel: string, users: set<string>)
    requires Unique(members)
    ensures Selected(members, channel, users) <==> users != {} && Users(members, channel) == users
  {
    CountsAreSizes(members, channel, users);
    if Selected(members, channel, users) {
      FullIntersection(Users(members, channel), users);
    }
    if Users(members, channel) == users {
      assert Users(members, channel) * users == users;
    }
  }

  /** With a double row the counts would accept a channel that lacks a requested user. */
  lemma DoubleRowsMislead(channel: string, a: string, b: string)
    requires a != b
    ensures var members := [Member(channel, a, true), Member(channel, a, true)];
      Selected(members, channel, {a, b}) && Users(members, channel) != {a, b}
  {
    var one := [Member(channel, a, true)];
    var members := one + [Member(channel, a, true)];
    assert members[..1] == one && one[..0] == [];
    assert RowCount(one, channel) == 1 && MatchCount(one, channel, {a, b}) == 1;
    assert RowCount(members, channel) == 2 && MatchCount(members, channel, {a, b}) == 2;
    assert |{a, b}| == 2;
    assert b !in Users(members, channel);
  }

  // ---------------------------------------------------------------- the changes

  function Rows(channel: string, users: seq<string>): Members {
    seq(|users|, i requires 0 <= i < |users| => Member(channel, users[i], true))
  }

  function Without(members: Members, channel: string, users: set<string>): Members {
    if members == [] then []
    else
      var last := members[|members| - 1];
      Without(members[..|members| - 1], channel, users) + (if last.channel == channel && last.user in users then [] else [last])
  }

  /** The first row of a user in a channel; |members| if there is none. */
  function FirstRow(members: Members, channel: string, user: string): (r: nat)
    ensures r <= |members| && (r < |members| ==> Is(members[r], channel, user))
    ensures r == |members| <==> user !in Users(members, channel)
    ensures forall i :: 0 <= i < r ==> !Is(members[i], channel, user)
  {
    if members == [] then 0
    else
      var init := members[..|members| - 1];
      var r := FirstRow(init, channel, user);
      assert members == init + [members[|members| - 1]];
      if r < |init| then r
      else if Is(members[|init|], channel, user) then |init|
      else |members|
  }

  /** The user's row with its flag set. */
  function Marked(members: Members, channel: string, user: string, active: bool): Members {
    var i := FirstRow(members, channel, user);
    if i < |members| then members[i := members[i].(active := active)] else members
  }

  datatype Change =
    | Add(channel: string, users: seq<string>)   // users without a row in the channel, each once
    | Join(channel: string, user: string)
    | Leave(channel: string, user: string)
    | Remove(channel: string, removed: set<string>)
    | SetActive(channel: string, user: string, active: bool)

  ghost predicate Enabled(members: Members, change: Change) {
    change.Add? ==> Distinct(change.users) && forall u :: u in change.users ==> u !in Users(members, change.channel)
  }

  function Apply(members: Members, change: Change): Members {
    match change
    case Add(channel, users) => members + Rows(channel, users)
    case Join(channel, user) =>
      if FirstRow(members, channel, user) < |members| then members else members + [Member(channel, user, true)]
    case Leave(channel, user) => Marked(members, channel, user, false)
    case Remove(channel, users) => Without(members, channel, users)
    case SetActive(channel, user, active) => Marked(members, channel, user, active)
  }

  lemma {:induction false} WithoutIsSubsequence(members: Members, channel: string, users: set<string>)
    ensures Unique(members) ==> Unique(Without(members, channel, users))
    ensures forall m :: m in Without(members, channel, users) <==> m in members && !(m.channel == channel && m.user in users)
  {
    if members != [] {
      var init, last := members[..|members| - 1], members[|members| - 1];
      WithoutIsSubsequence(init, channel, users);
      assert members == init + [last];
      if Unique(members) {
        UniqueLast(members);
        assert forall m :: m in Without(init, channel, users) ==> m in init;
      }
    }
  }

  /** What each change does to the users of every channel. */
  lemma UsersAfter(members: Members, change: Change, channel: string)
    ensures Users(Apply(members, change), channel) ==
      if change.channel != channel then Users(members, channel)
      else match change
        case Add(_, users) => Users(members, channel) + (set u | u in users)
        case Join(_, user) => Users(members, channel) + {user}
        case Leave(_, _) => Users(members, channel)
        case Remove(_, users) => Users(members, channel) - users
        case SetActive(_, _, _) => Users(members, channel)
  {
    match change
    case Add(c, users) =>
      AddedUsers(members, c, users, channel);
    case Join(c, user) =>
      UsersOneMore(members, Member(c, user, true), channel);
    case Leave(c, user) =>
      MarkedUsers(members, c, user, false, channel);
    case Remove(c, users) =>
      WithoutIsSubsequence(members, c, users);
    case SetActive(c, user, active) =>
      MarkedUsers(members, c, user, active, channel);
  }

  lemma AddedUsers(members: Members, c: string, users: seq<string>, channel: string)
    ensures Users(members + Rows(c, users), channel) == Users(members, channel) + (if c == channel then (set u | u in users) else {})
  {
    var rows := Rows(c, users);
    assert forall i :: 0 <= i < |users| ==> rows[i] == Member(c, users[i], true) && rows[i] in rows;
    assert forall m :: m in members + rows <==> m in members || m in rows;
    assert forall u :: u in users ==> Member(c, u, true) in rows;
  }

  lemma MarkedUsers(members: Members, c: string, user: string, active: bool, channel: string)
    ensures Users(Marked(members, c, user, active), channel) == Users(members, channel)
  {
  }

  lemma ApplyKeepsUnique(members: Members, change: Change)
    requires Unique(members) && Enabled(members, change)
    ensures Unique(Apply(members, change))
  {
    match change
    case Add(channel, users) =>
      var rows := Rows(channel, users);
      forall i, j | 0 <= i < |members| && 0 <= j < |rows|
        ensures !(members[i].channel == rows[j].channel && members[i].user == rows[j].user)
      {
        assert users[j] in users && members[i] in members;
      }
    case Join(channel, user) =>
    case Leave(channel, user) =>
    case Remove(channel, users) =>
      WithoutIsSubsequence(members, channel, users);
    case SetActive(channel, user, active) =>
  }

  // ---------------------------------------------------------------- runs

  function Run(changes: seq<Change>): Members {
    if changes == [] then [] else Apply(Run(changes[..|changes| - 1]), changes[|changes| - 1])
  }

  ghost predicate Legal(changes: seq<Change>) {
    forall k :: 0 <= k < |changes| ==> Enabled(Run(changes[..k]), changes[k])
  }

  lemma {:induction false} RunKeepsUnique(changes: seq<Change>)
    requires Legal(changes)
    ensures Unique(Run(changes))
  {
    if changes != [] {
      var init := changes[..|changes| - 1];
      assert forall k :: 0 <= k < |init| ==> init[..k] == changes[..k];
      RunKeepsUnique(init);
      ApplyKeepsUnique(Run(init), changes[|changes| - 1]);
    }
  }

  /** After any sequence of changes the lookup finds exactly the channels with the requested users. */
  lemma LookupExactInEveryRun(changes: seq<Change>, channel: string, users: set<string>)
    requires Legal(changes)
    ensures Selected(Run(changes), channel, users) <==> users != {} && Users(Run(changes), channel) == users
  {
    RunKeepsUnique(changes);
    SelectedExactly(Run(changes), channel, users);
  }

  lemma FirstRowIs(members: Members, channel: string, user: string, k: nat)
    requires k < |members| && Is(members[k], channel, user)
    requires forall i :: 0 <= i < k ==> !Is(members[i], channel, user)
    ensures FirstRow(members, channel, user) == k
  {
    assert members[k] in members;
    assert members[k].user in Users(members, channel);
  }

  /** Joining after leaving makes the user active exactly if there was no row to leave: a row that is found is
      kept as it is. */
  lemma RejoiningExactly(members: Members, channel: string, user: string)
    ensures var after := Apply(Apply(members, Leave(channel, user)), Join(channel, user));
      && FirstRow(after, channel, user) < |after|
      && (after[FirstRow(after, channel, user)].active <==> user !in Users(members, channel))
  {
    var i := FirstRow(members, channel, user);
    var after := Apply(Apply(members, Leave(channel, user)), Join(channel, user));
    if i < |members| {
      FirstRowIs(Marked(members, channel, user, false), channel, user, i);
    } else {
      assert after == members + [Member(channel, user, true)];
    }
    FirstRowIs(after, channel, user, i);
  }

  // ---------------------------------------------------------------- the table

  datatype Channel = Channel(kind: Kind, owner: string)

  function AsSet(users: seq<string>): set<string> {
    set u | u in users
  }

  /** The users named, those of the groups, and the inviter. */
  function Requested(invitedBy: string, users: seq<string>, groups: seq<seq<string>>): set<string> {
    if groups == [] then AsSet(users) + {invitedBy}
    else Requested(invitedBy, users, groups[..|groups| - 1]) + AsSet(groups[|groups| - 1])
  }

  lemma {:induction false} RequestedExactly(invitedBy: string, users: seq<string>, groups: seq<seq<string>>, u: string)
    ensures u in Requested(invitedBy, users, groups) <==>
      u == invitedBy || u in users || exists i :: 0 <= i < |groups| && u in groups[i]
  {
    if groups != [] {
      RequestedExactly(invitedBy, users, groups[..|groups| - 1], u);
    }
  }

  /** _collect_unique_user_ids */
  method CollectUniqueUserIds(invitedBy: string, users: seq<string>, groups: seq<seq<string>>) returns (r: set<string>)
    ensures r == Requested(invitedBy, users, groups)
  {
    r := AsSet(users) + {invitedBy};
    for i := 0 to |groups|
      invariant r == Requested(invitedBy, users, groups[..i])
    {
      assert groups[..i + 1][..i] == groups[..i];
      r := r + AsSet(groups[i]);
    }
    assert groups[..|groups|] == groups;
  }

  lemma AsSetOneMore(users: seq<string>, u: string)
    ensures AsSet(users + [u]) == AsSet(users) + {u}
  {
  }

  /** _create_membership_models: a row per user, in the order in which the set is iterated. */
  method CreateMembershipModels(channel: string, users: set<string>) returns (rows: Members, ghost order: seq<string>)
    ensures rows == Rows(channel, order) && Distinct(order) && AsSet(order) == users
  {
    rows, order := [], [];
    var rest := users;
    while rest != {}
      invariant rest <= users && rows == Rows(channel, order) && Distinct(order) && AsSet(order) == users - rest
      decreases |rest|
    {
      var uid :| uid in rest;
      AsSetOneMore(order, uid);
      assert users - (rest - {uid}) == (users - rest) + {uid};
      assert uid !in AsSet(order);
      assert Rows(channel, order + [uid]) == Rows(channel, order) + [Member(channel, uid, true)];
      rows, order := rows + [Member(channel, uid, true)], order + [uid];
      rest := rest - {uid};
    }
  }

  lemma FreshUsersAreEnabled(members: Members, channel: string, order: seq<string>)
    requires Distinct(order) && AsSet(order) !! Users(members, channel)
    ensures Enabled(members, Add(channel, order))
  {
  }

  class ChannelTable {
    var channels: map<string, Channel>
    var members: Members

    ghost predicate Valid()
      reads this
    {
      Unique(members)
    }

    constructor ()
      ensures Valid() && channels == map[] && members == []
    {
      channels, members := map[], [];
    }

    /** insert_new_channel, with the id that was drawn: members are recorded for groups and direct messages. */
    method InsertNewChannel(id: string, kind: Kind, owner: string, users: seq<string>, groups: seq<seq<string>>)
      requires Valid() && id !in channels && Users(members, id) == {}
      modifies this
      ensures Valid() && channels == old(channels)[id := Channel(kind, owner)]
      ensures Users(members, id) == if kind == Standard then {} else Requested(owner, users, groups)
      ensures forall c: string :: c != id ==> Users(members, c) == Users(old(members), c)
    {
      if kind != Standard {
        var requested := CollectUniqueUserIds(owner, users, groups);
        var rows;
        ghost var order;
        rows, order := CreateMembershipModels(id, requested);
        FreshUsersAreEnabled(members, id, order);
        ApplyKeepsUnique(members, Add(id, order));
        forall c: string
          ensures Users(members + rows, c) == Users(members, c) + (if c == id then requested else {})
        {
          AddedUsers(members, id, order, c);
        }
        members := members + rows;
      }
      channels := channels[id := Channel(kind, owner)];
    }

    /** add_members_to_channel: only users without a row get one. */
    method AddMembersToChannel(channel: string, invitedBy: string, users: seq<string>, groups: seq<seq<string>>)
      returns (added: Members, ghost order: seq<string>)
      requires Valid()
      modifies this`members
      ensures Valid() && Enabled(old(members), Add(channel, order)) && members == Apply(old(members), Add(channel, order))
      ensures members == old(members) + added
      ensures AsSet(order) == Requested(invitedBy, users, groups) - Users(old(members), channel)
    {
      var requested := CollectUniqueUserIds(invitedBy, users, groups);
      var existing := Users(members, channel);
      added, order := CreateMembershipModels(channel, requested - existing);
      FreshUsersAreEnabled(members, channel, order);
      ApplyKeepsUnique(members, Add(channel, order));
      members := members + added;
    }

    /** remove_members_from_channel: deletes the rows, and says how many. */
    method RemoveMembersFromChannel(channel: string, users: seq<string>) returns (deleted: nat)
      requires Valid()
      modifies this`members
      ensures Valid() && members == Apply(old(members), Remove(channel, AsSet(users)))
      ensures deleted == |old(members)| - |members|
    {
      var rest: Members := [];
      for i := 0 to |members|
        invariant rest == Without(members[..i], channel, AsSet(users)) && |rest| <= i
      {
        assert members[..i + 1][..i] == members[..i];
        if !(members[i].channel == channel && members[i].user in users) {
          rest := rest + [members[i]];
        }
      }
      assert members[..|members|] == members;
      ApplyKeepsUnique(members, Remove(channel, AsSet(users)));
      deleted := |members| - |rest|;
      members := rest;
    }

    /** join_channel: returns the row that is there, or a new one. */
    method JoinChannel(channel: string, user: string) returns (row: Member)
      requires Valid()
      modifies this`members
      ensures Valid() && members == Apply(old(members), Join(channel, user))
      ensures row in members && Is(row, channel, user)
    {
      var i := FirstRow(members, channel, user);
      ApplyKeepsUnique(members, Join(channel, user));
      if i < |members| {
        return members[i];
      }
      row := Member(channel, user, true);
      members := members + [row];
    }

    /** leave_channel: the row stays, inactive. */
    method LeaveChannel(channel: string, user: string) returns (found: bool)
      requires Valid()
      modifies this`members
      ensures Valid() && members == Apply(old(members), Leave(channel, user))
      ensures found == (user in Users(old(members), channel))
    {
      var i := FirstRow(members, channel, user);
      ApplyKeepsUnique(members, Leave(channel, user));
      found := i < |members|;
      if found {
        members := members[i := members[i].(active := false)];
      }
    }

    /** get_dm_channel_by_user_ids: some direct channel whose users are exactly the given ones, if there is one. */
    method GetDmChannelByUserIds(users: seq<string>) returns (r: Option<string>)
      requires Valid()
      ensures r.Some? ==> r.value in channels && channels[r.value].kind == Direct && Users(members, r.value) == AsSet(users)
      ensures r == None <==> users == [] || forall c :: c in channels && channels[c].kind == Direct ==> Users(members, c) != AsSet(users)
    {
      var rest := channels.Keys;
      while rest != {}
        invariant rest <= channels.Keys
        invariant forall c :: c in channels && c !in rest && channels[c].kind == Direct ==> !Selected(members, c, AsSet(users))
        decreases |rest|
      {
        var c :| c in rest;
        rest := rest - {c};
        SelectedExactly(members, c, AsSet(users));
        if channels[c].kind == Direct && Selected(members, c, AsSet(users)) {
          assert users != [];
          return Some(c);
        }
      }
      forall c | c in channels && channels[c].kind == Direct
        ensures users == [] || Users(members, c) != AsSet(users)
      {
        SelectedExactly(members, c, AsSet(users));
        assert users != [] ==> users[0] in AsSet(users);
      }
      r := None;
    }

    /** update_member_active_status */
    method UpdateMemberActiveStatus(channel: string, user: string, active: bool) returns (found: bool)
      requires Valid()
      modifies this`members
      ensures Valid() && members == Apply(old(members), SetActive(channel, user, active))
      ensures found == (user in Users(old(members), channel))
    {
      var i := FirstRow(members, channel, user);
      ApplyKeepsUnique(members, SetActive(channel, user, active));
      found := i < |members|;
      if found {
        members := members[i := members[i].(active := active)];
      }
    }

    /** The router's way to a conversation of two: found and made active again, or created; either way it is
        exactly theirs, and no second one is created. */
    method GetOrCreateDm(user: string, other: string, id: string) returns (channel: string)
      requires Valid() && id !in channels && Users(members, id) == {}
      modifies this
      ensures Valid() && channel in channels && channels[channel].kind == Direct
      ensures Users(members, channel) == {user, other}
      ensures (exists c :: c in old(channels) && old(channels)[c].kind == Direct && Users(old(members), c) == {user, other})
        ==> channels == old(channels) && |members| == |old(members)|
    {
      var existing := GetDmChannelByUserIds([user, other]);
      assert AsSet([user, other]) == {user, other};
      if existing.Some? {
        channel := existing.value;
        MarkedUsers(members, channel, user, true, channel);
        var _ := UpdateMemberActiveStatus(channel, user, true);
        return;
      }
      InsertNewChannel(id, Direct, user, [other], []);
      assert AsSet([other]) == {other};
      channel := id;
    }
  }
}
