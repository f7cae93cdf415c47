/**
 The chat_message table and the message tree rebuilt from it.  A row's primary key joins the chat's id and the
 message's id with a dash; the tree's childrenIds are computed from the parent links.
 */
module MessageTree {
  import opened Common

  /** parent: "" stands for none. */
  datatype Row = Row(chat: string, role: string, parent: string, content: Option<string>, model: Option<string>, usage: map<string, int>)

  type Rows = map<string, Row>

  /** The keys of a message that are present; parent_id may be present and empty. */
  datatype Data = Data(role: Option<string>, parent_id: Option<string>, parentId: string, content: Option<string>,
                       model: Option<string>, usage: map<string, int>)

  datatype Message = Message(id: string, role: string, parentId: string, content: string, model: Option<string>, usage: map<string, int>)

  /** A message of the rebuilt tree. */
  datatype Node = Node(message: Message, childrenIds: seq<string>)

  function Key(chat: string, message: string): string {
    chat + "-" + message
  }

  /** With chat ids of one length, a key belongs to one chat and one message. */
  lemma EqualLengthKeys(chat: string, a: string, other: string, b: string)
    requires |chat| == |other|
    ensures Key(chat, a) == Key(other, b) <==> chat == other && a == b
  {
    assert Key(chat, a)[..|chat|] == chat && Key(other, b)[..|chat|] == other;
    assert Key(chat, a)[|chat| + 1..] == a && Key(other, b)[|chat| + 1..] == b;
  }

  lemma KeyInjective(chat: string, a: string, b: string)
    ensures Key(chat, a) == Key(chat, b) <==> a == b
  {
    EqualLengthKeys(chat, a, chat, b);
  }

  /** data.get('parent_id') or data.get('parentId') */
  function ParentOf(data: Data): string {
    if data.parent_id.GetOr("") != "" then data.parent_id.value else data.parentId
  }

  function Inserted(chat: string, data: Data): Row {
    Row(chat, data.role.GetOr("user"), ParentOf(data), data.content, data.model, data.usage)
  }

  /** An update keeps what the data does not name; a parent is taken only if the key parent_id is present. */
  function Updated(row: Row, data: Data): Row {
    row.(role := data.role.GetOr(row.role),
         parent := if data.parent_id.Some? then ParentOf(data) else row.parent,
         content := if data.content.Some? then data.content else row.content,
         model := if data.model.Some? then data.model else row.model,
         usage := row.usage + data.usage)
  }

  function Upserted(rows: Rows, message: string, chat: string, data: Data): Rows {
    var key := Key(chat, message);
    rows[key := if key in rows then Updated(rows[key], data) else Inserted(chat, data)]
  }

  /** Every row is stored under a key of its chat. */
  ghost predicate Valid(rows: Rows) {
    forall key :: key in rows ==> exists m: string :: key == Key(rows[key].chat, m)
  }

  lemma UpsertKeepsValid(rows: Rows, message: string, chat: string, data: Data)
    requires Valid(rows)
    ensures Valid(Upserted(rows, message, chat, data))
  {
  }

  /** A new row has each field as the data gives it, and the parent under either of its two names. */
  ghost predicate StoresNew(row: Row, chat: string, data: Data) {
    && row.chat == chat && row.content == data.content && row.model == data.model && row.usage == data.usage
    && (if data.role.Some? then row.role == data.role.value else row.role == "user")
    && (data.parent_id.Some? && data.parent_id.value != "" ==> row.parent == data.parent_id.value)
    && (data.parent_id.None? || data.parent_id.value == "" ==> row.parent == data.parentId)
  }

  /** A row updated: each field present in the data is taken over, each absent one is kept; of two token counts of one
      name the new one stays. */
  ghost predicate StoresUpdate(before: Row, row: Row, data: Data) {
    && row.chat == before.chat
    && (if data.role.Some? then row.role == data.role.value else row.role == before.role)
    && (if data.content.Some? then row.content == data.content else row.content == before.content)
    && (if data.model.Some? then row.model == data.model else row.model == before.model)
    && (data.parent_id.None? ==> row.parent == before.parent)
    && (data.parent_id.Some? ==> row.parent == if data.parent_id.value != "" then data.parent_id.value else data.parentId)
    && row.usage.Keys == before.usage.Keys + data.usage.Keys
    && (forall k :: k in data.usage ==> row.usage[k] == data.usage[k])
    && (forall k :: k in before.usage && k !in data.usage ==> row.usage[k] == before.usage[k])
  }

  lemma UpsertedExactly(rows: Rows, message: string, chat: string, data: Data)
    ensures
      var key, after := Key(chat, message), Upserted(rows, message, chat, data);
      && after.Keys == rows.Keys + {key}
      && (forall k :: k in rows && k != key ==> after[k] == rows[k])
      && (if key in rows then StoresUpdate(rows[key], after[key], data) else StoresNew(after[key], chat, data))
  {
  }

  /** No token count is lost by an update. */
  lemma UsageKeysStay(rows: Rows, message: string, chat: string, data: Data, key: string)
    requires key in rows
    ensures rows[key].usage.Keys <= Upserted(rows, message, chat, data)[key].usage.Keys
    ensures forall k :: k in rows[key].usage && k !in data.usage ==>
      Upserted(rows, message, chat, data)[key].usage[k] == rows[key].usage[k]
  {
  }

  class ChatMessageTable {
    var rows: Rows

    constructor ()
      ensures rows == map[] && Valid(rows)
    {
      rows := map[];
    }

    /** upsert_message */
    method UpsertMessage(message: string, chat: string, data: Data)
      requires Valid(rows)
      modifies this
      ensures Valid(rows) && rows == Upserted(old(rows), message, chat, data)
      ensures rows.Keys == old(rows).Keys + {Key(chat, message)}
      ensures forall key :: key in old(rows) && key != Key(chat, message) ==> rows[key] == old(rows)[key]
      ensures if Key(chat, message) in old(rows)
              then StoresUpdate(old(rows)[Key(chat, message)], rows[Key(chat, message)], data)
              else StoresNew(rows[Key(chat, message)], chat, data)
    {
      var key := Key(chat, message);
      UpsertedExactly(rows, message, chat, data);
      UpsertKeepsValid(rows, message, chat, data);
      if key in rows {
        var existing := rows[key];
        assert existing.usage + map[] == existing.usage;
        if data.role.Some? {
          existing := existing.(role := data.role.value);
        }
        if data.parent_id.Some? {
          existing := existing.(parent := ParentOf(data));
        }
        if data.content.Some? {
          existing := existing.(content := data.content);
        }
        if data.model.Some? {
          existing := existing.(model := data.model);
        }
        if data.usage != map[] {
          existing := existing.(usage := existing.usage + data.usage);
        }
        rows := rows[key := existing];
      } else {
        rows := rows[key := Inserted(chat, data)];
      }
    }
  }

  // ---------------------------------------------------------------- the tree

  /** The ids of the messages of a chat. */
  ghost predicate Has(rows: Rows, chat: string, m: string) {
    Key(chat, m) in rows && rows[Key(chat, m)].chat == chat
  }

  function FromRow(m: string, row: Row): Message {
    Message(m, row.role, row.parent, row.content.GetOr(""), row.model, row.usage)
  }

  type Messages = map<string, Message>

  /** The ids among these, in order, whose parent is a given message. */
  function Kids(ids: seq<string>, messages: Messages, parent: string): seq<string> {
    if ids == [] then []
    else
      var last := ids[|ids| - 1];
      Kids(ids[..|ids| - 1], messages, parent)
        + (if last in messages && messages[last].parentId == parent && parent != "" then [last] else [])
  }

  lemma {:induction false} KidsExactly(ids: seq<string>, messages: Messages, parent: string, k: string)
    requires Distinct(ids)
    ensures k in Kids(ids, messages, parent) <==> k in ids && k in messages && messages[k].parentId == parent && parent != ""
    ensures Distinct(Kids(ids, messages, parent))
  {
    if ids != [] {
      var init, last := ids[..|ids| - 1], ids[|ids| - 1];
      KidsExactly(init, messages, parent, k);
      KidsExactly(init, messages, parent, last);
      assert ids == init + [last];
      assert last !in init;
    }
  }

  /** The messages are those of the chat, each made from its row; ids lists them once each. */
  ghost predicate Collected(rows: Rows, chat: string, ids: seq<string>, messages: Messages) {
    && Distinct(ids) && (forall m :: m in ids <==> m in messages)
    && (forall m :: m in messages <==> Has(rows, chat, m))
    && (forall m :: m in messages ==> Has(rows, chat, m) && messages[m] == FromRow(m, rows[Key(chat, m)]))
  }

  /** row.id[prefix_len:] if row.id.startswith(prefix) else row.id */
  function Strip(chat: string, key: string): string {
    if Key(chat, "") <= key then key[|chat| + 1..] else key
  }

  lemma KeyOfRow(rows: Rows, chat: string, key: string)
    requires Valid(rows) && key in rows && rows[key].chat == chat
    ensures key == Key(chat, Strip(chat, key))
    ensures forall other: string :: Key(chat, other) == key <==> other == Strip(chat, key)
  {
  }

  /** The first loop: one message per row of the chat, in the order in which the rows come. */
  method CollectMessages(rows: Rows, chat: string) returns (ids: seq<string>, messages: Messages)
    requires Valid(rows)
    ensures Collected(rows, chat, ids, messages)
  {
    ids, messages := [], map[];
    var rest := rows.Keys;
    while rest != {}
      invariant rest <= rows.Keys
      invariant Distinct(ids) && forall m :: m in ids <==> m in messages
      invariant forall m :: m in messages <==> Has(rows, chat, m) && Key(chat, m) !in rest
      invariant forall m :: m in messages ==> Has(rows, chat, m) && messages[m] == FromRow(m, rows[Key(chat, m)])
      decreases |rest|
    {
      var key :| key in rest;
      rest := rest - {key};
      if rows[key].chat == chat {
        var m := Strip(chat, key);
        KeyOfRow(rows, chat, key);
        ids := ids + [m];
        messages := messages[m := FromRow(m, rows[key])];
      }
    }
  }

  type Children = map<string, seq<string>>

  function ListOf(children: Children, m: string): seq<string> {
    if m in children then children[m] else []
  }

  /** The lists built from the first ids; a message without children has none yet. */
  ghost predicate Linked(messages: Messages, ids: seq<string>, children: Children) {
    forall m :: m in messages ==> ListOf(children, m) == Kids(ids, messages, m)
  }

  /** One turn of the second loop. */
  function Link(messages: Messages, children: Children, id: string): Children
    requires id in messages
  {
    var parent := messages[id].parentId;
    if parent == "" || parent !in messages then children
    else if parent !in children then children[parent := [id]]
    else if id in children[parent] then children
    else children[parent := children[parent] + [id]]
  }

  lemma KidsOneMore(ids: seq<string>, messages: Messages, parent: string, last: string)
    requires last in messages
    ensures Kids(ids + [last], messages, parent)
      == Kids(ids, messages, parent) + (if messages[last].parentId == parent && parent != "" then [last] else [])
  {
  }

  lemma LinkAdds(messages: Messages, children: Children, id: string, m: string)
    requires id in messages && m in messages && id !in ListOf(children, m)
    ensures ListOf(Link(messages, children, id), m)
      == ListOf(children, m) + (if messages[id].parentId == m && m != "" then [id] else [])
  {
  }

  lemma LinkOne(messages: Messages, ids: seq<string>, children: Children, id: string, m: string)
    requires ListOf(children, m) == Kids(ids, messages, m)
    requires id in messages && id !in ids && Distinct(ids) && m in messages
    ensures ListOf(Link(messages, children, id), m) == Kids(ids + [id], messages, m)
  {
    KidsExactly(ids, messages, m, id);
    KidsOneMore(ids, messages, m, id);
    LinkAdds(messages, children, id, m);
  }

  lemma LinkKeepsLinked(messages: Messages, ids: seq<string>, children: Children, id: string)
    requires Linked(messages, ids, children) && id in messages && id !in ids && Distinct(ids)
    ensures Linked(messages, ids + [id], Link(messages, children, id))
  {
    forall m | m in messages
      ensures ListOf(Link(messages, children, id), m) == Kids(ids + [id], messages, m)
    {
      LinkOne(messages, ids, children, id, m);
    }
  }

  lemma NextIsNew(ids: seq<string>, done: seq<string>, i: nat)
    requires Distinct(ids) && i < |ids| && done == ids[..i]
    ensures Distinct(done) && ids[i] !in done && ids[i] in ids && done + [ids[i]] == ids[..i + 1]
  {
  }

  /** The second loop. */
  method LinkChildren(ids: seq<string>, messages: Messages) returns (children: Children)
    requires Distinct(ids) && forall m :: m in ids <==> m in messages
    ensures Linked(messages, ids, children)
  {
    children := map[];
    ghost var done: seq<string> := [];
    for i := 0 to |ids|
      invariant done == ids[..i] && Linked(messages, done, children)
    {
      NextIsNew(ids, done, i);
      LinkKeepsLinked(messages, done, children, ids[i]);
      children, done := Link(messages, children, ids[i]), done + [ids[i]];
    }
    assert ids[..|ids|] == ids;
  }

  type Tree = map<string, Node>

  /** Without duplicates, exactly the messages whose parent it is. */
  ghost predicate ListsChildren(tree: Tree, m: string)
    requires m in tree
  {
    && Distinct(tree[m].childrenIds)
    && forall k :: k in tree[m].childrenIds <==> k in tree && tree[k].message.parentId == m && m != ""
  }

  /** What the rebuilt tree promises: the chat's messages with their rows' fields, and in childrenIds exactly
      the inverse of parentId. */
  ghost predicate IsTree(rows: Rows, chat: string, tree: Tree) {
    && (forall m :: m in tree <==> Has(rows, chat, m))
    && (forall m :: m in tree ==> Has(rows, chat, m) && tree[m].message == FromRow(m, rows[Key(chat, m)]))
    && (forall m :: m in tree ==> ListsChildren(tree, m))
  }

  /** The last loop: every message has a list, a leaf an empty one. */
  function WithLists(messages: Messages, children: Children): Tree {
    map m | m in messages :: Node(messages[m], ListOf(children, m))
  }

  lemma WithListsListsChildren(ids: seq<string>, messages: Messages, children: Children, m: string)
    requires Linked(messages, ids, children) && Distinct(ids) && (forall k :: k in ids <==> k in messages) && m in messages
    ensures ListsChildren(WithLists(messages, children), m)
  {
    KidsExactly(ids, messages, m, m);
    forall k: string
      ensures k in Kids(ids, messages, m) <==> k in messages && messages[k].parentId == m && m != ""
    {
      KidsExactly(ids, messages, m, k);
    }
  }

  lemma WithListsIsTree(rows: Rows, chat: string, ids: seq<string>, messages: Messages, children: Children)
    requires Collected(rows, chat, ids, messages) && Linked(messages, ids, children)
    ensures IsTree(rows, chat, WithLists(messages, children))
  {
    forall m | m in messages
      ensures ListsChildren(WithLists(messages, children), m)
    {
      WithListsListsChildren(ids, messages, children, m);
    }
  }

  /** get_messages_map_by_chat_id */
  method GetMessagesMap(rows: Rows, chat: string) returns (r: Option<Tree>)
    requires Valid(rows)
    ensures r == None <==> forall m: string :: !Has(rows, chat, m)
    ensures r.Some? ==> IsTree(rows, chat, r.value)
  {
    var ids, messages := CollectMessages(rows, chat);
    if ids == [] {
      return None;
    }
    var children := LinkChildren(ids, messages);
    WithListsIsTree(rows, chat, ids, messages, children);
    assert ids[0] in ids;
    r := Some(WithLists(messages, children));
  }

  // ---------------------------------------------------------------- round trip

  datatype Stored = Stored(id: string, data: Data)

  /** A history stored message by message. */
  function StoreAll(rows: Rows, chat: string, history: seq<Stored>): Rows {
    if history == [] then rows
    else
      var last := history[|history| - 1];
      Upserted(StoreAll(rows, chat, history[..|history| - 1]), last.id, chat, last.data)
  }

  ghost predicate DistinctIds(history: seq<Stored>) {
    forall i, j :: 0 <= i < j < |history| ==> history[i].id != history[j].id
  }

  ghost predicate InHistory(history: seq<Stored>, m: string) {
    exists i :: 0 <= i < |history| && history[i].id == m
  }

  /** A key that no stored message has keeps its row. */
  lemma {:induction false} StoreAllElsewhere(rows: Rows, chat: string, history: seq<Stored>, key: string)
    requires forall i :: 0 <= i < |history| ==> key != Key(chat, history[i].id)
    ensures key in StoreAll(rows, chat, history) <==> key in rows
    ensures key in rows ==> StoreAll(rows, chat, history)[key] == rows[key]
  {
    if history != [] {
      StoreAllElsewhere(rows, chat, history[..|history| - 1], key);
    }
  }

  /** A stored message is inserted if its key was free, else the row there is updated. */
  lemma {:induction false} StoreAllAt(rows: Rows, chat: string, history: seq<Stored>, i: nat)
    requires DistinctIds(history) && i < |history|
    ensures var key := Key(chat, history[i].id);
      && key in StoreAll(rows, chat, history)
      && (if key in rows then StoresUpdate(rows[key], StoreAll(rows, chat, history)[key], history[i].data)
          else StoresNew(StoreAll(rows, chat, history)[key], chat, history[i].data))
  {
    var init, last := history[..|history| - 1], history[|history| - 1];
    var key := Key(chat, history[i].id);
    UpsertedExactly(StoreAll(rows, chat, init), last.id, chat, last.data);
    if i == |history| - 1 {
      forall j | 0 <= j < |init|
        ensures key != Key(chat, init[j].id)
      {
        KeyInjective(chat, init[j].id, last.id);
      }
      StoreAllElsewhere(rows, chat, init, key);
    } else {
      StoreAllAt(rows, chat, init, i);
      KeyInjective(chat, history[i].id, last.id);
    }
  }

  /** The message as it was stored; the role is user and the content empty where the data has none. */
  ghost predicate SameMessage(message: Message, id: string, data: Data) {
    && message.id == id
    && (if data.role.Some? then message.role == data.role.value else message.role == "user")
    && (if data.content.Some? then message.content == data.content.value else message.content == "")
    && message.model == data.model && message.usage == data.usage
    && message.parentId == ParentOf(data)
  }

  lemma NewIsSame(m: string, row: Row, chat: string, data: Data)
    requires StoresNew(row, chat, data)
    ensures SameMessage(FromRow(m, row), m, data)
  {
  }

  /** The rows of the chat are exactly the messages of the history. */
  ghost predicate Returns(history: seq<Stored>, rows: Rows, chat: string) {
    && (forall m: string :: Has(rows, chat, m) <==> InHistory(history, m))
    && (forall i :: 0 <= i < |history| ==> Has(rows, chat, history[i].id))
    && (forall i :: 0 <= i < |history| ==> SameMessage(FromRow(history[i].id, rows[Key(chat, history[i].id)]), history[i].id, history[i].data))
  }

  /** A key of this history is taken by another chat's row. */
  ghost predicate Collides(rows: Rows, chat: string, history: seq<Stored>) {
    exists i :: 0 <= i < |history| && Key(chat, history[i].id) in rows
  }

  ghost predicate Fresh(rows: Rows, chat: string) {
    forall key :: key in rows ==> rows[key].chat != chat
  }

  /** A history stored in a new chat comes back exactly when none of its keys is taken by another chat. */
  lemma HistoryReturnsExactly(rows: Rows, chat: string, history: seq<Stored>)
    requires Fresh(rows, chat) && DistinctIds(history)
    ensures Returns(history, StoreAll(rows, chat, history), chat) <==> !Collides(rows, chat, history)
  {
    var after := StoreAll(rows, chat, history);
    forall i | 0 <= i < |history|
      ensures Has(after, chat, history[i].id) <==> Key(chat, history[i].id) !in rows
      ensures Key(chat, history[i].id) !in rows ==> SameMessage(FromRow(history[i].id, after[Key(chat, history[i].id)]), history[i].id, history[i].data)
    {
      var key := Key(chat, history[i].id);
      StoreAllAt(rows, chat, history, i);
      if key !in rows { NewIsSame(history[i].id, after[key], chat, history[i].data); }
    }
    forall m: string | !InHistory(history, m)
      ensures !Has(after, chat, m)
    {
      forall i | 0 <= i < |history|
        ensures Key(chat, m) != Key(chat, history[i].id)
      {
        KeyInjective(chat, m, history[i].id);
      }
      StoreAllElsewhere(rows, chat, history, Key(chat, m));
    }
  }

  /** Chat ids of one length, such as the uuids that are drawn, never share a key; so a history stored in a new
      chat then always comes back. */
  lemma EqualLengthsReturn(rows: Rows, chat: string, history: seq<Stored>)
    requires Valid(rows) && Fresh(rows, chat) && DistinctIds(history)
    requires forall key :: key in rows ==> |rows[key].chat| == |chat|
    ensures Returns(history, StoreAll(rows, chat, history), chat)
  {
    HistoryReturnsExactly(rows, chat, history);
    forall i, key | 0 <= i < |history| && key in rows
      ensures key != Key(chat, history[i].id)
    {
      var m: string :| key == Key(rows[key].chat, m);
      EqualLengthKeys(chat, history[i].id, rows[key].chat, m);
    }
  }

  /** Dashes in ids make two chats share a key: the second chat's message is lost. */
  lemma DashesCollide()
    ensures Key("a", "b-c") == Key("a-b", "c")
    ensures exists rows: Rows, data: Data ::
      Valid(rows) && Fresh(rows, "a-b") && !Has(Upserted(rows, "c", "a-b", data), "a-b", "c")
  {
    var data := Data(None, None, "", None, None, map[]);
    var rows := Upserted(map[], "b-c", "a", data);
    UpsertKeepsValid(map[], "b-c", "a", data);
    assert Key("a", "b-c") == "a-b-c" == Key("a-b", "c");
    assert Valid(rows) && Fresh(rows, "a-b") && !Has(Upserted(rows, "c", "a-b", data), "a-b", "c");
  }

  /** The children that a history implies: a consistent history gets its child sets back. */
  lemma ChildrenReturn(history: seq<Stored>, rows: Rows, chat: string, tree: Tree, m: string, k: string)
    requires Returns(history, rows, chat) && IsTree(rows, chat, tree) && m in tree
    ensures k in tree[m].childrenIds <==>
      exists i :: 0 <= i < |history| && history[i].id == k && ParentOf(history[i].data) == m && m != ""
  {
  }

  /** The tree of a history: its messages as they were stored, and the children that their parents imply. */
  ghost predicate Mirrors(history: seq<Stored>, tree: Tree) {
    && (forall m: string :: m in tree <==> InHistory(history, m))
    && (forall i :: 0 <= i < |history| ==> history[i].id in tree)
    && (forall i :: 0 <= i < |history| ==> SameMessage(tree[history[i].id].message, history[i].id, history[i].data))
    && (forall m :: m in tree ==> ListsChildren(tree, m))
  }

  lemma ReturnedIsMirrored(history: seq<Stored>, rows: Rows, chat: string, tree: Tree)
    requires IsTree(rows, chat, tree)
    ensures Returns(history, rows, chat) <==> Mirrors(history, tree)
  {
    forall i | 0 <= i < |history|
      ensures Has(rows, chat, history[i].id) ==>
        tree[history[i].id].message == FromRow(history[i].id, rows[Key(chat, history[i].id)])
    {
    }
  }

  /** Storing a history message by message in a new chat and reading the chat back: it comes back, with the
      children that its parents imply, exactly if no key is taken. */
  method StoreAndRead(table: ChatMessageTable, chat: string, history: seq<Stored>) returns (r: Option<Tree>)
    requires Valid(table.rows) && Fresh(table.rows, chat) && DistinctIds(history)
    modifies table
    ensures Valid(table.rows) && table.rows == StoreAll(old(table.rows), chat, history)
    ensures history == [] ==> r == None
    ensures history != [] ==> (r.Some? && Mirrors(history, r.value) <==> !Collides(old(table.rows), chat, history))
  {
    ghost var before := table.rows;
    for i := 0 to |history|
      invariant Valid(table.rows) && table.rows == StoreAll(before, chat, history[..i])
    {
      assert history[..i + 1][..i] == history[..i];
      table.UpsertMessage(history[i].id, chat, history[i].data);
    }
    assert history[..|history|] == history;
    HistoryReturnsExactly(before, chat, history);
    r := GetMessagesMap(table.rows, chat);
    if r.Some? {
      ReturnedIsMirrored(history, table.rows, chat, r.value);
    }
    assert history != [] ==> InHistory(history, history[0].id);
  }
}
