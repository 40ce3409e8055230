/** The memory-vault tool (`Tools` in `memory.py`): recall, add, delete and
    update a user's memories, addressed by their 1-based position in the
    list sorted by creation time. The memory database is the `Store` class;
    whether each database call succeeds is an oracle parameter. */
module MemoryVault {
  import opened Wrappers
  import opened Text

  /** One stored memory. `id` is unique in the store. */
  datatype Row = Row(id: nat, userId: string, content: string, createdAt: int)

  /** What a tool call answers. `Message(m)` stands for the JSON text
      `{"message": m}`; `Listing(lines)` for the text
      `Memories from the users memory vault: ` followed by the Python list
      of `lines`. */
  datatype Reply = Message(text: string) | Listing(lines: seq<string>)

  const NoUser: string := "User ID not provided."

  /** The user id the tool acts for: `__user__` must be a non-empty dict
      whose `id` is present and non-empty. */
  function UserIdOf(user: Option<map<string, string>>): (r: Option<string>)
    ensures r.Some? <==> user.Some? && "id" in user.value && user.value["id"] != ""
    ensures r.Some? ==> r.value == user.value["id"]
  {
    if user.None? || user.value == map[] then None
    else if "id" !in user.value || user.value["id"] == "" then None
    else Some(user.value["id"])
  }

  // ---------------------------------------------------------------------
  // The store

  /** The rows of one user, in store order. */
  function UserRows(rows: seq<Row>, uid: string): (r: seq<Row>)
    ensures forall x :: x in r <==> x in rows && x.userId == uid
    ensures |r| <= |rows|
  {
    if |rows| == 0 then []
    else
      var last := rows[|rows| - 1];
      UserRows(rows[..|rows| - 1], uid) + (if last.userId == uid then [last] else [])
  }

  /** `rows` without the rows whose id is in `ids`. */
  function RemoveIds(rows: seq<Row>, ids: set<nat>): (r: seq<Row>)
    ensures forall x :: x in r <==> x in rows && x.id !in ids
    ensures |r| <= |rows|
  {
    if |rows| == 0 then []
    else
      var last := rows[|rows| - 1];
      RemoveIds(rows[..|rows| - 1], ids) + (if last.id in ids then [] else [last])
  }

  /** `rows` with the content of the row `id` replaced. */
  function Replaced(rows: seq<Row>, id: nat, content: string): (r: seq<Row>)
    ensures |r| == |rows|
    ensures forall i :: 0 <= i < |rows| ==>
      r[i] == if rows[i].id == id then rows[i].(content := content) else rows[i]
  {
    seq(|rows|, i requires 0 <= i < |rows| => if rows[i].id == id then rows[i].(content := content) else rows[i])
  }

  /** The memory table of Open WebUI, reduced to what the tool touches. */
  class Store {
    var rows: seq<Row>
    var nextId: nat

    ghost predicate Valid()
      reads this
    {
      (forall x :: x in rows ==> x.id < nextId) && DistinctIds(rows)
    }

    constructor ()
      ensures Valid() && rows == [] && nextId == 0
    {
      rows := [];
      nextId := 0;
    }

    /** `Memories.insert_new_memory(user_id, content)`: a new row with a new
        id, stamped `now`; `ok` is whether the database accepted it. */
    method Insert(userId: string, content: string, now: int, ok: bool) returns (r: Option<Row>)
      requires Valid()
      modifies this
      ensures Valid()
      ensures ok ==> r == Some(Row(old(nextId), userId, content, now)) &&
                     rows == old(rows) + [r.value] && nextId == old(nextId) + 1
      ensures !ok ==> r.None? && rows == old(rows) && nextId == old(nextId)
    {
      if !ok {
        return None;
      }
      var row := Row(nextId, userId, content, now);
      rows := rows + [row];
      nextId := nextId + 1;
      r := Some(row);
    }

    /** `Memories.delete_memory_by_id(id)` */
    method DeleteById(id: nat, ok: bool) returns (r: bool)
      requires Valid()
      modifies this
      ensures Valid() && r == ok && nextId == old(nextId)
      ensures rows == if ok then RemoveIds(old(rows), {id}) else old(rows)
    {
      if ok {
        RemoveDistinct(rows, {id});
        rows := RemoveIds(rows, {id});
      }
      r := ok;
    }

    /** `Memories.update_memory_by_id(id, content)` */
    method UpdateById(id: nat, content: string, ok: bool) returns (r: bool)
      requires Valid()
      modifies this
      ensures Valid() && r == ok && nextId == old(nextId)
      ensures rows == if ok then Replaced(old(rows), id, content) else old(rows)
    {
      if ok {
        rows := Replaced(rows, id, content);
      }
      r := ok;
    }
  }

  predicate DistinctIds(rows: seq<Row>)
  {
    forall i, j :: 0 <= i < j < |rows| ==> rows[i].id != rows[j].id
  }

  /** Removing rows keeps the remaining ids distinct. */
  lemma {:induction false} RemoveDistinct(rows: seq<Row>, ids: set<nat>)
    requires DistinctIds(rows)
    ensures DistinctIds(RemoveIds(rows, ids))
    decreases |rows|
  {
    if |rows| > 0 {
      var init, last := rows[..|rows| - 1], rows[|rows| - 1];
      RemoveDistinct(init, ids);
      var ri := RemoveIds(init, ids);
      if last.id !in ids {
        forall i | 0 <= i < |ri| ensures ri[i].id != last.id {
          assert ri[i] in init;
          var a :| 0 <= a < |init| && init[a] == ri[i];
          assert rows[a] == ri[i];
        }
      }
    }
  }

  // ---------------------------------------------------------------------
  // Recall: the stable sort by `created_at` and the numbering

  predicate Sorted(s: seq<Row>)
  {
    forall i, j :: 0 <= i < j < |s| ==> s[i].createdAt <= s[j].createdAt
  }

  /** The rows of `s` created at time `t`, in their order in `s`. */
  function AtTime(s: seq<Row>, t: int): seq<Row>
  {
    if |s| == 0 then []
    else AtTime(s[..|s| - 1], t) + (if s[|s| - 1].createdAt == t then [s[|s| - 1]] else [])
  }

  /** Insert `x` into `s` after the rows at its end created later than
      it: into sorted `s`, after every row created no later than `x`. */
  function InsertRow(x: Row, s: seq<Row>): (r: seq<Row>)
    ensures multiset(r) == multiset(s) + multiset{x} && |r| == |s| + 1
    decreases |s|
  {
    if |s| == 0 then [x]
    else if s[|s| - 1].createdAt <= x.createdAt then s + [x]
    else
      var init, last := s[..|s| - 1], s[|s| - 1];
      assert s == init + [last];
      InsertRow(x, init) + [last]
  }

  lemma {:induction false} InsertSorted(x: Row, s: seq<Row>)
    requires Sorted(s)
    ensures Sorted(InsertRow(x, s))
    decreases |s|
  {
    if |s| > 0 && s[|s| - 1].createdAt > x.createdAt {
      var init, last := s[..|s| - 1], s[|s| - 1];
      assert forall y :: y in init ==> y.createdAt <= last.createdAt;
      InsertSorted(x, init);
      var head := InsertRow(x, init);
      BelowLast(head, init, x, last);
      SortedSnoc(head, last);
    }
  }

  lemma BelowLast(head: seq<Row>, init: seq<Row>, x: Row, last: Row)
    requires multiset(head) == multiset(init) + multiset{x}
    requires forall y :: y in init ==> y.createdAt <= last.createdAt
    requires x.createdAt < last.createdAt
    ensures forall y :: y in head ==> y.createdAt <= last.createdAt
  {
    forall y | y in head ensures y.createdAt <= last.createdAt {
      assert y in multiset(head);
      if y != x {
        assert y in init;
      }
    }
  }

  lemma SortedSnoc(head: seq<Row>, last: Row)
    requires Sorted(head)
    requires forall y :: y in head ==> y.createdAt <= last.createdAt
    ensures Sorted(head + [last])
  {
    var r := head + [last];
    forall i, j | 0 <= i < j < |r| ensures r[i].createdAt <= r[j].createdAt {
      if j == |r| - 1 {
        assert r[i] in head;
      } else {
        assert r[i] == head[i] && r[j] == head[j];
      }
    }
  }

  /** Inserting `x` appends it to the rows created at its time, and leaves
      the rows created at every other time as they were. */
  lemma {:induction false} InsertStable(x: Row, s: seq<Row>, t: int)
    ensures AtTime(InsertRow(x, s), t) == AtTime(s, t) + (if x.createdAt == t then [x] else [])
    decreases |s|
  {
    if |s| == 0 {
      AtTimeSnoc([], x, t);
    } else if s[|s| - 1].createdAt <= x.createdAt {
      AtTimeSnoc(s, x, t);
    } else {
      var init, last := s[..|s| - 1], s[|s| - 1];
      assert s == init + [last];
      InsertStable(x, init, t);
      StableStep(InsertRow(x, init), init, x, last, t);
    }
  }

  /** A row created later than `x` goes behind it without disturbing the
      rows of any one time. */
  lemma StableStep(head: seq<Row>, init: seq<Row>, x: Row, last: Row, t: int)
    requires last.createdAt > x.createdAt
    requires AtTime(head, t) == AtTime(init, t) + (if x.createdAt == t then [x] else [])
    ensures AtTime(head + [last], t) == AtTime(init + [last], t) + (if x.createdAt == t then [x] else [])
  {
    AtTimeSnoc(head, last, t);
    AtTimeSnoc(init, last, t);
  }

  lemma AtTimeSnoc(a: seq<Row>, y: Row, t: int)
    ensures AtTime(a + [y], t) == AtTime(a, t) + (if y.createdAt == t then [y] else [])
  {
    assert (a + [y])[..|a|] == a;
  }

  /** `sorted(user_memories, key=lambda m: m.created_at)`: ordered by
      creation time, a permutation of its input, and stable: rows created
      at the same time keep their store order. */
  function SortByCreated(s: seq<Row>): (r: seq<Row>)
    ensures Sorted(r)
    ensures multiset(r) == multiset(s) && |r| == |s|
    ensures forall t :: AtTime(r, t) == AtTime(s, t)
    decreases |s|
  {
    if |s| == 0 then []
    else
      var init, x := s[..|s| - 1], s[|s| - 1];
      assert s == init + [x];
      var sorted := SortByCreated(init);
      InsertSorted(x, sorted);
      InsertKeepsTimes(x, sorted, init);
      InsertRow(x, sorted)
  }

  /** Inserting the next row into a stable sort of the rows before it
      gives a stable sort of them all. */
  lemma InsertKeepsTimes(x: Row, sorted: seq<Row>, init: seq<Row>)
    requires forall t :: AtTime(sorted, t) == AtTime(init, t)
    ensures forall t :: AtTime(InsertRow(x, sorted), t) == AtTime(init + [x], t)
  {
    forall t ensures AtTime(InsertRow(x, sorted), t) == AtTime(init + [x], t) {
      InsertStable(x, sorted, t);
      AtTimeSnoc(init, x, t);
    }
  }

  /** `f"{index}. {memory.content}"` for `index` from 1. */
  function Numbered(ms: seq<Row>): (lines: seq<string>)
    ensures |lines| == |ms|
  {
    seq(|ms|, i requires 0 <= i < |ms| => IntToString(i + 1) + ". " + ms[i].content)
  }

  /** The snapshot every index refers to. */
  function Snapshot(rows: seq<Row>, uid: string): (snap: seq<Row>)
    ensures Sorted(snap)
    ensures multiset(snap) == multiset(UserRows(rows, uid))
  {
    SortByCreated(UserRows(rows, uid))
  }

  /** `recall_memories`: the user's memories by creation time, numbered
      from 1; the store is only read. */
  method Recall(store: Store, user: Option<map<string, string>>) returns (reply: Reply)
    ensures UserIdOf(user).None? ==> reply == Message(NoUser)
    ensures UserIdOf(user).Some? && UserRows(store.rows, UserIdOf(user).value) == [] ==>
      reply == Message("No memory stored.")
    ensures UserIdOf(user).Some? && UserRows(store.rows, UserIdOf(user).value) != [] ==>
      var snap := Snapshot(store.rows, UserIdOf(user).value);
      reply.Listing? && |reply.lines| == |snap| &&
      forall i :: 0 <= i < |snap| ==> reply.lines[i] == IntToString(i + 1) + ". " + snap[i].content
  {
    var uid := UserIdOf(user);
    if uid.None? {
      return Message(NoUser);
    }
    var mine := UserRows(store.rows, uid.value);
    if mine == [] {
      return Message("No memory stored.");
    }
    reply := Listing(Numbered(SortByCreated(mine)));
  }

  // ---------------------------------------------------------------------
  // Add

  /** A single string stands for a one-element list. */
  datatype Input = One(text: string) | Many(texts: seq<string>)

  function Items(input: Input): seq<string>
  {
    match input
    case One(t) => [t]
    case Many(ts) => ts
  }

  /** The items of `s` whose insert succeeded (`added`) or failed (`failed`);
      the `k`-th item's insert succeeds when `ok(k)`. */
  function Added(s: seq<string>, ok: nat -> bool): seq<string>
  {
    if |s| == 0 then [] else Added(s[..|s| - 1], ok) + (if ok(|s| - 1) then [s[|s| - 1]] else [])
  }

  function Failed(s: seq<string>, ok: nat -> bool): seq<string>
  {
    if |s| == 0 then [] else Failed(s[..|s| - 1], ok) + (if ok(|s| - 1) then [] else [s[|s| - 1]])
  }

  /** Every item lands in exactly one of the two lists. */
  lemma {:induction false} Partition(s: seq<string>, ok: nat -> bool)
    ensures |Added(s, ok)| + |Failed(s, ok)| == |s|
    ensures multiset(Added(s, ok)) + multiset(Failed(s, ok)) == multiset(s)
    decreases |s|
  {
    if |s| > 0 {
      var init, x := s[..|s| - 1], s[|s| - 1];
      Partition(init, ok);
      var a, f := Added(init, ok), Failed(init, ok);
      assert Added(s, ok) == a + (if ok(|s| - 1) then [x] else []);
      assert Failed(s, ok) == f + (if ok(|s| - 1) then [] else [x]);
      SnocSplit(a, f, init, x, s, ok(|s| - 1));
    }
  }

  /** One more item, appended to one of the two lists, keeps the lists a
      split of the items. */
  lemma SnocSplit(a: seq<string>, f: seq<string>, init: seq<string>, x: string, s: seq<string>, toAdded: bool)
    requires |a| + |f| == |init| && multiset(a) + multiset(f) == multiset(init)
    requires |s| > 0 && init == s[..|s| - 1] && x == s[|s| - 1]
    ensures var a', f' := a + (if toAdded then [x] else []), f + (if toAdded then [] else [x]);
      |a'| + |f'| == |s| && multiset(a') + multiset(f') == multiset(s)
  {
    assert s == init + [x];
    assert multiset(s) == multiset(init) + multiset{x};
    if toAdded {
      assert multiset(a + [x]) == multiset(a) + multiset{x};
    } else {
      assert multiset(f + [x]) == multiset(f) + multiset{x};
    }
  }

  /** The rows the inserts of one call create, ids counted from `first`. */
  function NewRows(uid: string, s: seq<string>, ok: nat -> bool, now: int, first: nat): (r: seq<Row>)
    ensures |r| == |Added(s, ok)|
    ensures forall i :: 0 <= i < |r| ==> r[i] == Row(first + i, uid, Added(s, ok)[i], now)
  {
    var a := Added(s, ok);
    seq(|a|, i requires 0 <= i < |a| => Row(first + i, uid, a[i], now))
  }

  /** The message `add_memory` reports for its counts. */
  function AddMessage(added: nat, failed: nat): (m: string)
    ensures m == "Failed to add any memories." <==> added == 0
    ensures added > 0 && failed == 0 ==> m == "Successfully added " + IntToString(added) + " memories."
    ensures added > 0 && failed > 0 ==>
      m == "Added " + IntToString(added) + " memories, failed to add " + IntToString(failed) + " memories."
  {
    if added == 0 then "Failed to add any memories."
    else if failed > 0 then
      "Added " + IntToString(added) + " memories, failed to add " + IntToString(failed) + " memories."
    else "Successfully added " + IntToString(added) + " memories."
  }

  /** `add_memory`: inserts every item in order, stamped `now`; the reply
      counts the successes and failures. */
  method Add(store: Store, user: Option<map<string, string>>, input: Input, ok: nat -> bool, now: int)
    returns (reply: Reply)
    requires store.Valid()
    modifies store
    ensures store.Valid()
    ensures UserIdOf(user).None? ==> reply == Message(NoUser) && store.rows == old(store.rows)
    ensures UserIdOf(user).Some? ==>
      var s := Items(input);
      reply == Message(AddMessage(|Added(s, ok)|, |Failed(s, ok)|)) &&
      store.rows == old(store.rows) + NewRows(UserIdOf(user).value, s, ok, now, old(store.nextId))
  {
    var uid := UserIdOf(user);
    if uid.None? {
      return Message(NoUser);
    }
    var s := Items(input);
    var first := store.nextId;
    ghost var base := store.rows;
    var added: seq<string> := [];
    var failed: seq<string> := [];
    var i := 0;
    while i < |s|
      invariant 0 <= i <= |s| && store.Valid()
      invariant added == Added(s[..i], ok) && failed == Failed(s[..i], ok)
      invariant store.nextId == first + |added|
      invariant store.rows == base + NewRows(uid.value, s[..i], ok, now, first)
    {
      AddStep(uid.value, s, i, ok, now, first);
      var row := AddOne(store, uid.value, s, i, ok, now, base, first);
      if row.Some? {
        added := added + [s[i]];
      } else {
        failed := failed + [s[i]];
      }
      i := i + 1;
    }
    AddWhole(uid.value, s, ok, now, first);
    reply := Message(AddMessage(|added|, |failed|));
  }

  lemma AddWhole(uid: string, s: seq<string>, ok: nat -> bool, now: int, first: nat)
    ensures Added(s[..|s|], ok) == Added(s, ok) && Failed(s[..|s|], ok) == Failed(s, ok)
    ensures NewRows(uid, s[..|s|], ok, now, first) == NewRows(uid, s, ok, now, first)
  {
    assert s[..|s|] == s;
  }

  /** One turn of that loop: insert item `i`, which extends the new rows
      by that item's row exactly when the database accepts it. */
  method AddOne(store: Store, uid: string, s: seq<string>, i: nat, ok: nat -> bool, now: int,
                ghost base: seq<Row>, first: nat)
    returns (row: Option<Row>)
    requires store.Valid() && i < |s|
    requires store.nextId == first + |Added(s[..i], ok)|
    requires store.rows == base + NewRows(uid, s[..i], ok, now, first)
    modifies store
    ensures store.Valid() && row.Some? == ok(i)
    ensures store.nextId == first + |Added(s[..i + 1], ok)|
    ensures store.rows == base + NewRows(uid, s[..i + 1], ok, now, first)
  {
    AddStep(uid, s, i, ok, now, first);
    ghost var before := store.rows;
    row := store.Insert(uid, s[i], now, ok(i));
    if ok(i) {
      assert store.rows == before + [Row(first + |Added(s[..i], ok)|, uid, s[i], now)];
    }
  }

  /** One more item: the lists and the new rows grow by that item alone. */
  lemma AddStep(uid: string, s: seq<string>, i: nat, ok: nat -> bool, now: int, first: nat)
    requires i < |s|
    ensures Added(s[..i + 1], ok) == Added(s[..i], ok) + (if ok(i) then [s[i]] else [])
    ensures Failed(s[..i + 1], ok) == Failed(s[..i], ok) + (if ok(i) then [] else [s[i]])
    ensures NewRows(uid, s[..i + 1], ok, now, first) ==
      NewRows(uid, s[..i], ok, now, first) + (if ok(i) then [Row(first + |Added(s[..i], ok)|, uid, s[i], now)] else [])
  {
    assert s[..i + 1][..i] == s[..i];
  }

  /** The three messages of `add_memory` are told apart by the counts. */
  lemma AddMessages(s: seq<string>, ok: nat -> bool)
    ensures (forall k :: 0 <= k < |s| ==> !ok(k)) ==> AddMessage(|Added(s, ok)|, |Failed(s, ok)|) == "Failed to add any memories."
    ensures |s| > 0 && (forall k :: 0 <= k < |s| ==> ok(k)) ==>
      AddMessage(|Added(s, ok)|, |Failed(s, ok)|) == "Successfully added " + IntToString(|s|) + " memories."
  {
    var added, failed := |Added(s, ok)|, |Failed(s, ok)|;
    if |s| > 0 && forall k :: 0 <= k < |s| ==> ok(k) {
      AllOrNone(s, ok);
      Partition(s, ok);
      assert failed == 0 && added == |s|;
      assert ok(0);
    } else if forall k :: 0 <= k < |s| ==> !ok(k) {
      AllOrNone(s, ok);
      assert added == 0;
    }
  }

  lemma {:induction false} AllOrNone(s: seq<string>, ok: nat -> bool)
    ensures (forall k :: 0 <= k < |s| ==> !ok(k)) ==> Added(s, ok) == []
    ensures (forall k :: 0 <= k < |s| ==> ok(k)) ==> Failed(s, ok) == []
    decreases |s|
  {
    if |s| > 0 {
      AllOrNone(s[..|s| - 1], ok);
    }
  }

  // ---------------------------------------------------------------------
  // Delete and update over the snapshot

  /** An index names a memory of a snapshot of `count` memories. */
  predicate ValidIndex(index: int, count: nat)
  {
    1 <= index <= count
  }

  function Missing(index: int): string
  {
    "Memory index " + IntToString(index) + " does not exist."
  }

  /** The response line of one requested deletion. */
  function DeleteLine(index: int, count: nat, ok: bool): string
  {
    if !ValidIndex(index, count) then Missing(index)
    else if ok then "Memory at index " + IntToString(index) + " deleted successfully."
    else "Failed to delete memory at index " + IntToString(index) + "."
  }

  function DeleteLines(indices: seq<int>, count: nat, ok: nat -> bool): (lines: seq<string>)
    ensures |lines| == |indices|
    ensures forall k :: 0 <= k < |indices| ==> lines[k] == DeleteLine(indices[k], count, ok(k))
  {
    seq(|indices|, k requires 0 <= k < |indices| => DeleteLine(indices[k], count, ok(k)))
  }

  /** The ids the deletions remove: the snapshot rows at the valid
      requested positions whose database call succeeded. */
  function DeletedIds(snap: seq<Row>, indices: seq<int>, ok: nat -> bool): set<nat>
  {
    set k | 0 <= k < |indices| && ValidIndex(indices[k], |snap|) && ok(k) :: snap[indices[k] - 1].id
  }

  lemma RemoveTwice(rows: seq<Row>, a: set<nat>, b: set<nat>)
    ensures RemoveIds(RemoveIds(rows, a), b) == RemoveIds(rows, a + b)
    decreases |rows|
  {
    if |rows| > 0 {
      var init := rows[..|rows| - 1];
      RemoveTwice(init, a, b);
      var once := RemoveIds(rows, a);
      if rows[|rows| - 1].id !in a {
        assert once[..|once| - 1] == RemoveIds(init, a);
      } else {
        assert once == RemoveIds(init, a);
      }
    }
  }

  /** `delete_memory`: every index refers to the snapshot sorted before
      the loop; one response line per requested index, in request order. */
  method Delete(store: Store, user: Option<map<string, string>>, indices: seq<int>, ok: nat -> bool)
    returns (reply: Reply)
    requires store.Valid()
    modifies store
    ensures store.Valid()
    ensures UserIdOf(user).None? ==> reply == Message(NoUser) && store.rows == old(store.rows)
    ensures UserIdOf(user).Some? && UserRows(old(store.rows), UserIdOf(user).value) == [] ==>
      reply == Message("No memories found to delete.") && store.rows == old(store.rows)
    ensures UserIdOf(user).Some? && UserRows(old(store.rows), UserIdOf(user).value) != [] ==>
      var snap := Snapshot(old(store.rows), UserIdOf(user).value);
      reply == Message(Join(DeleteLines(indices, |snap|, ok), "\n")) &&
      store.rows == RemoveIds(old(store.rows), DeletedIds(snap, indices, ok))
  {
    var uid := UserIdOf(user);
    if uid.None? {
      return Message(NoUser);
    }
    var mine := UserRows(store.rows, uid.value);
    if mine == [] {
      return Message("No memories found to delete.");
    }
    var snap := SortByCreated(mine);
    var responses := DeleteEach(store, snap, indices, ok);
    reply := Message(Join(responses, "\n"));
  }

  /** The `for index in indices` loop of `delete_memory`, over the
      snapshot `snap`. */
  method DeleteEach(store: Store, snap: seq<Row>, indices: seq<int>, ok: nat -> bool)
    returns (responses: seq<string>)
    requires store.Valid()
    modifies store
    ensures store.Valid()
    ensures responses == DeleteLines(indices, |snap|, ok)
    ensures store.rows == RemoveIds(old(store.rows), DeletedIds(snap, indices, ok))
  {
    responses := [];
    var i := 0;
    ghost var gone: set<nat> := {};
    DeleteEnds(snap, indices, ok);
    RemoveNothing(store.rows);
    while i < |indices|
      invariant 0 <= i <= |indices| && store.Valid()
      invariant responses == DeleteLines(indices[..i], |snap|, ok)
      invariant gone == DeletedIds(snap, indices[..i], ok)
      invariant store.rows == RemoveIds(old(store.rows), gone)
    {
      DeleteStep(snap, indices, i, ok);
      ghost var removed := if ValidIndex(indices[i], |snap|) && ok(i) then {snap[indices[i] - 1].id} else {};
      var line := DeleteOne(store, snap, indices[i], ok(i));
      RemoveTwice(old(store.rows), gone, removed);
      gone := gone + removed;
      responses := responses + [line];
      i := i + 1;
    }
    DeleteEnds(snap, indices, ok);
  }

  /** The loop starts from no lines and no ids and ends at all of them. */
  lemma DeleteEnds(snap: seq<Row>, indices: seq<int>, ok: nat -> bool)
    ensures DeleteLines(indices[..0], |snap|, ok) == [] && DeletedIds(snap, indices[..0], ok) == {}
    ensures DeleteLines(indices[..|indices|], |snap|, ok) == DeleteLines(indices, |snap|, ok)
    ensures DeletedIds(snap, indices[..|indices|], ok) == DeletedIds(snap, indices, ok)
  {
    assert indices[..|indices|] == indices;
  }

  /** The body of that loop for one requested index. */
  method DeleteOne(store: Store, snap: seq<Row>, index: int, ok: bool) returns (line: string)
    requires store.Valid()
    modifies store
    ensures store.Valid()
    ensures line == DeleteLine(index, |snap|, ok)
    ensures store.rows ==
      RemoveIds(old(store.rows), if ValidIndex(index, |snap|) && ok then {snap[index - 1].id} else {})
  {
    RemoveNothing(store.rows);
    if !ValidIndex(index, |snap|) {
      return Missing(index);
    }
    var done := store.DeleteById(snap[index - 1].id, ok);
    if done {
      line := "Memory at index " + IntToString(index) + " deleted successfully.";
    } else {
      line := "Failed to delete memory at index " + IntToString(index) + ".";
    }
  }

  /** One more index: one more line, and at most one more id removed. */
  lemma DeleteStep(snap: seq<Row>, indices: seq<int>, i: nat, ok: nat -> bool)
    requires i < |indices|
    ensures DeleteLines(indices[..i + 1], |snap|, ok) ==
      DeleteLines(indices[..i], |snap|, ok) + [DeleteLine(indices[i], |snap|, ok(i))]
    ensures DeletedIds(snap, indices[..i + 1], ok) ==
      DeletedIds(snap, indices[..i], ok) +
      (if ValidIndex(indices[i], |snap|) && ok(i) then {snap[indices[i] - 1].id} else {})
  {
    DeleteLinesStep(|snap|, indices, i, ok);
    DeletedIdsStep(snap, indices, i, ok);
  }

  lemma DeleteLinesStep(count: nat, indices: seq<int>, i: nat, ok: nat -> bool)
    requires i < |indices|
    ensures DeleteLines(indices[..i + 1], count, ok) ==
      DeleteLines(indices[..i], count, ok) + [DeleteLine(indices[i], count, ok(i))]
  {
  }

  lemma DeletedIdsStep(snap: seq<Row>, indices: seq<int>, i: nat, ok: nat -> bool)
    requires i < |indices|
    ensures DeletedIds(snap, indices[..i + 1], ok) ==
      DeletedIds(snap, indices[..i], ok) +
      (if ValidIndex(indices[i], |snap|) && ok(i) then {snap[indices[i] - 1].id} else {})
  {
    var a, b := indices[..i], indices[..i + 1];
    assert b[..i] == a;
    var extra := if ValidIndex(indices[i], |snap|) && ok(i) then {snap[indices[i] - 1].id} else {};
    forall id | id in DeletedIds(snap, b, ok)
      ensures id in DeletedIds(snap, a, ok) + extra
    {
      var k :| 0 <= k < |b| && ValidIndex(b[k], |snap|) && ok(k) && id == snap[b[k] - 1].id;
      if k < i {
        assert a[k] == b[k];
      }
    }
    forall id | id in DeletedIds(snap, a, ok) + extra
      ensures id in DeletedIds(snap, b, ok)
    {
      if id in DeletedIds(snap, a, ok) {
        var k :| 0 <= k < |a| && ValidIndex(a[k], |snap|) && ok(k) && id == snap[a[k] - 1].id;
        assert b[k] == a[k];
      } else {
        assert b[i] == indices[i];
      }
    }
  }

  lemma {:induction false} RemoveNothing(rows: seq<Row>)
    ensures RemoveIds(rows, {}) == rows
    decreases |rows|
  {
    if |rows| > 0 {
      var init, last := rows[..|rows| - 1], rows[|rows| - 1];
      assert rows == init + [last];
      RemoveNothing(init);
    }
  }

  /** A row of the snapshot is a row of its user: any row of the store
      carrying its id belongs to that user. */
  lemma SnapshotOwn(rows: seq<Row>, uid: string, j: nat)
    requires DistinctIds(rows) && j < |Snapshot(rows, uid)|
    ensures forall i :: 0 <= i < |rows| && rows[i].id == Snapshot(rows, uid)[j].id ==> rows[i].userId == uid
  {
    var y := Snapshot(rows, uid)[j];
    assert y in multiset(Snapshot(rows, uid));
    assert y in UserRows(rows, uid);
    var a :| 0 <= a < |rows| && rows[a] == y;
  }

  /** Deleting through the snapshot of `uid` removes no row of another
      user. */
  lemma DeleteOnlyOwn(rows: seq<Row>, uid: string, indices: seq<int>, ok: nat -> bool)
    requires DistinctIds(rows)
    ensures forall x :: x in rows && x.userId != uid ==>
      x in RemoveIds(rows, DeletedIds(Snapshot(rows, uid), indices, ok))
  {
    var snap := Snapshot(rows, uid);
    forall x | x in rows && x.userId != uid
      ensures x.id !in DeletedIds(snap, indices, ok)
    {
      if x.id in DeletedIds(snap, indices, ok) {
        var k :| 0 <= k < |indices| && ValidIndex(indices[k], |snap|) && ok(k) && x.id == snap[indices[k] - 1].id;
        SnapshotOwn(rows, uid, indices[k] - 1);
        assert false;
      }
    }
  }

  /** Positions name rows of the snapshot taken before the loop: deleting
      positions 1 and 2 removes the first two memories, not the first and
      the third. */
  lemma DeleteFirstTwo(snap: seq<Row>, ok: nat -> bool)
    requires |snap| >= 2 && ok(0) && ok(1)
    ensures DeletedIds(snap, [1, 2], ok) == {snap[0].id, snap[1].id}
  {
    var d := DeletedIds(snap, [1, 2], ok);
    assert [1, 2][0] == 1 && [1, 2][1] == 2;
    assert snap[0].id in d && snap[1].id in d;
  }

  /** The text has no line break. */
  lemma NoNewline(n: int)
    ensures '\n' !in IntToString(n)
  {
  }

  /** The reply of `delete_memory` holds one line per requested index:
      splitting it at line breaks gives back the response lines. */
  lemma DeleteReplyLines(indices: seq<int>, count: nat, ok: nat -> bool)
    requires |indices| > 0
    ensures Split(Join(DeleteLines(indices, count, ok), "\n"), "\n") == DeleteLines(indices, count, ok)
  {
    var lines := DeleteLines(indices, count, ok);
    forall i | 0 <= i < |lines| ensures "\n"[0] !in lines[i] {
      DeleteLineUnbroken(indices[i], count, ok(i));
    }
    SplitJoin(lines, "\n");
  }

  lemma DeleteLineUnbroken(index: int, count: nat, ok: bool)
    ensures '\n' !in DeleteLine(index, count, ok)
  {
    NoNewline(index);
    if !ValidIndex(index, count) {
      Unbroken("Memory index ", IntToString(index), " does not exist.");
    } else if ok {
      Unbroken("Memory at index ", IntToString(index), " deleted successfully.");
    } else {
      Unbroken("Failed to delete memory at index ", IntToString(index), ".");
    }
  }

  lemma Unbroken(a: string, b: string, c: string)
    requires '\n' !in a && '\n' !in b && '\n' !in c
    ensures '\n' !in a + b + c
  {
  }

  /** One update request as the loop meets it: a parsed `(index,
      content)`, a dict that is not a valid `MemoryUpdate` (shown by its
      text), or a value of another Python type `typeName`; `hasIndex` says
      whether that type has an `index` attribute, as `str`, `list` and
      `tuple` do (their `index` method). */
  datatype UpdateItem = Parsed(index: int, content: string) | Malformed(shown: string)
                      | Foreign(typeName: string, hasIndex: bool)

  /** `updates`: a list of requests, or a single dict with keys `keys` that
      would parse to the request `asItem`. */
  datatype UpdateInput = List(items: seq<UpdateItem>) | Single(keys: seq<string>, asItem: UpdateItem)

  /** What `for update_item in updates` meets: the list's items, or the
      dict's keys, every one a `str`. */
  function Requests(input: UpdateInput): (items: seq<UpdateItem>)
  {
    match input
    case List(items) => items
    case Single(keys, _) => seq(|keys|, k requires 0 <= k < |keys| => Foreign("str", true))
  }

  /** `str(e)` of the AttributeError that `update_item.index`, or for a
      type with an `index` attribute `update_item.content`, raises. */
  function AttributeErrorText(item: UpdateItem): string
    requires item.Foreign?
  {
    "'" + item.typeName + "' object has no attribute '" + (if item.hasIndex then "content" else "index") + "'"
  }

  /** The position of the first request of another type, or `|items|`. */
  function FirstForeign(items: seq<UpdateItem>): (k: nat)
    ensures k <= |items|
    ensures k < |items| ==> items[k].Foreign?
    ensures forall j :: 0 <= j < k ==> !items[j].Foreign?
    decreases |items|
  {
    if |items| == 0 || items[0].Foreign? then 0 else 1 + FirstForeign(items[1..])
  }

  /** The response line of one requested update. */
  function UpdateLine(item: UpdateItem, count: nat, ok: bool): string
    requires !item.Foreign?
  {
    match item
    case Malformed(shown) => "Invalid update item format: " + shown
    case Parsed(index, _) =>
      if !ValidIndex(index, count) then Missing(index)
      else if ok then "Memory at index " + IntToString(index) + " updated successfully."
      else "Failed to update memory at index " + IntToString(index) + "."
  }

  function UpdateLines(items: seq<UpdateItem>, count: nat, ok: nat -> bool): (lines: seq<string>)
    requires forall k :: 0 <= k < |items| ==> !items[k].Foreign?
    ensures |lines| == |items|
    ensures forall k :: 0 <= k < |items| ==> lines[k] == UpdateLine(items[k], count, ok(k))
  {
    seq(|items|, k requires 0 <= k < |items| => UpdateLine(items[k], count, ok(k)))
  }

  /** The rows after the updates of `items`, applied in request order to
      the snapshot rows they name. */
  function Updated(rows: seq<Row>, snap: seq<Row>, items: seq<UpdateItem>, ok: nat -> bool): (r: seq<Row>)
    ensures |r| == |rows|
    ensures forall i :: 0 <= i < |rows| ==>
      r[i].id == rows[i].id && r[i].userId == rows[i].userId && r[i].createdAt == rows[i].createdAt
    decreases |items|
  {
    if |items| == 0 then rows
    else
      var k := |items| - 1;
      var prev := Updated(rows, snap, items[..k], ok);
      if items[k].Parsed? && ValidIndex(items[k].index, |snap|) && ok(k) then
        Replaced(prev, snap[items[k].index - 1].id, items[k].content)
      else prev
  }

  /** `update_memory`: every index refers to the snapshot sorted before the
      loop; one response line per requested update, in request order. A
      request of another type raises AttributeError, after the requests
      before it have been applied. */
  method Update(store: Store, user: Option<map<string, string>>, input: UpdateInput, ok: nat -> bool)
    returns (r: Result<Reply>)
    requires store.Valid()
    modifies store
    ensures store.Valid()
    ensures UserIdOf(user).None? ==> r == Success(Message(NoUser)) && store.rows == old(store.rows)
    ensures UserIdOf(user).Some? && UserRows(old(store.rows), UserIdOf(user).value) == [] ==>
      r == Success(Message("No memories found to update.")) && store.rows == old(store.rows)
    ensures UserIdOf(user).Some? && UserRows(old(store.rows), UserIdOf(user).value) != [] ==>
      var snap := Snapshot(old(store.rows), UserIdOf(user).value);
      var items := Requests(input);
      var k := FirstForeign(items);
      store.rows == Updated(old(store.rows), snap, items[..k], ok) &&
      r == if k == |items| then Success(Message(Join(UpdateLines(items, |snap|, ok), "\n")))
           else Failure(AttributeErrorText(items[k]))
  {
    var uid := UserIdOf(user);
    if uid.None? {
      return Success(Message(NoUser));
    }
    var mine := UserRows(store.rows, uid.value);
    if mine == [] {
      return Success(Message("No memories found to update."));
    }
    var snap := SortByCreated(mine);
    var responses := UpdateEach(store, snap, Requests(input), ok);
    r := match responses
      case Success(lines) => Success(Message(Join(lines, "\n")))
      case Failure(e) => Failure(e);
  }

  /** The `for update_item in updates` loop of `update_memory`, over the
      snapshot `snap`: the response lines, or the AttributeError of the
      first request of another type. */
  method UpdateEach(store: Store, snap: seq<Row>, items: seq<UpdateItem>, ok: nat -> bool)
    returns (r: Result<seq<string>>)
    requires store.Valid()
    modifies store
    ensures store.Valid()
    ensures store.rows == Updated(old(store.rows), snap, items[..FirstForeign(items)], ok)
    ensures FirstForeign(items) == |items| ==> r == Success(UpdateLines(items, |snap|, ok))
    ensures FirstForeign(items) < |items| ==> r == Failure(AttributeErrorText(items[FirstForeign(items)]))
  {
    var responses := [];
    var i := 0;
    while i < |items|
      invariant 0 <= i <= |items| && store.Valid()
      invariant forall j :: 0 <= j < i ==> !items[j].Foreign?
      invariant responses == UpdateLines(items[..i], |snap|, ok)
      invariant store.rows == Updated(old(store.rows), snap, items[..i], ok)
    {
      if items[i].Foreign? {
        // `update_item.index` or `update_item.content` raises.
        FirstForeignAt(items, i);
        return Failure(AttributeErrorText(items[i]));
      }
      UpdateStep(old(store.rows), snap, items, i, ok);
      var line := UpdateOne(store, snap, items[i], ok(i));
      responses := responses + [line];
      i := i + 1;
    }
    FirstForeignAt(items, i);
    assert items[..i] == items;
    r := Success(responses);
  }

  /** Requests before `i` are all dicts or `MemoryUpdate`s, and request
      `i`, if any, is not: it is the first of another type. */
  lemma {:induction false} FirstForeignAt(items: seq<UpdateItem>, i: nat)
    requires i <= |items| && forall j :: 0 <= j < i ==> !items[j].Foreign?
    requires i < |items| ==> items[i].Foreign?
    ensures FirstForeign(items) == i && items[..FirstForeign(items)] == items[..i]
    decreases i
  {
    if i > 0 {
      FirstForeignAt(items[1..], i - 1);
    }
  }

  /** The body of that loop for a request that is a dict or a
      `MemoryUpdate`. */
  method UpdateOne(store: Store, snap: seq<Row>, item: UpdateItem, ok: bool) returns (line: string)
    requires store.Valid() && !item.Foreign?
    modifies store
    ensures store.Valid()
    ensures line == UpdateLine(item, |snap|, ok)
    ensures store.rows ==
      if item.Parsed? && ValidIndex(item.index, |snap|) && ok then Replaced(old(store.rows), snap[item.index - 1].id, item.content)
      else old(store.rows)
  {
    if item.Malformed? {
      return "Invalid update item format: " + item.shown;
    }
    if !ValidIndex(item.index, |snap|) {
      return Missing(item.index);
    }
    var done := store.UpdateById(snap[item.index - 1].id, item.content, ok);
    if done {
      line := "Memory at index " + IntToString(item.index) + " updated successfully.";
    } else {
      line := "Failed to update memory at index " + IntToString(item.index) + ".";
    }
  }

  /** A single dict as `updates` raises on its first key, a `str`, whose
      `index` is the string method: no memory is updated, whatever the
      dict holds. */
  lemma SingleDictRaises(rows: seq<Row>, snap: seq<Row>, keys: seq<string>, asItem: UpdateItem, ok: nat -> bool)
    requires |keys| > 0
    ensures var items := Requests(Single(keys, asItem));
      FirstForeign(items) == 0 &&
      AttributeErrorText(items[0]) == "'str' object has no attribute 'content'" &&
      Updated(rows, snap, items[..0], ok) == rows
  {
    var items := Requests(Single(keys, asItem));
    assert items[0] == Foreign("str", true);
    StrHasNoContent();
  }

  lemma StrHasNoContent()
    ensures AttributeErrorText(Foreign("str", true)) == "'str' object has no attribute 'content'"
  {
    var head := "'" + "str" + "' object has no attribute '";
    assert head == "'str' object has no attribute '";
    assert head + "content" + "'" == "'str' object has no attribute 'content'";
  }

  /** The requests `update_memory` evidently means to handle: a single dict
      stands for a one-element list, as `delete_memory` treats a single
      index. */
  function IntendedRequests(input: UpdateInput): (items: seq<UpdateItem>)
  {
    match input
    case List(items) => items
    case Single(_, item) => [item]
  }

  /** So read, a single parsed request that names a memory and succeeds
      updates that memory alone and reports one line. */
  lemma SingleUpdatesOne(rows: seq<Row>, snap: seq<Row>, keys: seq<string>, index: int, content: string, ok: nat -> bool)
    requires ValidIndex(index, |snap|) && ok(0)
    ensures var items := IntendedRequests(Single(keys, Parsed(index, content)));
      FirstForeign(items) == |items| &&
      UpdateLines(items, |snap|, ok) == ["Memory at index " + IntToString(index) + " updated successfully."] &&
      Updated(rows, snap, items, ok) == Replaced(rows, snap[index - 1].id, content)
  {
    var items := IntendedRequests(Single(keys, Parsed(index, content)));
    assert items[..0] == [];
  }

  /** The `k`-th request updates the row `id`. */
  predicate Addresses(snap: seq<Row>, items: seq<UpdateItem>, ok: nat -> bool, k: nat, id: nat)
    requires k < |items|
  {
    items[k].Parsed? && ValidIndex(items[k].index, |snap|) && ok(k) && snap[items[k].index - 1].id == id
  }

  /** A row no successful request names is left as it was. */
  lemma {:induction false} UpdatedUntouched(rows: seq<Row>, snap: seq<Row>, items: seq<UpdateItem>, ok: nat -> bool, i: nat)
    requires i < |rows|
    requires forall k :: 0 <= k < |items| ==> !Addresses(snap, items, ok, k, rows[i].id)
    ensures Updated(rows, snap, items, ok)[i] == rows[i]
    decreases |items|
  {
    if |items| > 0 {
      var n := |items| - 1;
      forall k | 0 <= k < n ensures !Addresses(snap, items[..n], ok, k, rows[i].id) {
        assert items[..n][k] == items[k];
        assert !Addresses(snap, items, ok, k, rows[i].id);
      }
      UpdatedUntouched(rows, snap, items[..n], ok, i);
      assert !Addresses(snap, items, ok, n, rows[i].id);
    }
  }

  /** Several successful requests for the same row: the last one wins. */
  lemma {:induction false} UpdatedLastWins(rows: seq<Row>, snap: seq<Row>, items: seq<UpdateItem>, ok: nat -> bool, i: nat, k: nat)
    requires i < |rows| && k < |items|
    requires Addresses(snap, items, ok, k, rows[i].id)
    requires forall k' :: k < k' < |items| ==> !Addresses(snap, items, ok, k', rows[i].id)
    ensures Updated(rows, snap, items, ok)[i].content == items[k].content
    decreases |items|
  {
    var n := |items| - 1;
    if k < n {
      assert items[..n][k] == items[k];
      forall k' | k < k' < n ensures !Addresses(snap, items[..n], ok, k', rows[i].id) {
        assert items[..n][k'] == items[k'];
        assert !Addresses(snap, items, ok, k', rows[i].id);
      }
      UpdatedLastWins(rows, snap, items[..n], ok, i, k);
      assert !Addresses(snap, items, ok, n, rows[i].id);
    }
  }

  /** Updating through the snapshot of `uid` changes no row of another
      user. */
  lemma UpdateOnlyOwn(rows: seq<Row>, uid: string, items: seq<UpdateItem>, ok: nat -> bool)
    requires DistinctIds(rows)
    ensures forall i :: 0 <= i < |rows| && rows[i].userId != uid ==>
      Updated(rows, Snapshot(rows, uid), items, ok)[i] == rows[i]
  {
    var snap := Snapshot(rows, uid);
    forall i | 0 <= i < |rows| && rows[i].userId != uid
      ensures Updated(rows, snap, items, ok)[i] == rows[i]
    {
      forall k | 0 <= k < |items| ensures !Addresses(snap, items, ok, k, rows[i].id) {
        if Addresses(snap, items, ok, k, rows[i].id) {
          SnapshotOwn(rows, uid, items[k].index - 1);
          assert false;
        }
      }
      UpdatedUntouched(rows, snap, items, ok, i);
    }
  }

  /** One more request: one more line, and at most one more replacement. */
  lemma UpdateStep(rows: seq<Row>, snap: seq<Row>, items: seq<UpdateItem>, i: nat, ok: nat -> bool)
    requires i < |items| && forall j :: 0 <= j <= i ==> !items[j].Foreign?
    ensures UpdateLines(items[..i + 1], |snap|, ok) ==
      UpdateLines(items[..i], |snap|, ok) + [UpdateLine(items[i], |snap|, ok(i))]
    ensures Updated(rows, snap, items[..i + 1], ok) ==
      if items[i].Parsed? && ValidIndex(items[i].index, |snap|) && ok(i)
      then Replaced(Updated(rows, snap, items[..i], ok), snap[items[i].index - 1].id, items[i].content)
      else Updated(rows, snap, items[..i], ok)
  {
    assert items[..i + 1][..i] == items[..i];
  }
}
