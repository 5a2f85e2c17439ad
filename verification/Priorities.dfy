/**
 keda/mcp-server/tools.go: todos live in api's table, their priorities in a Redis hash keyed by the
 printed id. Listing joins the two; deleting touches them one after the other.
 */
module Priorities {
  import opened Decimal
  import opened Lex
  import Sorting
  import opened Text
  import opened Wrappers

  datatype Todo = Todo(id: int, text: string, done: bool)

  datatype MergedTodo = MergedTodo(id: int, text: string, done: bool, priority: int)

  // ---- requireIntArg ----

  /** A value found in, or missing from, the arguments map. */
  datatype Arg = Missing | Float(f: real) | Int(n: int) | NotANumber

  datatype Error =
    | Required
    | MustBeNumber
    | PriorityOutOfRange(got: int)
    | TextRequired
    | ApiFailed
    | ClearingFailed
    | StoringFailed
    | ReadingFailed

  /** Go's int64(f) for a float64 in range: the fraction is dropped, towards zero. */
  function Truncate(f: real): (n: int)
    ensures f >= 0.0 ==> 0 <= n && n as real <= f < n as real + 1.0
    ensures f < 0.0 ==> n <= 0 && n as real - 1.0 < f <= n as real
  {
    if f >= 0.0 then f.Floor else -((-f).Floor)
  }

  predicate InRange(a: Arg)
  {
    match a
    case Float(f) => IsInt64(Truncate(f))
    case Int(n) => IsInt64(n)
    case _ => true
  }

  function RequireIntArg(a: Arg): (r: Result<int, Error>)
    requires InRange(a)
    ensures r.Ok? ==> IsInt64(r.value)
    ensures r.Ok? <==> a.Float? || a.Int?
    ensures a.Int? ==> r.value == a.n
    ensures a.Float? ==> -1.0 < a.f - r.value as real < 1.0 && (a.f >= 0.0 ==> 0 <= r.value && r.value as real <= a.f)
    ensures a.Float? && a.f < 0.0 ==> r.value <= 0 && a.f <= r.value as real
  {
    match a
    case Missing => Err(Required)
    case Float(f) => Ok(Truncate(f))
    case Int(n) => Ok(n)
    case NotANumber => Err(MustBeNumber)
  }

  // ---- the join ----

  /** The priority a hash gives an id: 0 when the field is missing or is not a number. */
  function PriorityOf(hash: map<string, string>, id: int): int
  {
    if FormatInt(id) !in hash then 0
    else match Atoi(hash[FormatInt(id)])
         case Some(p) => p
         case None => 0
  }

  function Merge(hash: map<string, string>, t: Todo): MergedTodo
  {
    MergedTodo(t.id, t.text, t.done, PriorityOf(hash, t.id))
  }

  predicate DistinctIds(todos: seq<Todo>)
  {
    forall i, j :: 0 <= i < j < |todos| ==> todos[i].id != todos[j].id
  }

  /** The comparator: higher priority first, then lower id. */
  predicate Ahead(a: MergedTodo, b: MergedTodo)
  {
    if a.priority != b.priority then a.priority > b.priority else a.id < b.id
  }

  lemma AheadIsWeakOrder()
    ensures Sorting.StrictWeakOrder(Ahead)
  {
  }

  /** Higher priority first, and lower id first among equals. */
  ghost predicate MostUrgentFirst(rows: seq<MergedTodo>)
  {
    forall i, j :: 0 <= i < j < |rows| ==>
      rows[i].priority > rows[j].priority || (rows[i].priority == rows[j].priority && rows[i].id < rows[j].id)
  }

  /** One row for each todo, annotated from the hash, each strictly ahead of all later ones. */
  ghost predicate IsListing(rows: seq<MergedTodo>, todos: seq<Todo>, hash: map<string, string>)
  {
    && |rows| == |todos|
    && (forall t :: t in todos ==> Merge(hash, t) in rows)
    && (forall r :: r in rows ==> exists t :: t in todos && r == Merge(hash, t))
    && MostUrgentFirst(rows)
  }

  /** The todo unchanged, with the number its field in the hash reads as, and 0 without one. */
  ghost predicate Annotates(r: MergedTodo, t: Todo, hash: map<string, string>)
  {
    && r.id == t.id && r.text == t.text && r.done == t.done
    && (FormatInt(t.id) !in hash ==> r.priority == 0)
    && (FormatInt(t.id) in hash && Atoi(hash[FormatInt(t.id)]).None? ==> r.priority == 0)
    && (FormatInt(t.id) in hash && Atoi(hash[FormatInt(t.id)]).Some? ==>
          r.priority == Atoi(hash[FormatInt(t.id)]).value)
  }

  lemma MergeAnnotates(t: Todo, hash: map<string, string>)
    ensures Annotates(Merge(hash, t), t, hash)
  {
  }

  ghost predicate AllAnnotated(rows: seq<MergedTodo>, todos: seq<Todo>, hash: map<string, string>)
  {
    && (forall t :: t in todos ==> exists r :: r in rows && Annotates(r, t, hash))
    && (forall r :: r in rows ==> exists t :: t in todos && Annotates(r, t, hash))
  }

  lemma ListingAnnotates(rows: seq<MergedTodo>, todos: seq<Todo>, hash: map<string, string>)
    requires forall t :: t in todos ==> Merge(hash, t) in rows
    requires forall r :: r in rows ==> exists t :: t in todos && r == Merge(hash, t)
    ensures AllAnnotated(rows, todos, hash)
  {
    forall t | t in todos ensures exists r :: r in rows && Annotates(r, t, hash) {
      MergeAnnotates(t, hash);
      var r := Merge(hash, t);
      assert r in rows;
    }
    forall r | r in rows ensures exists t :: t in todos && Annotates(r, t, hash) {
      var t :| t in todos && r == Merge(hash, t);
      MergeAnnotates(t, hash);
    }
  }

  predicate Merged(merged: seq<MergedTodo>, todos: seq<Todo>, hash: map<string, string>)
  {
    |merged| == |todos| && forall j :: 0 <= j < |merged| ==> merged[j] == Merge(hash, todos[j])
  }

  lemma SortedIsListing(merged: seq<MergedTodo>, rows: seq<MergedTodo>, todos: seq<Todo>, hash: map<string, string>)
    requires DistinctIds(todos) && Merged(merged, todos, hash) && |rows| == |merged|
    requires multiset(rows) == multiset(merged) && Sorting.Sorted(rows, Ahead)
    ensures IsListing(rows, todos, hash)
  {
    forall r ensures r in rows <==> r in merged {
      assert r in multiset(rows) <==> r in multiset(merged);
    }
    forall t | t in todos ensures Merge(hash, t) in rows {
      var j :| 0 <= j < |todos| && todos[j] == t;
      assert merged[j] == Merge(hash, t);
    }
    forall r | r in rows ensures exists t :: t in todos && r == Merge(hash, t) {
      var j :| 0 <= j < |merged| && merged[j] == r;
      assert todos[j] in todos;
    }
    forall i, j | 0 <= i < j < |rows| ensures Ahead(rows[i], rows[j]) {
      assert rows[i].id != rows[j].id by {
        DistinctAfterSort(merged, rows, i, j);
      }
    }
  }

  lemma DistinctAfterSort(merged: seq<MergedTodo>, rows: seq<MergedTodo>, i: nat, j: nat)
    requires forall k, l :: 0 <= k < l < |merged| ==> merged[k].id != merged[l].id
    requires multiset(rows) == multiset(merged) && i < j < |rows|
    ensures rows[i].id != rows[j].id
  {
    assert rows[i] in multiset(merged) && rows[j] in multiset(merged);
    NoDuplicatesCount(merged, rows[i]);
    assert rows == rows[..i] + [rows[i]] + rows[i + 1..j] + [rows[j]] + rows[j + 1..];
  }

  lemma SortedAnnotates(merged: seq<MergedTodo>, rows: seq<MergedTodo>, todos: seq<Todo>, hash: map<string, string>)
    requires DistinctIds(todos) && Merged(merged, todos, hash) && |rows| == |merged|
    requires multiset(rows) == multiset(merged) && Sorting.Sorted(rows, Ahead)
    ensures IsListing(rows, todos, hash) && MostUrgentFirst(rows) && AllAnnotated(rows, todos, hash)
  {
    SortedIsListing(merged, rows, todos, hash);
    ListingAnnotates(rows, todos, hash);
  }

  method MergeWithPriority(hash: map<string, string>, todos: seq<Todo>) returns (rows: seq<MergedTodo>)
    requires DistinctIds(todos)
    ensures IsListing(rows, todos, hash)
    // in so many words
    ensures forall i, j :: 0 <= i < j < |rows| ==>
              rows[i].priority > rows[j].priority || (rows[i].priority == rows[j].priority && rows[i].id < rows[j].id)
    ensures AllAnnotated(rows, todos, hash)
  {
    var merged: seq<MergedTodo> := [];
    for i := 0 to |todos|
      invariant Merged(merged, todos[..i], hash)
    {
      merged := merged + [Merge(hash, todos[i])];
    }
    assert todos[..|todos|] == todos;
    AheadIsWeakOrder();
    rows := Sorting.Slice(merged, Ahead);
    SortedAnnotates(merged, rows, todos, hash);
  }

  /** The listing depends on the set of todos and the hash only: not on the order of the fetch, not on the sort. */
  lemma ListingIsUnique(r1: seq<MergedTodo>, r2: seq<MergedTodo>, t1: seq<Todo>, t2: seq<Todo>,
                        hash: map<string, string>)
    requires IsListing(r1, t1, hash) && IsListing(r2, t2, hash)
    requires forall t :: t in t1 <==> t in t2
    ensures r1 == r2
  {
    forall r ensures r in r1 <==> r in r2 {
    }
    SameElementsSameMultiset(r1, r2);
    Sorting.SortedIsUnique(r1, r2, Ahead);
  }

  // ---- histories ----

  /** The atomic actions on the two stores, in the order they took effect. */
  datatype Event =
    | RowCreated(id: int)
    | RowDeleted(id: int)
    | PrioritySet(id: int, priority: int)
    | PriorityCleared(id: int)

  /** Auto-increment never reuses an id, and set_priority checks its argument before HSET. */
  predicate Legal(h: seq<Event>)
  {
    && (forall i :: 0 <= i < |h| ==> IsInt64(h[i].id))
    && (forall i :: 0 <= i < |h| && h[i].PrioritySet? ==> 0 <= h[i].priority <= 100)
    && (forall i, j :: 0 <= i < j < |h| && h[i].RowCreated? && h[j].RowCreated? ==> h[i].id < h[j].id)
    && (forall i, j :: 0 <= i < j < |h| && h[i].RowDeleted? && h[j].RowCreated? ==> h[i].id < h[j].id)
  }

  /** HSET and HDEL. */
  function HashStep(hash: map<string, string>, ev: Event): map<string, string>
  {
    match ev
    case PrioritySet(id, p) => hash[FormatInt(id) := FormatInt(p)]
    case PriorityCleared(id) => hash - {FormatInt(id)}
    case _ => hash
  }

  function Hash(h: seq<Event>): map<string, string>
  {
    if |h| == 0 then map[] else HashStep(Hash(h[..|h| - 1]), h[|h| - 1])
  }

  /** INSERT and DELETE. */
  function RowsStep(rows: set<int>, ev: Event): set<int>
  {
    match ev
    case RowCreated(id) => rows + {id}
    case RowDeleted(id) => rows - {id}
    case _ => rows
  }

  /** The ids with a row in api's table. */
  function Rows(h: seq<Event>): set<int>
  {
    if |h| == 0 then {} else RowsStep(Rows(h[..|h| - 1]), h[|h| - 1])
  }

  lemma Snoc(h: seq<Event>, ev: Event)
    ensures Hash(h + [ev]) == HashStep(Hash(h), ev)
    ensures Rows(h + [ev]) == RowsStep(Rows(h), ev)
  {
    assert (h + [ev])[..|h|] == h;
  }

  /** The last value set for the id since it was last cleared, and 0 if there is none. */
  function LastSet(h: seq<Event>, id: int): int
  {
    if |h| == 0 then 0
    else
      var last := h[|h| - 1];
      if last.PrioritySet? && last.id == id then last.priority
      else if last.PriorityCleared? && last.id == id then 0
      else LastSet(h[..|h| - 1], id)
  }

  lemma LegalPrefix(h: seq<Event>, k: nat)
    requires Legal(h) && k <= |h|
    ensures Legal(h[..k])
  {
  }

  /**
   Over every history the hash, for all its printed fields and values, answers with the last
   priority set for the id since its last clearing, which is within 0..100.
   */
  lemma {:induction false} PriorityIsLastSet(h: seq<Event>, id: int)
    requires Legal(h)
    ensures PriorityOf(Hash(h), id) == LastSet(h, id)
    ensures 0 <= LastSet(h, id) <= 100
  {
    if |h| > 0 {
      var n := |h| - 1;
      LegalPrefix(h, n);
      PriorityIsLastSet(h[..n], id);
      LastEventDecides(Hash(h[..n]), h[n], id);
    }
  }

  lemma LastEventDecides(hash: map<string, string>, ev: Event, id: int)
    requires IsInt64(ev.id) && (ev.PrioritySet? ==> 0 <= ev.priority <= 100)
    ensures PriorityOf(HashStep(hash, ev), id) ==
            if ev.PrioritySet? && ev.id == id then ev.priority
            else if ev.PriorityCleared? && ev.id == id then 0
            else PriorityOf(hash, id)
  {
    if FormatInt(ev.id) == FormatInt(id) {
      FormatIntInjective(ev.id, id);
    }
    if ev.PrioritySet? {
      AtoiOfFormatInt(ev.priority);
    }
  }

  /** A non-zero priority was set at some point, by a set_priority that named the id. */
  lemma {:induction false} NonZeroWasSet(h: seq<Event>, id: int) returns (j: nat)
    requires LastSet(h, id) != 0
    ensures j < |h| && h[j] == PrioritySet(id, LastSet(h, id))
    ensures forall i :: j < i < |h| ==> h[i] != PriorityCleared(id)
  {
    var n := |h| - 1;
    if h[n].PrioritySet? && h[n].id == id {
      j := n;
    } else {
      j := NonZeroWasSet(h[..n], id);
    }
  }

  /**
   Interrupted deletions: when a row has just been created, the priority it shows is whatever was
   set before the row existed, so it is non-zero only if set_priority named that id in advance and
   no delete_todo cleared it since.
   */
  lemma NewRowShowsOnlyEarlySets(h: seq<Event>, k: nat)
    requires Legal(h) && k < |h| && h[k].RowCreated?
    ensures PriorityOf(Hash(h[..k + 1]), h[k].id) == LastSet(h[..k], h[k].id)
    ensures PriorityOf(Hash(h[..k + 1]), h[k].id) != 0 ==>
              exists j :: 0 <= j < k && h[j] == PrioritySet(h[k].id, PriorityOf(Hash(h[..k + 1]), h[k].id))
                       && forall i :: j < i < k ==> h[i] != PriorityCleared(h[k].id)
  {
    var id := h[k].id;
    LegalPrefix(h, k + 1);
    PriorityIsLastSet(h[..k + 1], id);
    assert h[..k + 1][..k] == h[..k];
    if LastSet(h[..k], id) != 0 {
      var j := NonZeroWasSet(h[..k], id);
      assert h[j] == h[..k][j];
      forall i | j < i < k ensures h[i] != PriorityCleared(id) {
        assert h[i] == h[..k][i];
      }
    }
  }

  lemma OneSet(id: int, p: int)
    ensures LastSet([PrioritySet(id, p)], id) == p && LastSet([PrioritySet(id, p), RowCreated(id)], id) == p
  {
    var h := [PrioritySet(id, p), RowCreated(id)];
    assert h[..1] == [PrioritySet(id, p)] && h[..1][..0] == [];
  }

  /** A fresh todo can show 50: set_priority never asks whether the id has a row. */
  lemma EarlySetOutlivesCreation()
    ensures var h := [PrioritySet(1, 50), RowCreated(1)];
            Legal(h) && 1 in Rows(h) && PriorityOf(Hash(h), 1) == 50
  {
    var h := [PrioritySet(1, 50), RowCreated(1)];
    assert IsInt64(1);
    OneSet(1, 50);
    assert h[..1] == [PrioritySet(1, 50)] && h[..1][..0] == [];
    PriorityIsLastSet(h, 1);
  }

  /** A deleted row never comes back, so what an interrupted deletion leaves in the hash is never shown. */
  lemma {:induction false} DeletedStaysDeleted(h: seq<Event>, k: nat)
    requires Legal(h) && k < |h| && h[k].RowDeleted?
    ensures h[k].id !in Rows(h)
  {
    var n := |h| - 1;
    if k < n {
      LegalPrefix(h, n);
      DeletedStaysDeleted(h[..n], k);
    }
  }

  // ---- the tools ----

  /** What became of a request to api or to Redis; a lost reply looks like a failure, but took effect. */
  datatype Outcome = Refused | ReplyLost | Answered

  /** An atomic action of somebody else: another tool call, or the browser talking to api directly. */
  datatype Act = Insert(text: string) | Remove(id: int) | Set(id: int, priority: int) | Clear(id: int)

  predicate LegalAct(a: Act)
  {
    match a
    case Insert(_) => true
    case Remove(id) => IsInt64(id)
    case Set(id, p) => IsInt64(id) && 0 <= p <= 100
    case Clear(id) => IsInt64(id)
  }

  /** The event of one action, on a table with these ids; removing what is not there is none. */
  function EventOf(ids: set<int>, nextId: int, a: Act): seq<Event>
  {
    match a
    case Insert(_) => [RowCreated(nextId)]
    case Remove(id) => if id in ids then [RowDeleted(id)] else []
    case Set(id, p) => [PrioritySet(id, p)]
    case Clear(id) => [PriorityCleared(id)]
  }

  function IdsAfter(ids: set<int>, nextId: int, a: Act): set<int>
  {
    match a
    case Insert(_) => ids + {nextId}
    case Remove(id) => ids - {id}
    case _ => ids
  }

  function NextAfter(nextId: int, a: Act): int
  {
    if a.Insert? then nextId + 1 else nextId
  }

  function Events(ids: set<int>, nextId: int, acts: seq<Act>): seq<Event>
    decreases |acts|
  {
    if |acts| == 0 then []
    else
      EventOf(ids, nextId, acts[0])
      + Events(IdsAfter(ids, nextId, acts[0]), NextAfter(nextId, acts[0]), acts[1..])
  }

  lemma OneEventOn(h: seq<Event>, ids: set<int>, nextId: int, acts: seq<Act>, i: nat)
    requires i < |acts|
    ensures h + Events(ids, nextId, acts[i..]) ==
            h + EventOf(ids, nextId, acts[i])
              + Events(IdsAfter(ids, nextId, acts[i]), NextAfter(nextId, acts[i]), acts[i + 1..])
  {
    assert acts[i..][1..] == acts[i + 1..];
  }

  const MAX_TEXT: nat := 500

  /** All ids of rows so far are below the next one. */
  predicate BelowNext(h: seq<Event>, nextId: int)
  {
    forall i :: 0 <= i < |h| && (h[i].RowCreated? || h[i].RowDeleted?) ==> h[i].id < nextId
  }

  predicate Numbered(table: map<int, Todo>, nextId: int)
  {
    forall id :: id in table ==> table[id].id == id && 0 < id < nextId
  }

  /** The two stores are what the history made them. */
  ghost predicate Consistent(table: map<int, Todo>, nextId: int, hash: map<string, string>, h: seq<Event>)
  {
    && Legal(h) && hash == Hash(h) && table.Keys == Rows(h)
    && 0 < nextId && BelowNext(h, nextId) && Numbered(table, nextId)
  }

  lemma LegalAfterSet(h: seq<Event>, ev: Event)
    requires Legal(h) && IsInt64(ev.id)
    requires ev.PriorityCleared? || (ev.PrioritySet? && 0 <= ev.priority <= 100)
    ensures Legal(h + [ev])
  {
  }

  lemma ConsistentAfterSet(table: map<int, Todo>, nextId: int, hash: map<string, string>, h: seq<Event>, ev: Event)
    requires Consistent(table, nextId, hash, h) && IsInt64(ev.id)
    requires ev.PriorityCleared? || (ev.PrioritySet? && 0 <= ev.priority <= 100)
    ensures Consistent(table, nextId, HashStep(hash, ev), h + [ev])
  {
    Snoc(h, ev);
    LegalAfterSet(h, ev);
  }

  lemma LegalAfterCreate(h: seq<Event>, id: int)
    requires Legal(h) && BelowNext(h, id) && IsInt64(id)
    ensures Legal(h + [RowCreated(id)]) && BelowNext(h + [RowCreated(id)], id + 1)
  {
  }

  lemma NumberedAfterCreate(table: map<int, Todo>, t: Todo)
    requires Numbered(table, t.id) && 0 < t.id
    ensures Numbered(table[t.id := t], t.id + 1) && table[t.id := t].Keys == table.Keys + {t.id}
  {
  }

  lemma KeysAfterRemove(table: map<int, Todo>, id: int)
    ensures (table - {id}).Keys == table.Keys - {id}
    ensures id !in table ==> table - {id} == table
  {
  }

  lemma KeysAfterPut(table: map<int, Todo>, t: Todo)
    ensures table[t.id := t].Keys == table.Keys + {t.id}
  {
  }

  lemma ConsistentAfterCreate(table: map<int, Todo>, hash: map<string, string>, h: seq<Event>, t: Todo)
    requires Consistent(table, t.id, hash, h) && IsInt64(t.id)
    ensures Consistent(table[t.id := t], t.id + 1, hash, h + [RowCreated(t.id)])
  {
    Snoc(h, RowCreated(t.id));
    LegalAfterCreate(h, t.id);
    NumberedAfterCreate(table, t);
  }

  lemma ConsistentAfterDelete(table: map<int, Todo>, nextId: int, hash: map<string, string>, h: seq<Event>, id: int)
    requires Consistent(table, nextId, hash, h) && id in table && IsInt64(id)
    ensures Consistent(table - {id}, nextId, hash, h + [RowDeleted(id)])
  {
    Snoc(h, RowDeleted(id));
  }

  /** A row of the table as a listing should show it. */
  function Row(t: Todo, h: seq<Event>): MergedTodo
  {
    MergedTodo(t.id, t.text, t.done, LastSet(h, t.id))
  }

  /** GET /api/todos: every row once, by ascending id. */
  method FetchTodos(table: map<int, Todo>, nextId: int) returns (todos: seq<Todo>)
    requires forall id :: id in table ==> table[id].id == id && 0 < id < nextId
    requires 0 < nextId
    ensures DistinctIds(todos)
    ensures forall t :: t in todos <==> t.id in table && table[t.id] == t
  {
    todos := [];
    for n := 1 to nextId
      invariant DistinctIds(todos)
      invariant forall t :: t in todos <==> t.id in table && t.id < n && table[t.id] == t
    {
      if n in table {
        todos := todos + [table[n]];
      }
    }
  }

  lemma ListingShowsFetch(rows: seq<MergedTodo>, todos: seq<Todo>, table: map<int, Todo>, hash: map<string, string>,
                          h: seq<Event>)
    requires IsListing(rows, todos, hash)
    requires forall t :: t in todos <==> t.id in table && table[t.id] == t
    requires forall id :: id in table ==> table[id].id == id
    requires forall id :: PriorityOf(hash, id) == LastSet(h, id)
    ensures forall r :: r in rows <==> r.id in table && r == Row(table[r.id], h)
  {
    forall r: MergedTodo | r.id in table && r == Row(table[r.id], h) ensures r in rows {
      assert table[r.id] in todos;
      assert Merge(hash, table[r.id]) == r;
    }
  }

  class TodoTools {
    var table: map<int, Todo>
    var nextId: int
    var hash: map<string, string>
    ghost var history: seq<Event>

    ghost predicate Valid()
      reads this
    {
      Consistent(table, nextId, hash, history)
    }

    constructor ()
      ensures Valid() && history == [] && nextId == 1
    {
      table, nextId, hash, history := map[], 1, map[], [];
    }

    /** INSERT by anyone: the next id of the table. */
    method CreateRow(text: string) returns (t: Todo)
      requires Valid() && IsInt64(nextId)
      modifies this
      ensures Valid() && t == Todo(old(nextId), text, false)
      ensures history == old(history) + [RowCreated(t.id)]
      ensures hash == old(hash) && table == old(table)[t.id := t] && nextId == old(nextId) + 1
      ensures table.Keys == old(table.Keys) + {t.id}
    {
      t := Todo(nextId, text, false);
      KeysAfterPut(table, t);
      ConsistentAfterCreate(table, hash, history, t);
      table, nextId, history := table[t.id := t], nextId + 1, history + [RowCreated(t.id)];
    }

    /** DELETE by anyone; false when there is no such row. */
    method DeleteRow(id: int) returns (deleted: bool)
      requires Valid() && IsInt64(id)
      modifies this
      ensures Valid() && deleted == (id in old(table))
      ensures history == old(history) + (if deleted then [RowDeleted(id)] else [])
      ensures hash == old(hash) && table == old(table) - {id} && nextId == old(nextId)
      ensures table.Keys == old(table.Keys) - {id}
    {
      deleted := id in table;
      KeysAfterRemove(table, id);
      if deleted {
        ConsistentAfterDelete(table, nextId, hash, history, id);
        table, history := table - {id}, history + [RowDeleted(id)];
      }
    }

    /** HSET todo:priority. */
    method HSet(id: int, priority: int)
      requires Valid() && IsInt64(id) && 0 <= priority <= 100
      modifies this`hash, this`history
      ensures Valid() && history == old(history) + [PrioritySet(id, priority)]
    {
      ConsistentAfterSet(table, nextId, hash, history, PrioritySet(id, priority));
      hash, history := hash[FormatInt(id) := FormatInt(priority)], history + [PrioritySet(id, priority)];
    }

    /** HDEL todo:priority. */
    method HDel(id: int)
      requires Valid() && IsInt64(id)
      modifies this`hash, this`history
      ensures Valid() && history == old(history) + [PriorityCleared(id)]
    {
      ConsistentAfterSet(table, nextId, hash, history, PriorityCleared(id));
      hash, history := hash - {FormatInt(id)}, history + [PriorityCleared(id)];
    }

    /** One action of somebody else. */
    method Perform(a: Act)
      requires Valid() && LegalAct(a) && (a.Insert? ==> IsInt64(nextId))
      modifies this
      ensures Valid() && history == old(history) + EventOf(old(table.Keys), old(nextId), a)
      ensures table.Keys == IdsAfter(old(table.Keys), old(nextId), a) && nextId == NextAfter(old(nextId), a)
    {
      match a {
        case Insert(text) => var _ := CreateRow(text);
        case Remove(id) => var _ := DeleteRow(id);
        case Set(id, p) => HSet(id, p);
        case Clear(id) => HDel(id);
      }
    }

    /** Whatever others do while a tool call is between two of its requests. */
    method Interfere(acts: seq<Act>)
      requires Valid() && forall i :: 0 <= i < |acts| ==> LegalAct(acts[i])
      requires nextId + |acts| <= MAX_INT64
      modifies this
      ensures Valid() && nextId <= old(nextId) + |acts|
      ensures history == old(history) + Events(old(table.Keys), old(nextId), acts)
    {
      ghost var all := old(history) + Events(old(table.Keys), old(nextId), acts);
      assert acts[0..] == acts;
      for i := 0 to |acts|
        invariant Valid() && nextId <= old(nextId) + i
        invariant history + Events(table.Keys, nextId, acts[i..]) == all
      {
        OneEventOn(history, table.Keys, nextId, acts, i);
        Perform(acts[i]);
      }
    }

    /**
     set_priority, which does not ask whether the id has a row. A call whose reply is lost reports an
     error although the value is stored.
     */
    method SetPriority(idArg: Arg, priorityArg: Arg, redis: Outcome) returns (r: Result<(), Error>)
      requires Valid() && InRange(idArg) && InRange(priorityArg)
      modifies this`hash, this`history
      ensures Valid()
      ensures var id, p := RequireIntArg(idArg), RequireIntArg(priorityArg);
              var valid := id.Ok? && p.Ok? && 0 <= p.value <= 100;
              && (r.Ok? <==> valid && redis.Answered?)
              && (r == Err(StoringFailed) <==> valid && !redis.Answered?)
              && history == old(history) + (if valid && !redis.Refused? then [PrioritySet(id.value, p.value)] else [])
    {
      var id := RequireIntArg(idArg);
      if id.Err? {
        return Err(id.error);
      }
      var p := RequireIntArg(priorityArg);
      if p.Err? {
        return Err(p.error);
      }
      if p.value < 0 || p.value > 100 {
        return Err(PriorityOutOfRange(p.value));
      }
      if !redis.Refused? {
        HSet(id.value, p.value);
      }
      r := if redis.Answered? then Ok(()) else Err(StoringFailed);
    }

    /**
     add_todo reports priority 0. That is what a listing would show exactly when the last
     set_priority that named this id before it existed, if any, has been cleared or was to 0. A call
     whose reply is lost reports an error although the row is there.
     */
    method AddTodo(text: Option<string>, api: Outcome) returns (r: Result<MergedTodo, Error>)
      requires Valid() && IsInt64(nextId)
      modifies this
      ensures Valid() && hash == old(hash)
      ensures var valid := text.Some? && !AllSpace(text.value) && |TrimSpace(text.value)| <= MAX_TEXT;
              var t := Todo(old(nextId), if text.Some? then TrimSpace(text.value) else "", false);
              && (r.Ok? <==> valid && api.Answered?)
              && (r == Err(TextRequired) <==> text.None? || text.value == "")
              && history == old(history) + (if valid && !api.Refused? then [RowCreated(t.id)] else [])
              && table == (if valid && !api.Refused? then old(table)[t.id := t] else old(table))
              && (r.Ok? ==> r.value == MergedTodo(t.id, t.text, t.done, 0))
      ensures r.Ok? ==> (PriorityOf(hash, r.value.id) == r.value.priority <==> LastSet(old(history), r.value.id) == 0)
    {
      if text.None? || text.value == "" {
        return Err(TextRequired);
      }
      var trimmed := TrimSpace(text.value);
      BlankTrimsToNothing(text.value);
      if api.Refused? || trimmed == "" || |trimmed| > MAX_TEXT {
        return Err(ApiFailed);
      }
      var t := CreateRow(trimmed);
      if api.ReplyLost? {
        return Err(ApiFailed);
      }
      PriorityIsLastSet(old(history), t.id);
      r := Ok(MergedTodo(t.id, t.text, t.done, 0));
    }

    /** DELETE /api/todos/{id}, which answers 404 for a missing row; false for anything but a 204. */
    method DeleteThroughApi(id: int, api: Outcome) returns (deleted: bool)
      requires Valid() && IsInt64(id)
      modifies this
      ensures Valid() && nextId == old(nextId) && hash == old(hash)
      ensures deleted <==> 0 < id && id in old(table) && api.Answered?
      ensures table == old(table) - (if 0 < id && !api.Refused? then {id} else {})
      ensures deleted ==> history == old(history) + [RowDeleted(id)]
    {
      if api.Refused? || id <= 0 {
        assert table - {} == table;
        return false;
      }
      deleted := DeleteRow(id);
      deleted := deleted && api.Answered?;
    }

    /** HDEL, with what it means for the id. */
    method ClearPriority(id: int)
      requires Valid() && IsInt64(id)
      modifies this`hash, this`history
      ensures Valid() && history == old(history) + [PriorityCleared(id)] && PriorityOf(hash, id) == 0
    {
      HDel(id);
      PriorityIsLastSet(history, id);
    }

    /** The second step of delete_todo, whatever came after the first; the row does not come back. */
    method FinishDelete(id: int, between: seq<Act>, redis: Outcome) returns (r: Result<(), Error>)
      requires Valid() && IsInt64(id)
      requires RowDeleted(id) in history
      requires nextId + |between| <= MAX_INT64 && forall i :: 0 <= i < |between| ==> LegalAct(between[i])
      modifies this
      ensures Valid() && old(history) <= history && id !in table
      ensures r == if redis.Answered? then Ok(()) else Err(ClearingFailed)
      ensures r.Ok? ==> PriorityOf(hash, id) == 0 && history[|history| - 1] == PriorityCleared(id)
    {
      ghost var at :| 0 <= at < |history| && history[at] == RowDeleted(id);
      Interfere(between);
      DeletedStaysDeleted(history, at);
      if !redis.Refused? {
        ClearPriority(id);
      }
      r := if redis.Answered? then Ok(()) else Err(ClearingFailed);
    }

    /**
     delete_todo: first the row, then the hash field, with anything in between. If it returns
     normally the id is gone from both; interrupted after the first step, the field is left behind.
     A missing row is an error of api's, and then nothing changes.
     */
    method DeleteTodo(idArg: Arg, api: Outcome, between: seq<Act>, redis: Outcome) returns (r: Result<(), Error>)
      requires Valid() && InRange(idArg)
      requires nextId + |between| <= MAX_INT64 && forall i :: 0 <= i < |between| ==> LegalAct(between[i])
      modifies this
      ensures Valid()
      ensures RequireIntArg(idArg).Err? ==>
                r == Err(RequireIntArg(idArg).error) && history == old(history) && table == old(table)
      ensures RequireIntArg(idArg).Ok? ==>
                var id := RequireIntArg(idArg).value;
                var deleted := 0 < id && id in old(table) && api.Answered?;
                && (r.Ok? <==> deleted && redis.Answered?)
                && (r == Err(ClearingFailed) <==> deleted && !redis.Answered?)
                && (r == Err(ApiFailed) <==> !deleted)
                && (deleted ==> id !in table && old(history) + [RowDeleted(id)] <= history)
                && (r.Ok? ==> PriorityOf(hash, id) == 0 && history[|history| - 1] == PriorityCleared(id))
                && (!deleted ==>
                      hash == old(hash) && table == old(table) - (if 0 < id && !api.Refused? then {id} else {}))
    {
      var id := RequireIntArg(idArg);
      if id.Err? {
        return Err(id.error);
      }
      var deleted := DeleteThroughApi(id.value, api);
      if !deleted {
        return Err(ApiFailed);
      }
      assert history[|history| - 1] == RowDeleted(id.value);
      r := FinishDelete(id.value, between, redis);
    }

    /**
     list_todos: fetch the rows, then read the hash, with anything in between. The listing has
     exactly the fetched rows, each with the last priority set for it by the time the hash is read.
     */
    method ListTodos(api: Outcome, between: seq<Act>, redis: Outcome) returns (r: Result<seq<MergedTodo>, Error>)
      requires Valid()
      requires nextId + |between| <= MAX_INT64 && forall i :: 0 <= i < |between| ==> LegalAct(between[i])
      modifies this
      ensures Valid()
      ensures history ==
              if api.Answered? then old(history) + Events(old(table.Keys), old(nextId), between) else old(history)
      ensures r.Ok? <==> api.Answered? && redis.Answered?
      ensures r.Ok? ==>
                && (forall t :: t in r.value <==> t.id in old(table) && t == Row(old(table)[t.id], history))
                && MostUrgentFirst(r.value)
    {
      if !api.Answered? {
        return Err(ApiFailed);
      }
      var todos := FetchTodos(table, nextId);
      ghost var fetched := table;
      Interfere(between);
      if !redis.Answered? {
        return Err(ReadingFailed);
      }
      var rows := MergeWithPriority(hash, todos);
      forall id ensures PriorityOf(hash, id) == LastSet(history, id) {
        PriorityIsLastSet(history, id);
      }
      ListingShowsFetch(rows, todos, fetched, hash, history);
      r := Ok(rows);
    }
  }

  lemma JoinShowsFifty(hash: map<string, string>, rows: seq<MergedTodo>)
    requires hash == Hash([PrioritySet(1, 50)]) && IsListing(rows, [Todo(1, "x", false)], hash)
    ensures rows == [MergedTodo(1, "x", false, 50)]
  {
    OneSet(1, 50);
    PriorityIsLastSet([PrioritySet(1, 50)], 1);
    assert Todo(1, "x", false) in [Todo(1, "x", false)];
  }

  lemma XIsTrimmed()
    ensures TrimSpace("x") == "x" && !AllSpace("x")
  {
  }

  /** set_priority on todo 1, which does not exist. */
  method SetTooEarly() returns (tools: TodoTools)
    ensures fresh(tools) && tools.Valid() && tools.nextId == 1 && tools.hash == Hash([PrioritySet(1, 50)])
  {
    tools := new TodoTools();
    var _ := tools.SetPriority(Int(1), Int(50), Answered);
    assert tools.history == [PrioritySet(1, 50)];
  }

  /** The tools themselves: add_todo says 0, and the join right after it says 50. */
  method AddedAtZeroJoinedAtFifty() returns (added: Result<MergedTodo, Error>, rows: seq<MergedTodo>)
    ensures added == Ok(MergedTodo(1, "x", false, 0))
    ensures rows == [MergedTodo(1, "x", false, 50)]
  {
    var tools := SetTooEarly();
    XIsTrimmed();
    added := tools.AddTodo(Some("x"), Answered);
    rows := MergeWithPriority(tools.hash, [Todo(1, "x", false)]);
    JoinShowsFifty(tools.hash, rows);
  }
}
