/** Rows added to a multimap by several workers at once. The source finds the key,
    reads the start of its list, creates the row and writes the new start in
    separate steps. A search is one step here, since it answers as the table was when
    it began (`ConcurrentTables.EverySearch`); so is linking a first row, which a
    store does with its one head write. */
module ConcurrentMultimaps {
  import opened Wrappers
  import opened StackMaps
  import opened RecordMultimaps
  import opened Interleavings

  /** A row of the lookup table: where the list of a key starts. */
  datatype Head<K> = Head(key: K, begin: nat)

  /** How far a worker is with the first of the rows it has to add. */
  datatype Phase =
    | Idle
    | Found(row: nat)
    | Read(row: nat, begin: nat)
    | Inserted(row: nat, index: nat)
    | Missing
    | Created(index: nat)

  datatype Worker<K, V> = Worker(todo: seq<Item<K, V>>, phase: Phase)

  /** The rows of the lookup table in the order in which they were linked, the list
      rows, and the workers. */
  datatype State<K, V> = State(heads: seq<Head<K>>, list: List<V>, workers: seq<Worker<K, V>>)

  /** What a search finds: the newest row of a key. */
  function Newest<K(==)>(heads: seq<Head<K>>, k: K): (r: Option<nat>)
    ensures r.Some? ==> r.value < |heads| && heads[r.value].key == k
  {
    if heads == [] then None
    else if heads[|heads| - 1].key == k then Some(|heads| - 1)
    else Newest(heads[..|heads| - 1], k)
  }

  /** Nothing for an idle worker to do. */
  predicate Done<K, V>(worker: Worker<K, V>) {
    worker.todo == [] && worker.phase.Idle?
  }

  /** The links lead to older rows or end, and what the workers hold is in range. */
  ghost predicate Sane<K, V>(s: State<K, V>) {
    && Backward(s.list) && s.list.empty < s.list.first
    && (forall p :: 0 <= p < |s.heads| ==> s.list.Holds(s.heads[p].begin))
    && forall w :: 0 <= w < |s.workers| ==> SaneWorker(s, s.workers[w])
  }

  ghost predicate SaneWorker<K, V>(s: State<K, V>, worker: Worker<K, V>) {
    && (worker.todo == [] ==> worker.phase.Idle?)
    && match worker.phase
       case Idle => true
       case Found(row) => row < |s.heads|
       case Read(row, begin) => row < |s.heads| && s.list.Holds(begin)
       case Inserted(row, index) => row < |s.heads| && s.list.Holds(index)
       case Missing => true
       case Created(index) => s.list.Holds(index)
  }

  /** What a step of worker w changes: the lookup table, the list, the worker. */
  function Stepped<K(==), V>(s: State<K, V>, w: nat): (seq<Head<K>>, List<V>, Worker<K, V>)
    requires w < |s.workers| && !Done(s.workers[w])
    requires Sane(s)
  {
    var worker := s.workers[w];
    var item := worker.todo[0];
    match worker.phase
    case Idle =>
      var found := Newest(s.heads, item.key);
      (s.heads, s.list, worker.(phase := if found.None? then Missing else Found(found.value)))
    case Found(row) => (s.heads, s.list, worker.(phase := Read(row, s.heads[row].begin)))
    case Read(row, begin) =>
      (s.heads, s.list.Add(ListRow(begin, item.value)), worker.(phase := Inserted(row, s.list.End())))
    case Inserted(row, index) =>
      (s.heads[row := s.heads[row].(begin := index)], s.list, Worker(worker.todo[1..], Idle))
    case Missing => (s.heads, s.list.Add(ListRow(s.list.empty, item.value)), worker.(phase := Created(s.list.End())))
    case Created(index) => (s.heads + [Head(item.key, index)], s.list, Worker(worker.todo[1..], Idle))
  }

  /** The next step of worker w; none if it is done. */
  function Step<K(==), V>(s: State<K, V>, w: nat): (s': State<K, V>)
    requires Sane(s)
  {
    if w >= |s.workers| || Done(s.workers[w]) then s
    else
      var (heads, list, worker) := Stepped(s, w);
      State(heads, list, s.workers[w := worker])
  }

  lemma {:induction false} StepSane<K, V>(s: State<K, V>, w: nat)
    requires Sane(s)
    ensures Sane(Step(s, w))
  {
    if w < |s.workers| && !Done(s.workers[w]) {
      var s' := Step(s, w);
      assert SaneWorker(s, s.workers[w]);
      if s'.list != s.list {
        var row := s'.list.rows[|s.list.rows|];
        RowAdded(s.list, row);
      }
      forall v | 0 <= v < |s'.workers| ensures SaneWorker(s', s'.workers[v]) {
        assert SaneWorker(s, s.workers[v]);
      }
    }
  }

  /** The workers step as the schedule says. */
  ghost function Run<K, V>(s: State<K, V>, schedule: seq<nat>): (s': State<K, V>)
    requires Sane(s)
    ensures Sane(s')
    decreases |schedule|
  {
    if schedule == [] then s
    else
      StepSane(s, schedule[0]);
      Run(Step(s, schedule[0]), schedule[1..])
  }

  ghost predicate Complete<K, V>(s: State<K, V>) {
    forall w :: 0 <= w < |s.workers| ==> Done(s.workers[w])
  }

  ghost predicate Quiet<K, V>(s: State<K, V>) {
    Sane(s) && forall w :: 0 <= w < |s.workers| ==> s.workers[w].phase.Idle?
  }

  function Todos<K, V>(s: State<K, V>): (r: seq<seq<Item<K, V>>>)
    ensures |r| == |s.workers| && forall w :: 0 <= w < |r| ==> r[w] == s.workers[w].todo
  {
    seq(|s.workers|, w requires 0 <= w < |s.workers| => s.workers[w].todo)
  }

  /** The rows of a key, newest first. */
  ghost function RowsUnder<K, V>(s: State<K, V>, k: K): (r: seq<V>)
    requires Sane(s)
    ensures r != [] <==> Newest(s.heads, k).Some?
  {
    var found := Newest(s.heads, k);
    if found.None? then [] else RowsFrom(s.list, s.heads[found.value].begin)
  }

  function Keys<K(==)>(heads: seq<Head<K>>): set<K> {
    set p | 0 <= p < |heads| :: heads[p].key
  }

  lemma {:induction false} NewestKeys<K>(heads: seq<Head<K>>, k: K)
    ensures k in Keys(heads) <==> Newest(heads, k).Some?
  {
    if heads != [] {
      var n := |heads| - 1;
      NewestKeys(heads[..n], k);
      if p :| 0 <= p < |heads| && heads[p].key == k {
        assert p < n ==> heads[..n][p].key == k;
      }
    }
  }

  /** The multimap as a map of stacks. */
  ghost function View<K(!new), V>(s: State<K, V>): StackMap<K, V>
    requires Sane(s)
  {
    forall k ensures k in Keys(s.heads) <==> Newest(s.heads, k).Some? { NewestKeys(s.heads, k); }
    map k | k in Keys(s.heads) :: RowsUnder(s, k)
  }

  lemma {:induction false} ViewStack<K(!new), V>(s: State<K, V>, k: K)
    requires Sane(s)
    ensures Stack(View(s), k) == RowsUnder(s, k)
  {
    NewestKeys(s.heads, k);
  }

  // ------------------------------------------------------------------ what a step does

  /** A row that no head leads to does not matter. */
  lemma {:induction false} AddedUnseen<K, V>(s: State<K, V>, row: ListRow<V>, k: K)
    requires Sane(s) && (row.next == s.list.empty || s.list.Holds(row.next))
    ensures Sane(s.(list := s.list.Add(row)))
    ensures RowsUnder(s.(list := s.list.Add(row)), k) == RowsUnder(s, k)
  {
    RowAdded(s.list, row);
    var found := Newest(s.heads, k);
    if found.Some? {
      RowsFromFrame(s.list, row, s.heads[found.value].begin);
    }
    forall w | 0 <= w < |s.workers| ensures SaneWorker(s.(list := s.list.Add(row)), s.workers[w]) {
      assert SaneWorker(s, s.workers[w]);
    }
  }

  lemma {:induction false} NewestAppended<K>(heads: seq<Head<K>>, head: Head<K>, k: K)
    ensures Newest(heads + [head], k) == if head.key == k then Some(|heads|) else Newest(heads, k)
  {
    assert (heads + [head])[..|heads|] == heads;
  }

  lemma {:induction false} NewestMoved<K>(heads: seq<Head<K>>, row: nat, index: nat, k: K)
    requires row < |heads|
    ensures Newest(heads[row := heads[row].(begin := index)], k) == Newest(heads, k)
  {
    var moved := heads[row := heads[row].(begin := index)];
    var n := |heads| - 1;
    if row == n {
      assert moved[..n] == heads[..n];
    } else {
      assert moved[..n] == heads[..n][row := heads[..n][row].(begin := index)];
      NewestMoved(heads[..n], row, index, k);
    }
  }

  /** The step that a search can see. */
  predicate Links<K, V>(s: State<K, V>, w: nat) {
    w < |s.workers| && (s.workers[w].phase.Inserted? || s.workers[w].phase.Created?)
  }

  /** A step that links nothing is not seen, and leaves the worker's work to do. */
  lemma {:induction false} UnseenStep<K, V>(s: State<K, V>, w: nat, k: K)
    requires Sane(s) && !Links(s, w)
    ensures Sane(Step(s, w)) && RowsUnder(Step(s, w), k) == RowsUnder(s, k) && Todos(Step(s, w)) == Todos(s)
    ensures Step(s, w).heads == s.heads
  {
    StepSane(s, w);
    if w < |s.workers| && !Done(s.workers[w]) {
      var s' := Step(s, w);
      assert SaneWorker(s, s.workers[w]);
      if s'.list != s.list {
        AddedUnseen(s, s'.list.rows[|s.list.rows|], k);
      }
    }
  }

  /** The list that a linking step makes the key's own starts at the worker's row. */
  lemma {:induction false} LinkStep<K, V>(s: State<K, V>, w: nat, k: K)
    requires Sane(s) && Links(s, w)
    requires s.workers[w].phase.Inserted? ==> Newest(s.heads, s.workers[w].todo[0].key) == Some(s.workers[w].phase.row)
    ensures Sane(Step(s, w))
    ensures Todos(Step(s, w)) == Todos(s)[w := s.workers[w].todo[1..]]
    ensures s.list.Holds(s.workers[w].phase.index)
    ensures RowsUnder(Step(s, w), k) ==
            if k == s.workers[w].todo[0].key then RowsFrom(s.list, s.workers[w].phase.index) else RowsUnder(s, k)
  {
    StepSane(s, w);
    var worker := s.workers[w];
    assert SaneWorker(s, worker);
    assert Todos(Step(s, w)) == Todos(s)[w := worker.todo[1..]];
    if worker.phase.Inserted? {
      NewestMoved(s.heads, worker.phase.row, worker.phase.index, k);
    } else {
      NewestAppended(s.heads, Head(worker.todo[0].key, worker.phase.index), k);
    }
  }

  // ----------------------------------------------------------------- keys of one worker

  /** No two workers add rows under one key. */
  ghost predicate OwnKeys<K, V>(todos: seq<seq<Item<K, V>>>) {
    forall v, w, i, j :: 0 <= v < w < |todos| && 0 <= i < |todos[v]| && 0 <= j < |todos[w]| ==>
      todos[v][i].key != todos[w][j].key
  }

  /** What worker w has found is still so. */
  ghost predicate Steady<K, V>(s: State<K, V>, w: nat)
    requires Sane(s) && w < |s.workers|
  {
    var worker := s.workers[w];
    assert SaneWorker(s, worker);
    match worker.phase
    case Idle => true
    case Found(row) => Newest(s.heads, worker.todo[0].key) == Some(row)
    case Read(row, begin) => Newest(s.heads, worker.todo[0].key) == Some(row) && s.heads[row].begin == begin
    case Inserted(row, index) =>
      && Newest(s.heads, worker.todo[0].key) == Some(row)
      && s.list.At(index) == ListRow(s.heads[row].begin, worker.todo[0].value)
    case Missing => Newest(s.heads, worker.todo[0].key) == None
    case Created(index) =>
      && Newest(s.heads, worker.todo[0].key) == None
      && s.list.At(index) == ListRow(s.list.empty, worker.todo[0].value)
  }

  ghost predicate AllSteady<K, V>(s: State<K, V>) {
    Sane(s) && forall w :: 0 <= w < |s.workers| ==> Steady(s, w)
  }

  lemma {:induction false} OwnStep<K, V>(s: State<K, V>, w: nat)
    requires Sane(s) && w < |s.workers| && Steady(s, w)
    ensures Sane(Step(s, w)) && Steady(Step(s, w), w)
  {
    StepSane(s, w);
    assert SaneWorker(s, s.workers[w]);
  }

  /** A worker with other keys does not disturb it. */
  lemma {:induction false} OtherStep<K, V>(s: State<K, V>, w: nat, v: nat)
    requires Sane(s) && v < |s.workers| && w < |s.workers| && v != w && Steady(s, v)
    requires s.workers[w].todo != [] && s.workers[v].todo != [] ==>
               s.workers[w].todo[0].key != s.workers[v].todo[0].key
    requires Links(s, w) && s.workers[w].phase.Inserted? ==> s.heads[s.workers[w].phase.row].key == s.workers[w].todo[0].key
    ensures Sane(Step(s, w)) && Steady(Step(s, w), v)
  {
    StepSane(s, w);
    var worker := s.workers[w];
    assert SaneWorker(s, worker) && SaneWorker(s, s.workers[v]);
    if s.workers[v].todo != [] {
      var k := s.workers[v].todo[0].key;
      if worker.phase.Inserted? {
        NewestMoved(s.heads, worker.phase.row, worker.phase.index, k);
      } else if worker.phase.Created? {
        NewestAppended(s.heads, Head(worker.todo[0].key, worker.phase.index), k);
      }
    }
  }

  lemma {:induction false} StepSteady<K, V>(s: State<K, V>, w: nat)
    requires AllSteady(s) && OwnKeys(Todos(s))
    ensures AllSteady(Step(s, w)) && OwnKeys(Todos(Step(s, w)))
  {
    if w < |s.workers| {
      hide Step;
      OwnStep(s, w);
      TodosStep(s, w);
      assert Steady(s, w) && SaneWorker(s, s.workers[w]);
      forall v | 0 <= v < |s.workers| && v != w ensures Steady(Step(s, w), v) {
        FirstKeys(s, v, w);
        OtherStep(s, w, v);
      }
    }
  }

  lemma {:induction false} FirstKeys<K, V>(s: State<K, V>, v: nat, w: nat)
    requires OwnKeys(Todos(s)) && v < |s.workers| && w < |s.workers| && v != w
    ensures s.workers[w].todo != [] && s.workers[v].todo != [] ==>
              s.workers[w].todo[0].key != s.workers[v].todo[0].key
  {
    var todos := Todos(s);
    if todos[v] != [] && todos[w] != [] {
      var a, b := todos[v][0], todos[w][0];
      assert v < w || w < v;
    }
  }

  lemma {:induction false} TodosStep<K, V>(s: State<K, V>, w: nat)
    requires Sane(s) && w < |s.workers|
    ensures |Step(s, w).workers| == |s.workers|
    ensures Links(s, w) ==> s.workers[w].todo != [] && Todos(Step(s, w)) == Todos(s)[w := s.workers[w].todo[1..]]
    ensures !Links(s, w) ==> Todos(Step(s, w)) == Todos(s)
    ensures OwnKeys(Todos(s)) ==> OwnKeys(Todos(Step(s, w)))
  {
    assert SaneWorker(s, s.workers[w]);
    var todos, todos' := Todos(s), Todos(Step(s, w));
    if Links(s, w) {
      assert todos' == todos[w := todos[w][1..]];
    } else {
      assert todos' == todos;
    }
    if OwnKeys(todos) {
      LaterKeys(todos, todos', w);
    }
  }

  lemma {:induction false} LaterKeys<K, V>(todos: seq<seq<Item<K, V>>>, later: seq<seq<Item<K, V>>>, w: nat)
    requires OwnKeys(todos) && w < |todos|
    requires later == todos || (todos[w] != [] && later == todos[w := todos[w][1..]])
    ensures OwnKeys(later)
  {
    forall u, v, i, j | 0 <= u < v < |later| && 0 <= i < |later[u]| && 0 <= j < |later[v]|
      ensures later[u][i].key != later[v][j].key
    {
      if later != todos {
        var i', j' := if u == w then i + 1 else i, if v == w then j + 1 else j;
        assert later[u][i] == todos[u][i'] && later[v][j] == todos[v][j'];
      }
    }
  }

  /** A steady worker links a row in front of its key's. */
  lemma {:induction false} SteadyLink<K, V>(s: State<K, V>, w: nat, k: K)
    requires Sane(s) && Links(s, w) && Steady(s, w)
    ensures s.workers[w].todo != []
    ensures Sane(Step(s, w))
    ensures var item := s.workers[w].todo[0];
            RowsUnder(Step(s, w), k) == (if k == item.key then [item.value] else []) + RowsUnder(s, k)
  {
    var worker := s.workers[w];
    assert SaneWorker(s, worker);
    LinkStep(s, w, k);
    RowsFromStep(s.list, worker.phase.index, []);
    NoRowsFrom(s.list);
    var rows := RowsFrom(s.list, worker.phase.index);
    assert rows == [] + rows;
    assert s.list.At(worker.phase.index).data == worker.todo[0].value;
  }

  /** What a step does to the map of stacks. */
  lemma {:induction false} StepView<K(!new), V>(s: State<K, V>, w: nat)
    requires Sane(s) && (Links(s, w) ==> Steady(s, w))
    ensures Sane(Step(s, w))
    ensures Links(s, w) ==> s.workers[w].todo != []
    ensures View(Step(s, w)) ==
            if Links(s, w) then Push(View(s), s.workers[w].todo[0].key, s.workers[w].todo[0].value) else View(s)
  {
    hide View, Step, RowsUnder, Steady, Stack, Push, Sane;
    StepSane(s, w);
    LinksTodo(s, w);
    var item := if Links(s, w) then Some(s.workers[w].todo[0]) else None;
    var after := if item.Some? then Push(View(s), item.value.key, item.value.value) else View(s);
    forall k ensures Stack(View(Step(s, w)), k) == Stack(after, k) {
      ViewStack(s, k);
      ViewStack(Step(s, w), k);
      if item.Some? {
        SteadyLink(s, w, k);
        PushStack(View(s), item.value.key, item.value.value, k);
      } else {
        UnseenStep(s, w, k);
      }
    }
    Extensional(View(Step(s, w)), after);
  }

  lemma {:induction false} LinksTodo<K, V>(s: State<K, V>, w: nat)
    requires Sane(s)
    ensures Links(s, w) ==> s.workers[w].todo != []
  {
    if w < |s.workers| {
      assert SaneWorker(s, s.workers[w]);
    }
  }

  /** The rows in the order of their linking steps. */
  ghost function Linkings<K, V>(s: State<K, V>, schedule: seq<nat>): seq<Item<K, V>>
    requires Sane(s)
    decreases |schedule|
  {
    if schedule == [] then []
    else
      StepSane(s, schedule[0]);
      LinksTodo(s, schedule[0]);
      var rest := Linkings(Step(s, schedule[0]), schedule[1..]);
      if Links(s, schedule[0]) then [s.workers[schedule[0]].todo[0]] + rest else rest
  }

  /** When no two workers add under one key, every run comes to whole calls in the
      order of their linking steps, which is a merge of what the workers do. */
  lemma {:induction false} EveryRun<K(!new), V>(s: State<K, V>, schedule: seq<nat>)
    requires AllSteady(s) && OwnKeys(Todos(s))
    ensures View(Run(s, schedule)) == PushItems(View(s), Linkings(s, schedule))
    ensures Complete(Run(s, schedule)) ==> Interleaves(Todos(s), Linkings(s, schedule))
    decreases |schedule|
  {
    hide View, Step, Steady, Push, PushItems, OwnKeys, Links;
    if schedule == [] {
      NothingLinked(View(s));
    } else {
      var w := schedule[0];
      var s' := Step(s, w);
      StepSteady(s, w);
      if Links(s, w) { InRange(s, w); }
      StepView(s, w);
      EveryRun(s', schedule[1..]);
      var rest := Linkings(s', schedule[1..]);
      if w < |s.workers| { TodosStep(s, w); }
      if Links(s, w) {
        var item := s.workers[w].todo[0];
        PushItemsFirst(View(s), item, rest);
        if Complete(Run(s', schedule[1..])) {
          assert ([item] + rest)[1..] == rest;
          StepInterleaves(Todos(s), [item] + rest, w);
        }
      } else {
        SameTodos(s, w);
      }
    }
  }

  lemma {:induction false} NothingLinked<K, V>(m: StackMap<K, V>)
    ensures PushItems(m, []) == m
  {
  }

  lemma {:induction false} InRange<K, V>(s: State<K, V>, w: nat)
    requires Sane(s) && Links(s, w)
    ensures w < |s.workers| && s.workers[w].todo != []
  {
    LinksTodo(s, w);
  }

  lemma {:induction false} SameTodos<K, V>(s: State<K, V>, w: nat)
    requires Sane(s) && !Links(s, w)
    ensures Todos(Step(s, w)) == Todos(s)
  {
    if w < |s.workers| {
      TodosStep(s, w);
    }
  }

  // -------------------------------------------------------------------- whole calls

  lemma {:induction false} RunConcat<K, V>(s: State<K, V>, a: seq<nat>, b: seq<nat>)
    requires Sane(s)
    ensures Run(s, a + b) == Run(Run(s, a), b)
    decreases |a|
  {
    hide Step;
    if a == [] {
      assert a + b == b;
    } else {
      StepSane(s, a[0]);
      assert (a + b)[0] == a[0] && (a + b)[1..] == a[1..] + b;
      RunConcat(Step(s, a[0]), a[1..], b);
    }
  }

  lemma {:induction false} RunFirst<K, V>(s: State<K, V>, w: nat, rest: seq<nat>)
    requires Sane(s)
    ensures Sane(Step(s, w)) && Run(s, [w] + rest) == Run(Step(s, w), rest)
  {
    hide Step;
    StepSane(s, w);
    assert ([w] + rest)[1..] == rest;
  }

  lemma {:induction false} RunOne<K, V>(s: State<K, V>, w: nat)
    requires Sane(s)
    ensures Sane(Step(s, w)) && Run(s, [w]) == Step(s, w)
  {
    hide Step;
    RunFirst(s, w, []);
    assert [w] + [] == [w];
  }

  /** A worker that has read what it builds on: the rows `rows` of its key. */
  ghost predicate Prepared<K, V>(s: State<K, V>, v: nat, rows: seq<V>) {
    && Sane(s) && v < |s.workers| && s.workers[v].todo != [] && SaneWorker(s, s.workers[v])
    && match s.workers[v].phase
       case Missing => rows == []
       case Read(row, begin) =>
         Newest(s.heads, s.workers[v].todo[0].key) == Some(row) && RowsFrom(s.list, begin) == rows
       case _ => false
  }

  /** It builds on them whatever another worker, steady itself, has done since. */
  lemma {:induction false} StepPrepared<K, V>(s: State<K, V>, w: nat, v: nat, rows: seq<V>)
    requires Prepared(s, v, rows) && w < |s.workers| && w != v && Steady(s, w)
    ensures Prepared(Step(s, w), v, rows)
  {
    StepSane(s, w);
    var s' := Step(s, w);
    assert SaneWorker(s, s.workers[w]) && SaneWorker(s', s'.workers[v]);
    if s.workers[v].phase.Read? {
      if s'.list != s.list {
        RowsFromFrame(s.list, s'.list.rows[|s.list.rows|], s.workers[v].phase.begin);
      }
      var k := s.workers[v].todo[0].key;
      if s.workers[w].phase.Inserted? {
        NewestMoved(s.heads, s.workers[w].phase.row, s.workers[w].phase.index, k);
      } else if s.workers[w].phase.Created? {
        NewestAppended(s.heads, Head(s.workers[w].todo[0].key, s.workers[w].phase.index), k);
      }
    }
  }

  function Rank(phase: Phase): nat {
    match phase
    case Idle => 4
    case Found(_) => 3
    case Read(_, _) => 2
    case Inserted(_, _) => 1
    case Missing => 2
    case Created(_) => 1
  }

  /** A worker alone completes its call, which adds its row. */
  lemma {:induction false} Finish<K(!new), V(!new)>(s: State<K, V>, w: nat) returns (schedule: seq<nat>)
    requires Sane(s) && w < |s.workers| && s.workers[w].todo != [] && Steady(s, w)
    ensures Run(s, schedule).workers == s.workers[w := Worker(s.workers[w].todo[1..], Idle)]
    ensures View(Run(s, schedule)) == Push(View(s), s.workers[w].todo[0].key, s.workers[w].todo[0].value)
    ensures forall v, rows :: v != w && Prepared(s, v, rows) ==> Prepared(Run(s, schedule), v, rows)
    decreases Rank(s.workers[w].phase)
  {
    hide View, Run, Steady, Prepared, Push, Sane;
    var s' := Step(s, w);
    OwnStep(s, w);
    StepView(s, w);
    forall v, rows | v != w && Prepared(s, v, rows) ensures Prepared(s', v, rows) {
      StepPrepared(s, w, v, rows);
    }
    OwnWorker(s, w);
    if Links(s, w) {
      schedule := [w];
      RunOne(s, w);
    } else {
      var rest := Finish(s', w);
      schedule := [w] + rest;
      RunFirst(s, w, rest);
      assert s'.workers[w := Worker(s.workers[w].todo[1..], Idle)] == s.workers[w := Worker(s.workers[w].todo[1..], Idle)];
    }
  }

  lemma {:induction false} OwnWorker<K, V>(s: State<K, V>, w: nat)
    requires Sane(s) && w < |s.workers| && s.workers[w].todo != []
    ensures var worker := Step(s, w).workers[w];
            && Step(s, w).workers == s.workers[w := worker]
            && if Links(s, w) then worker == Worker(s.workers[w].todo[1..], Idle)
               else worker.todo == s.workers[w].todo && Rank(worker.phase) < Rank(s.workers[w].phase)
  {
    assert SaneWorker(s, s.workers[w]);
  }

  /** The row that a prepared worker creates. */
  lemma {:induction false} Build<K, V>(s: State<K, V>, v: nat, rows: seq<V>)
    requires Prepared(s, v, rows)
    ensures var s', k := Step(s, v), s.workers[v].todo[0].key;
            && Sane(s') && Links(s', v) && s'.workers == s.workers[v := s'.workers[v]]
            && s'.workers[v].todo == s.workers[v].todo
            && s'.list.Holds(s'.workers[v].phase.index)
            && RowsFrom(s'.list, s'.workers[v].phase.index) == [s.workers[v].todo[0].value] + rows
            && (s'.workers[v].phase.Inserted? ==> Newest(s'.heads, k) == Some(s'.workers[v].phase.row))
  {
    hide Newest;
    StepSane(s, v);
    var s' := Step(s, v);
    var row := s'.list.rows[|s.list.rows|];
    RowAdded(s.list, row);
    RowsFromStep(s'.list, s.list.End(), []);
    NoRowsFrom(s'.list);
    if s.workers[v].phase.Read? {
      RowsFromFrame(s.list, row, s.workers[v].phase.begin);
    }
    var built := RowsFrom(s'.list, s.list.End());
    assert built == [] + built == [row.data] + RowsFrom(s'.list, row.next);
  }

  /** A worker with stale information completes its call: its key has its row in front
      of what it had read. */
  lemma {:induction false} FinishStale<K, V>(s: State<K, V>, v: nat, rows: seq<V>)
    requires Prepared(s, v, rows)
    ensures Run(s, [v, v]).workers == s.workers[v := Worker(s.workers[v].todo[1..], Idle)]
    ensures RowsUnder(Run(s, [v, v]), s.workers[v].todo[0].key) == [s.workers[v].todo[0].value] + rows
  {
    hide Run, RowsUnder, Sane, Newest, Step;
    Build(s, v, rows);
    assert [v] + [v] == [v, v];
    RunFirst(s, v, [v]);
    var s1 := Step(s, v);
    RunOne(s1, v);
    LinkStep(s1, v, s.workers[v].todo[0].key);
    OwnWorker(s1, v);
    assert Step(s1, v).workers == s.workers[v := Worker(s.workers[v].todo[1..], Idle)];
  }

  // ----------------------------------------------------------------- keys in common

  /** A worker of an idle store searches its key and reads what it builds on. */
  lemma {:induction false} Prepare<K(!new), V>(s: State<K, V>, v: nat) returns (schedule: seq<nat>, rows: seq<V>)
    requires Quiet(s) && v < |s.workers| && s.workers[v].todo != []
    ensures var s' := Run(s, schedule);
            && Prepared(s', v, rows) && View(s') == View(s) && Todos(s') == Todos(s)
            && rows == RowsUnder(s, s.workers[v].todo[0].key)
            && s'.workers == s.workers[v := s'.workers[v]]
  {
    hide View, Newest;
    var s1 := Step(s, v);
    StepView(s, v);
    RunOne(s, v);
    rows := RowsUnder(s, s.workers[v].todo[0].key);
    assert Todos(s1) == Todos(s);
    assert SaneWorker(s1, s1.workers[v]);
    if s1.workers[v].phase.Missing? {
      schedule := [v];
    } else {
      schedule := [v] + [v];
      RunFirst(s, v, [v]);
      RunOne(s1, v);
      StepView(s1, v);
      var s2 := Step(s1, v);
      assert SaneWorker(s2, s2.workers[v]);
      assert Todos(s2) == Todos(s1);
    }
  }

  /** Two workers add a row under one key, and the second builds on what it has read
      before the first is done: the first one's row is lost. */
  lemma {:induction false} Race<K(!new), V(!new)>(s: State<K, V>, v: nat, w: nat) returns (schedule: seq<nat>)
    requires Quiet(s) && v < |s.workers| && w < |s.workers| && v != w
    requires s.workers[v].todo != [] && s.workers[w].todo != [] && s.workers[v].todo[0].key == s.workers[w].todo[0].key
    ensures var s' := Run(s, schedule);
            && Quiet(s')
            && Todos(s') == Todos(s)[v := s.workers[v].todo[1..]][w := s.workers[w].todo[1..]]
            && Stack(View(s'), s.workers[v].todo[0].key) ==
               [s.workers[v].todo[0].value] + Stack(View(s), s.workers[v].todo[0].key)
  {
    hide View, Run, Prepared, Sane, RowsUnder, Stack, Push;
    var k := s.workers[v].todo[0].key;
    var first, rows := Prepare(s, v);
    var s1 := Run(s, first);
    assert s1.workers[w] == s.workers[w] && s1.workers[v].todo == Todos(s1)[v] == s.workers[v].todo;
    var second := Finish(s1, w);
    var s2 := Run(s1, second);
    FinishStale(s2, v, rows);
    var s3 := Run(s2, [v, v]);
    RunConcat(s, first, second);
    RunConcat(s, first + second, [v, v]);
    schedule := first + second + [v, v];
    ViewStack(s, k);
    ViewStack(s3, k);
    assert Todos(s3) == Todos(s)[v := s.workers[v].todo[1..]][w := s.workers[w].todo[1..]];
  }

  /** Every merge of what is left, after some items, is a merge of the whole. */
  ghost predicate Precedes<T(!new)>(items: seq<T>, later: seq<seq<T>>, todos: seq<seq<T>>) {
    forall rest :: Interleaves(later, rest) ==> Interleaves(todos, items + rest)
  }

  lemma {:induction false} PrecedesFirst<T(!new)>(todos: seq<seq<T>>, w: nat, items: seq<T>, later: seq<seq<T>>)
    requires w < |todos| && todos[w] != [] && Precedes(items, later, todos[w := todos[w][1..]])
    ensures Precedes([todos[w][0]] + items, later, todos)
  {
    hide Interleaves;
    forall rest | Interleaves(later, rest) ensures Interleaves(todos, [todos[w][0]] + items + rest) {
      var merged := [todos[w][0]] + items + rest;
      assert merged[1..] == items + rest;
      StepInterleaves(todos, merged, w);
    }
  }

  lemma {:induction false} PrecedesNothing<T(!new)>(todos: seq<seq<T>>)
    ensures Precedes([], todos, todos)
  {
    hide Interleaves;
    forall rest | Interleaves(todos, rest) ensures Interleaves(todos, [] + rest) {
      assert [] + rest == rest;
    }
  }

  lemma {:induction false} PrecedesTwice<T(!new)>(a: seq<T>, b: seq<T>, last: seq<seq<T>>, later: seq<seq<T>>,
                                                  todos: seq<seq<T>>)
    requires Precedes(a, later, todos) && Precedes(b, last, later)
    ensures Precedes(a + b, last, todos)
  {
    hide Interleaves;
    forall rest | Interleaves(last, rest) ensures Interleaves(todos, a + b + rest) {
      assert a + b + rest == a + (b + rest);
    }
  }

  /** A worker of an idle store makes its next call, alone. */
  lemma {:induction false} SoloCall<K(!new), V(!new)>(s: State<K, V>, w: nat) returns (schedule: seq<nat>)
    requires Quiet(s) && w < |s.workers| && s.workers[w].todo != []
    ensures var s', item := Run(s, schedule), s.workers[w].todo[0];
            && Quiet(s') && Todos(s') == Todos(s)[w := s.workers[w].todo[1..]]
            && View(s') == Push(View(s), item.key, item.value)
  {
    hide View, Run, Prepared, Sane, Push;
    schedule := Finish(s, w);
    assert Todos(Run(s, schedule)) == Todos(s)[w := s.workers[w].todo[1..]];
  }

  /** It works alone until the next row is for a key. */
  lemma {:induction false} SoloUntil<K(!new), V(!new)>(s: State<K, V>, w: nat, i: nat)
    returns (schedule: seq<nat>, items: seq<Item<K, V>>)
    requires Quiet(s) && w < |s.workers| && i < |s.workers[w].todo|
    ensures var s' := Run(s, schedule);
            && Quiet(s') && Todos(s') == Todos(s)[w := s.workers[w].todo[i..]]
            && View(s') == PushItems(View(s), items) && Precedes(items, Todos(s'), Todos(s))
    decreases i
  {
    hide View, Sane, Push, PushItems, Precedes;
    if i == 0 {
      schedule, items := [], [];
      NothingLinked(View(s));
      PrecedesNothing(Todos(s));
      assert Todos(s)[w := s.workers[w].todo[0..]] == Todos(s);
    } else {
      var call := SoloCall(s, w);
      var s1, item := Run(s, call), s.workers[w].todo[0];
      assert s1.workers[w].todo == Todos(s1)[w];
      var more, rest := SoloUntil(s1, w, i - 1);
      hide Run;
      RunConcat(s, call, more);
      schedule, items := call + more, [item] + rest;
      PushItemsFirst(View(s), item, rest);
      PrecedesFirst(Todos(s), w, rest, Todos(Run(s1, more)));
      assert s.workers[w].todo[1..][i - 1..] == s.workers[w].todo[i..];
      assert Todos(Run(s1, more)) == Todos(s)[w := s.workers[w].todo[i..]];
    }
  }

  /** All workers finish, one call after the other. */
  lemma {:induction false} SoloAll<K(!new), V(!new)>(s: State<K, V>) returns (schedule: seq<nat>, merged: seq<Item<K, V>>)
    requires Quiet(s)
    ensures Complete(Run(s, schedule)) && Interleaves(Todos(s), merged)
    ensures View(Run(s, schedule)) == PushItems(View(s), merged)
    decreases |Work(Todos(s))|
  {
    hide View, Sane, Push, PushItems, Work;
    if w :| 0 <= w < |s.workers| && s.workers[w].todo != [] {
      var call := SoloCall(s, w);
      var s1, item := Run(s, call), s.workers[w].todo[0];
      WorkWithout(Todos(s), w);
      var more, rest := SoloAll(s1);
      hide Run, Interleaves;
      RunConcat(s, call, more);
      schedule, merged := call + more, [item] + rest;
      PushItemsFirst(View(s), item, rest);
      assert merged[1..] == rest;
      StepInterleaves(Todos(s), merged, w);
    } else {
      schedule, merged := [], [];
      NothingLinked(View(s));
    }
  }

  /** All merges have as many rows for a key. */
  lemma {:induction false} MergesCount<K, V(!new)>(todos: seq<seq<Item<K, V>>>, a: seq<Item<K, V>>, b: seq<Item<K, V>>,
                                                   k: K)
    requires Interleaves(todos, a) && Interleaves(todos, b)
    ensures |ValuesOf(a, k)| == |ValuesOf(b, k)|
  {
    hide Interleaves, ValuesOf, Work;
    InterleavingWork(todos, a);
    InterleavingWork(todos, b);
    ValuesPermuted(a, b, k);
  }

  lemma {:induction false} TwoFirst<T>(todos: seq<seq<T>>, v: nat, w: nat, rest: seq<T>)
    requires v < |todos| && w < |todos| && v != w && todos[v] != [] && todos[w] != []
    requires Interleaves(todos[v := todos[v][1..]][w := todos[w][1..]], rest)
    ensures Interleaves(todos, [todos[v][0], todos[w][0]] + rest)
  {
    hide Interleaves;
    var later := todos[v := todos[v][1..]];
    assert ([todos[w][0]] + rest)[1..] == rest;
    StepInterleaves(later, [todos[w][0]] + rest, w);
    var merged := [todos[v][0], todos[w][0]] + rest;
    assert merged[1..] == [todos[w][0]] + rest;
    StepInterleaves(todos, merged, v);
  }

  lemma {:induction false} TwoValues<K, V>(a: Item<K, V>, b: Item<K, V>)
    requires a.key == b.key
    ensures ValuesOf([a, b], a.key) == [a.value, b.value]
  {
    hide ValuesOf;
    ValuesOfNext([], a);
    ValuesOfNext([a], b);
    assert [] + [a] == [a] && [a] + [b] == [a, b];
  }

  lemma {:induction false} ValuesOfNext<K, V>(items: seq<Item<K, V>>, last: Item<K, V>)
    ensures ValuesOf(items + [last], last.key) == ValuesOf(items, last.key) + [last.value]
    ensures ValuesOf<K, V>([], last.key) == []
  {
    assert (items + [last])[..|items|] == items;
  }

  lemma {:induction false} PushedTwice<K, V>(m: StackMap<K, V>, pre: seq<Item<K, V>>, mid: seq<Item<K, V>>, k: K)
    ensures Stack(PushItems(PushItems(m, pre), mid), k) ==
            (Reversed(ValuesOf(mid, k)) + Reversed(ValuesOf(pre, k))) + Stack(m, k)
  {
    hide *;
    PushItemsStack(m, pre, k);
    PushItemsStack(PushItems(m, pre), mid, k);
  }

  /** How many rows a merge has for a key that has these parts. */
  lemma {:induction false} PartsCount<K, V>(pre: seq<Item<K, V>>, mid: seq<Item<K, V>>, a: Item<K, V>, b: Item<K, V>,
                                            rest: seq<Item<K, V>>)
    requires a.key == b.key
    ensures |ValuesOf(pre + mid + ([a, b] + rest), a.key)| ==
            |ValuesOf(pre, a.key)| + |ValuesOf(mid, a.key)| + 2 + |ValuesOf(rest, a.key)|
  {
    hide *;
    TwoValues(a, b);
    ValuesOfConcat(pre, mid, a.key);
    ValuesOfConcat([a, b], rest, a.key);
    ValuesOfConcat(pre + mid, [a, b] + rest, a.key);
  }

  lemma {:induction false} Joined<V>(last: seq<V>, one: V, first: seq<V>, rows: seq<V>) returns (added: seq<V>)
    ensures last + ([one] + (first + rows)) == added + rows && |added| == |last| + 1 + |first|
  {
    added := last + [one] + first;
  }

  /** If two workers add under one key, some run loses a row of it. */
  lemma {:induction false} LostRow<K(!new), V(!new)>(s: State<K, V>, v: nat, w: nat, i: nat, j: nat)
    returns (schedule: seq<nat>, added: seq<V>)
    requires Quiet(s) && v < |s.workers| && w < |s.workers| && v != w
    requires i < |s.workers[v].todo| && j < |s.workers[w].todo|
    requires s.workers[v].todo[i].key == s.workers[w].todo[j].key
    ensures Complete(Run(s, schedule))
    ensures Stack(View(Run(s, schedule)), s.workers[v].todo[i].key) == added + Stack(View(s), s.workers[v].todo[i].key)
    ensures forall merged :: Interleaves(Todos(s), merged) ==>
              |added| + 1 == |ValuesOf(merged, s.workers[v].todo[i].key)|
  {
    hide View, Sane, Push, PushItems, Precedes, Interleaves, ValuesOf, Stack, Run;
    var k, a, b := s.workers[v].todo[i].key, s.workers[v].todo[i], s.workers[w].todo[j];
    var c1, pre := SoloUntil(s, v, i);
    var s1 := Run(s, c1);
    assert s1.workers[w].todo == Todos(s1)[w] == s.workers[w].todo;
    var c2, mid := SoloUntil(s1, w, j);
    var s2 := Run(s1, c2);
    assert s2.workers[v].todo == Todos(s2)[v] == s.workers[v].todo[i..];
    assert s2.workers[w].todo == Todos(s2)[w] == s.workers[w].todo[j..];
    var c3 := Race(s2, v, w);
    var s3 := Run(s2, c3);
    var c4, rest := SoloAll(s3);
    schedule := c1 + c2 + c3 + c4;
    RunConcat(s, c1, c2);
    RunConcat(s, c1 + c2, c3);
    RunConcat(s, c1 + c2 + c3, c4);
    PushItemsStack(View(s3), rest, k);
    PushedTwice(View(s), pre, mid, k);
    PartsCount(pre, mid, a, b, rest);
    added := Joined(Reversed(ValuesOf(rest, k)), a.value, Reversed(ValuesOf(mid, k)) + Reversed(ValuesOf(pre, k)),
                    Stack(View(s), k));
    TwoFirst(Todos(s2), v, w, rest);
    PrecedesTwice(pre, mid, Todos(s2), Todos(s1), Todos(s));
    var all := pre + mid + ([a, b] + rest);
    Preceded(pre + mid, Todos(s2), Todos(s), [a, b] + rest);
    forall merged | Interleaves(Todos(s), merged) ensures |added| + 1 == |ValuesOf(merged, k)| {
      MergesCount(Todos(s), merged, all, k);
    }
  }

  lemma {:induction false} Preceded<T(!new)>(items: seq<T>, later: seq<seq<T>>, todos: seq<seq<T>>, rest: seq<T>)
    requires Precedes(items, later, todos) && Interleaves(later, rest)
    ensures Interleaves(todos, items + rest)
  {
  }

  lemma {:induction false} QuietSteady<K, V>(s: State<K, V>)
    requires Quiet(s)
    ensures AllSteady(s)
  {
  }

  /** A complete run leaves what some merge of whole calls leaves. */
  ghost predicate ComesToCalls<K(!new), V(!new)>(s: State<K, V>, schedule: seq<nat>)
    requires Sane(s)
  {
    Complete(Run(s, schedule)) ==>
      exists merged :: Interleaves(Todos(s), merged) && View(Run(s, schedule)) == PushItems(View(s), merged)
  }

  lemma {:induction false} Lost<K(!new), V(!new)>(s: State<K, V>, schedule: seq<nat>, added: seq<V>, k: K)
    requires Sane(s) && Complete(Run(s, schedule))
    requires Stack(View(Run(s, schedule)), k) == added + Stack(View(s), k)
    requires forall merged :: Interleaves(Todos(s), merged) ==> |added| + 1 == |ValuesOf(merged, k)|
    ensures !ComesToCalls(s, schedule)
  {
    hide View, Sane, PushItems, Interleaves, Stack, Run, Complete, ValuesOf;
    forall merged | Interleaves(Todos(s), merged) ensures View(Run(s, schedule)) != PushItems(View(s), merged) {
      PushItemsLength(View(s), merged, k);
    }
  }

  /** The steps of the workers come to a merge of whole calls under every schedule
      exactly when no two workers add under one key. */
  lemma {:induction false} WholeCalls<K(!new), V(!new)>(s: State<K, V>)
    requires Quiet(s)
    ensures (forall schedule :: ComesToCalls(s, schedule)) <==> OwnKeys(Todos(s))
  {
    hide View, Sane, PushItems, Interleaves, Stack, Run, Complete, Linkings, SaneWorker, Steady;
    if OwnKeys(Todos(s)) {
      QuietSteady(s);
      forall schedule ensures ComesToCalls(s, schedule) {
        EveryRun(s, schedule);
      }
    } else {
      var v, w, i, j :| 0 <= v < w < |Todos(s)| && 0 <= i < |Todos(s)[v]| && 0 <= j < |Todos(s)[w]| &&
        Todos(s)[v][i].key == Todos(s)[w][j].key;
      var schedule, added := LostRow(s, v, w, i, j);
      Lost(s, schedule, added, Todos(s)[v][i].key);
    }
  }
}
