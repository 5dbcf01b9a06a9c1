/** Rows unlinked from one bucket by several workers at once. A call searches the
    key, walks to it again, reads the link behind it and writes that link into the
    row in front of it, or into the bucket, without a critical section. */
module ConcurrentUnlinks {
  import opened Wrappers

  /** How far a worker is with the first row it has to unlink. Slot 0 is the bucket,
      and slot i + 1 the link of row i. */
  datatype Phase =
    | Idle
    | Searching(slot: nat)
    | Walking(slot: nat)
    | Matched(slot: nat)
    | Ready(slot: nat, value: nat)

  datatype Worker = Worker(todo: seq<nat>, phase: Phase)

  /** The rows are numbered from 0 in the order of the chain at first; each slot holds
      a row number, or the number of rows for the end. A worker's row may be that
      number, too, for a key that the bucket does not have. */
  datatype State = State(next: seq<nat>, workers: seq<Worker>)

  /** Nothing for an idle worker to do. */
  predicate Done(worker: Worker) {
    worker.todo == [] && worker.phase.Idle?
  }

  predicate Sane(s: State) {
    && s.next != []
    && (forall slot :: 0 <= slot < |s.next| ==> s.next[slot] < |s.next|)
    && forall w :: 0 <= w < |s.workers| ==> SaneWorker(s.workers[w], |s.next|)
  }

  predicate SaneWorker(worker: Worker, size: nat) {
    && (forall i :: 0 <= i < |worker.todo| ==> worker.todo[i] < size)
    && (worker.todo == [] ==> worker.phase.Idle?)
    && match worker.phase
       case Idle => true
       case Searching(slot) => slot < size
       case Walking(slot) => slot < size
       case Matched(slot) => slot < size && worker.todo[0] + 1 < size
       case Ready(slot, value) => slot < size && value < size
  }

  /** The worker after its next step; only its last step changes a slot. */
  function Stepped(s: State, w: nat): Worker
    requires Sane(s) && w < |s.workers| && !Done(s.workers[w])
  {
    var worker := s.workers[w];
    assert SaneWorker(worker, |s.next|);
    var row, end := worker.todo[0], |s.next| - 1;
    match worker.phase
    case Idle => worker.(phase := Searching(0))
    case Searching(slot) =>
      var current := s.next[slot];
      if current == end then Worker(worker.todo[1..], Idle)
      else if current == row then worker.(phase := Walking(0))
      else worker.(phase := Searching(current + 1))
    case Walking(slot) =>
      var current := s.next[slot];
      if current == end then Worker(worker.todo[1..], Idle)
      else if current == row then worker.(phase := Matched(slot))
      else worker.(phase := Walking(current + 1))
    case Matched(slot) => worker.(phase := Ready(slot, s.next[row + 1]))
    case Ready(_, _) => Worker(worker.todo[1..], Idle)
  }

  /** The next step of worker w; none if it is done. */
  function Step(s: State, w: nat): (s': State)
    requires Sane(s)
    ensures Sane(s') && |s'.next| == |s.next| && |s'.workers| == |s.workers|
  {
    if w >= |s.workers| || Done(s.workers[w]) then s
    else
      var worker := s.workers[w];
      assert SaneWorker(worker, |s.next|);
      var stepped := s.workers[w := Stepped(s, w)];
      if worker.phase.Ready? then State(s.next[worker.phase.slot := worker.phase.value], stepped)
      else State(s.next, stepped)
  }

  /** The workers step as the schedule says. */
  function Run(s: State, schedule: seq<nat>): (s': State)
    requires Sane(s)
    ensures Sane(s') && |s'.next| == |s.next| && |s'.workers| == |s.workers|
    decreases |schedule|
  {
    if schedule == [] then s else Run(Step(s, schedule[0]), schedule[1..])
  }

  predicate Complete(s: State) {
    forall w :: 0 <= w < |s.workers| ==> Done(s.workers[w])
  }

  /** The rows linked from a slot on. */
  function LinkedFrom(next: seq<nat>, slot: nat): seq<nat>
    decreases |next| - slot
  {
    if slot >= |next| || next[slot] < slot || next[slot] + 1 >= |next| then []
    else [next[slot]] + LinkedFrom(next, next[slot] + 1)
  }

  /** Who unlinks which row; a row may stay. */
  type Owners = seq<Option<nat>>

  /** The rows of a set in order, from one on. */
  function RowsIn(rows: set<nat>, from: nat, n: nat): seq<nat>
    decreases n - from
  {
    if from >= n then [] else (if from in rows then [from] else []) + RowsIn(rows, from + 1, n)
  }

  /** The rows that nobody unlinks. */
  function Kept(owners: Owners): set<nat> {
    set r | 0 <= r < |owners| && owners[r].None?
  }

  /** All rows are linked in order, and each worker has to unlink its own rows, each
      once, besides keys that are not there. */
  predicate Start(s: State, owners: Owners) {
    && Sane(s) && |s.next| == |owners| + 1
    && (forall slot :: 0 <= slot < |s.next| ==> s.next[slot] == slot)
    && (forall w :: 0 <= w < |s.workers| ==> s.workers[w].phase.Idle?)
    && (forall w, i :: 0 <= w < |s.workers| && 0 <= i < |s.workers[w].todo| && s.workers[w].todo[i] < |owners| ==>
          owners[s.workers[w].todo[i]] == Some(w))
    && (forall r :: 0 <= r < |owners| && owners[r].Some? ==>
          owners[r].value < |s.workers| && r in s.workers[owners[r].value].todo)
    && (forall w, i, j :: 0 <= w < |s.workers| && 0 <= i < j < |s.workers[w].todo| && s.workers[w].todo[i] < |owners| ==>
          s.workers[w].todo[i] != s.workers[w].todo[j])
  }

  /** Two neighbours in the chain that are both unlinked have the same worker. */
  predicate Neighbourly(owners: Owners) {
    forall r :: 0 <= r < |owners| - 1 && owners[r].Some? && owners[r + 1].Some? ==> owners[r] == owners[r + 1]
  }

  // -------------------------------------------------------------- what a chain links

  /** A slot leads past rows that are not in the set to the next one that is. */
  predicate Leads(next: seq<nat>, slot: nat, rows: set<nat>)
    requires slot < |next|
  {
    && Skips(next, slot, rows)
    && (next[slot] == |next| - 1 || next[slot] in rows)
  }

  predicate Skips(next: seq<nat>, slot: nat, rows: set<nat>)
    requires slot < |next|
  {
    slot <= next[slot] < |next| && forall r :: slot <= r < next[slot] ==> r !in rows
  }

  /** The bucket and the rows of the set are a chain of just these rows. */
  ghost predicate Chained(next: seq<nat>, rows: set<nat>) {
    forall slot :: 0 <= slot < |next| && (slot == 0 || slot - 1 in rows) ==> Leads(next, slot, rows)
  }

  lemma {:induction false} RowsSkipped(rows: set<nat>, from: nat, until: nat, n: nat)
    requires from <= until <= n && forall r :: from <= r < until ==> r !in rows
    ensures RowsIn(rows, from, n) == RowsIn(rows, until, n)
    decreases until - from
  {
    if from < until {
      RowsSkipped(rows, from + 1, until, n);
    }
  }

  lemma {:induction false} LinkedRows(next: seq<nat>, rows: set<nat>, slot: nat)
    requires Chained(next, rows) && slot < |next| && (slot == 0 || slot - 1 in rows)
    ensures LinkedFrom(next, slot) == RowsIn(rows, slot, |next| - 1)
    decreases |next| - slot
  {
    assert Leads(next, slot, rows);
    RowsSkipped(rows, slot, next[slot], |next| - 1);
    if next[slot] + 1 < |next| {
      LinkedRows(next, rows, next[slot] + 1);
    }
  }

  lemma {:induction false} RowIn(rows: set<nat>, from: nat, n: nat, r: nat)
    ensures r in RowsIn(rows, from, n) <==> r in rows && from <= r < n
    decreases n - from
  {
    if from < n {
      RowIn(rows, from + 1, n, r);
    }
  }

  /** A slot that led to a row leads past it. */
  lemma {:induction false} Cut(next: seq<nat>, rows: set<nat>, slot: nat, row: nat)
    requires Chained(next, rows) && row in rows && row + 1 < |next|
    requires slot < |next| && (slot == 0 || slot - 1 in rows) && next[slot] == row
    ensures Chained(next[slot := next[row + 1]], rows - {row})
  {
    var next', rows' := next[slot := next[row + 1]], rows - {row};
    assert Leads(next, slot, rows) && Leads(next, row + 1, rows);
    forall p | 0 <= p < |next'| && (p == 0 || p - 1 in rows') ensures Leads(next', p, rows') {
      assert Leads(next, p, rows);
      if p != slot && next[p] == row {
        OneWay(next, rows, p, slot, row);
      }
    }
  }

  /** Only one slot leads to a row. */
  lemma {:induction false} OneWay(next: seq<nat>, rows: set<nat>, p: nat, q: nat, row: nat)
    requires p < |next| && q < |next| && Leads(next, p, rows) && Leads(next, q, rows)
    requires (p == 0 || p - 1 in rows) && (q == 0 || q - 1 in rows) && next[p] == next[q] == row
    ensures p == q
  {
  }

  // ------------------------------------------------------------- neighbours of one worker

  /** The rows that are still to be linked: all but those that were unlinked. */
  ghost function Live(s: State, owners: Owners): set<nat> {
    set r | 0 <= r < |owners| &&
      (owners[r].None? || (owners[r].value < |s.workers| && r in s.workers[owners[r].value].todo))
  }

  /** Each worker's rows are its own, and it has each once. */
  ghost predicate Assigned(s: State, owners: Owners) {
    && (forall w, i :: 0 <= w < |s.workers| && 0 <= i < |s.workers[w].todo| && s.workers[w].todo[i] < |owners| ==>
          owners[s.workers[w].todo[i]] == Some(w))
    && (forall w, i, j :: 0 <= w < |s.workers| && 0 <= i < j < |s.workers[w].todo| && s.workers[w].todo[i] < |owners| ==>
          s.workers[w].todo[i] != s.workers[w].todo[j])
  }

  /** The slot is the bucket's, or of a row that only this worker could unlink. */
  ghost predicate Firm(s: State, owners: Owners, w: nat, slot: nat)
    requires slot <= |owners|
  {
    slot == 0 || owners[slot - 1].None? || (owners[slot - 1] == Some(w) && slot - 1 in Live(s, owners))
  }

  ghost predicate Placed(s: State, owners: Owners, w: nat)
    requires Sane(s) && |s.next| == |owners| + 1 && w < |s.workers|
  {
    var worker := s.workers[w];
    assert SaneWorker(worker, |s.next|);
    match worker.phase
    case Idle => true
    case Searching(slot) => slot <= worker.todo[0]
    case Walking(slot) =>
      && slot <= worker.todo[0] < |owners|
      && (slot > 0 && owners[slot - 1] == Some(w) ==> slot - 1 in Live(s, owners))
    case Matched(slot) => slot <= worker.todo[0] && s.next[slot] == worker.todo[0] && Firm(s, owners, w, slot)
    case Ready(slot, value) =>
      && slot <= worker.todo[0] && s.next[slot] == worker.todo[0] && Firm(s, owners, w, slot)
      && worker.todo[0] < |owners| && s.next[worker.todo[0] + 1] == value
  }

  ghost predicate Inv(s: State, owners: Owners) {
    && Sane(s) && |s.next| == |owners| + 1 && Assigned(s, owners)
    && Chained(s.next, Live(s, owners))
    && (forall slot :: 0 <= slot < |s.next| ==> Skips(s.next, slot, Live(s, owners)))
    && forall w :: 0 <= w < |s.workers| ==> Placed(s, owners, w)
  }

  lemma {:induction false} SameOwner(owners: Owners, a: nat, b: nat)
    requires Neighbourly(owners) && a <= b < |owners| && forall r :: a <= r <= b ==> owners[r].Some?
    ensures owners[a] == owners[b]
    decreases b - a
  {
    if a < b {
      SameOwner(owners, a + 1, b);
      assert owners[a].Some? && owners[a + 1].Some?;
    }
  }

  /** The row at which a worker is live. */
  lemma {:induction false} CurrentLive(s: State, owners: Owners, w: nat)
    requires Inv(s, owners) && w < |s.workers| && s.workers[w].todo != [] && s.workers[w].todo[0] < |owners|
    ensures s.workers[w].todo[0] in Live(s, owners) && owners[s.workers[w].todo[0]] == Some(w)
  {
  }

  /** Taking the first row off a worker's list. */
  lemma {:induction false} Dropped(s: State, s': State, owners: Owners, w: nat)
    requires Assigned(s, owners) && w < |s.workers| && s.workers[w].todo != []
    requires |s'.workers| == |s.workers| && s'.workers == s.workers[w := s'.workers[w]]
    requires s'.workers[w].todo == s.workers[w].todo[1..]
    ensures Assigned(s', owners) && Live(s', owners) == Live(s, owners) - {s.workers[w].todo[0]}
  {
    var todo, row := s.workers[w].todo, s.workers[w].todo[0];
    var after, before := Live(s', owners), Live(s, owners);
    forall r: nat ensures r in after <==> r in before && r != row {
      if r < |owners| && owners[r] == Some(w) {
        InTail(todo, r);
      }
    }
    forall v, i | 0 <= v < |s'.workers| && 0 <= i < |s'.workers[v].todo| && s'.workers[v].todo[i] < |owners|
      ensures owners[s'.workers[v].todo[i]] == Some(v)
    {
      assert s'.workers[v].todo[i] == s.workers[v].todo[if v == w then i + 1 else i];
    }
  }

  lemma {:induction false} InTail(todo: seq<nat>, r: nat)
    requires todo != []
    ensures r in todo <==> r == todo[0] || r in todo[1..]
  {
  }

  lemma {:induction false} Retained(s: State, s': State, owners: Owners, w: nat)
    requires Assigned(s, owners) && w < |s.workers|
    requires |s'.workers| == |s.workers| && s'.workers == s.workers[w := s'.workers[w]]
    requires s'.workers[w].todo == s.workers[w].todo
    ensures Assigned(s', owners) && Live(s', owners) == Live(s, owners)
  {
    assert forall v :: 0 <= v < |s.workers| ==> s'.workers[v].todo == s.workers[v].todo;
  }

  /** What a step does to the work that is left. */
  lemma {:induction false} LeftAfter(s: State, owners: Owners, w: nat)
    requires Sane(s) && |s.next| == |owners| + 1 && Assigned(s, owners) && w < |s.workers| && !Done(s.workers[w])
    ensures s.workers[w].todo != []
    ensures var s' := Step(s, w);
            && (s'.workers[w].todo == s.workers[w].todo || s'.workers[w].todo == s.workers[w].todo[1..])
            && Assigned(s', owners)
            && Live(s', owners) == if s'.workers[w].todo == s.workers[w].todo then Live(s, owners)
                                   else Live(s, owners) - {s.workers[w].todo[0]}
  {
    hide Assigned, Live;
    assert SaneWorker(s.workers[w], |s.next|);
    var s' := Step(s, w);
    if s'.workers[w].todo == s.workers[w].todo {
      Retained(s, s', owners, w);
    } else {
      Dropped(s, s', owners, w);
    }
  }

  /** The rows that a slot skips have been unlinked. */
  lemma {:induction false} Between(s: State, owners: Owners, slot: nat, row: nat)
    requires slot < |s.next| == |owners| + 1 && Skips(s.next, slot, Live(s, owners)) && s.next[slot] == row
    ensures forall r :: slot <= r < row ==> owners[r].Some?
  {
    forall r | slot <= r < row ensures owners[r].Some? {
      assert r !in Live(s, owners);
    }
  }

  /** A walk that meets its row stands at a slot that stays until the row is gone. */
  lemma {:induction false} MatchFirm(s: State, owners: Owners, w: nat)
    requires Inv(s, owners) && Neighbourly(owners) && w < |s.workers| && s.workers[w].phase.Walking?
    requires s.workers[w].todo != [] && s.next[s.workers[w].phase.slot] == s.workers[w].todo[0]
    ensures Firm(s, owners, w, s.workers[w].phase.slot)
  {
    var slot, row := s.workers[w].phase.slot, s.workers[w].todo[0];
    assert Placed(s, owners, w) && Skips(s.next, slot, Live(s, owners));
    CurrentLive(s, owners, w);
    if slot > 0 && owners[slot - 1].Some? {
      Between(s, owners, slot, row);
      SameOwner(owners, slot - 1, row);
    }
  }

  /** A walk never stands at a row that its own worker has unlinked. */
  lemma {:induction false} WalkOn(s: State, owners: Owners, w: nat)
    requires Inv(s, owners) && Neighbourly(owners) && w < |s.workers| && s.workers[w].phase.Walking?
    requires s.workers[w].todo != [] && s.next[s.workers[w].phase.slot] < |owners|
    ensures var row := s.next[s.workers[w].phase.slot]; owners[row] == Some(w) ==> row in Live(s, owners)
  {
    var slot := s.workers[w].phase.slot;
    var row := s.next[slot];
    assert Placed(s, owners, w) && Skips(s.next, slot, Live(s, owners));
    assert slot == 0 || slot - 1 in Live(s, owners) ==> Leads(s.next, slot, Live(s, owners));
    if owners[row] == Some(w) && slot > 0 && slot - 1 !in Live(s, owners) {
      Between(s, owners, slot, row);
      SameOwner(owners, slot - 1, row);
    }
  }

  lemma {:induction false} OwnMove(s: State, owners: Owners, w: nat)
    requires Inv(s, owners) && Neighbourly(owners) && w < |s.workers| && !Done(s.workers[w])
    requires !s.workers[w].phase.Ready?
    ensures var s' := Step(s, w);
            s'.next == s.next && Assigned(s', owners) && Live(s', owners) == Live(s, owners) && Placed(s', owners, w)
  {
    var s' := Step(s, w);
    assert Placed(s, owners, w) && SaneWorker(s.workers[w], |s.next|);
    LeftAfter(s, owners, w);
    if s.workers[w].todo[0] < |owners| { CurrentLive(s, owners, w); }
    match s.workers[w].phase
    case Idle =>
    case Searching(slot) => assert Skips(s.next, slot, Live(s, owners));
    case Walking(slot) =>
      assert Skips(s.next, slot, Live(s, owners));
      if s.next[slot] == s.workers[w].todo[0] {
        MatchFirm(s, owners, w);
      } else if s.next[slot] < |owners| {
        WalkOn(s, owners, w);
      }
    case Matched(slot) =>
  }

  /** Another worker's step that writes nothing. */
  lemma {:induction false} OtherMove(s: State, s': State, owners: Owners, w: nat, v: nat)
    requires Sane(s) && Sane(s') && |s.next| == |owners| + 1 && s'.next == s.next && v < |s.workers|
    requires |s'.workers| == |s.workers| && s'.workers[v] == s.workers[v] && Live(s', owners) == Live(s, owners)
    requires Placed(s, owners, v)
    ensures Placed(s', owners, v)
  {
    hide Live;
  }

  lemma {:induction false} MoveInv(s: State, owners: Owners, w: nat)
    requires Inv(s, owners) && Neighbourly(owners) && w < |s.workers| && !Done(s.workers[w])
    requires !s.workers[w].phase.Ready?
    ensures Inv(Step(s, w), owners)
  {
    OwnMove(s, owners, w);
    hide Live, Placed, Assigned, Neighbourly, Chained;
    var s' := Step(s, w);
    forall v | 0 <= v < |s'.workers| ensures Placed(s', owners, v) {
      if v != w {
        assert Placed(s, owners, v);
        OtherMove(s, s', owners, w, v);
      }
    }
  }

  /** Writing the link: the slot now leads past the row. */
  lemma {:induction false} WriteLinks(s: State, owners: Owners, w: nat)
    requires Inv(s, owners) && w < |s.workers| && s.workers[w].phase.Ready?
    ensures var s' := Step(s, w);
            && Assigned(s', owners) && Live(s', owners) == Live(s, owners) - {s.workers[w].todo[0]}
            && Chained(s'.next, Live(s', owners))
            && forall slot :: 0 <= slot < |s'.next| ==> Skips(s'.next, slot, Live(s', owners))
    ensures s.workers[w].todo != []
  {
    hide Assigned, Live;
    assert Placed(s, owners, w) && SaneWorker(s.workers[w], |s.next|);
    LeftAfter(s, owners, w);
    CurrentLive(s, owners, w);
    var row, slot := s.workers[w].todo[0], s.workers[w].phase.slot;
    FirmLive(s, owners, w, slot);
    Cut(s.next, Live(s, owners), slot, row);
    assert Skips(s.next, slot, Live(s, owners)) && Skips(s.next, row + 1, Live(s, owners));
    var s' := Step(s, w);
    forall p | 0 <= p < |s'.next| ensures Skips(s'.next, p, Live(s', owners)) {
      assert Skips(s.next, p, Live(s, owners));
    }
  }

  lemma {:induction false} FirmLive(s: State, owners: Owners, w: nat, slot: nat)
    requires slot <= |owners| && Firm(s, owners, w, slot)
    ensures slot == 0 || slot - 1 in Live(s, owners)
  {
  }

  /** Another worker's write does not move a worker. */
  lemma {:induction false} OtherWrite(s: State, owners: Owners, w: nat, v: nat)
    requires Inv(s, owners) && w < |s.workers| && s.workers[w].phase.Ready?
    requires v < |s.workers| && v != w
    ensures Placed(Step(s, w), owners, v)
  {
    hide Assigned, Live, Chained, Skips;
    WriteLinks(s, owners, w);
    LeftAfter(s, owners, w);
    assert Placed(s, owners, w) && Placed(s, owners, v);
    assert SaneWorker(s.workers[v], |s.next|) && SaneWorker(s.workers[w], |s.next|);
    CurrentLive(s, owners, w);
    var row := s.workers[w].todo[0];
    if s.workers[v].todo != [] && s.workers[v].todo[0] < |owners| {
      CurrentLive(s, owners, v);
    }
  }

  lemma {:induction false} StepInv(s: State, owners: Owners, w: nat)
    requires Inv(s, owners) && Neighbourly(owners)
    ensures Inv(Step(s, w), owners)
  {
    if w < |s.workers| && !Done(s.workers[w]) {
      if s.workers[w].phase.Ready? {
        WriteLinks(s, owners, w);
        hide Live, Assigned, Chained;
        var s' := Step(s, w);
        forall v | 0 <= v < |s'.workers| ensures Placed(s', owners, v) {
          if v != w {
            OtherWrite(s, owners, w, v);
          } else {
            IdlePlaced(s', owners, w);
          }
        }
      } else {
        MoveInv(s, owners, w);
      }
    }
  }

  lemma {:induction false} IdlePlaced(s: State, owners: Owners, w: nat)
    requires Sane(s) && |s.next| == |owners| + 1 && w < |s.workers| && s.workers[w].phase.Idle?
    ensures Placed(s, owners, w)
  {
  }

  lemma {:induction false} RunInv(s: State, owners: Owners, schedule: seq<nat>)
    requires Inv(s, owners) && Neighbourly(owners)
    ensures Inv(Run(s, schedule), owners)
    decreases |schedule|
  {
    if schedule != [] {
      hide Inv, Step, Neighbourly;
      InvSane(s, owners);
      StepInv(s, owners, schedule[0]);
      InvSane(Step(s, schedule[0]), owners);
      RunInv(Step(s, schedule[0]), owners, schedule[1..]);
    }
  }

  lemma {:induction false} InvSane(s: State, owners: Owners)
    requires Inv(s, owners)
    ensures Sane(s) && |s.next| == |owners| + 1
  {
  }

  lemma {:induction false} StartInv(s: State, owners: Owners)
    requires Start(s, owners)
    ensures Inv(s, owners) && forall r: nat :: r < |owners| ==> r in Live(s, owners)
  {
    forall r | 0 <= r < |owners| ensures r in Live(s, owners) {
    }
    forall w | 0 <= w < |s.workers| ensures Placed(s, owners, w) {
      IdlePlaced(s, owners, w);
    }
  }

  lemma {:induction false} NothingLeft(s: State, owners: Owners)
    requires Inv(s, owners) && Complete(s)
    ensures Live(s, owners) == Kept(owners)
  {
    forall r: nat ensures r in Live(s, owners) <==> r in Kept(owners) {
      if r < |owners| && owners[r].Some? && owners[r].value < |s.workers| {
        assert Done(s.workers[owners[r].value]);
      }
    }
  }

  /** Without neighbours of two workers every complete run leaves linked exactly what
      nobody unlinks. */
  lemma {:induction false} EveryRun(s: State, owners: Owners, schedule: seq<nat>)
    requires Start(s, owners) && Neighbourly(owners) && Complete(Run(s, schedule))
    ensures LinkedFrom(Run(s, schedule).next, 0) == RowsIn(Kept(owners), 0, |owners|)
  {
    hide Live, Placed, Assigned, Skips, LinkedFrom, RowsIn, Run;
    StartInv(s, owners);
    RunInv(s, owners, schedule);
    NothingLeft(Run(s, schedule), owners);
    LinkedRows(Run(s, schedule).next, Kept(owners), 0);
  }

  // ------------------------------------------------------------------- one after the other

  lemma {:induction false} RunConcat(s: State, a: seq<nat>, b: seq<nat>)
    requires Sane(s)
    ensures Run(s, a + b) == Run(Run(s, a), b)
    decreases |a|
  {
    hide Step;
    if a == [] {
      assert a + b == b;
    } else {
      assert (a + b)[0] == a[0] && (a + b)[1..] == a[1..] + b;
      RunConcat(Step(s, a[0]), a[1..], b);
    }
  }

  lemma {:induction false} RunFirst(s: State, w: nat, rest: seq<nat>)
    requires Sane(s)
    ensures Run(s, [w] + rest) == Run(Step(s, w), rest)
    ensures Run(s, [w]) == Step(s, w)
  {
    hide Step;
    assert ([w] + rest)[1..] == rest && [w][1..] == [];
  }

  /** A worker alone walks to its row, which is linked. */
  lemma {:induction false} Walk(s: State, rows: set<nat>, w: nat) returns (schedule: seq<nat>, slot: nat)
    requires Sane(s) && Chained(s.next, rows) && w < |s.workers|
    requires s.workers[w].phase.Walking? && s.workers[w].todo != []
    requires var p := s.workers[w].phase.slot; p <= s.workers[w].todo[0] && (p == 0 || p - 1 in rows)
    requires s.workers[w].todo[0] in rows && s.workers[w].todo[0] + 1 < |s.next|
    ensures Run(s, schedule) == s.(workers := s.workers[w := s.workers[w].(phase := Matched(slot))])
    ensures slot <= s.workers[w].todo[0] && (slot == 0 || slot - 1 in rows) && s.next[slot] == s.workers[w].todo[0]
    decreases s.workers[w].todo[0] - s.workers[w].phase.slot
  {
    var p, row := s.workers[w].phase.slot, s.workers[w].todo[0];
    assert SaneWorker(s.workers[w], |s.next|);
    assert Leads(s.next, p, rows);
    var s' := Step(s, w);
    if s.next[p] == row {
      schedule, slot := [w], p;
      RunFirst(s, w, []);
      assert s'.workers == s.workers[w := s.workers[w].(phase := Matched(slot))];
    } else {
      var rest;
      rest, slot := Walk(s', rows, w);
      schedule := [w] + rest;
      RunFirst(s, w, rest);
      assert s'.workers[w := s'.workers[w].(phase := Matched(slot))] ==
             s.workers[w := s.workers[w].(phase := Matched(slot))];
    }
  }

  /** A worker alone searches its row: it finds it if it is linked, and is done with it
      otherwise. */
  lemma {:induction false} Search(s: State, rows: set<nat>, w: nat) returns (schedule: seq<nat>)
    requires Sane(s) && Chained(s.next, rows) && w < |s.workers|
    requires s.workers[w].phase.Searching? && s.workers[w].todo != []
    requires var p := s.workers[w].phase.slot;
             (p == 0 || p - 1 in rows) && (s.workers[w].todo[0] in rows ==> p <= s.workers[w].todo[0])
    ensures Run(s, schedule) == s.(workers := s.workers[w :=
              if s.workers[w].todo[0] in rows && s.workers[w].todo[0] + 1 < |s.next|
              then s.workers[w].(phase := Walking(0)) else Worker(s.workers[w].todo[1..], Idle)])
    decreases |s.next| - s.workers[w].phase.slot
  {
    var p, row := s.workers[w].phase.slot, s.workers[w].todo[0];
    assert SaneWorker(s.workers[w], |s.next|);
    assert Leads(s.next, p, rows);
    var s' := Step(s, w);
    var worker := if row in rows && row + 1 < |s.next| then s.workers[w].(phase := Walking(0))
                  else Worker(s.workers[w].todo[1..], Idle);
    if s.next[p] == |s.next| - 1 || s.next[p] == row {
      schedule := [w];
      RunFirst(s, w, []);
      assert s'.workers == s.workers[w := worker];
    } else {
      var rest := Search(s', rows, w);
      schedule := [w] + rest;
      RunFirst(s, w, rest);
      assert s'.workers[w := worker] == s.workers[w := worker];
    }
  }

  /** A worker alone unlinks its row, if it is linked. */
  lemma {:induction false} SoloCall(s: State, rows: set<nat>, w: nat) returns (schedule: seq<nat>)
    requires Sane(s) && Chained(s.next, rows) && w < |s.workers|
    requires s.workers[w].phase.Idle? && s.workers[w].todo != []
    ensures Run(s, schedule).workers == s.workers[w := Worker(s.workers[w].todo[1..], Idle)]
    ensures Chained(Run(s, schedule).next, rows - {s.workers[w].todo[0]})
  {
    hide Run, Chained;
    assert SaneWorker(s.workers[w], |s.next|);
    var row, rest := s.workers[w].todo[0], s.workers[w].todo[1..];
    var s1 := Step(s, w);
    var search := Search(s1, rows, w);
    RunFirst(s, w, search);
    var s2 := Run(s, [w] + search);
    if row in rows && row + 1 < |s.next| {
      var walk, slot := Walk(s2, rows, w);
      var s3 := Run(s2, walk);
      RunConcat(s, [w] + search, walk);
      LastSteps(s3, rows, w);
      schedule := ([w] + search + walk) + [w, w];
      RunConcat(s, [w] + search + walk, [w, w]);
      assert Run(s3, [w, w]).workers == s.workers[w := Worker(rest, Idle)];
    } else {
      schedule := [w] + search;
      Unaffected(s.next, rows, row);
      assert s2.workers == s.workers[w := Worker(rest, Idle)];
    }
  }

  lemma {:induction false} Unaffected(next: seq<nat>, rows: set<nat>, row: nat)
    requires Chained(next, rows) && (row !in rows || row + 1 >= |next|)
    ensures Chained(next, rows - {row})
  {
    forall slot | 0 <= slot < |next| && (slot == 0 || slot - 1 in rows - {row}) ensures Leads(next, slot, rows - {row}) {
      assert Leads(next, slot, rows);
    }
  }

  /** The last two steps of a call, with nothing in between. */
  lemma {:induction false} LastSteps(s: State, rows: set<nat>, w: nat)
    requires Sane(s) && Chained(s.next, rows) && w < |s.workers| && s.workers[w].phase.Matched?
    requires s.workers[w].todo != [] && s.workers[w].todo[0] in rows
    requires var slot := s.workers[w].phase.slot;
             (slot == 0 || slot - 1 in rows) && slot < |s.next| && s.next[slot] == s.workers[w].todo[0]
    ensures var s' := Run(s, [w, w]);
            && s'.workers == s.workers[w := Worker(s.workers[w].todo[1..], Idle)]
            && Chained(s'.next, rows - {s.workers[w].todo[0]})
  {
    hide Chained;
    assert SaneWorker(s.workers[w], |s.next|);
    assert [w] + [w] == [w, w];
    RunFirst(s, w, [w]);
    RunFirst(Step(s, w), w, []);
    Cut(s.next, rows, s.workers[w].phase.slot, s.workers[w].todo[0]);
    assert Step(Step(s, w), w).workers == s.workers[w := Worker(s.workers[w].todo[1..], Idle)];
  }

  /** A worker alone makes its first i calls. */
  lemma {:induction false} SoloCalls(s: State, rows: set<nat>, w: nat, i: nat)
    returns (schedule: seq<nat>, left: set<nat>)
    requires Sane(s) && Chained(s.next, rows) && w < |s.workers|
    requires s.workers[w].phase.Idle? && i <= |s.workers[w].todo|
    ensures Run(s, schedule).workers == s.workers[w := Worker(s.workers[w].todo[i..], Idle)]
    ensures Chained(Run(s, schedule).next, left)
    ensures forall r: nat :: r in rows && r !in s.workers[w].todo[..i] ==> r in left
    decreases i
  {
    hide Chained, Sane;
    var todo := s.workers[w].todo;
    if i == 0 {
      schedule, left := [], rows;
      assert s.workers[w := Worker(todo[0..], Idle)] == s.workers;
    } else {
      var call := SoloCall(s, rows, w);
      var s1 := Run(s, call);
      var more;
      more, left := SoloCalls(s1, rows - {todo[0]}, w, i - 1);
      hide Run;
      RunConcat(s, call, more);
      schedule := call + more;
      assert s1.workers[w].todo == todo[1..] && todo[1..][i - 1..] == todo[i..];
      assert todo[..i] == [todo[0]] + todo[1..][..i - 1];
    }
  }

  /** The first m workers make all their calls, one worker after the other. */
  lemma {:induction false} SoloAll(s: State, rows: set<nat>, m: nat) returns (schedule: seq<nat>, left: set<nat>)
    requires Sane(s) && Chained(s.next, rows) && m <= |s.workers|
    requires forall w :: 0 <= w < |s.workers| ==> s.workers[w].phase.Idle?
    requires forall w :: m <= w < |s.workers| ==> s.workers[w].todo == []
    ensures Complete(Run(s, schedule)) && Chained(Run(s, schedule).next, left)
    ensures forall r: nat :: r in rows && (forall w :: 0 <= w < m ==> r !in s.workers[w].todo) ==> r in left
    decreases m
  {
    hide Chained, Sane;
    if m == 0 {
      schedule, left := [], rows;
    } else {
      var n := |s.workers[m - 1].todo|;
      var calls, between := SoloCalls(s, rows, m - 1, n);
      assert s.workers[m - 1].todo[..n] == s.workers[m - 1].todo;
      var more;
      more, left := SoloAll(Run(s, calls), between, m - 1);
      hide Run;
      RunConcat(s, calls, more);
      schedule := calls + more;
    }
  }

  /** What is written into a row that is not linked does not matter. */
  lemma {:induction false} Unseen(next: seq<nat>, rows: set<nat>, row: nat, value: nat)
    requires Chained(next, rows) && row !in rows && row + 1 < |next|
    ensures Chained(next[row + 1 := value], rows)
  {
    var next' := next[row + 1 := value];
    forall slot | 0 <= slot < |next'| && (slot == 0 || slot - 1 in rows) ensures Leads(next', slot, rows) {
      assert Leads(next, slot, rows);
    }
  }

  /** A worker walks to its row and stands in front of it. */
  lemma {:induction false} WalkTo(s: State, rows: set<nat>, w: nat) returns (schedule: seq<nat>, slot: nat)
    requires Sane(s) && Chained(s.next, rows) && w < |s.workers| && s.workers[w].phase.Idle?
    requires s.workers[w].todo != [] && s.workers[w].todo[0] in rows && s.workers[w].todo[0] + 1 < |s.next|
    ensures Run(s, schedule) == s.(workers := s.workers[w := s.workers[w].(phase := Matched(slot))])
    ensures slot <= s.workers[w].todo[0] && (slot == 0 || slot - 1 in rows) && s.next[slot] == s.workers[w].todo[0]
  {
    hide Chained, Run;
    assert SaneWorker(s.workers[w], |s.next|);
    var s1 := Step(s, w);
    var search := Search(s1, rows, w);
    RunFirst(s, w, search);
    var s2 := Run(s, [w] + search);
    var walk;
    walk, slot := Walk(s2, rows, w);
    RunConcat(s, [w] + search, walk);
    schedule := [w] + search + walk;
    assert s2.workers[w := s2.workers[w].(phase := Matched(slot))] == s.workers[w := s.workers[w].(phase := Matched(slot))];
  }

  /** One worker stands at a row that another one unlinks: what it writes then is not
      seen, and its own row stays linked. */
  lemma {:induction false} Race(s: State, rows: set<nat>, u: nat, w: nat) returns (schedule: seq<nat>)
    requires Sane(s) && Chained(s.next, rows) && u < |s.workers| && w < |s.workers| && u != w
    requires s.workers[u].phase.Idle? && s.workers[u].todo != [] && s.workers[w].phase.Idle? && s.workers[w].todo != []
    requires s.workers[w].todo[0] == s.workers[u].todo[0] + 1 && s.workers[w].todo[0] + 1 < |s.next|
    requires s.workers[u].todo[0] in rows && s.workers[w].todo[0] in rows
    ensures Run(s, schedule).workers == s.workers[u := Worker(s.workers[u].todo[1..], Idle)]
                                                 [w := Worker(s.workers[w].todo[1..], Idle)]
    ensures Chained(Run(s, schedule).next, rows - {s.workers[u].todo[0]})
  {
    hide Run, Chained;
    var row := s.workers[u].todo[0];
    var walk, slot := WalkTo(s, rows, w);
    StandsAt(s.next, rows, slot, row);
    var s1 := Run(s, walk);
    var call := SoloCall(s1, rows, u);
    var s2 := Run(s1, call);
    assert s2.workers[w] == s1.workers[w] && SaneWorker(s2.workers[w], |s2.next|);
    RunFirst(s2, w, [w]);
    RunFirst(Step(s2, w), w, []);
    assert [w] + [w] == [w, w];
    Unseen(s2.next, rows - {row}, row, s2.next[row + 2]);
    RunConcat(s, walk, call);
    RunConcat(s, walk + call, [w, w]);
    schedule := walk + call + [w, w];
    assert Run(s2, [w, w]).workers == s.workers[u := Worker(s.workers[u].todo[1..], Idle)]
                                               [w := Worker(s.workers[w].todo[1..], Idle)];
  }

  lemma {:induction false} StandsAt(next: seq<nat>, rows: set<nat>, slot: nat, row: nat)
    requires Chained(next, rows) && row in rows && slot <= row + 1 < |next| && (slot == 0 || slot - 1 in rows)
    requires next[slot] == row + 1
    ensures slot == row + 1
  {
    assert Leads(next, slot, rows);
  }

  /** A row is on its own worker's list only, and there once. */
  lemma {:induction false} OnlyThere(s: State, owners: Owners, w: nat, j: nat)
    requires Start(s, owners) && w < |s.workers| && j < |s.workers[w].todo| && s.workers[w].todo[j] < |owners|
    ensures var row := s.workers[w].todo[j];
            && row !in s.workers[w].todo[..j] && row !in s.workers[w].todo[j + 1..]
            && forall v :: 0 <= v < |s.workers| && v != w ==> row !in s.workers[v].todo
  {
    var todo := s.workers[w].todo;
    assert owners[todo[j]] == Some(w);
  }

  /** Two workers come to neighbours, and race. */
  lemma {:induction false} RaceAt(s: State, rows: set<nat>, u: nat, i: nat, w: nat, j: nat)
    returns (schedule: seq<nat>, left: set<nat>)
    requires Sane(s) && Chained(s.next, rows) && u < |s.workers| && w < |s.workers| && u != w
    requires s.workers[u].phase.Idle? && s.workers[w].phase.Idle?
    requires i < |s.workers[u].todo| && j < |s.workers[w].todo|
    requires s.workers[w].todo[j] == s.workers[u].todo[i] + 1 && s.workers[w].todo[j] + 1 < |s.next|
    requires s.workers[u].todo[i] in rows && s.workers[w].todo[j] in rows
    requires s.workers[u].todo[i] !in s.workers[u].todo[..i] && s.workers[u].todo[i] !in s.workers[w].todo[..j]
    requires s.workers[w].todo[j] !in s.workers[u].todo[..i] && s.workers[w].todo[j] !in s.workers[w].todo[..j]
    ensures Run(s, schedule).workers == s.workers[u := Worker(s.workers[u].todo[i + 1..], Idle)]
                                                 [w := Worker(s.workers[w].todo[j + 1..], Idle)]
    ensures Chained(Run(s, schedule).next, left) && s.workers[w].todo[j] in left
  {
    hide Run, Chained, Sane;
    var row, a, b := s.workers[u].todo[i], s.workers[u].todo, s.workers[w].todo;
    var c1, rows1 := SoloCalls(s, rows, u, i);
    var s1 := Run(s, c1);
    assert s1.workers[w] == s.workers[w];
    var c2, rows2 := SoloCalls(s1, rows1, w, j);
    var s2 := Run(s1, c2);
    assert s2.workers[u] == Worker(a[i..], Idle) && s2.workers[w] == Worker(b[j..], Idle);
    var c3 := Race(s2, rows2, u, w);
    RunConcat(s, c1, c2);
    RunConcat(s, c1 + c2, c3);
    schedule, left := c1 + c2 + c3, rows2 - {row};
    assert a[i..][1..] == a[i + 1..] && b[j..][1..] == b[j + 1..];
    assert Run(s2, c3).workers == s.workers[u := Worker(a[i + 1..], Idle)][w := Worker(b[j + 1..], Idle)];
  }

  /** If two workers unlink neighbours, some run leaves the second of them linked. */
  lemma {:induction false} StillLinked(s: State, owners: Owners, row: nat) returns (schedule: seq<nat>)
    requires Start(s, owners) && row + 1 < |owners|
    requires owners[row].Some? && owners[row + 1].Some? && owners[row] != owners[row + 1]
    ensures Complete(Run(s, schedule)) && row + 1 in LinkedFrom(Run(s, schedule).next, 0)
  {
    hide Run, LinkedFrom, Live, Chained;
    StartInv(s, owners);
    var u, w, rows := owners[row].value, owners[row + 1].value, Live(s, owners);
    var i :| 0 <= i < |s.workers[u].todo| && s.workers[u].todo[i] == row;
    var j :| 0 <= j < |s.workers[w].todo| && s.workers[w].todo[j] == row + 1;
    OnlyThere(s, owners, u, i);
    OnlyThere(s, owners, w, j);
    hide Start, Inv;
    var race, left := RaceAt(s, rows, u, i, w, j);
    var s1 := Run(s, race);
    assert forall v :: 0 <= v < |s1.workers| ==> row + 1 !in s1.workers[v].todo;
    var rest, last := SoloAll(s1, left, |s1.workers|);
    RunConcat(s, race, rest);
    schedule := race + rest;
    LinkedRows(Run(s, schedule).next, last, 0);
    RowIn(last, 0, |owners|, row + 1);
  }

  /** Every complete run leaves linked exactly what nobody unlinks, if and only if no
      two workers unlink neighbours in the chain. */
  lemma {:induction false} WholeUnlinks(s: State, owners: Owners)
    requires Start(s, owners)
    ensures (forall schedule :: Complete(Run(s, schedule)) ==>
               LinkedFrom(Run(s, schedule).next, 0) == RowsIn(Kept(owners), 0, |owners|))
            <==> Neighbourly(owners)
  {
    hide Run, LinkedFrom, RowsIn, SaneWorker, Complete;
    if Neighbourly(owners) {
      forall schedule | Complete(Run(s, schedule))
        ensures LinkedFrom(Run(s, schedule).next, 0) == RowsIn(Kept(owners), 0, |owners|)
      {
        EveryRun(s, owners, schedule);
      }
    } else {
      var row :| 0 <= row < |owners| - 1 && owners[row].Some? && owners[row + 1].Some? && owners[row] != owners[row + 1];
      var schedule := StillLinked(s, owners, row);
      RowIn(Kept(owners), 0, |owners|, row + 1);
    }
  }
}
