/** Stores into a hash table by any number of writers, while readers search it
    without a lock. Every access to a shared word is a step of its own; rows are
    never unlinked here. */
module ConcurrentTables {
  import opened Wrappers
  import opened StackMaps
  import opened HashTables

  /** A store: the row is created, then linked inside the critical section. */
  datatype Writer<K> =
    | Idle
    | Created(key: K, position: nat)
    | Locked(key: K, position: nat)
    | HeadRead(key: K, position: nat, head: nat)
    | NextWritten(key: K, position: nat)
    | HeadWritten(key: K, position: nat)

  /** A search. `left` counts the rows from `current` to the end of the chain, and
      `due` is the newest row of the key when the search began; the reader itself
      knows neither. */
  datatype Reader<K> =
    | Resting
    | Comparing(key: K, current: nat, left: nat, due: Option<nat>)
    | Advancing(key: K, current: nat, left: nat, due: Option<nat>)
    | Found(key: K, position: nat)
    | Missed(key: K, due: Option<nat>)

  /** `chains` records, per bucket, the rows in the order they were linked. */
  datatype State<K, V> = State(
    heads: seq<nat>,
    rows: Rows<K, V>,
    chains: seq<seq<nat>>,
    lock: Option<nat>,
    writers: seq<Writer<K>>,
    readers: seq<Reader<K>>)

  datatype Step<K, V> =
    | Allocate(w: nat, key: K, value: V, position: nat, garbage: nat)
    | Acquire(w: nat)
    | ReadHead(w: nat)
    | WriteNext(w: nat)
    | WriteHead(w: nat)
    | Release(w: nat)
    | Start(r: nat, find: K)
    | Compare(r: nat)
    | Advance(r: nat)
    | Rest(r: nat)

  /** The parts of a table that no step changes. */
  datatype Shape<!K> = Shape(hash: K -> nat, empty: nat)

  function Bucket<K, V>(sh: Shape<K>, s: State<K, V>, k: K): (b: nat)
    requires |s.heads| > 0
    ensures b < |s.heads|
  {
    sh.hash(k) % |s.heads|
  }

  predicate IsWriterStep<K, V>(step: Step<K, V>) {
    step.Allocate? || step.Acquire? || step.ReadHead? || step.WriteNext? || step.WriteHead? || step.Release?
  }

  predicate Enabled<K(==), V>(sh: Shape<K>, s: State<K, V>, step: Step<K, V>) {
    && 0 < |s.heads| == |s.chains|
    && (IsWriterStep(step) ==> step.w < |s.writers|)
    && (!IsWriterStep(step) ==> step.r < |s.readers|)
    && match step
       case Allocate(w, _, _, position, _) => s.writers[w].Idle? && position !in s.rows && position != sh.empty
       case Acquire(w) => s.writers[w].Created? && s.lock == None
       case ReadHead(w) => s.writers[w].Locked?
       case WriteNext(w) => s.writers[w].HeadRead? && s.writers[w].position in s.rows
       case WriteHead(w) => s.writers[w].NextWritten?
       case Release(w) => s.writers[w].HeadWritten?
       case Start(r, _) => s.readers[r].Resting?
       case Compare(r) => s.readers[r].Comparing? && (s.readers[r].current == sh.empty || s.readers[r].current in s.rows)
       case Advance(r) => s.readers[r].Advancing? && s.readers[r].current in s.rows && s.readers[r].left > 0
       case Rest(r) => s.readers[r].Found? || s.readers[r].Missed?
  }

  /** The first row of a key among some rows. */
  function FirstOf<K(==), V>(rows: Rows<K, V>, c: seq<nat>, k: K): Option<nat> {
    if c == [] then None
    else if c[0] in rows && rows[c[0]].key == k then Some(c[0])
    else FirstOf(rows, c[1..], k)
  }

  /** The newest linked row of a key. */
  function Newest<K(==), V>(sh: Shape<K>, s: State<K, V>, k: K): Option<nat>
    requires 0 < |s.heads| == |s.chains|
  {
    FirstOf(s.rows, s.chains[Bucket(sh, s, k)], k)
  }

  ghost function Next<K, V>(sh: Shape<K>, s: State<K, V>, step: Step<K, V>): State<K, V>
    requires Enabled(sh, s, step)
  {
    match step
    case Allocate(w, key, value, position, garbage) =>
      s.(rows := s.rows[position := Row(key, garbage, value)], writers := s.writers[w := Created(key, position)])
    case Acquire(w) =>
      s.(lock := Some(w), writers := s.writers[w := Locked(s.writers[w].key, s.writers[w].position)])
    case ReadHead(w) =>
      var wr := s.writers[w];
      s.(writers := s.writers[w := HeadRead(wr.key, wr.position, s.heads[Bucket(sh, s, wr.key)])])
    case WriteNext(w) =>
      var wr := s.writers[w];
      s.(rows := s.rows[wr.position := s.rows[wr.position].(next := wr.head)],
         writers := s.writers[w := NextWritten(wr.key, wr.position)])
    case WriteHead(w) =>
      var wr := s.writers[w];
      var b := Bucket(sh, s, wr.key);
      s.(heads := s.heads[b := wr.position],
         chains := s.chains[b := [wr.position] + s.chains[b]],
         writers := s.writers[w := HeadWritten(wr.key, wr.position)])
    case Release(w) =>
      s.(lock := None, writers := s.writers[w := Idle])
    case Start(r, key) =>
      var b := Bucket(sh, s, key);
      s.(readers := s.readers[r := Comparing(key, s.heads[b], |s.chains[b]|, Newest(sh, s, key))])
    case Compare(r) =>
      var rd := s.readers[r];
      s.(readers := s.readers[r :=
        if rd.current == sh.empty then Missed(rd.key, rd.due)
        else if s.rows[rd.current].key == rd.key then Found(rd.key, rd.current)
        else Advancing(rd.key, rd.current, rd.left, rd.due)])
    case Advance(r) =>
      var rd := s.readers[r];
      var next := s.rows[rd.current].next;
      s.(readers := s.readers[r :=
        if next == rd.current then Missed(rd.key, rd.due)
        else Comparing(rd.key, next, rd.left - 1, rd.due)])
    case Rest(r) =>
      s.(readers := s.readers[r := Resting])
  }

  // ------------------------------------------------------------------ invariant

  predicate InSection<K>(wr: Writer<K>) {
    wr.Locked? || wr.HeadRead? || wr.NextWritten? || wr.HeadWritten?
  }

  /** A row that its writer has not linked yet. */
  predicate IsPrivate<K>(wr: Writer<K>) {
    wr.Created? || wr.Locked? || wr.HeadRead? || wr.NextWritten?
  }

  ghost predicate WriterOk<K, V>(sh: Shape<K>, s: State<K, V>, w: nat)
    requires w < |s.writers| && 0 < |s.heads| == |s.chains|
  {
    var wr := s.writers[w];
    && (InSection(wr) <==> s.lock == Some(w))
    && (IsPrivate(wr) ==>
          && wr.position in s.rows && wr.position != sh.empty
          && s.rows[wr.position].key == wr.key
          && forall b :: 0 <= b < |s.chains| ==> wr.position !in s.chains[b])
    && (wr.HeadRead? ==> wr.head == s.heads[Bucket(sh, s, wr.key)])
    && (wr.NextWritten? ==> wr.position in s.rows && s.rows[wr.position].next == s.heads[Bucket(sh, s, wr.key)])
  }

  /** A reader that stands in its bucket's chain, with `left` rows to go. */
  ghost predicate Standing<K, V>(sh: Shape<K>, s: State<K, V>, key: K, current: nat, left: nat, due: Option<nat>)
    requires 0 < |s.heads| == |s.chains|
  {
    StandsIn(s.rows, s.chains[Bucket(sh, s, key)], sh.empty, key, current, left, due)
  }

  ghost predicate StandsIn<K, V>(rows: Rows<K, V>, c: seq<nat>, empty: nat, key: K, current: nat, left: nat,
                                 due: Option<nat>)
  {
    && left <= |c|
    && current == (if left == 0 then empty else c[|c| - left])
    && due == FirstOf(rows, c[|c| - left..], key)
  }

  ghost predicate ReaderOk<K, V>(sh: Shape<K>, s: State<K, V>, r: nat)
    requires r < |s.readers| && 0 < |s.heads| == |s.chains|
  {
    match s.readers[r]
    case Resting => true
    case Comparing(key, current, left, due) => Standing(sh, s, key, current, left, due)
    case Advancing(key, current, left, due) =>
      && left > 0 && Standing(sh, s, key, current, left, due)
      && current in s.rows && s.rows[current].key != key
    case Found(key, p) => p in s.chains[Bucket(sh, s, key)] && p in s.rows && s.rows[p].key == key
    case Missed(_, due) => due == None
  }

  ghost predicate Inv<K, V>(sh: Shape<K>, s: State<K, V>) {
    && TableOk(s.rows, s.heads, s.chains, sh.hash, sh.empty)
    && AllWithin(s.rows, s.chains)
    && (forall w :: 0 <= w < |s.writers| ==> WriterOk(sh, s, w))
    && (forall v, w :: 0 <= v < w < |s.writers| && IsPrivate(s.writers[v]) && IsPrivate(s.writers[w]) ==>
          s.writers[v].position != s.writers[w].position)
    && (forall r :: 0 <= r < |s.readers| ==> ReaderOk(sh, s, r))
  }

  /** An empty table, all threads at rest. */
  ghost predicate Init<K, V>(sh: Shape<K>, s: State<K, V>) {
    && 0 < |s.heads| == |s.chains|
    && (forall b :: 0 <= b < |s.heads| ==> s.heads[b] == sh.empty && s.chains[b] == [])
    && s.rows == map[] && s.lock == None
    && (forall w :: 0 <= w < |s.writers| ==> s.writers[w] == Idle)
    && (forall r :: 0 <= r < |s.readers| ==> s.readers[r] == Resting)
  }

  lemma {:induction false} InitInv<K, V>(sh: Shape<K>, s: State<K, V>)
    requires Init(sh, s)
    ensures Inv(sh, s)
  {
  }

  /** Linked rows keep their key and link, and stay at the end of their chain in
      the order they were linked. */
  ghost predicate Extends<K, V>(s: State<K, V>, s': State<K, V>) {
    && |s.heads| == |s.chains| == |s'.heads| == |s'.chains|
    && |s.writers| == |s'.writers| && |s.readers| == |s'.readers|
    && (forall b :: 0 <= b < |s.chains| ==>
          |s.chains[b]| <= |s'.chains[b]| && s'.chains[b][|s'.chains[b]| - |s.chains[b]|..] == s.chains[b])
    && (forall b, p :: 0 <= b < |s.chains| && p in s.chains[b] && p in s.rows ==> p in s'.rows && s'.rows[p] == s.rows[p])
  }

  lemma {:induction false} SuffixKept(c: seq<nat>, c': seq<nat>, left: nat)
    requires |c| <= |c'| && c'[|c'| - |c|..] == c && left <= |c|
    ensures c'[|c'| - left..] == c[|c| - left..]
    ensures left > 0 ==> c'[|c'| - left] == c[|c| - left]
  {
    var d := |c'| - |c|;
    assert forall i :: 0 <= i < |c| ==> c'[d + i] == c'[d..][i];
  }

  lemma {:induction false} FirstFrame<K, V>(rows: Rows<K, V>, rows': Rows<K, V>, c: seq<nat>, k: K)
    requires forall p :: p in c ==> p in rows && p in rows' && rows'[p] == rows[p]
    ensures FirstOf(rows', c, k) == FirstOf(rows, c, k)
  {
    if c != [] {
      FirstFrame(rows, rows', c[1..], k);
    }
  }

  lemma {:induction false} StandsExtended<K, V>(rows: Rows<K, V>, rows': Rows<K, V>, c: seq<nat>, c': seq<nat>, empty: nat,
                                                key: K, current: nat, left: nat, due: Option<nat>)
    requires |c| <= |c'| && c'[|c'| - |c|..] == c
    requires forall p :: p in c ==> p in rows && p in rows' && rows'[p] == rows[p]
    requires StandsIn(rows, c, empty, key, current, left, due)
    ensures StandsIn(rows', c', empty, key, current, left, due)
  {
    hide FirstOf;
    SuffixKept(c, c', left);
    assert forall p :: p in c[|c| - left..] ==> p in c;
    FirstFrame(rows, rows', c[|c| - left..], key);
  }

  /** A reader is not disturbed by what extends the chains. */
  lemma {:induction false} StandingExtends<K, V>(sh: Shape<K>, s: State<K, V>, s': State<K, V>, key: K, current: nat,
                                                 left: nat, due: Option<nat>)
    requires Extends(s, s') && 0 < |s.heads| && AllWithin(s.rows, s.chains)
    requires Standing(sh, s, key, current, left, due)
    ensures Standing(sh, s', key, current, left, due)
  {
    hide StandsIn;
    var b := Bucket(sh, s, key);
    StandsExtended(s.rows, s'.rows, s.chains[b], s'.chains[b], sh.empty, key, current, left, due);
  }

  lemma {:induction false} ReadersExtend<K, V>(sh: Shape<K>, s: State<K, V>, s': State<K, V>)
    requires Inv(sh, s) && Extends(s, s') && s'.readers == s.readers
    ensures forall r :: 0 <= r < |s'.readers| ==> ReaderOk(sh, s', r)
  {
    forall r | 0 <= r < |s'.readers| ensures ReaderOk(sh, s', r) {
      assert ReaderOk(sh, s, r);
      match s.readers[r]
      case Resting =>
      case Comparing(key, current, left, due) => StandingExtends(sh, s, s', key, current, left, due);
      case Advancing(key, current, left, due) =>
        StandingExtends(sh, s, s', key, current, left, due);
        var c := s.chains[Bucket(sh, s, key)];
        assert c[|c| - left] in c;
      case Found(key, p) =>
        var b := Bucket(sh, s, key);
        var c' := s'.chains[b];
        assert p in c'[|c'| - |s.chains[b]|..];
      case Missed(_, _) =>
    }
  }

  // ------------------------------------------------------------- every step keeps it

  ghost function ViewOf<K, V>(sh: Shape<K>, s: State<K, V>): StackMap<K, V>
    requires AllWithin(s.rows, s.chains)
  {
    ViewIn(s.rows, s.chains, sh.hash)
  }

  /** What a step does to the table as a map of stacks: linking a row pushes its
      value, and nothing else is visible. */
  ghost predicate StepView<K, V>(sh: Shape<K>, s: State<K, V>, step: Step<K, V>, s': State<K, V>)
    requires Enabled(sh, s, step)
    requires AllWithin(s.rows, s.chains) && AllWithin(s'.rows, s'.chains)
  {
    if step.WriteHead? then
      s.writers[step.w].position in s.rows &&
      ViewOf(sh, s') == Push(ViewOf(sh, s), s.writers[step.w].key, s.rows[s.writers[step.w].position].value)
    else ViewOf(sh, s') == ViewOf(sh, s)
  }

  ghost predicate TableStep<K, V>(sh: Shape<K>, s: State<K, V>, step: Step<K, V>, s': State<K, V>)
    requires Enabled(sh, s, step) && AllWithin(s.rows, s.chains)
  {
    && TableOk(s'.rows, s'.heads, s'.chains, sh.hash, sh.empty)
    && AllWithin(s'.rows, s'.chains)
    && Extends(s, s')
    && StepView(sh, s, step, s')
  }

  lemma {:induction false} AllocateTable<K(!new), V>(sh: Shape<K>, s: State<K, V>, step: Step<K, V>)
    requires Inv(sh, s) && Enabled(sh, s, step) && step.Allocate?
    ensures TableStep(sh, s, step, Next(sh, s, step))
  {
    hide TableOk, ViewIn;
    TableFrame(s.rows, Next(sh, s, step).rows, s.heads, s.chains, sh.hash, sh.empty);
  }

  lemma {:induction false} WriteNextTable<K(!new), V>(sh: Shape<K>, s: State<K, V>, step: Step<K, V>)
    requires Inv(sh, s) && Enabled(sh, s, step) && step.WriteNext?
    ensures TableStep(sh, s, step, Next(sh, s, step))
  {
    hide TableOk, ViewIn;
    assert WriterOk(sh, s, step.w);
    TableFrame(s.rows, Next(sh, s, step).rows, s.heads, s.chains, sh.hash, sh.empty);
  }

  lemma {:induction false} WriteHeadTable<K(!new), V>(sh: Shape<K>, s: State<K, V>, step: Step<K, V>)
    requires Inv(sh, s) && Enabled(sh, s, step) && step.WriteHead?
    ensures TableStep(sh, s, step, Next(sh, s, step))
  {
    hide TableOk, ViewIn, Push;
    assert WriterOk(sh, s, step.w);
    var wr := s.writers[step.w];
    var b := Bucket(sh, s, wr.key);
    var others := s.rows - {wr.position};
    var row := s.rows[wr.position];
    assert others[wr.position := row] == s.rows;
    assert row == Row(wr.key, s.heads[b], row.value);
    TableFrame(s.rows, others, s.heads, s.chains, sh.hash, sh.empty);
    TableStored(others, s.heads, s.chains, sh.hash, sh.empty, wr.position, wr.key, row.value, b);
    assert ([wr.position] + s.chains[b])[1..] == s.chains[b];
  }

  /** The other steps leave the table alone. */
  lemma {:induction false} OtherTable<K, V>(sh: Shape<K>, s: State<K, V>, step: Step<K, V>)
    requires Enabled(sh, s, step) && !step.Allocate? && !step.WriteNext? && !step.WriteHead?
    ensures var s' := Next(sh, s, step);
            && s'.rows == s.rows && s'.heads == s.heads && s'.chains == s.chains
            && |s'.writers| == |s.writers| && |s'.readers| == |s.readers|
  {
    hide Bucket, Newest;
  }

  lemma {:induction false} StepTable<K(!new), V>(sh: Shape<K>, s: State<K, V>, step: Step<K, V>)
    requires Inv(sh, s) && Enabled(sh, s, step)
    ensures TableStep(sh, s, step, Next(sh, s, step))
  {
    match step
    case Allocate(_, _, _, _, _) => AllocateTable(sh, s, step);
    case WriteNext(_) => WriteNextTable(sh, s, step);
    case WriteHead(_) => WriteHeadTable(sh, s, step);
    case _ =>
      OtherTable(sh, s, step);
      hide TableOk, ViewIn, Bucket, Next, Enabled, WriterOk, ReaderOk, AllWithin;
      assert Extends(s, Next(sh, s, step)) by { InvSizes(sh, s); }
  }

  lemma {:induction false} SameBucket<K, V>(sh: Shape<K>, s: State<K, V>, s': State<K, V>, k: K)
    requires 0 < |s.heads| == |s'.heads|
    ensures Bucket(sh, s', k) == Bucket(sh, s, k)
  {
  }

  /** A writer that does not step. */
  lemma {:induction false} OtherWriter<K, V>(sh: Shape<K>, s: State<K, V>, step: Step<K, V>, w: nat)
    requires Inv(sh, s) && Enabled(sh, s, step) && IsWriterStep(step)
    requires w < |s.writers| && w != step.w
    ensures WriterOk(sh, Next(sh, s, step), w)
    ensures step.Allocate? && IsPrivate(s.writers[w]) ==> s.writers[w].position != step.position
  {
    hide TableOk, ReaderOk, Bucket;
    var s' := Next(sh, s, step);
    assert WriterOk(sh, s, step.w) && WriterOk(sh, s, w);
    if !s.writers[w].Idle? {
      SameBucket(sh, s, s', s.writers[w].key);
    }
    if step.WriteHead? && IsPrivate(s.writers[w]) {
      assert s.writers[w].position != s.writers[step.w].position;
    }
  }

  lemma {:induction false} SteppingWriter<K, V>(sh: Shape<K>, s: State<K, V>, step: Step<K, V>)
    requires Inv(sh, s) && Enabled(sh, s, step) && IsWriterStep(step)
    ensures WriterOk(sh, Next(sh, s, step), step.w)
    ensures !step.Allocate? && IsPrivate(Next(sh, s, step).writers[step.w]) ==>
              IsPrivate(s.writers[step.w]) && Next(sh, s, step).writers[step.w].position == s.writers[step.w].position
  {
    hide TableOk, ReaderOk, Bucket;
    var s' := Next(sh, s, step);
    assert WriterOk(sh, s, step.w);
    if !s.writers[step.w].Idle? {
      SameBucket(sh, s, s', s.writers[step.w].key);
    }
  }

  lemma {:induction false} StepWriters<K, V>(sh: Shape<K>, s: State<K, V>, step: Step<K, V>)
    requires Inv(sh, s) && Enabled(sh, s, step) && IsWriterStep(step)
    ensures var s' := Next(sh, s, step);
            && (forall w :: 0 <= w < |s'.writers| ==> WriterOk(sh, s', w))
            && (forall v, w :: 0 <= v < w < |s'.writers| && IsPrivate(s'.writers[v]) && IsPrivate(s'.writers[w]) ==>
                  s'.writers[v].position != s'.writers[w].position)
  {
    hide TableOk, ReaderOk, WriterOk, Bucket;
    var s' := Next(sh, s, step);
    SteppingWriter(sh, s, step);
    forall w | 0 <= w < |s'.writers| && w != step.w
      ensures WriterOk(sh, s', w) && s'.writers[w] == s.writers[w]
      ensures step.Allocate? && IsPrivate(s.writers[w]) ==> s.writers[w].position != step.position
    {
      OtherWriter(sh, s, step, w);
    }
  }

  lemma {:induction false} StepReader<K, V>(sh: Shape<K>, s: State<K, V>, step: Step<K, V>)
    requires Inv(sh, s) && Enabled(sh, s, step) && !IsWriterStep(step)
    ensures 0 < |s.heads| == |s.chains| && step.r < |s.readers|
    ensures ReaderOk(sh, Next(sh, s, step), step.r)
  {
    assert ReaderOk(sh, s, step.r);
    match step
    case Start(r, key) =>
      var b := Bucket(sh, s, key);
      var c := s.chains[b];
      assert BucketOk(s.rows, s.heads[b], c, b, |s.heads|, sh.hash, sh.empty);
      assert c[|c| - |c|..] == c;
    case Compare(r) => CompareOk(sh, s, r);
    case Advance(r) => AdvanceOk(sh, s, r);
    case Rest(r) =>
  }

  lemma {:induction false} CompareOk<K, V>(sh: Shape<K>, s: State<K, V>, r: nat)
    requires Inv(sh, s) && Enabled(sh, s, Compare(r))
    ensures ReaderOk(sh, Next(sh, s, Compare(r)), r)
  {
    assert ReaderOk(sh, s, r);
    var rd := s.readers[r];
    var b := Bucket(sh, s, rd.key);
    var c := s.chains[b];
    assert BucketOk(s.rows, s.heads[b], c, b, |s.heads|, sh.hash, sh.empty);
    ChainWithin(s.rows, s.heads[b], c, sh.empty);
    if rd.left > 0 {
      assert c[|c| - rd.left] in c;
    } else {
      assert c[|c|..] == [];
    }
  }

  lemma {:induction false} AdvanceOk<K, V>(sh: Shape<K>, s: State<K, V>, r: nat)
    requires Inv(sh, s) && Enabled(sh, s, Advance(r))
    ensures ReaderOk(sh, Next(sh, s, Advance(r)), r)
    ensures Next(sh, s, Advance(r)).readers[r].Comparing?
  {
    assert ReaderOk(sh, s, r);
    var rd := s.readers[r];
    var b := Bucket(sh, s, rd.key);
    var c := s.chains[b];
    assert BucketOk(s.rows, s.heads[b], c, b, |s.heads|, sh.hash, sh.empty);
    var i := |c| - rd.left;
    ChainWithin(s.rows, s.heads[b], c, sh.empty);
    ChainNext(s.rows, s.heads[b], c, sh.empty, i + 1);
    assert c[i] in c;
    assert c[i..] == [c[i]] + c[i + 1..];
  }

  /** Every step of every thread keeps the invariant. */
  lemma {:induction false} StepInv<K(!new), V>(sh: Shape<K>, s: State<K, V>, step: Step<K, V>)
    requires Inv(sh, s) && Enabled(sh, s, step)
    ensures Inv(sh, Next(sh, s, step)) && TableStep(sh, s, step, Next(sh, s, step))
  {
    StepTable(sh, s, step);
    if IsWriterStep(step) {
      StepWriters(sh, s, step);
      WriterStep(sh, s, step);
      hide TableOk, WriterOk, ReaderOk, Extends, StepView, Bucket, Newest, Next, Enabled, IsPrivate, AllWithin;
      ReadersExtend(sh, s, Next(sh, s, step));
    } else {
      StepReaders(sh, s, step);
    }
  }

  lemma {:induction false} WriterStep<K, V>(sh: Shape<K>, s: State<K, V>, step: Step<K, V>)
    requires Enabled(sh, s, step) && IsWriterStep(step)
    ensures Next(sh, s, step).readers == s.readers
  {
    hide Bucket, Newest;
  }

  lemma {:induction false} WriterUntouched<K, V>(sh: Shape<K>, s: State<K, V>, s': State<K, V>, w: nat)
    requires w < |s.writers| && 0 < |s.heads| == |s.chains| && WriterOk(sh, s, w)
    requires s' == s.(readers := s'.readers)
    ensures WriterOk(sh, s', w)
  {
  }

  lemma {:induction false} ReaderUntouched<K, V>(sh: Shape<K>, s: State<K, V>, s': State<K, V>, r: nat)
    requires r < |s.readers| && 0 < |s.heads| == |s.chains| && ReaderOk(sh, s, r)
    requires s' == s.(readers := s'.readers)
    requires r < |s'.readers| && s'.readers[r] == s.readers[r]
    ensures ReaderOk(sh, s', r)
  {
  }

  /** A reader's step changes its own state only. */
  lemma {:induction false} ReaderStep<K, V>(sh: Shape<K>, s: State<K, V>, step: Step<K, V>)
    requires Enabled(sh, s, step) && !IsWriterStep(step)
    ensures var s' := Next(sh, s, step);
            && s' == s.(readers := s'.readers) && |s'.readers| == |s.readers|
            && forall r :: 0 <= r < |s.readers| && r != step.r ==> s'.readers[r] == s.readers[r]
  {
    hide Newest, Bucket;
  }

  lemma {:induction false} OtherReaders<K, V>(sh: Shape<K>, s: State<K, V>, s': State<K, V>, r: nat)
    requires Inv(sh, s) && 0 < |s.heads| == |s.chains|
    requires s' == s.(readers := s'.readers) && |s'.readers| == |s.readers| && r < |s'.readers|
    requires forall q :: 0 <= q < |s.readers| && q != r ==> s'.readers[q] == s.readers[q]
    requires ReaderOk(sh, s', r)
    ensures Inv(sh, s')
  {
    hide TableOk, WriterOk, ReaderOk, AllWithin;
    forall w | 0 <= w < |s'.writers| ensures WriterOk(sh, s', w) {
      WriterUntouched(sh, s, s', w);
    }
    forall q | 0 <= q < |s'.readers| ensures ReaderOk(sh, s', q) {
      if q != r {
        ReaderUntouched(sh, s, s', q);
      }
    }
  }

  lemma {:induction false} StepReaders<K, V>(sh: Shape<K>, s: State<K, V>, step: Step<K, V>)
    requires Inv(sh, s) && Enabled(sh, s, step) && !IsWriterStep(step)
    ensures Inv(sh, Next(sh, s, step))
  {
    hide Next, Inv, ReaderOk;
    StepReader(sh, s, step);
    ReaderStep(sh, s, step);
    OtherReaders(sh, s, Next(sh, s, step), step.r);
  }

  // ----------------------------------------------------------------------- whole runs

  ghost predicate IsRun<K, V>(sh: Shape<K>, s: State<K, V>, steps: seq<Step<K, V>>)
    decreases |steps|
  {
    steps == [] || (Enabled(sh, s, steps[0]) && IsRun(sh, Next(sh, s, steps[0]), steps[1..]))
  }

  ghost function After<K, V>(sh: Shape<K>, s: State<K, V>, steps: seq<Step<K, V>>): State<K, V>
    requires IsRun(sh, s, steps)
    decreases |steps|
  {
    if steps == [] then s else After(sh, Next(sh, s, steps[0]), steps[1..])
  }

  /** The values linked during a run, in the order of their linking steps. */
  ghost function Linkings<K, V>(sh: Shape<K>, s: State<K, V>, steps: seq<Step<K, V>>): seq<Item<K, V>>
    requires IsRun(sh, s, steps)
    decreases |steps|
  {
    if steps == [] then []
    else
      var rest := Linkings(sh, Next(sh, s, steps[0]), steps[1..]);
      if steps[0].WriteHead? && s.writers[steps[0].w].position in s.rows
      then [Item(s.writers[steps[0].w].key, s.rows[s.writers[steps[0].w].position].value)] + rest
      else rest
  }

  lemma {:induction false} ExtendsTransitive<K, V>(s: State<K, V>, t: State<K, V>, u: State<K, V>)
    requires Extends(s, t) && Extends(t, u)
    ensures Extends(s, u)
  {
    forall b | 0 <= b < |s.chains| ensures u.chains[b][|u.chains[b]| - |s.chains[b]|..] == s.chains[b] {
      var c, d, e := s.chains[b], t.chains[b], u.chains[b];
      assert forall i :: 0 <= i < |c| ==> c[i] == d[|d| - |c|..][i];
      assert forall i :: 0 <= i < |d| ==> d[i] == e[|e| - |d|..][i];
    }
    forall b, p | 0 <= b < |s.chains| && p in s.chains[b] && p in s.rows ensures p in u.rows && u.rows[p] == s.rows[p] {
      var c, d := s.chains[b], t.chains[b];
      assert p in d[|d| - |c|..];
      assert p in d;
    }
  }

  /** Safety over every interleaving: chains stay well formed, linked rows stay
      where they are, and the table is at any time the sequential result of the
      stores linked so far, in the order of their linking steps. */
  lemma {:induction false} EveryRun<K(!new), V>(sh: Shape<K>, s: State<K, V>, steps: seq<Step<K, V>>)
    requires Inv(sh, s) && IsRun(sh, s, steps)
    ensures Inv(sh, After(sh, s, steps)) && Extends(s, After(sh, s, steps))
    ensures ViewOf(sh, After(sh, s, steps)) == PushItems(ViewOf(sh, s), Linkings(sh, s, steps))
    decreases |steps|
  {
    hide TableOk, WriterOk, ReaderOk, ViewIn, Push;
    if steps == [] {
      RunOfNone(sh, s);
    } else {
      var s' := Next(sh, s, steps[0]);
      StepInv(sh, s, steps[0]);
      EveryRun(sh, s', steps[1..]);
      hide Extends, Next, Enabled, PushItems;
      ExtendsTransitive(s, s', After(sh, s, steps));
      if steps[0].WriteHead? {
        var wr := s.writers[steps[0].w];
        PushItemsFirst(ViewOf(sh, s), Item(wr.key, s.rows[wr.position].value), Linkings(sh, s', steps[1..]));
      }
    }
  }

  lemma {:induction false} RunOfNone<K, V>(sh: Shape<K>, s: State<K, V>)
    requires Inv(sh, s)
    ensures Extends(s, s)
    ensures PushItems(ViewOf(sh, s), []) == ViewOf(sh, s)
  {
  }

  /** Steps that belong to a search reader r is in. */
  predicate SameSearch<K, V>(steps: seq<Step<K, V>>, r: nat) {
    forall i :: 0 <= i < |steps| ==>
      !(steps[i].Start? && steps[i].r == r) && !(steps[i].Rest? && steps[i].r == r)
  }

  /** How many of the steps are taken by reader r. */
  function OwnSteps<K, V>(steps: seq<Step<K, V>>, r: nat): nat {
    if steps == [] then 0
    else (if !IsWriterStep(steps[0]) && steps[0].r == r then 1 else 0) + OwnSteps(steps[1..], r)
  }

  /** Steps a search has left, whatever the other threads do. */
  function Remaining<K>(rd: Reader<K>): nat {
    match rd
    case Comparing(_, _, left, _) => 2 * left + 1
    case Advancing(_, _, left, _) => 2 * left
    case _ => 0
  }

  /** A reader that is searching for a key it must find, or has found it. */
  predicate Pursues<K(==)>(rd: Reader<K>, key: K, due: Option<nat>) {
    match rd
    case Resting => false
    case Comparing(k, _, _, d) => k == key && d == due
    case Advancing(k, _, _, d) => k == key && d == due
    case Found(k, p) => k == key && due == Some(p)
    case Missed(k, d) => k == key && d == due
  }

  lemma {:induction false} SearchStepOf<K(!new), V>(sh: Shape<K>, s: State<K, V>, step: Step<K, V>, r: nat, key: K,
                                                    due: Option<nat>)
    requires Inv(sh, s) && Enabled(sh, s, step) && r < |s.readers|
    requires !(step.Start? && step.r == r) && !(step.Rest? && step.r == r)
    requires Pursues(s.readers[r], key, due)
    ensures var s' := Next(sh, s, step);
            && r < |s'.readers| && Pursues(s'.readers[r], key, due)
            && Remaining(s'.readers[r]) + (if !IsWriterStep(step) && step.r == r then 1 else 0) <= Remaining(s.readers[r])
  {
    assert ReaderOk(sh, s, r);
    if step.Advance? && step.r == r {
      AdvanceOk(sh, s, r);
    }
  }

  lemma {:induction false} SearchRun<K(!new), V>(sh: Shape<K>, s: State<K, V>, steps: seq<Step<K, V>>, r: nat, key: K,
                                                 due: Option<nat>)
    requires Inv(sh, s) && IsRun(sh, s, steps) && SameSearch(steps, r)
    requires r < |s.readers| && Pursues(s.readers[r], key, due)
    ensures var s' := After(sh, s, steps);
            && r < |s'.readers| && Pursues(s'.readers[r], key, due)
            && Remaining(s'.readers[r]) + OwnSteps(steps, r) <= Remaining(s.readers[r])
    decreases |steps|
  {
    if steps != [] {
      hide Inv, Next, Enabled, Remaining, Pursues, TableStep;
      StepInv(sh, s, steps[0]);
      assert SameSearch(steps[1..], r);
      SearchStepOf(sh, s, steps[0], r, key, due);
      SearchRun(sh, Next(sh, s, steps[0]), steps[1..], r, key, due);
    }
  }

  /** A search answers what a search in a single step would have answered when it
      began: the newest row that its key had then, or that it had none; and whatever
      the other threads do meanwhile, it ends within twice the length of the chain
      it found, plus one, steps of its own. */
  lemma {:induction false} EverySearch<K(!new), V>(sh: Shape<K>, s: State<K, V>, r: nat, key: K, steps: seq<Step<K, V>>)
    requires Inv(sh, s) && Enabled(sh, s, Start(r, key))
    requires IsRun(sh, Next(sh, s, Start(r, key)), steps) && SameSearch(steps, r)
    ensures var s' := After(sh, Next(sh, s, Start(r, key)), steps);
            && r < |s'.readers| && !s'.readers[r].Resting?
            && OwnSteps(steps, r) <= 2 * |s.chains[Bucket(sh, s, key)]| + 1
            && (s'.readers[r].Found? ==>
                  var p := s'.readers[r].position;
                  && 0 < |s'.heads| == |s'.chains| && p in s'.chains[Bucket(sh, s', key)]
                  && p in s'.rows && s'.rows[p].key == key
                  && Newest(sh, s, key) == Some(p))
            && (s'.readers[r].Missed? ==> Newest(sh, s, key) == None)
            && (Remaining(s'.readers[r]) == 0 <==> s'.readers[r].Found? || s'.readers[r].Missed?)
            && (Remaining(s'.readers[r]) > 0 ==> Enabled(sh, s', Compare(r)) || Enabled(sh, s', Advance(r)))
  {
    var s1 := Next(sh, s, Start(r, key));
    Started(sh, s, r, key);
    hide *;
    StepInv(sh, s, Start(r, key));
    SearchRun(sh, s1, steps, r, key, Newest(sh, s, key));
    EveryRun(sh, s1, steps);
    Answered(sh, After(sh, s1, steps), r, key, Newest(sh, s, key));
    SearchProgress(sh, After(sh, s1, steps), r);
  }

  lemma {:induction false} Started<K, V>(sh: Shape<K>, s: State<K, V>, r: nat, key: K)
    requires Enabled(sh, s, Start(r, key))
    ensures 0 < |s.heads| == |s.chains|
    ensures var s' := Next(sh, s, Start(r, key));
            && r < |s'.readers| && Pursues(s'.readers[r], key, Newest(sh, s, key))
            && Remaining(s'.readers[r]) == 2 * |s.chains[Bucket(sh, s, key)]| + 1
  {
    hide Newest, Bucket;
  }

  /** What a search has found, when it has ended. */
  lemma {:induction false} Answered<K, V>(sh: Shape<K>, s: State<K, V>, r: nat, key: K, due: Option<nat>)
    requires Inv(sh, s) && r < |s.readers| && Pursues(s.readers[r], key, due)
    ensures 0 < |s.heads| == |s.chains| && !s.readers[r].Resting?
    ensures s.readers[r].Found? ==>
              var p := s.readers[r].position;
              p in s.chains[Bucket(sh, s, key)] && p in s.rows && s.rows[p].key == key && due == Some(p)
    ensures s.readers[r].Missed? ==> due == None
  {
    hide TableOk, WriterOk, Standing, AllWithin, IsPrivate, Bucket;
    InvSizes(sh, s);
    assert ReaderOk(sh, s, r);
  }

  lemma {:induction false} InvSizes<K, V>(sh: Shape<K>, s: State<K, V>)
    requires Inv(sh, s)
    ensures 0 < |s.heads| == |s.chains|
  {
  }

  lemma {:induction false} SearchProgress<K, V>(sh: Shape<K>, s: State<K, V>, r: nat)
    requires Inv(sh, s) && r < |s.readers| && !s.readers[r].Resting?
    ensures Remaining(s.readers[r]) == 0 <==> s.readers[r].Found? || s.readers[r].Missed?
    ensures Remaining(s.readers[r]) > 0 ==> Enabled(sh, s, Compare(r)) || Enabled(sh, s, Advance(r))
  {
    hide TableOk, WriterOk, FirstOf, IsPrivate;
    InvSizes(sh, s);
    assert ReaderOk(sh, s, r);
    if s.readers[r].Comparing? && s.readers[r].left > 0 {
      var rd := s.readers[r];
      var c := s.chains[Bucket(sh, s, rd.key)];
      assert c[|c| - rd.left] in c;
    }
  }

  lemma {:induction false} FirstAlong<K, V>(rows: Rows<K, V>, c: seq<nat>, k: K)
    requires Within(rows, c)
    ensures FirstOf(rows, c, k).None? <==> Along(rows, c, k) == []
    ensures FirstOf(rows, c, k).Some? ==>
              FirstOf(rows, c, k).value in rows && Along(rows, c, k)[0] == rows[FirstOf(rows, c, k).value].value
  {
    if c != [] {
      FirstAlong(rows, c[1..], k);
    }
  }

  /** The newest row of a key holds what a lookup in the map of stacks returns. */
  lemma {:induction false} NewestPeek<K, V>(sh: Shape<K>, s: State<K, V>, k: K)
    requires Inv(sh, s)
    ensures Newest(sh, s, k).Some? ==> Newest(sh, s, k).value in s.rows
    ensures Peek(ViewOf(sh, s), k) ==
            if Newest(sh, s, k).None? then None else Some(s.rows[Newest(sh, s, k).value].value)
  {
    hide WriterOk, ReaderOk, Along, FirstOf, ViewIn;
    FirstAlong(s.rows, s.chains[Bucket(sh, s, k)], k);
    ViewStack(s.rows, s.chains, sh.hash, k);
  }
}
