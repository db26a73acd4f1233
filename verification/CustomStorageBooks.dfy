/**
 * Where the entries of a custom-storage log view are, in every reachable state: an entry is in the
 * queue, in storage at the position it was raised for, or dropped, and never in two of them.
 */
module CustomStorageBooks {
  import opened Wrappers
  import opened CustomStorage

  // ----- Facts about one entry -----

  ghost predicate Holds(item: Item, id: nat) {
    item.Own? && item.entry.id == id
  }

  ghost predicate Absent(log: seq<Item>, id: nat) {
    forall i | 0 <= i < |log| :: !Holds(log[i], id)
  }

  ghost predicate NotIn(es: seq<Entry>, id: nat) {
    forall q | 0 <= q < |es| :: es[q].id != id
  }

  /** In storage, and where it was raised for. */
  ghost predicate Stored(log: seq<Item>, e: Entry) {
    && !Absent(log, e.id)
    && (e.position.Some? ==> e.position.value < |log| && log[e.position.value] == Own(e))
  }

  // ----- Facts about one list of entries -----

  ghost predicate Increasing(es: seq<Entry>) {
    forall i, j | 0 <= i < j < |es| :: es[i].id < es[j].id
  }

  ghost predicate Known(e: Entry, raised: seq<Entry>) {
    e.id < |raised| && raised[e.id] == e
  }

  ghost predicate AllKnown(es: seq<Entry>, raised: seq<Entry>) {
    forall q | 0 <= q < |es| :: Known(es[q], raised)
  }

  ghost predicate Open(es: seq<Entry>, settled: map<nat, bool>, base: nat) {
    forall q | 0 <= q < |es| :: es[q].id !in settled && base <= es[q].id
  }

  ghost predicate AllStored(es: seq<Entry>, log: seq<Item>) {
    forall q | 0 <= q < |es| :: Stored(log, es[q])
  }

  ghost predicate Below(item: Item, n: nat) {
    item.Own? ==> item.entry.id < n
  }

  ghost predicate AllBelow(log: seq<Item>, n: nat) {
    forall i | 0 <= i < |log| :: Below(log[i], n)
  }

  /** Everything of ours in storage was raised before anything in `es`. */
  ghost predicate Later(es: seq<Entry>, log: seq<Item>) {
    forall q | 0 <= q < |es| :: AllBelow(log, es[q].id)
  }

  // ----- Storage -----

  ghost predicate RaisedInOrder(log: seq<Item>, i: nat, j: nat)
    requires i < |log| && j < |log|
  {
    log[i].Own? && log[j].Own? ==> log[i].entry.id < log[j].entry.id
  }

  ghost predicate LogOrdered(log: seq<Item>) {
    forall i, j | 0 <= i < j < |log| :: RaisedInOrder(log, i, j)
  }

  ghost predicate Placed(item: Item, i: nat, raised: seq<Entry>) {
    item.Own? ==> Known(item.entry, raised) && (item.entry.position.Some? ==> item.entry.position.value == i)
  }

  ghost predicate LogPlaced(log: seq<Item>, raised: seq<Entry>) {
    forall i | 0 <= i < |log| :: Placed(log[i], i, raised)
  }

  // ----- Every entry ever raised -----

  ghost predicate EntryInv(b: Books, flight: seq<Entry>, id: nat)
    requires id < |b.raised|
  {
    if id < b.base then Absent(b.log, id) && NotIn(b.pending, id)
    else if id in b.settled then
      && b.raised[id].position.Some?
      && NotIn(b.pending, id)
      && (if b.settled[id] then Stored(b.log, b.raised[id]) else Absent(b.log, id))
    else NotIn(b.pending, id) ==>
      && Stored(b.log, b.raised[id])
      && (b.raised[id].position.Some? && id !in b.abandoned ==> !NotIn(flight, id))
  }

  /** An abandoned entry has left the queue for storage, and nobody is told. */
  ghost predicate Abandoned(b: Books, flight: seq<Entry>, id: nat) {
    id < |b.raised| && (b.base <= id ==> Nowhere(b.settled, b.pending, id) && NotIn(flight, id))
  }

  ghost predicate AllAbandoned(b: Books, flight: seq<Entry>) {
    forall id | id in b.abandoned :: Abandoned(b, flight, id)
  }

  // ----- Every range -----

  /** The range's entries, side by side in `es`, and on one side of the cut after the first `cut`. */
  ghost predicate RangeAt(es: seq<Entry>, raised: seq<Entry>, r: (nat, nat), cut: nat, q: nat) {
    && q + r.1 <= |es|
    && r.0 + r.1 <= |raised|
    && es[q..q + r.1] == raised[r.0..r.0 + r.1]
    && (q + r.1 <= cut || cut <= q)
  }

  ghost predicate RangeIn(es: seq<Entry>, raised: seq<Entry>, r: (nat, nat), cut: nat) {
    exists q :: RangeAt(es, raised, r, cut, q)
  }

  ghost predicate SettledAs(settled: map<nat, bool>, r: (nat, nat), appended: bool) {
    forall id | r.0 <= id < r.0 + r.1 :: id in settled && settled[id] == appended
  }

  ghost predicate Nowhere(settled: map<nat, bool>, es: seq<Entry>, id: nat) {
    id !in settled && NotIn(es, id)
  }

  /** Written, but the fold threw and the re-read failed: nobody is told. */
  ghost predicate Unsettled(b: Books, flight: seq<Entry>, r: (nat, nat)) {
    forall id | r.0 <= id < r.0 + r.1 :: Nowhere(b.settled, b.pending, id) && NotIn(flight, id)
  }

  ghost predicate RangeShape(b: Books, r: (nat, nat)) {
    && b.base <= r.0
    && 0 < r.1
    && r.0 + r.1 <= |b.raised|
    && forall id | r.0 <= id < r.0 + r.1 :: PositionFrom(b.raised, r.0, id)
  }

  ghost predicate PositionFrom(raised: seq<Entry>, first: nat, id: nat) {
    && first <= id < |raised|
    && raised[first].position.Some?
    && raised[id].position == Some(raised[first].position.value + (id - first))
  }

  ghost predicate RangeFate(b: Books, cut: nat, flight: seq<Entry>, r: (nat, nat)) {
    || RangeIn(b.pending, b.raised, r, cut)
    || RangeIn(flight, b.raised, r, 0)
    || SettledAs(b.settled, r, true)
    || SettledAs(b.settled, r, false)
    || Unsettled(b, flight, r)
  }

  ghost predicate RangeInv(b: Books, cut: nat, flight: seq<Entry>, r: (nat, nat)) {
    RangeShape(b, r) && RangeFate(b, cut, flight, r)
  }

  // ----- The books -----

  /** The first `done` entries of the queue are in storage already; `flight` left it for storage, unsettled. */
  ghost predicate QueueInv(b: Books, done: nat, flight: seq<Entry>) {
    && done <= |b.pending|
    && b.base <= |b.raised|
    && Increasing(b.pending)
    && AllKnown(b.pending, b.raised)
    && Open(b.pending, b.settled, b.base)
    && AllStored(b.pending[..done], b.log)
    && Later(b.pending[done..], b.log)
    && Increasing(flight)
    && AllKnown(flight, b.raised)
    && Open(flight, b.settled, b.base)
    && AllStored(flight, b.log)
    && (forall q | 0 <= q < |flight| :: NotIn(b.pending, flight[q].id))
  }

  /** `cut` is the length of the batch in flight at the front of the queue, `landed` whether it is in storage. */
  ghost predicate BooksInv(b: Books, cut: nat, landed: bool, flight: seq<Entry>) {
    && cut <= |b.pending|
    && QueueInv(b, if landed then cut else 0, flight)
    && LogOrdered(b.log)
    && LogPlaced(b.log, b.raised)
    && (forall id | 0 <= id < |b.raised| :: b.raised[id].id == id && EntryInv(b, flight, id))
    && (forall id | id in b.settled :: id < |b.raised|)
    && AllAbandoned(b, flight)
    && (forall k | 0 <= k < |b.ranges| :: RangeInv(b, cut, flight, b.ranges[k]))
  }

  lemma ShapeStays(b: Books, b': Books, r: (nat, nat))
    requires RangeShape(b, r) && b'.raised == b.raised && b'.base == b.base
    ensures RangeShape(b', r)
  {
    forall id | r.0 <= id < r.0 + r.1 ensures PositionFrom(b'.raised, r.0, id) {
      assert PositionFrom(b.raised, r.0, id);
    }
  }

  lemma RangeMember(es: seq<Entry>, raised: seq<Entry>, r: (nat, nat), cut: nat, q: nat, id: nat)
    requires RangeAt(es, raised, r, cut, q) && r.0 <= id < r.0 + r.1
    ensures es[q + (id - r.0)] == raised[id]
  {
    assert es[q..q + r.1][id - r.0] == raised[r.0..r.0 + r.1][id - r.0];
  }

  // ----- Storage grows -----

  lemma StillStored(log: seq<Item>, more: seq<Item>, e: Entry)
    requires Stored(log, e)
    ensures Stored(log + more, e)
  {
    var i :| 0 <= i < |log| && Holds(log[i], e.id);
    assert Holds((log + more)[i], e.id);
  }

  lemma StillAbsent(log: seq<Item>, more: seq<Item>, id: nat)
    requires Absent(log, id) && Absent(more, id)
    ensures Absent(log + more, id)
  {
    forall i | 0 <= i < |log + more| ensures !Holds((log + more)[i], id) {
      assert i < |log| ==> !Holds(log[i], id);
      assert i >= |log| ==> !Holds(more[i - |log|], id);
    }
  }

  lemma ForeignWriteKeepsBooks(b: Books, cut: nat, landed: bool, flight: seq<Entry>, events: seq<Value>)
    requires BooksInv(b, cut, landed, flight)
    ensures BooksInv(b.(log := b.log + Foreigns(events)), cut, landed, flight)
  {
    var more := Foreigns(events);
    var b' := b.(log := b.log + more);
    var done := if landed then cut else 0;
    forall q | 0 <= q < done ensures Stored(b'.log, b.pending[..done][q]) { StillStored(b.log, more, b.pending[..done][q]); }
    forall q | 0 <= q < |flight| ensures Stored(b'.log, flight[q]) { StillStored(b.log, more, flight[q]); }
    forall q | 0 <= q < |b.pending[done..]| ensures AllBelow(b'.log, b.pending[done..][q].id) {
      assert AllBelow(b.log, b.pending[done..][q].id);
    }
    forall i, j | 0 <= i < j < |b'.log| ensures RaisedInOrder(b'.log, i, j) {
      assert j < |b.log| ==> RaisedInOrder(b.log, i, j);
    }
    forall id | 0 <= id < |b.raised| ensures EntryInv(b', flight, id) {
      assert EntryInv(b, flight, id);
      if Absent(b.log, id) { StillAbsent(b.log, more, id); }
      if Stored(b.log, b.raised[id]) { StillStored(b.log, more, b.raised[id]); }
    }
    forall k | 0 <= k < |b.ranges| ensures RangeInv(b', cut, flight, b.ranges[k]) {
      assert RangeInv(b, cut, flight, b.ranges[k]);
      SameQueueSameRange(b, b', cut, flight, b.ranges[k]);
    }
  }

  lemma SameQueueSameRange(b: Books, b': Books, cut: nat, flight: seq<Entry>, r: (nat, nat))
    requires RangeInv(b, cut, flight, r)
    requires b'.pending == b.pending && b'.settled == b.settled && b'.raised == b.raised && b'.base == b.base
    ensures RangeInv(b', cut, flight, r)
  {
    ShapeStays(b, b', r);
    if Unsettled(b, flight, r) {
      forall id | r.0 <= id < r.0 + r.1 ensures Nowhere(b'.settled, b'.pending, id) && NotIn(flight, id) {
        assert Nowhere(b.settled, b.pending, id);
      }
    }
  }

  // ----- The host applies a batch -----

  /** Every conditional entry of the batch would land at its position in a log of length `version`. */
  ghost predicate Positioned(batch: seq<Entry>, version: nat) {
    forall q | 0 <= q < |batch| :: !StaleAt(version, batch, q)
  }

  lemma BatchStored(log: seq<Item>, batch: seq<Entry>, q: nat)
    requires Positioned(batch, |log|) && q < |batch|
    ensures Stored(log + Owned(batch), batch[q])
  {
    var log' := log + Owned(batch);
    assert log'[|log| + q] == Own(batch[q]);
    assert Holds(log'[|log| + q], batch[q].id);
    assert !StaleAt(|log|, batch, q);
  }

  lemma NotInBatch(batch: seq<Entry>, id: nat)
    requires NotIn(batch, id)
    ensures Absent(Owned(batch), id)
  {
    forall i | 0 <= i < |Owned(batch)| ensures !Holds(Owned(batch)[i], id) {
      assert batch[i].id != id;
    }
  }

  lemma HostWriteKeepsBooks(b: Books, batch: seq<Entry>, b': Books)
    requires |batch| <= |b.pending| && batch == b.pending[..|batch|]
    requires BooksInv(b, |batch|, false, []) && Positioned(batch, |b.log|)
    requires b' == b.(log := b.log + Owned(batch))
    ensures BooksInv(b', |batch|, true, [])
  {
    var more := Owned(batch);
    assert b.pending[0..] == b.pending;
    forall q | 0 <= q < |batch| ensures Stored(b'.log, b.pending[..|batch|][q]) { BatchStored(b.log, batch, q); }
    forall q | 0 <= q < |b.pending[|batch|..]| ensures AllBelow(b'.log, b.pending[|batch|..][q].id) {
      var e := b.pending[|batch| + q];
      assert AllBelow(b.log, b.pending[0..][|batch| + q].id);
      forall i | 0 <= i < |b'.log| ensures Below(b'.log[i], e.id) {
        assert i < |b.log| ==> Below(b.log[i], e.id);
        assert i >= |b.log| ==> b'.log[i] == Own(b.pending[i - |b.log|]);
      }
    }
    BatchKeepsLog(b, batch);
    forall id | 0 <= id < |b.raised| ensures EntryInv(b', [], id) {
      assert EntryInv(b, [], id);
      if Absent(b.log, id) && NotIn(b.pending, id) {
        forall q | 0 <= q < |batch| ensures batch[q].id != id { assert b.pending[q].id != id; }
        NotInBatch(batch, id);
        StillAbsent(b.log, more, id);
      }
      if Stored(b.log, b.raised[id]) { StillStored(b.log, more, b.raised[id]); }
    }
    forall k | 0 <= k < |b.ranges| ensures RangeInv(b', |batch|, [], b.ranges[k]) {
      assert RangeInv(b, |batch|, [], b.ranges[k]);
      SameQueueSameRange(b, b', |batch|, [], b.ranges[k]);
    }
  }

  lemma BatchKeepsLog(b: Books, batch: seq<Entry>)
    requires QueueInv(b, 0, []) && LogOrdered(b.log) && LogPlaced(b.log, b.raised)
    requires |batch| <= |b.pending| && batch == b.pending[..|batch|] && Positioned(batch, |b.log|)
    ensures LogOrdered(b.log + Owned(batch)) && LogPlaced(b.log + Owned(batch), b.raised)
  {
    var log' := b.log + Owned(batch);
    assert b.pending[0..] == b.pending;
    forall i, j | 0 <= i < j < |log'| ensures RaisedInOrder(log', i, j) {
      if j < |b.log| {
        assert RaisedInOrder(b.log, i, j);
      } else {
        var e := b.pending[j - |b.log|];
        assert log'[j] == Own(e);
        if i < |b.log| {
          assert AllBelow(b.log, b.pending[0..][j - |b.log|].id);
          assert Below(b.log[i], e.id);
        } else {
          assert log'[i] == Own(b.pending[i - |b.log|]);
        }
      }
    }
    forall i | 0 <= i < |log'| ensures Placed(log'[i], i, b.raised) {
      if i < |b.log| {
        assert Placed(b.log[i], i, b.raised);
      } else {
        assert !StaleAt(|b.log|, batch, i - |b.log|);
        assert Known(b.pending[i - |b.log|], b.raised);
      }
    }
  }

  // ----- An entry is raised -----

  lemma PushKeepsQueue(b: Books, done: nat, flight: seq<Entry>, e: Entry, b': Books)
    requires QueueInv(b, done, flight) && LogPlaced(b.log, b.raised)
    requires forall id | id in b.settled :: id < |b.raised|
    requires e.id == |b.raised| && b' == b.(pending := b.pending + [e], raised := b.raised + [e])
    ensures QueueInv(b', done, flight) && LogPlaced(b'.log, b'.raised)
  {
    assert b'.pending[..done] == b.pending[..done];
    assert forall q | 0 <= q < |b'.pending| :: b'.pending[q] == e || (q < |b.pending| && b'.pending[q] == b.pending[q] && Known(b.pending[q], b.raised));
    forall i | 0 <= i < |b.log| ensures Placed(b.log[i], i, b'.raised) && Below(b.log[i], e.id) {
      assert Placed(b.log[i], i, b.raised);
    }
    forall q | 0 <= q < |b'.pending[done..]| ensures AllBelow(b'.log, b'.pending[done..][q].id) {
      if done + q < |b.pending| {
        assert b'.pending[done..][q] == b.pending[done..][q];
      } else {
        assert b'.pending[done..][q] == e;
      }
    }
    forall q | 0 <= q < |flight| ensures NotIn(b'.pending, flight[q].id) && Known(flight[q], b'.raised) {
      assert Known(flight[q], b.raised) && NotIn(b.pending, flight[q].id);
    }
  }

  lemma PushKeepsRange(b: Books, cut: nat, flight: seq<Entry>, e: Entry, b': Books, r: (nat, nat))
    requires RangeInv(b, cut, flight, r)
    requires e.id == |b.raised| && b' == b.(pending := b.pending + [e], raised := b.raised + [e])
    ensures RangeInv(b', cut, flight, r)
  {
    assert b'.raised[r.0..r.0 + r.1] == b.raised[r.0..r.0 + r.1];
    forall id | r.0 <= id < r.0 + r.1 ensures PositionFrom(b'.raised, r.0, id) {
      assert PositionFrom(b.raised, r.0, id);
    }
    if RangeIn(b.pending, b.raised, r, cut) {
      var q: nat :| RangeAt(b.pending, b.raised, r, cut, q);
      assert b'.pending[q..q + r.1] == b.pending[q..q + r.1];
      assert RangeAt(b'.pending, b'.raised, r, cut, q);
    } else if RangeIn(flight, b.raised, r, 0) {
      var q: nat :| RangeAt(flight, b.raised, r, 0, q);
      assert RangeAt(flight, b'.raised, r, 0, q);
    } else if Unsettled(b, flight, r) {
      forall id | r.0 <= id < r.0 + r.1 ensures Nowhere(b'.settled, b'.pending, id) && NotIn(flight, id) {
        assert Nowhere(b.settled, b.pending, id);
      }
    }
  }

  lemma PushKeepsBooks(b: Books, cut: nat, landed: bool, flight: seq<Entry>, e: Entry, b': Books)
    requires BooksInv(b, cut, landed, flight)
    requires e.id == |b.raised| && b' == b.(pending := b.pending + [e], raised := b.raised + [e])
    ensures BooksInv(b', cut, landed, flight)
  {
    PushKeepsQueue(b, if landed then cut else 0, flight, e, b');
    forall id | 0 <= id < |b'.raised| ensures b'.raised[id].id == id && EntryInv(b', flight, id) {
      if id < |b.raised| {
        assert EntryInv(b, flight, id);
        if NotIn(b'.pending, id) {
          forall q | 0 <= q < |b.pending| ensures b.pending[q].id != id { assert b'.pending[q] == b.pending[q]; }
        }
      } else {
        assert b'.pending[|b.pending|].id == id;
      }
    }
    forall k | 0 <= k < |b.ranges| ensures RangeInv(b', cut, flight, b'.ranges[k]) {
      assert RangeInv(b, cut, flight, b.ranges[k]);
      PushKeepsRange(b, cut, flight, e, b', b.ranges[k]);
    }
  }

  // ----- Conditional entries are dropped -----

  /** The queue entry that an unconditional one is. */
  lemma {:induction false} UnconditionalSource(es: seq<Entry>, q: nat) returns (k: nat)
    requires q < |Unconditional(es)|
    ensures k < |es| && Unconditional(es)[q] == es[k] && es[k].position.None?
  {
    if es[0].position.None? && q == 0 {
      k := 0;
    } else {
      k := UnconditionalSource(es[1..], if es[0].position.None? then q - 1 else q);
      k := k + 1;
    }
  }

  lemma {:induction false} UnconditionalIsShorter(es: seq<Entry>)
    ensures |Unconditional(es)| <= |es|
    ensures es != [] && es[0].position.Some? ==> |Unconditional(es)| < |es|
  {
    if es != [] {
      UnconditionalIsShorter(es[1..]);
    }
  }

  /** A stale entry leaves the queue; without one the queue stays as it is. */
  lemma StaleDropShrinks(b: Books, version: nat, b': Books)
    requires b' == DropFrom(b, FirstStale(version, b.pending, 0))
    ensures if FirstStale(version, b.pending, 0) < |b.pending| then |b'.pending| < |b.pending| else b'.pending == b.pending
  {
    var s := FirstStale(version, b.pending, 0);
    if s < |b.pending| {
      UnconditionalIsShorter(b.pending[s..]);
    } else {
      assert b.pending[..s] + [] == b.pending;
    }
  }

  lemma {:induction false} UnconditionalKept(es: seq<Entry>, k: nat) returns (q: nat)
    requires k < |es| && es[k].position.None?
    ensures q < |Unconditional(es)| && Unconditional(es)[q] == es[k]
  {
    if k == 0 {
      q := 0;
    } else {
      q := UnconditionalKept(es[1..], k - 1);
      q := if es[0].position.None? then q + 1 else q;
    }
  }

  lemma {:induction false} UnconditionalIncreasing(es: seq<Entry>)
    requires Increasing(es)
    ensures Increasing(Unconditional(es))
  {
    if es != [] {
      var rest := Unconditional(es[1..]);
      UnconditionalIncreasing(es[1..]);
      forall j | 0 <= j < |rest| ensures es[0].id < rest[j].id {
        var k := UnconditionalSource(es[1..], j);
        assert rest[j] == es[k + 1];
      }
    }
  }

  /** The queue entry that is left at `q` after a drop. */
  lemma DroppedSource(b: Books, s: nat, b': Books, q: nat) returns (k: nat)
    requires s <= |b.pending| && b' == DropFrom(b, s) && q < |b'.pending|
    ensures k < |b.pending| && b'.pending[q] == b.pending[k]
    ensures q < s ==> k == q
    ensures q >= s ==> k >= s && b.pending[k].position.None?
  {
    if q < s {
      k := q;
    } else {
      k := UnconditionalSource(b.pending[s..], q - s);
      assert b.pending[s..][k] == b.pending[s + k];
      k := s + k;
    }
  }

  lemma DroppedIncreasing(b: Books, s: nat, b': Books)
    requires Increasing(b.pending) && s <= |b.pending| && b' == DropFrom(b, s)
    ensures Increasing(b'.pending)
  {
    assert Increasing(b.pending[s..]);
    UnconditionalIncreasing(b.pending[s..]);
    forall i, j | 0 <= i < j < |b'.pending| ensures b'.pending[i].id < b'.pending[j].id {
      if i < s <= j {
        var k := DroppedSource(b, s, b', j);
      }
    }
  }

  lemma DroppedNotIn(b: Books, s: nat, b': Books, id: nat)
    requires Increasing(b.pending) && s <= |b.pending| && b' == DropFrom(b, s)
    ensures NotIn(b.pending, id) ==> NotIn(b'.pending, id)
    ensures forall q | 0 <= q < |b.pending| && b.pending[q].id == id ::
      NotIn(b'.pending, id) <==> q >= s && b.pending[q].position.Some?
  {
    if NotIn(b.pending, id) {
      forall q | 0 <= q < |b'.pending| ensures b'.pending[q].id != id {
        var k := DroppedSource(b, s, b', q);
      }
    }
    forall q | 0 <= q < |b.pending| && b.pending[q].id == id
      ensures NotIn(b'.pending, id) <==> q >= s && b.pending[q].position.Some?
    {
      if q < s {
        assert b'.pending[q] == b.pending[q];
      } else if b.pending[q].position.None? {
        var k := UnconditionalKept(b.pending[s..], q - s);
        assert b'.pending[s + k] == b.pending[q];
      } else {
        forall i | 0 <= i < |b'.pending| ensures b'.pending[i].id != id {
          var k := DroppedSource(b, s, b', i);
        }
      }
    }
  }

  /** Which ids that settles. */
  lemma DroppedIds(b: Books, s: nat, b': Books, id: nat)
    requires s <= |b.pending| && b' == DropFrom(b, s)
    ensures id in b'.settled <==> id in b.settled || id in ConditionalIds(b.pending[s..])
    ensures id in b'.settled ==> b'.settled[id] == if id in ConditionalIds(b.pending[s..]) then false else b.settled[id]
    ensures id in ConditionalIds(b.pending[s..]) <==> exists q :: s <= q < |b.pending| && b.pending[q].id == id && b.pending[q].position.Some?
  {
    if id in ConditionalIds(b.pending[s..]) {
      var e :| e in b.pending[s..] && e.position.Some? && e.id == id;
      var i :| 0 <= i < |b.pending[s..]| && b.pending[s..][i] == e;
      assert b.pending[s + i].id == id;
    }
    if exists q :: s <= q < |b.pending| && b.pending[q].id == id && b.pending[q].position.Some? {
      var q :| s <= q < |b.pending| && b.pending[q].id == id && b.pending[q].position.Some?;
      assert b.pending[s..][q - s] == b.pending[q];
    }
  }

  lemma BelowIsAbsent(log: seq<Item>, id: nat)
    requires AllBelow(log, id)
    ensures Absent(log, id)
  {
    forall i | 0 <= i < |log| ensures !Holds(log[i], id) {
      assert Below(log[i], id);
    }
  }

  lemma DropKeepsQueue(b: Books, s: nat, b': Books)
    requires QueueInv(b, 0, []) && s <= |b.pending| && b' == DropFrom(b, s)
    ensures QueueInv(b', 0, [])
  {
    assert b.pending[0..] == b.pending && b'.pending[0..] == b'.pending;
    DroppedIncreasing(b, s, b');
    forall q | 0 <= q < |b'.pending|
      ensures Known(b'.pending[q], b'.raised) && b'.pending[q].id !in b'.settled
        && b'.base <= b'.pending[q].id && AllBelow(b'.log, b'.pending[q].id)
    {
      var k := DroppedSource(b, s, b', q);
      assert Known(b.pending[k], b.raised) && AllBelow(b.log, b.pending[0..][k].id);
      DroppedIds(b, s, b', b.pending[k].id);
    }
  }

  lemma DropKeepsEntry(b: Books, s: nat, b': Books, id: nat)
    requires QueueInv(b, 0, []) && s <= |b.pending| && b' == DropFrom(b, s)
    requires id < |b.raised| && EntryInv(b, [], id)
    ensures EntryInv(b', [], id)
  {
    DroppedNotIn(b, s, b', id);
    DroppedIds(b, s, b', id);
    if q: nat :| q < |b.pending| && b.pending[q].id == id {
      assert Known(b.pending[q], b.raised);
      assert b.pending[0..] == b.pending;
      assert AllBelow(b.log, b.pending[0..][q].id);
      BelowIsAbsent(b.log, id);
    } else {
      assert NotIn(b.pending, id);
    }
  }

  lemma DropKeepsRange(b: Books, s: nat, b': Books, cut: nat, cut': nat, r: (nat, nat))
    requires QueueInv(b, 0, []) && s <= |b.pending| && b' == DropFrom(b, s)
    requires RangeInv(b, cut, [], r) && (forall id | 0 <= id < |b.raised| :: b.raised[id].id == id)
    requires forall q: nat | RangeAt(b.pending, b.raised, r, cut, q) :: q + r.1 <= s || s <= q
    requires cut' == 0 || cut' == |b'.pending|
    ensures RangeInv(b', cut', [], r)
  {
    hide RangeShape, RangeAt;
    ShapeStays(b, b', r);
    if RangeIn(b.pending, b.raised, r, cut) {
      var q: nat :| RangeAt(b.pending, b.raised, r, cut, q);
      if q + r.1 <= s {
        RangeKept(b, s, b', cut, cut', r, q);
      } else {
        RangeDropped(b, s, b', cut, r, q);
      }
    } else if Unsettled(b, [], r) {
      hide RangeIn;
      forall id | r.0 <= id < r.0 + r.1 ensures Nowhere(b'.settled, b'.pending, id) {
        assert Nowhere(b.settled, b.pending, id);
        DroppedNotIn(b, s, b', id);
        DroppedIds(b, s, b', id);
      }
    } else {
      hide RangeIn;
      forall id | id in b.settled ensures id in b'.settled && b'.settled[id] == b.settled[id] {
        DroppedIds(b, s, b', id);
      }
    }
  }

  lemma RangeKept(b: Books, s: nat, b': Books, cut: nat, cut': nat, r: (nat, nat), q: nat)
    requires s <= |b.pending| && b' == DropFrom(b, s) && q + r.1 <= s
    requires RangeAt(b.pending, b.raised, r, cut, q)
    requires cut' == 0 || cut' == |b'.pending|
    ensures RangeAt(b'.pending, b'.raised, r, cut', q)
  {
    assert b'.pending[q..q + r.1] == b.pending[q..q + r.1];
  }

  lemma RangeDropped(b: Books, s: nat, b': Books, cut: nat, r: (nat, nat), q: nat)
    requires s <= q && s <= |b.pending| && b' == DropFrom(b, s)
    requires RangeShape(b, r) && (forall id | 0 <= id < |b.raised| :: b.raised[id].id == id)
    requires RangeAt(b.pending, b.raised, r, cut, q)
    ensures SettledAs(b'.settled, r, false)
  {
    forall id | r.0 <= id < r.0 + r.1 ensures id in b'.settled && !b'.settled[id] {
      assert PositionFrom(b.raised, r.0, id);
      RangeMember(b.pending, b.raised, r, cut, q, id);
      DroppedIds(b, s, b', id);
    }
  }

  /** Dropping conditional entries keeps the books, when the drop starts between ranges. */
  lemma DropKeepsBooks(b: Books, s: nat, b': Books, cut: nat, cut': nat)
    requires BooksInv(b, cut, false, []) && s <= |b.pending| && b' == DropFrom(b, s)
    requires forall k | 0 <= k < |b.ranges| :: Apart(b, s, cut, b.ranges[k])
    requires cut' == 0 || cut' == |b'.pending|
    ensures BooksInv(b', cut', false, [])
  {
    DropKeepsQueue(b, s, b');
    forall id | 0 <= id < |b'.raised| ensures b'.raised[id].id == id && EntryInv(b', [], id) {
      DropKeepsEntry(b, s, b', id);
    }
    forall id | id in b'.settled ensures id < |b'.raised| {
      DroppedIds(b, s, b', id);
      if q: nat :| s <= q < |b.pending| && b.pending[q].id == id {
        assert Known(b.pending[q], b.raised);
      }
    }
    forall k | 0 <= k < |b'.ranges| ensures RangeInv(b', cut', [], b'.ranges[k]) {
      assert Apart(b, s, cut, b.ranges[k]) && RangeInv(b, cut, [], b.ranges[k]);
      DropKeepsRange(b, s, b', cut, cut', b.ranges[k]);
    }
  }

  /** Index `s` of the queue is not inside the range. */
  ghost predicate Apart(b: Books, s: nat, cut: nat, r: (nat, nat)) {
    forall q: nat | RangeAt(b.pending, b.raised, r, cut, q) :: q + r.1 <= s || s <= q
  }

  lemma RangeStaysFresh(b: Books, version: nat, cut: nat, r: (nat, nat), q: nat, k: nat)
    requires RangeShape(b, r) && RangeAt(b.pending, b.raised, r, cut, q) && k < r.1
    requires !StaleAt(version, b.pending, q)
    ensures !StaleAt(version, b.pending, q + k)
  {
    assert b.pending[q] == b.pending[q..q + r.1][0] == b.raised[r.0];
    assert b.pending[q + k] == b.pending[q..q + r.1][k] == b.raised[r.0..r.0 + r.1][k] == b.raised[r.0 + k];
    assert PositionFrom(b.raised, r.0, r.0 + k);
  }

  /** The first stale entry is not inside a range: its neighbours take consecutive positions. */
  lemma FirstStaleIsApart(b: Books, version: nat, cut: nat, r: (nat, nat))
    requires RangeShape(b, r)
    ensures Apart(b, FirstStale(version, b.pending, 0), cut, r)
  {
    var s := FirstStale(version, b.pending, 0);
    forall q: nat | RangeAt(b.pending, b.raised, r, cut, q) ensures q + r.1 <= s || s <= q {
      if q < s < q + r.1 {
        RangeStaysFresh(b, version, cut, r, q, s - q);
      }
    }
  }

  /** A loop's batch: what is left once the stale entries are gone lands where it was raised for. */
  lemma BatchIsPositioned(b: Books, version: nat, b': Books)
    requires b' == DropFrom(b, FirstStale(version, b.pending, 0))
    ensures Positioned(b'.pending, version)
  {
    var s := FirstStale(version, b.pending, 0);
    forall q | 0 <= q < |b'.pending| ensures !StaleAt(version, b'.pending, q) {
      var k := DroppedSource(b, s, b', q);
      assert q < s ==> !StaleAt(version, b.pending, q);
    }
  }

  // ----- A batch is taken off the queue and settled -----

  lemma TakeKeepsQueue(b: Books, cut: nat, b': Books)
    requires QueueInv(b, cut, []) && b' == b.(pending := b.pending[cut..])
    ensures QueueInv(b', 0, b.pending[..cut])
  {
    assert b'.pending[0..] == b'.pending;
    forall q | 0 <= q < cut ensures NotIn(b'.pending, b.pending[q].id) {
      forall k | 0 <= k < |b'.pending| ensures b'.pending[k].id != b.pending[q].id {
        assert b'.pending[k] == b.pending[cut + k];
      }
    }
  }

  lemma TakeKeepsEntry(b: Books, cut: nat, b': Books, id: nat)
    requires QueueInv(b, cut, []) && b' == b.(pending := b.pending[cut..])
    requires id < |b.raised| && EntryInv(b, [], id)
    ensures EntryInv(b', b.pending[..cut], id)
  {
    if NotIn(b.pending, id) {
      assert NotIn(b'.pending, id);
    } else {
      var q :| 0 <= q < |b.pending| && b.pending[q].id == id;
      assert Known(b.pending[q], b.raised);
      if q < cut {
        assert b.pending[..cut][q].id == id;
        assert Stored(b.log, b.pending[..cut][q]);
      } else {
        assert b'.pending[q - cut].id == id;
      }
    }
  }

  lemma SliceOfTake(s: seq<Entry>, cut: nat, lo: nat, hi: nat)
    requires lo <= hi <= cut <= |s|
    ensures s[..cut][lo..hi] == s[lo..hi]
  {
  }

  lemma SliceOfDrop(s: seq<Entry>, cut: nat, lo: nat, hi: nat)
    requires cut <= lo <= hi <= |s|
    ensures s[cut..][lo - cut..hi - cut] == s[lo..hi]
  {
  }

  lemma PlaceInFront(pending: seq<Entry>, raised: seq<Entry>, cut: nat, r: (nat, nat), q: nat)
    requires cut <= |pending| && RangeAt(pending, raised, r, cut, q) && q + r.1 <= cut
    ensures RangeAt(pending[..cut], raised, r, 0, q)
  {
    SliceOfTake(pending, cut, q, q + r.1);
  }

  lemma PlaceBehind(pending: seq<Entry>, raised: seq<Entry>, cut: nat, r: (nat, nat), q: nat)
    requires cut <= |pending| && RangeAt(pending, raised, r, cut, q) && cut <= q
    ensures RangeAt(pending[cut..], raised, r, 0, q - cut)
  {
    SliceOfDrop(pending, cut, q, q + r.1);
  }

  lemma TakeKeepsPlace(pending: seq<Entry>, raised: seq<Entry>, cut: nat, r: (nat, nat))
    requires cut <= |pending| && RangeIn(pending, raised, r, cut)
    ensures RangeIn(pending[cut..], raised, r, 0) || RangeIn(pending[..cut], raised, r, 0)
  {
    var q: nat :| RangeAt(pending, raised, r, cut, q);
    assert q + r.1 <= cut || cut <= q;
    if q + r.1 <= cut {
      PlaceInFront(pending, raised, cut, r, q);
    } else {
      PlaceBehind(pending, raised, cut, r, q);
    }
    hide RangeAt;
  }

  lemma TakeKeepsRange(b: Books, cut: nat, b': Books, r: (nat, nat))
    requires cut <= |b.pending| && b' == b.(pending := b.pending[cut..])
    requires RangeInv(b, cut, [], r)
    ensures RangeInv(b', 0, b.pending[..cut], r)
  {
    ShapeStays(b, b', r);
    hide RangeShape;
    if RangeIn(b.pending, b.raised, r, cut) {
      TakeKeepsPlace(b.pending, b.raised, cut, r);
    } else if Unsettled(b, [], r) {
      hide RangeIn;
      forall id | r.0 <= id < r.0 + r.1 ensures Nowhere(b'.settled, b'.pending, id) && NotIn(b.pending[..cut], id) {
        assert Nowhere(b.settled, b.pending, id);
      }
    }
  }

  lemma TakeKeepsBooks(b: Books, cut: nat, b': Books)
    requires BooksInv(b, cut, true, []) && b' == b.(pending := b.pending[cut..])
    ensures BooksInv(b', 0, false, b.pending[..cut])
  {
    TakeKeepsQueue(b, cut, b');
    forall id | 0 <= id < |b'.raised| ensures b'.raised[id].id == id && EntryInv(b', b.pending[..cut], id) {
      TakeKeepsEntry(b, cut, b', id);
    }
    forall k | 0 <= k < |b'.ranges| ensures RangeInv(b', 0, b.pending[..cut], b'.ranges[k]) {
      assert RangeInv(b, cut, [], b.ranges[k]);
      TakeKeepsRange(b, cut, b', b.ranges[k]);
    }
  }

  lemma SettledIds(b: Books, flight: seq<Entry>, b': Books, id: nat)
    requires b' == b.(settled := Settle(b.settled, flight, true))
    ensures id in b'.settled <==> id in b.settled || id in ConditionalIds(flight)
    ensures id in b'.settled ==> b'.settled[id] == if id in ConditionalIds(flight) then true else b.settled[id]
    ensures id in ConditionalIds(flight) <==> exists q :: 0 <= q < |flight| && flight[q].id == id && flight[q].position.Some?
  {
    if id in ConditionalIds(flight) {
      var e :| e in flight && e.position.Some? && e.id == id;
      var i :| 0 <= i < |flight| && flight[i] == e;
      assert flight[i].id == id;
    }
  }

  lemma SettleKeepsRange(b: Books, flight: seq<Entry>, b': Books, r: (nat, nat))
    requires QueueInv(b, 0, flight) && b' == b.(settled := Settle(b.settled, flight, true))
    requires RangeInv(b, 0, flight, r) && (forall id | 0 <= id < |b.raised| :: b.raised[id].id == id)
    ensures RangeInv(b', 0, [], r)
  {
    ShapeStays(b, b', r);
    if RangeIn(flight, b.raised, r, 0) {
      var q: nat :| RangeAt(flight, b.raised, r, 0, q);
      forall id | r.0 <= id < r.0 + r.1 ensures id in b'.settled && b'.settled[id] {
        assert PositionFrom(b.raised, r.0, id);
        RangeMember(flight, b.raised, r, 0, q, id);
        SettledIds(b, flight, b', id);
      }
    } else if Unsettled(b, flight, r) {
      forall id | r.0 <= id < r.0 + r.1 ensures Nowhere(b'.settled, b'.pending, id) {
        assert Nowhere(b.settled, b.pending, id) && NotIn(flight, id);
        SettledIds(b, flight, b', id);
      }
    } else {
      forall id | id in b.settled ensures id in b'.settled && b'.settled[id] == b.settled[id] {
        SettledIds(b, flight, b', id);
      }
    }
  }

  lemma SettleKeepsEntry(b: Books, flight: seq<Entry>, b': Books, id: nat)
    requires QueueInv(b, 0, flight) && b' == b.(settled := Settle(b.settled, flight, true))
    requires id < |b.raised| && EntryInv(b, flight, id)
    ensures EntryInv(b', [], id)
  {
    SettledIds(b, flight, b', id);
    if q: nat :| q < |flight| && flight[q].id == id {
      assert Known(flight[q], b.raised) && Stored(b.log, flight[q]) && NotIn(b.pending, flight[q].id);
    } else {
      assert NotIn(flight, id);
    }
  }

  lemma SettleKeepsBooks(b: Books, flight: seq<Entry>, b': Books)
    requires BooksInv(b, 0, false, flight) && b' == b.(settled := Settle(b.settled, flight, true))
    ensures BooksInv(b', 0, false, [])
  {
    assert b.pending[0..] == b.pending;
    forall q | 0 <= q < |b.pending| ensures b.pending[q].id !in b'.settled {
      SettledIds(b, flight, b', b.pending[q].id);
      if k: nat :| k < |flight| && flight[k].id == b.pending[q].id {
        assert NotIn(b.pending, flight[k].id);
      }
    }
    forall id | 0 <= id < |b'.raised| ensures b'.raised[id].id == id && EntryInv(b', [], id) {
      SettleKeepsEntry(b, flight, b', id);
    }
    forall id | id in b'.settled ensures id < |b'.raised| {
      SettledIds(b, flight, b', id);
      if q: nat :| q < |flight| && flight[q].id == id {
        assert Known(flight[q], b.raised);
      }
    }
    forall k | 0 <= k < |b'.ranges| ensures RangeInv(b', 0, [], b'.ranges[k]) {
      assert RangeInv(b, 0, flight, b.ranges[k]);
      SettleKeepsRange(b, flight, b', b.ranges[k]);
    }
  }

  /** A written batch whose fold threw and whose re-read failed is left as it is, in storage. */
  lemma AbandonKeepsBooks(b: Books, flight: seq<Entry>, b': Books)
    requires BooksInv(b, 0, false, flight) && b' == b.(abandoned := b.abandoned + ConditionalIds(flight))
    ensures BooksInv(b', 0, false, [])
  {
    forall id | 0 <= id < |b'.raised| ensures EntryInv(b', [], id) {
      assert EntryInv(b, flight, id);
      assert flight == [] ==> NotIn(flight, id);
    }
    forall k | 0 <= k < |b'.ranges| ensures RangeInv(b', 0, [], b'.ranges[k]) {
      var r := b.ranges[k];
      assert RangeInv(b, 0, flight, r);
      AbandonKeepsRange(b, flight, b', r);
    }
  }

  lemma AbandonKeepsRange(b: Books, flight: seq<Entry>, b': Books, r: (nat, nat))
    requires QueueInv(b, 0, flight) && b' == b.(abandoned := b.abandoned + ConditionalIds(flight))
    requires RangeInv(b, 0, flight, r) && (forall id | 0 <= id < |b.raised| :: b.raised[id].id == id)
    ensures RangeInv(b', 0, [], r)
  {
    ShapeStays(b, b', r);
    if RangeIn(flight, b.raised, r, 0) {
      var q: nat :| RangeAt(flight, b.raised, r, 0, q);
      forall id | r.0 <= id < r.0 + r.1 ensures Nowhere(b'.settled, b'.pending, id) {
        RangeMember(flight, b.raised, r, 0, q, id);
        assert flight[q + (id - r.0)].id == id;
      }
    } else if Unsettled(b, flight, r) {
      forall id | r.0 <= id < r.0 + r.1 ensures Nowhere(b'.settled, b'.pending, id) {
        assert Nowhere(b.settled, b.pending, id);
      }
    }
  }

  lemma ClearKeepsBooks(b: Books, b': Books)
    requires BooksInv(b, 0, false, [])
    requires b' == b.(log := [], pending := [], settled := Settle(b.settled, b.pending, false), ranges := [], base := |b.raised|)
    ensures BooksInv(b', 0, false, [])
  {
    forall id | id in b'.settled ensures id < |b'.raised| {
      if id !in b.settled {
        var e :| e in b.pending && e.id == id;
        var q :| 0 <= q < |b.pending| && b.pending[q] == e;
        assert Known(b.pending[q], b.raised);
      }
    }
    assert forall id | 0 <= id < |b'.raised| :: EntryInv(b', [], id);
  }
}
