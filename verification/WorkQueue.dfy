// A lane's waiting work: one item map and two ordered indexes over it.
module WorkQueue {
  import opened Basics

  datatype Work = Work(backfill: bool, priority: nat, publishedAt: Millis, partition: nat, offset: nat, sequence: nat, message: Uuid)

  datatype FifoKey = FifoKey(publishedAt: Millis, partition: nat, offset: nat, sequence: nat)

  datatype PriorityKey = PriorityKey(live: bool, priority: nat, offset: nat, sequence: nat)

  function FifoOrder(w: Work): FifoKey {
    FifoKey(w.publishedAt, w.partition, w.offset, w.sequence)
  }

  function PriorityOrder(w: Work): PriorityKey {
    PriorityKey(!w.backfill, w.priority, w.offset, w.sequence)
  }

  /** Oldest first; ties by partition, offset and arrival. */
  predicate Before(a: FifoKey, b: FifoKey) {
    a.publishedAt < b.publishedAt || (a.publishedAt == b.publishedAt &&
      (a.partition < b.partition || (a.partition == b.partition &&
        (a.offset < b.offset || (a.offset == b.offset && a.sequence < b.sequence)))))
  }

  /** Live work over backfill, then the higher priority, then the lower offset and the earlier
      arrival. */
  predicate Under(a: PriorityKey, b: PriorityKey) {
    (!a.live && b.live) || (a.live == b.live &&
      (a.priority < b.priority || (a.priority == b.priority &&
        (a.offset > b.offset || (a.offset == b.offset && a.sequence > b.sequence)))))
  }

  datatype Queue = Queue(items: map<nat, Work>, fifo: set<FifoKey>, priority: set<PriorityKey>)

  /** Both indexes hold exactly the keys of the items. */
  ghost predicate Indexed(q: Queue) {
    && (forall s :: s in q.items ==> q.items[s].sequence == s && FifoOrder(q.items[s]) in q.fifo && PriorityOrder(q.items[s]) in q.priority)
    && (forall k :: k in q.fifo ==> k.sequence in q.items && FifoOrder(q.items[k.sequence]) == k)
    && (forall k :: k in q.priority ==> k.sequence in q.items && PriorityOrder(q.items[k.sequence]) == k)
  }

  function Pushed(q: Queue, w: Work): Queue {
    Queue(q.items[w.sequence := w], q.fifo + {FifoOrder(w)}, q.priority + {PriorityOrder(w)})
  }

  /** A push keeps the indexes exact precisely when its sequence number is not in use, or is in
      use by work of the same place in both orders. */
  lemma PushKeepsExactly(q: Queue, w: Work)
    requires Indexed(q)
    ensures Indexed(Pushed(q, w)) <==>
            w.sequence !in q.items ||
            (FifoOrder(q.items[w.sequence]) == FifoOrder(w) && PriorityOrder(q.items[w.sequence]) == PriorityOrder(w))
  {
    var q' := Pushed(q, w);
    if w.sequence in q.items {
      var was := q.items[w.sequence];
      assert FifoOrder(was) in q'.fifo && PriorityOrder(was) in q'.priority;
    }
  }

  /** The item that is first in line. */
  predicate IsNext(q: Queue, strict: bool, w: Work) {
    && w.sequence in q.items && q.items[w.sequence] == w
    && (forall s :: s in q.items && s != w.sequence ==>
          if strict then Before(FifoOrder(w), FifoOrder(q.items[s])) else Under(PriorityOrder(q.items[s]), PriorityOrder(w)))
  }

  /** What being first in line means: live work before backfill, then the higher priority, then
      the lower offset, then the earlier arrival. */
  lemma NextByPriority(q: Queue, w: Work)
    requires IsNext(q, false, w)
    ensures forall s :: s in q.items && s != w.sequence ==>
              var x := q.items[s];
              && (w.backfill ==> x.backfill)
              && (w.backfill == x.backfill ==> x.priority <= w.priority)
              && (w.backfill == x.backfill && x.priority == w.priority ==> w.offset <= x.offset)
              && (w.backfill == x.backfill && x.priority == w.priority && w.offset == x.offset ==> w.sequence < x.sequence)
  {
  }

  /** In strict order: the older, then the lower partition and offset, then the earlier arrival. */
  lemma NextByAge(q: Queue, w: Work)
    requires IsNext(q, true, w)
    ensures forall s :: s in q.items && s != w.sequence ==>
              var x := q.items[s];
              && w.publishedAt <= x.publishedAt
              && (w.publishedAt == x.publishedAt ==> w.partition <= x.partition)
              && (w.publishedAt == x.publishedAt && w.partition == x.partition ==> w.offset <= x.offset)
              && (w.publishedAt == x.publishedAt && w.partition == x.partition && w.offset == x.offset ==> w.sequence < x.sequence)
  {
  }

  function Without(q: Queue, w: Work): Queue {
    Queue(q.items - {w.sequence}, q.fifo - {FifoOrder(w)}, q.priority - {PriorityOrder(w)})
  }

  lemma PopKeeps(q: Queue, w: Work)
    requires Indexed(q) && w.sequence in q.items && q.items[w.sequence] == w
    ensures Indexed(Without(q, w))
  {
  }

  ghost predicate Least(keys: set<FifoKey>, k: FifoKey) {
    k in keys && forall x :: x in keys && x != k ==> Before(k, x)
  }

  ghost predicate Greatest(keys: set<PriorityKey>, k: PriorityKey) {
    k in keys && forall x :: x in keys && x != k ==> Under(x, k)
  }

  class LaneQueue {
    var items: map<nat, Work>
    var fifo: set<FifoKey>
    var priority: set<PriorityKey>

    function Value(): Queue
      reads this
    {
      Queue(items, fifo, priority)
    }

    constructor ()
      ensures Value() == Queue(map[], {}, {}) && Indexed(Value())
    {
      items, fifo, priority := map[], {}, {};
    }

    method Push(w: Work)
      modifies this
      ensures Value() == Pushed(old(Value()), w)
    {
      fifo := fifo + {FifoOrder(w)};
      priority := priority + {PriorityOrder(w)};
      items := items[w.sequence := w];
    }

    /** Takes the first item in line; there is none only when the queue is empty. Otherwise live
        work goes before backfill, then the higher priority, the lower offset, the earlier
        arrival; in strict order the older, the lower partition and offset, the earlier arrival. */
    method Pop(strict: bool) returns (r: Option<Work>)
      requires Indexed(Value())
      modifies this
      ensures Indexed(Value())
      ensures r.None? <==> old(items) == map[]
      ensures r.None? ==> Value() == old(Value())
      ensures r.Some? ==> IsNext(old(Value()), strict, r.value) && Value() == Without(old(Value()), r.value)
      ensures r.Some? ==> r.value.sequence in old(items) && old(items)[r.value.sequence] == r.value && items == old(items) - {r.value.sequence}
      ensures r.Some? && !strict ==> forall s :: s in items ==>
                var w, x := r.value, items[s];
                && (w.backfill ==> x.backfill)
                && (w.backfill == x.backfill ==> x.priority <= w.priority)
                && (w.backfill == x.backfill && x.priority == w.priority ==> w.offset <= x.offset)
                && (w.backfill == x.backfill && x.priority == w.priority && w.offset == x.offset ==> w.sequence < x.sequence)
      ensures r.Some? && strict ==> forall s :: s in items ==>
                var w, x := r.value, items[s];
                && w.publishedAt <= x.publishedAt
                && (w.publishedAt == x.publishedAt ==> w.partition <= x.partition)
                && (w.publishedAt == x.publishedAt && w.partition == x.partition ==> w.offset <= x.offset)
                && (w.publishedAt == x.publishedAt && w.partition == x.partition && w.offset == x.offset ==> w.sequence < x.sequence)
    {
      assert forall i :: i in items ==> FifoOrder(items[i]) in fifo && PriorityOrder(items[i]) in priority;
      var s;
      if strict {
        if fifo == {} { return None; }
        s := First(fifo);
      } else {
        if priority == {} { return None; }
        s := Last(priority);
      }
      var w := items[s];
      PopKeeps(Value(), w);
      assert IsNext(Value(), strict, w);
      if strict { NextByAge(Value(), w); } else { NextByPriority(Value(), w); }
      items := items - {s};
      fifo := fifo - {FifoOrder(w)};
      priority := priority - {PriorityOrder(w)};
      return Some(w);
    }
  }

  /** The least key of an ordered index. */
  method First(keys: set<FifoKey>) returns (s: nat)
    requires keys != {}
    ensures exists k :: Least(keys, k) && s == k.sequence
  {
    var k :| k in keys;
    var left := keys - {k};
    while left != {}
      invariant left <= keys && k in keys && k !in left
      invariant forall x :: x in keys && x !in left && x != k ==> Before(k, x)
      decreases left
    {
      var x :| x in left;
      left := left - {x};
      if Before(x, k) { k := x; }
    }
    assert Least(keys, k);
    s := k.sequence;
  }

  method Last(keys: set<PriorityKey>) returns (s: nat)
    requires keys != {}
    ensures exists k :: Greatest(keys, k) && s == k.sequence
  {
    var k :| k in keys;
    var left := keys - {k};
    while left != {}
      invariant left <= keys && k in keys && k !in left
      invariant forall x :: x in keys && x !in left && x != k ==> Under(x, k)
      decreases left
    {
      var x :| x in left;
      left := left - {x};
      if Under(k, x) { k := x; }
    }
    assert Greatest(keys, k);
    s := k.sequence;
  }

  datatype Operation = Push(work: Work) | Pop(strict: bool, taken: Option<Work>)

  /** What one operation does. */
  ghost predicate Does(q: Queue, op: Operation, q': Queue) {
    match op
    case Push(w) => q' == Pushed(q, w)
    case Pop(strict, None) => q.items == map[] && q' == q
    case Pop(strict, Some(w)) => IsNext(q, strict, w) && q' == Without(q, w)
  }

  /** A run whose pushes carry sequence numbers never used before. */
  ghost predicate Run(states: seq<Queue>, ops: seq<Operation>) {
    && |states| == |ops| + 1 && states[0] == Queue(map[], {}, {})
    && (forall i :: 0 <= i < |ops| ==> Does(states[i], ops[i], states[i + 1]))
    && (forall i, j :: 0 <= i < j < |ops| && ops[i].Push? && ops[j].Push? ==> ops[i].work.sequence != ops[j].work.sequence)
  }

  ghost predicate PushedBy(ops: seq<Operation>, i: nat, w: Work) {
    exists j :: 0 <= j < i <= |ops| && ops[j] == Push(w)
  }

  ghost predicate TakenBy(ops: seq<Operation>, i: nat, w: Work) {
    exists j :: 0 <= j < i <= |ops| && ops[j].Pop? && ops[j].taken == Some(w)
  }

  /** Waiting work is work pushed and not taken. */
  ghost predicate Conserved(q: Queue, ops: seq<Operation>, i: nat) {
    && Indexed(q)
    && (forall w: Work :: w.sequence in q.items && q.items[w.sequence] == w <==> PushedBy(ops, i, w) && !TakenBy(ops, i, w))
    && (forall w: Work :: TakenBy(ops, i, w) ==> PushedBy(ops, i, w))
  }

  /** One operation more. */
  lemma HistoryStep(ops: seq<Operation>, i: nat, w: Work)
    requires i < |ops|
    ensures PushedBy(ops, i + 1, w) <==> PushedBy(ops, i, w) || ops[i] == Push(w)
    ensures TakenBy(ops, i + 1, w) <==> TakenBy(ops, i, w) || (ops[i].Pop? && ops[i].taken == Some(w))
  {
    if PushedBy(ops, i, w) {
      var j :| 0 <= j < i && ops[j] == Push(w);
      assert ops[j] == Push(w);
    }
    if TakenBy(ops, i, w) {
      var j :| 0 <= j < i && ops[j].Pop? && ops[j].taken == Some(w);
      assert ops[j].taken == Some(w);
    }
  }

  lemma PushIsFresh(states: seq<Queue>, ops: seq<Operation>, i: nat, x: Work)
    requires Run(states, ops) && i < |ops| && ops[i].Push? && PushedBy(ops, i, x)
    ensures x.sequence != ops[i].work.sequence
  {
  }

  lemma PushKeeps(states: seq<Queue>, ops: seq<Operation>, i: nat)
    requires Run(states, ops) && i < |ops| && ops[i].Push? && Conserved(states[i], ops, i)
    ensures Indexed(states[i + 1]) && states[i + 1].items == states[i].items[ops[i].work.sequence := ops[i].work]
  {
    var q := states[i];
    assert Does(q, ops[i], states[i + 1]);
    assert forall s :: s in q.items ==> q.items[s].sequence == s && PushedBy(ops, i, q.items[s]);
    hide Run, PushedBy;
    forall x | PushedBy(ops, i, x) ensures x.sequence != ops[i].work.sequence {
      PushIsFresh(states, ops, i, x);
    }
    PushKeepsExactly(q, ops[i].work);
    hide Indexed;
  }

  lemma PushConserves(states: seq<Queue>, ops: seq<Operation>, i: nat)
    requires Run(states, ops) && i < |ops| && ops[i].Push? && Conserved(states[i], ops, i)
    ensures Conserved(states[i + 1], ops, i + 1)
  {
    assert |states| == |ops| + 1;
    hide Indexed, Run, PushedBy, TakenBy, Pushed, Does, FifoOrder, PriorityOrder;
    PushKeeps(states, ops, i);
    forall x: Work
      ensures PushedBy(ops, i + 1, x) <==> PushedBy(ops, i, x) || x == ops[i].work
      ensures TakenBy(ops, i + 1, x) <==> TakenBy(ops, i, x)
      ensures PushedBy(ops, i, x) ==> x.sequence != ops[i].work.sequence
    {
      HistoryStep(ops, i, x);
      if PushedBy(ops, i, x) { PushIsFresh(states, ops, i, x); }
    }
  }

  lemma PopConserves(states: seq<Queue>, ops: seq<Operation>, i: nat)
    requires Run(states, ops) && i < |ops| && ops[i].Pop? && Conserved(states[i], ops, i)
    ensures Conserved(states[i + 1], ops, i + 1)
    ensures ops[i].taken.Some? ==> !TakenBy(ops, i, ops[i].taken.value)
  {
    var q, q', taken := states[i], states[i + 1], ops[i].taken;
    assert Does(q, ops[i], q');
    if taken.Some? {
      PopKeeps(q, taken.value);
      assert q'.items == q.items - {taken.value.sequence};
    }
    hide Indexed, Run, PushedBy, TakenBy, Without, FifoOrder, PriorityOrder, Before, Under;
    forall x: Work ensures PushedBy(ops, i + 1, x) <==> PushedBy(ops, i, x) {
      HistoryStep(ops, i, x);
    }
    forall x: Work ensures TakenBy(ops, i + 1, x) <==> TakenBy(ops, i, x) || taken == Some(x) {
      HistoryStep(ops, i, x);
    }
    forall x, y | PushedBy(ops, i, x) && PushedBy(ops, i, y) && x.sequence == y.sequence ensures x == y {
      SameSequence(states, ops, i, x, y);
    }
  }

  lemma SameSequence(states: seq<Queue>, ops: seq<Operation>, i: nat, x: Work, y: Work)
    requires Run(states, ops) && i <= |ops| && PushedBy(ops, i, x) && PushedBy(ops, i, y) && x.sequence == y.sequence
    ensures x == y
  {
    var j :| 0 <= j < i && ops[j] == Push(x);
    var k :| 0 <= k < i && ops[k] == Push(y);
    assert ops[j].work.sequence == ops[k].work.sequence;
  }

  lemma StartConserves(ops: seq<Operation>)
    ensures Conserved(Queue(map[], {}, {}), ops, 0)
  {
  }

  lemma {:induction false} RunConserves(states: seq<Queue>, ops: seq<Operation>, i: nat)
    requires Run(states, ops) && i <= |ops|
    ensures Conserved(states[i], ops, i)
  {
    hide Conserved, Does;
    if i == 0 {
      StartConserves(ops);
    } else {
      RunConserves(states, ops, i - 1);
      if ops[i - 1].Push? { PushConserves(states, ops, i - 1); } else { PopConserves(states, ops, i - 1); }
    }
  }

  /** In every run the indexes stay exact, the waiting work is exactly what was pushed and not
      yet taken, and nothing is taken that was not pushed, or taken twice. */
  lemma NothingLostOrTwice(states: seq<Queue>, ops: seq<Operation>, i: nat)
    requires Run(states, ops) && i <= |ops|
    ensures Conserved(states[i], ops, i)
    ensures i < |ops| && ops[i].Pop? && ops[i].taken.Some? ==> !TakenBy(ops, i, ops[i].taken.value)
  {
    RunConserves(states, ops, i);
    if i < |ops| && ops[i].Pop? { PopConserves(states, ops, i); }
  }
}
