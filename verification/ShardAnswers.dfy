// What the answers of a shard actor's run say about the log at the moment of each command.
module ShardAnswers {
  import opened Basics
  import opened Partition
  import opened Shard
  import opened ShardCommit

  // The moments of a run.

  /** The actor after the first `n` events. */
  function ActorAt(a: Actor, events: seq<Event>, n: nat): (r: Actor)
    requires Waiting(a.waiters) && n <= |events|
    ensures Waiting(r.waiters)
  {
    if n == 0 then a else
      ReceiveWaits(ActorAt(a, events, n - 1), events[n - 1]);
      Receive(ActorAt(a, events, n - 1), events[n - 1]).actor
  }

  /** The answers given up to then. */
  function AnswersUpTo(a: Actor, events: seq<Event>, n: nat): seq<Answer>
    requires Waiting(a.waiters) && n <= |events|
  {
    if n == 0 then [] else AnswersUpTo(a, events, n - 1) + Receive(ActorAt(a, events, n - 1), events[n - 1]).answers
  }

  lemma RunSplit(a: Actor, events: seq<Event>)
    requires Waiting(a.waiters) && events != []
    ensures Waiting(Receive(a, events[0]).actor.waiters)
    ensures Run(a, events).answers == Receive(a, events[0]).answers + Run(Receive(a, events[0]).actor, events[1..]).answers
  {
    ReceiveWaits(a, events[0]);
  }

  /** A run's answers are those up to any moment, followed by those of the rest of the run. */
  lemma {:induction false} RunFrom(a: Actor, events: seq<Event>, n: nat)
    requires Waiting(a.waiters) && n <= |events|
    ensures Run(a, events).answers == AnswersUpTo(a, events, n) + Run(ActorAt(a, events, n), events[n..]).answers
  {
    if n == 0 {
      assert events[0..] == events;
    } else {
      RunFrom(a, events, n - 1);
      hide Receive, Run;
      var before, rest := ActorAt(a, events, n - 1), events[n - 1..];
      assert rest[0] == events[n - 1] && rest[1..] == events[n..];
      RunSplit(before, rest);
      hide ActorAt;
      Reassociate(AnswersUpTo(a, events, n - 1), Receive(before, events[n - 1]).answers, Run(Receive(before, rest[0]).actor, rest[1..]).answers);
    }
  }

  lemma Reassociate(a: seq<Answer>, b: seq<Answer>, c: seq<Answer>)
    ensures a + (b + c) == (a + b) + c
  {
  }

  /** The answer to the command of event `i` stands at its place in the run's answers. */
  lemma AnswerAt(a: Actor, events: seq<Event>, i: nat) returns (at: nat)
    requires Waiting(a.waiters) && i < |events| && events[i].Dequeued? && !events[i].request.command.Commit?
    ensures at == |AnswersUpTo(a, events, i)| < |Run(a, events).answers|
    ensures var h := Handle(ActorAt(a, events, i).log, events[i].request.command, events[i].request.io);
            Run(a, events).answers[at] == Answer(events[i].request, h.reply) && ActorAt(a, events, i + 1).log == h.log
  {
    RunFrom(a, events, i + 1);
    at := |AnswersUpTo(a, events, i)|;
    hide Run, Handle;
    var step := Receive(ActorAt(a, events, i), events[i]);
    assert |step.answers| == 1 && AnswersUpTo(a, events, i + 1)[at] == step.answers[0];
  }

  // What is readable.

  /** The readable records are those given out, not purged, and still in a file. */
  ghost predicate Filled(s: Store) {
    && s.base <= s.next
    && (forall i :: 0 <= i < |s.sealed| ==> s.sealed[i].first < s.sealed[i].last <= s.base)
    && (forall i, j :: 0 <= i < j < |s.sealed| ==> s.sealed[i].last <= s.sealed[j].first)
    && (forall o: nat :: o in s.purged ==> o < s.next)
    && (forall o: nat :: o in s.records <==> o < s.next && o !in s.purged && Held(s.sealed, s.base, o))
  }

  ghost predicate Fit(l: PartitionLog) {
    SoundLog(l) && Filled(l.store)
  }

  lemma FiledFilled(s: Store, items: seq<Item>, overhead: nat)
    requires Filled(s)
    ensures Filled(Filed(s, items, overhead))
  {
    WithAllExtends(s.records, items, s.next);
    hide WithAll, Bytes;
    var s' := Filed(s, items, overhead);
    assert forall o: nat :: Held(s'.sealed, s'.base, o) <==> Held(s.sealed, s.base, o);
  }

  lemma RolledFilled(l: PartitionLog, io: Io)
    requires Filled(l.store)
    ensures Filled(Rolled(l, io).log.store)
    ensures Rolled(l, io).log.store.records == l.store.records && Rolled(l, io).log.store.next == l.store.next
    ensures Rolled(l, io).log.store.purged == l.store.purged
  {
    var s, s' := l.store, Rolled(l, io).log.store;
    if s' != s {
      forall o: nat | o < s.next ensures Held(s'.sealed, s'.base, o) <==> Held(s.sealed, s.base, o) {
        if s.next > s.base {
          assert s'.sealed[|s.sealed|] == Segment(s.base, s.next);
          assert forall i :: 0 <= i < |s.sealed| ==> s'.sealed[i] == s.sealed[i];
        }
      }
    }
  }

  lemma AppendFilled(l: PartitionLog, items: seq<Item>, overhead: nat, fence: Option<nat>, io: Io)
    requires Filled(l.store)
    ensures Filled(Append(l, items, overhead, fence, io).log.store)
  {
    hide WithAll, Bytes, Numbered, Filed, Rolled, Filled, Held;
    var f := Fenced(l, fence);
    assert Filled(f.store) by { FencedFilled(l, fence); }
    FiledFilled(f.store, items, overhead);
    var filed := f.(store := Filed(f.store, items, overhead), sync := f.sync.(dirty := true));
    SyncKeepsStore(filed, io);
    hide Flush;
    RolledFilled(filed, io);
    RolledFilled(Flush(filed, io).log, io);
  }

  lemma FencedFilled(l: PartitionLog, fence: Option<nat>)
    requires Filled(l.store)
    ensures Filled(Fenced(l, fence).store)
  {
    hide Held;
  }

  lemma KeptFilled(s: Store, watermark: nat)
    requires Filled(s)
    ensures var kept := Kept(s.sealed, watermark);
            && (forall i :: 0 <= i < |kept| ==> kept[i].first < kept[i].last <= s.base)
            && (forall i, j :: 0 <= i < j < |kept| ==> kept[i].last <= kept[j].first)
            && (forall o: nat :: Held(kept, s.base, o) ==> Held(s.sealed, s.base, o))
            && |kept| <= |s.sealed|
  {
    hide Held;
    KeptOrdered(s.sealed, watermark);
    var kept := Kept(s.sealed, watermark);
    forall i | 0 <= i < |kept| ensures kept[i] in s.sealed { KeptMembers(s.sealed, watermark, kept[i]); }
    forall o: nat | Held(kept, s.base, o) ensures Held(s.sealed, s.base, o) { KeptHolds(s, kept, o); }
  }

  lemma KeptHolds(s: Store, kept: seq<Segment>, o: nat)
    requires Held(kept, s.base, o) && forall i :: 0 <= i < |kept| ==> kept[i] in s.sealed
    ensures Held(s.sealed, s.base, o)
  {
    if o < s.base {
      var i :| 0 <= i < |kept| && kept[i].first <= o < kept[i].last;
      var j :| 0 <= j < |s.sealed| && s.sealed[j] == kept[i];
    }
  }

  lemma {:induction false} KeptOrdered(sealed: seq<Segment>, watermark: nat)
    requires forall i, j :: 0 <= i < j < |sealed| ==> sealed[i].last <= sealed[j].first
    ensures var kept := Kept(sealed, watermark);
            (forall i, j :: 0 <= i < j < |kept| ==> kept[i].last <= kept[j].first) && |kept| <= |sealed|
  {
    if sealed != [] {
      KeptOrdered(sealed[1..], watermark);
      var rest := Kept(sealed[1..], watermark);
      forall i | 0 <= i < |rest| ensures sealed[0].last <= rest[i].first {
        KeptMembers(sealed[1..], watermark, rest[i]);
      }
    }
  }

  lemma GcFilled(l: PartitionLog, watermark: nat)
    requires Filled(l.store)
    ensures Filled(GcSealed(l, watermark).log.store)
  {
    KeptFilled(l.store, watermark);
    hide Kept, Held;
  }

  lemma PurgeFilled(l: PartitionLog, offset: nat, io: Io)
    requires Filled(l.store)
    ensures Filled(Purge(l, offset, io).log.store)
    ensures Purgeable(l.store, offset) <==> offset in l.store.records
  {
    var s := l.store;
    if Purgeable(s, offset) {
      var p := l.(store := s.(purged := s.purged + {offset}, records := s.records - {offset}), sync := l.sync.(dirty := true));
      SyncKeepsStore(p, io);
    }
    hide Flush;
  }

  lemma HandleFit(l: PartitionLog, c: Command, io: Io)
    requires Fit(l) && !c.Commit?
    ensures Fit(Handle(l, c, io).log)
  {
    HandleRises(l, c, io);
    hide Filled, SoundLog, Append, Purge, GcSealed, Flush, Range;
    match c
    case AppendBatch(items, overhead, fence) => AppendFilled(l, items, overhead, fence, io);
    case AppendFrame(frame, overhead, expected) => if frame.Some? { AppendFilled(l, [frame.value], overhead, None, io); }
    case PurgeOffset(offset) => PurgeFilled(l, offset, io);
    case Gc(watermark) => GcFilled(l, watermark);
    case _ => SyncKeepsStore(l, io);
  }

  /** An actor over a log in order. */
  ghost predicate Ready(a: Actor) {
    Sound(a) && Fit(a.log)
  }

  lemma ReceiveReady(a: Actor, e: Event)
    requires Waiting(a.waiters) && Ready(a)
    ensures Ready(Receive(a, e).actor)
  {
    ReceiveSound(a, e);
    if e.Dequeued? && !e.request.command.Commit? {
      HandleFit(a.log, e.request.command, e.request.io);
      hide Handle, Filled, SoundLog;
    } else {
      if |a.waiters| > 0 { SyncKeepsStore(a.log, a.waiters[0].io); }
      if e.Dequeued? { SyncKeepsStore(a.log, (a.waiters + [e.request])[0].io); }
      hide Flush, Filled, Handle, Verdicts;
    }
  }

  lemma StepAt(a: Actor, events: seq<Event>, n: nat)
    requires Waiting(a.waiters) && n < |events|
    ensures ActorAt(a, events, n + 1) == Receive(ActorAt(a, events, n), events[n]).actor && ActorAt(a, events, 0) == a
  {
    hide Receive;
  }

  lemma {:induction false} ReadyAt(a: Actor, events: seq<Event>, n: nat)
    requires Waiting(a.waiters) && Ready(a) && n <= |events|
    ensures Ready(ActorAt(a, events, n))
  {
    hide Ready, Receive, Waiting;
    if n > 0 {
      ReadyAt(a, events, n - 1);
      StepAt(a, events, n - 1);
      hide ActorAt;
      ReceiveReady(ActorAt(a, events, n - 1), events[n - 1]);
    }
  }

  // What each answer says.

  /** Records of the log, ascending, at or past `from`, at most `max`, none passed over, and short
      only if there are no more. */
  ghost predicate ReadTrue(l: PartitionLog, from: nat, max: nat, reply: Reply) {
    && reply.Messages? && |reply.stored| <= max
    && (forall k :: 0 <= k < |reply.stored| ==> from <= reply.stored[k].offset && Readable(l, reply.stored[k]))
    && (forall j, k :: 0 <= j < k < |reply.stored| ==> reply.stored[j].offset < reply.stored[k].offset)
    && (forall r: Stored :: Readable(l, r) && from <= r.offset ==>
          r in reply.stored || (|reply.stored| == max && forall k :: 0 <= k < max ==> reply.stored[k].offset < r.offset))
  }

  predicate Readable(l: PartitionLog, r: Stored) {
    r.offset in l.store.records && l.store.records[r.offset] == r.item
  }

  /** The items stand in the log under consecutive offsets from its old end, behind everything
      that was there. */
  ghost predicate Grown(l: PartitionLog, l': PartitionLog, items: seq<Item>) {
    && l'.store.next == l.store.next + |items|
    && (forall r: Stored :: Readable(l', r) <==>
          Readable(l, r) || (l.store.next <= r.offset < l'.store.next && r.item == items[r.offset - l.store.next]))
  }

  /** The answer names exactly these items, under consecutive offsets. */
  ghost predicate Names(reply: Reply, items: seq<Item>, from: nat) {
    reply.Appended? && |reply.stored| == |items| && forall k :: 0 <= k < |items| ==> reply.stored[k] == Stored(from + k, items[k])
  }

  /** Nothing keeps a sync from succeeding. */
  predicate SyncWorks(l: PartitionLog, io: Io) {
    io.dataSyncs && io.metaSaves && io.segmentSyncs && !l.sync.failNext
  }

  /** The batch is in the log unless its fence is stale; the answer names its records, or says
      that the fence is stale or that syncing failed. The fence, once raised, stays. */
  ghost predicate AppendTrue(l: PartitionLog, l': PartitionLog, items: seq<Item>, fence: Option<nat>, io: Io, reply: Reply) {
    var stale := items != [] && fence.Some? && fence.value < l.store.generation;
    && (if stale then l' == l && reply == Refused(StaleFence(fence.value, l.store.generation)) else Grown(l, l', items))
    && (!stale ==> reply == Refused(SyncFailed) || Names(reply, items, l.store.next))
    && (reply == Refused(SyncFailed) ==> items != [] && !SyncWorks(l, io))
    && l'.store.generation == if !stale && items != [] && fence.Some? && fence.value > l.store.generation then fence.value else l.store.generation
  }

  /** A frame is filed at the end only; one for a taken offset is confirmed exactly when the record
      there has its id, and any other is refused without a change. */
  ghost predicate FrameTrue(l: PartitionLog, l': PartitionLog, frame: Option<Item>, expected: Option<nat>, io: Io, reply: Reply) {
    l'.store.generation == l.store.generation &&
    match frame
    case None => l' == l && reply == Refused(BadFrame)
    case Some(item) =>
      if expected.None? || expected.value == l.store.next then
        Grown(l, l', [item]) && (reply == Appended([Stored(l.store.next, item)]) || (reply == Refused(SyncFailed) && !SyncWorks(l, io)))
      else
        && l' == l
        && (if expected.value in l.store.records && expected.value < l.store.next && l.store.records[expected.value].id == item.id
            then reply == Appended([Stored(expected.value, l.store.records[expected.value])])
            else reply == Refused(OffsetMismatch(l.store.next, expected.value)))
  }

  /** The answer is yes exactly when a readable record becomes unreadable; no other does. */
  ghost predicate PurgeTrue(l: PartitionLog, l': PartitionLog, offset: nat, reply: Reply) {
    && reply == Flag(offset in l.store.records)
    && l'.store.next == l.store.next && l'.store.generation == l.store.generation
    && (forall r: Stored :: Readable(l', r) <==> Readable(l, r) && r.offset != offset)
  }

  /** A watermark behind the last one is refused; otherwise exactly the sealed segments that end
      at or below it go, with their records, and the answer is their number. */
  ghost predicate GcTrue(l: PartitionLog, l': PartitionLog, watermark: nat, reply: Reply) {
    if watermark < l.store.gcWatermark then l' == l && reply == Refused(BadWatermark)
    else
      && |l'.store.sealed| <= |l.store.sealed| && reply == Number(|l.store.sealed| - |l'.store.sealed|)
      && l'.store.gcWatermark == watermark && l'.store.next == l.store.next && l'.store.generation == l.store.generation
      && (forall g :: g in l'.store.sealed <==> g in l.store.sealed && g.last > watermark)
      && (forall r: Stored :: Readable(l', r) <==>
            Readable(l, r) && !exists g :: g in l.store.sealed && g.first <= r.offset < g.last <= watermark)
  }

  ghost predicate Truthful(l: PartitionLog, l': PartitionLog, c: Command, io: Io, reply: Reply) {
    match c
    case AppendBatch(items, _, fence) => AppendTrue(l, l', items, fence, io, reply)
    case AppendFrame(frame, _, expected) => FrameTrue(l, l', frame, expected, io, reply)
    case Read(from, max) => l' == l && ReadTrue(l, from, max, reply)
    case HighWatermark => l' == l && reply == Number(l.store.next)
    case PurgeOffset(offset) => PurgeTrue(l, l', offset, reply)
    case Gc(watermark) => GcTrue(l, l', watermark, reply)
    case FlushNow =>
      l'.store == l.store &&
      ((reply == Refused(SyncFailed) && !SyncWorks(l, io)) || (reply == Number(l.store.next) && l'.sync.committed == l.store.next))
    case FlushDue =>
      && l'.store == l.store
      && ((reply == Refused(SyncFailed) && !SyncWorks(l, io)) || reply == Done)
      && (reply == Done && l.mode.Group? && io.flushDue ==> l'.sync.committed == l.store.next)
    case FlushCount => l' == l && reply == Number(l.sync.flushes)
    case InjectFailure => l'.store == l.store && l'.sync == l.sync.(failNext := true) && reply == Done
    case Commit(_) => false
  }

  lemma ReadIsTrue(l: PartitionLog, from: nat, max: nat)
    requires Filled(l.store)
    ensures ReadTrue(l, from, max, Messages(ReadRange(l, from, max)))
  {
    var s := l.store;
    RangeIsOrdered(s.records, from, s.next, max);
    var out := ReadRange(l, from, max);
    forall r: Stored | Readable(l, r) && from <= r.offset
      ensures r in out || (|out| == max && forall k :: 0 <= k < max ==> out[k].offset < r.offset)
    {
      RangeSkipsNone(s.records, from, s.next, max, r.offset);
    }
    hide Range, Filled;
  }

  lemma {:induction false} RangeSkipsNone(records: map<nat, Item>, from: nat, end: nat, max: nat, o: nat)
    requires from <= o < end && o in records
    ensures var out := Range(records, from, end, max);
            Stored(o, records[o]) in out || (|out| == max && forall k :: 0 <= k < max ==> out[k].offset < o)
    decreases end - from
  {
    if max > 0 && from < o { RangeSkipsNone(records, from + 1, end, if from in records then max - 1 else max, o); }
  }

  lemma {:induction false} NumberedAt(items: seq<Item>, from: nat, k: nat)
    requires k < |items|
    ensures |Numbered(items, from)| == |items| && Numbered(items, from)[k] == Stored(from + k, items[k])
  {
    if |items| > 1 { NumberedAt(items[1..], from + 1, if k == 0 then 0 else k - 1); }
  }

  lemma GrownBy(l: PartitionLog, items: seq<Item>, overhead: nat, fence: Option<nat>, io: Io)
    requires Filled(l.store) && items != [] && !(fence.Some? && fence.value < l.store.generation)
    ensures Grown(l, Append(l, items, overhead, fence, io).log, items)
  {
    AppendFiles(l, items, overhead, fence, io);
    WithAllExtends(l.store.records, items, l.store.next);
    hide Append, WithAll, Held;
  }

  lemma AppendAnswers(l: PartitionLog, items: seq<Item>, overhead: nat, fence: Option<nat>, io: Io)
    ensures var r := Append(l, items, overhead, fence, io);
            && (r.result.Err? ==> r.result.error.SyncFailed? || r.result.error.StaleFence?)
            && (r.result.Err? && r.result.error.StaleFence? ==> items != [] && fence.Some? && fence.value < l.store.generation)
            && (r.result.Err? ==> items != [])
            && (r.result.Err? && r.result.error.SyncFailed? ==> !SyncWorks(l, io))
            && (items == [] ==> r == Outcome(l, Ok([])))
            && r.log.store.generation ==
               if items != [] && fence.Some? && fence.value > l.store.generation then fence.value else l.store.generation
  {
    hide WithAll, Bytes, Numbered;
  }

  lemma AppendIsTrue(l: PartitionLog, items: seq<Item>, overhead: nat, fence: Option<nat>, io: Io)
    requires Filled(l.store)
    ensures var h := Handle(l, AppendBatch(items, overhead, fence), io); AppendTrue(l, h.log, items, fence, io, h.reply)
  {
    AppendAnswers(l, items, overhead, fence, io);
    var stale := items != [] && fence.Some? && fence.value < l.store.generation;
    if items != [] && !stale {
      GrownBy(l, items, overhead, fence, io);
      if Append(l, items, overhead, fence, io).result.Ok? { AppendResult(l, items, overhead, fence, io); }
      forall k | 0 <= k < |items| ensures |Numbered(items, l.store.next)| == |items| && Numbered(items, l.store.next)[k] == Stored(l.store.next + k, items[k]) {
        NumberedAt(items, l.store.next, k);
      }
    }
    hide Append, Numbered, Filled, Grown;
    assert stale ==> Append(l, items, overhead, fence, io) == Outcome(l, Err(StaleFence(fence.value, l.store.generation))) by {
      StaleRefused(l, items, overhead, fence, io);
    }
    assert items == [] ==> Grown(l, l, items) by { GrownByNothing(l); }
    if items != [] && !stale { assert |Numbered(items, l.store.next)| == |items| by { NumberedAt(items, l.store.next, 0); } }
  }

  lemma GrownByNothing(l: PartitionLog)
    ensures Grown(l, l, [])
  {
  }

  /** An append under a stale fence is refused without a change. */
  lemma StaleRefused(l: PartitionLog, items: seq<Item>, overhead: nat, fence: Option<nat>, io: Io)
    ensures items != [] && fence.Some? && fence.value < l.store.generation ==>
              Append(l, items, overhead, fence, io) == Outcome(l, Err(StaleFence(fence.value, l.store.generation)))
  {
  }

  lemma FrameIsTrue(l: PartitionLog, frame: Option<Item>, overhead: nat, expected: Option<nat>, io: Io)
    requires Filled(l.store)
    ensures var h := Handle(l, AppendFrame(frame, overhead, expected), io); FrameTrue(l, h.log, frame, expected, io, h.reply)
  {
    if frame.Some? {
      if expected.None? || expected.value == l.store.next {
        AppendAnswers(l, [frame.value], overhead, None, io);
        GrownBy(l, [frame.value], overhead, None, io);
        hide Append, Filled, Grown, Range;
      } else if expected.value < l.store.next {
        RangeIsOrdered(l.store.records, expected.value, l.store.next, 1);
        if expected.value in l.store.records { RangeSkipsNone(l.store.records, expected.value, l.store.next, 1, expected.value); }
        hide Append, Filled, Grown, Range;
      }
    }
  }

  lemma PurgeIsTrue(l: PartitionLog, offset: nat, io: Io)
    requires Filled(l.store)
    ensures var h := Handle(l, PurgeOffset(offset), io); PurgeTrue(l, h.log, offset, h.reply)
  {
    PurgeFilled(l, offset, io);
    var s := l.store;
    var p := l.(store := s.(purged := s.purged + {offset}, records := s.records - {offset}), sync := l.sync.(dirty := true));
    SyncKeepsStore(p, io);
    hide Flush, Purgeable, Filled;
  }

  lemma GcIsTrue(l: PartitionLog, watermark: nat)
    requires Filled(l.store)
    ensures var h := Handle(l, Gc(watermark), Io(true, true, true, true)); GcTrue(l, h.log, watermark, h.reply)
  {
    var s := l.store;
    KeptFilled(s, watermark);
    var kept := Kept(s.sealed, watermark);
    forall g ensures g in kept <==> g in s.sealed && g.last > watermark {
      KeptMembers(s.sealed, watermark, g);
      if g in s.sealed { var i :| 0 <= i < |s.sealed| && s.sealed[i] == g; }
    }
    forall o: nat | o in s.records
      ensures Held(kept, s.base, o) <==> !exists g :: g in s.sealed && g.first <= o < g.last <= watermark
    {
      GcDrops(s, kept, watermark, o);
    }
    hide Kept, Held, Filled;
  }

  lemma GcDrops(s: Store, kept: seq<Segment>, watermark: nat, o: nat)
    requires Filled(s) && o in s.records && forall g :: g in kept <==> g in s.sealed && g.last > watermark
    ensures Held(kept, s.base, o) <==> !exists g :: g in s.sealed && g.first <= o < g.last <= watermark
  {
    if o < s.base {
      var i :| 0 <= i < |s.sealed| && s.sealed[i].first <= o < s.sealed[i].last;
      var g := s.sealed[i];
      forall x | x in s.sealed && x.first <= o < x.last ensures x == g {
        var j :| 0 <= j < |s.sealed| && s.sealed[j] == x;
        assert !(i < j) && !(j < i);
      }
      if g in kept { var j :| 0 <= j < |kept| && kept[j] == g; }
    }
  }

  lemma HandleIsTrue(l: PartitionLog, c: Command, io: Io)
    requires Fit(l) && !c.Commit?
    ensures Truthful(l, Handle(l, c, io).log, c, io, Handle(l, c, io).reply)
  {
    hide AppendTrue, FrameTrue, ReadTrue, PurgeTrue, GcTrue, Filled, Append, AppendRaw, Purge, GcSealed, ReadRange;
    match c
    case AppendBatch(items, overhead, fence) => AppendIsTrue(l, items, overhead, fence, io);
    case AppendFrame(frame, overhead, expected) => FrameIsTrue(l, frame, overhead, expected, io);
    case Read(from, max) => ReadIsTrue(l, from, max);
    case PurgeOffset(offset) => PurgeIsTrue(l, offset, io);
    case Gc(watermark) => GcIsTrue(l, watermark);
    case _ => FlushRises(l, io);
  }

  /** In every run and however commits are grouped: the answer to each command but a commit is
      true of the log as it stood when the command's turn came, and so is what it did to it. */
  lemma AnswersAreTrue(a: Actor, events: seq<Event>, i: nat) returns (at: nat)
    requires Waiting(a.waiters) && Ready(a) && i < |events| && events[i].Dequeued? && !events[i].request.command.Commit?
    ensures at == |AnswersUpTo(a, events, i)| < |Run(a, events).answers|
    ensures var answer := Run(a, events).answers[at];
            && answer.request == events[i].request
            && Truthful(ActorAt(a, events, i).log, ActorAt(a, events, i + 1).log, answer.request.command, answer.request.io, answer.reply)
  {
    hide Run, Handle, Truthful, Receive, Waiting, Fit, AnswersUpTo;
    ReadyAt(a, events, i);
    at := AnswerAt(a, events, i);
    hide ActorAt;
    HandleIsTrue(ActorAt(a, events, i).log, events[i].request.command, events[i].request.io);
  }

  // What stays readable.

  /** The event neither purges the offset nor collects segments past it. */
  predicate Spares(e: Event, o: nat) {
    e.Dequeued? ==> e.request.command != PurgeOffset(o) && (e.request.command.Gc? ==> e.request.command.watermark <= o)
  }

  lemma SparedStep(a: Actor, e: Event, r: Stored)
    requires Waiting(a.waiters) && Ready(a) && Readable(a.log, r) && Spares(e, r.offset)
    ensures Readable(Receive(a, e).actor.log, r)
  {
    if e.Dequeued? && !e.request.command.Commit? {
      HandleIsTrue(a.log, e.request.command, e.request.io);
      hide Handle, Ready, ReadTrue;
    } else {
      if |a.waiters| > 0 { SyncKeepsStore(a.log, a.waiters[0].io); }
      if e.Dequeued? { SyncKeepsStore(a.log, (a.waiters + [e.request])[0].io); }
      hide Flush, Handle, Verdicts, Ready;
    }
  }

  ghost predicate SparedFrom(events: seq<Event>, i: nat, j: nat, o: nat) {
    j <= |events| && forall n :: i <= n < j ==> Spares(events[n], o)
  }

  lemma SparedEnd(events: seq<Event>, i: nat, j: nat, o: nat)
    requires i < j && SparedFrom(events, i, j, o)
    ensures j <= |events| && SparedFrom(events, i, j - 1, o) && Spares(events[j - 1], o)
  {
    hide Spares;
  }

  lemma {:induction false} SparedStays(a: Actor, events: seq<Event>, i: nat, j: nat, r: Stored)
    requires Waiting(a.waiters) && Ready(a) && i <= j <= |events| && Readable(ActorAt(a, events, i).log, r) && SparedFrom(events, i, j, r.offset)
    ensures Readable(ActorAt(a, events, j).log, r)
  {
    hide Ready, Receive, Readable, ActorAt, Spares, SparedFrom, Waiting;
    if i < j {
      SparedEnd(events, i, j, r.offset);
      SparedStays(a, events, i, j - 1, r);
      ReadyAt(a, events, j - 1);
      StepAt(a, events, j - 1);
      SparedStep(ActorAt(a, events, j - 1), events[j - 1], r);
    }
  }

  lemma NamedIsReadable(l: PartitionLog, l': PartitionLog, c: Command, io: Io, reply: Reply, k: nat)
    requires c.AppendBatch? && k < |c.items| && Truthful(l, l', c, io, reply) && reply.Appended?
    ensures var r := Stored(l.store.next + k, c.items[k]); k < |reply.stored| && reply.stored[k] == r && Readable(l', r)
  {
    NamedIsGrown(l, l', c.items, c.fence, io, reply);
    hide Truthful;
    assert Readable(l', Stored(l.store.next + k, c.items[k]));
  }

  lemma NamedIsGrown(l: PartitionLog, l': PartitionLog, items: seq<Item>, fence: Option<nat>, io: Io, reply: Reply)
    requires AppendTrue(l, l', items, fence, io, reply) && reply.Appended?
    ensures Grown(l, l', items) && Names(reply, items, l.store.next)
  {
    hide Grown, Names;
  }

  /** What an append is told it stored can be read. */
  lemma AppendedReadable(a: Actor, events: seq<Event>, i: nat, k: nat) returns (at: nat)
    requires Waiting(a.waiters) && Ready(a) && i < |events|
    requires events[i].Dequeued? && events[i].request.command.AppendBatch? && k < |events[i].request.command.items|
    ensures at < |Run(a, events).answers| && Run(a, events).answers[at].request == events[i].request
    ensures var reply := Run(a, events).answers[at].reply;
            var r := Stored(ActorAt(a, events, i).log.store.next + k, events[i].request.command.items[k]);
            reply.Appended? ==> k < |reply.stored| && reply.stored[k] == r && Readable(ActorAt(a, events, i + 1).log, r)
  {
    hide Run, Receive, ActorAt, Ready, Waiting, Truthful, Readable, AnswersUpTo;
    at := AnswersAreTrue(a, events, i);
    if Run(a, events).answers[at].reply.Appended? {
      NamedIsReadable(ActorAt(a, events, i).log, ActorAt(a, events, i + 1).log, events[i].request.command, events[i].request.io, Run(a, events).answers[at].reply, k);
    }
  }

  /** What an append is told it stored, every later read from that offset gives first, until the
      offset is purged or its segment collected. */
  lemma AppendedIsRead(a: Actor, events: seq<Event>, i: nat, k: nat, j: nat, r: Stored, max: nat) returns (at: nat, later: nat)
    requires Waiting(a.waiters) && Ready(a) && i < j < |events| && max > 0
    requires events[i].Dequeued? && events[i].request.command.AppendBatch? && k < |events[i].request.command.items|
    requires r == Stored(ActorAt(a, events, i).log.store.next + k, events[i].request.command.items[k])
    requires events[j].Dequeued? && events[j].request.command == Read(r.offset, max) && SparedFrom(events, i + 1, j, r.offset)
    ensures at < |Run(a, events).answers| && Run(a, events).answers[at].request == events[i].request
    ensures later < |Run(a, events).answers| && Run(a, events).answers[later].request == events[j].request
    ensures var first, second := Run(a, events).answers[at].reply, Run(a, events).answers[later].reply;
            first.Appended? ==>
              && k < |first.stored| && first.stored[k] == r
              && second.Messages? && |second.stored| > 0 && second.stored[0] == r
  {
    hide Run, Receive, ActorAt, Ready, Waiting, SparedFrom, ReadTrue, Readable, AnswersUpTo;
    at := AppendedReadable(a, events, i, k);
    later := AnswersAreTrue(a, events, j);
    if Run(a, events).answers[at].reply.Appended? {
      SparedStays(a, events, i + 1, j, r);
      FirstRead(ActorAt(a, events, j).log, r, max, Run(a, events).answers[later].reply);
    }
  }

  lemma FirstRead(l: PartitionLog, r: Stored, max: nat, reply: Reply)
    requires ReadTrue(l, r.offset, max, reply) && max > 0 && Readable(l, r)
    ensures reply.Messages? && |reply.stored| > 0 && reply.stored[0] == r
  {
    assert forall j :: 0 <= j < |reply.stored| ==> reply.stored[j].offset >= r.offset;
    assert |reply.stored| == max ==> reply.stored[0].offset >= r.offset;
    assert r in reply.stored;
    var k :| 0 <= k < |reply.stored| && reply.stored[k] == r;
    assert k == 0;
  }

  /** Event `n` gives out offset `o`. */
  predicate GivesOut(a: Actor, events: seq<Event>, n: nat, o: nat)
    requires Waiting(a.waiters)
  {
    n < |events| && ActorAt(a, events, n).log.store.next <= o < ActorAt(a, events, n + 1).log.store.next
  }

  lemma NextRises(a: Actor, e: Event)
    requires Waiting(a.waiters) && Ready(a)
    ensures a.log.store.next <= Receive(a, e).actor.log.store.next
  {
    ReceiveSound(a, e);
    hide Receive, Sound, Fit;
  }

  lemma {:induction false} NextStays(a: Actor, events: seq<Event>, n: nat, m: nat)
    requires Waiting(a.waiters) && Ready(a) && n <= m <= |events|
    ensures ActorAt(a, events, n).log.store.next <= ActorAt(a, events, m).log.store.next
  {
    hide Ready, Receive, ActorAt, Waiting;
    if n < m {
      NextStays(a, events, n, m - 1);
      ReadyAt(a, events, m - 1);
      StepAt(a, events, m - 1);
      NextRises(ActorAt(a, events, m - 1), events[m - 1]);
    }
  }

  lemma GivesAt(a: Actor, events: seq<Event>, n: nat, o: nat)
    requires Waiting(a.waiters) && n < |events|
    ensures GivesOut(a, events, n, o) <==> ActorAt(a, events, n).log.store.next <= o < ActorAt(a, events, n + 1).log.store.next
  {
    hide ActorAt;
  }

  /** One of the first `i` events gives out `o`. */
  ghost predicate GivenOut(a: Actor, events: seq<Event>, i: nat, o: nat)
    requires Waiting(a.waiters)
  {
    exists n: nat :: n < i && GivesOut(a, events, n, o)
  }

  lemma GivenOutStep(a: Actor, events: seq<Event>, i: nat, o: nat)
    requires Waiting(a.waiters)
    ensures GivenOut(a, events, i + 1, o) <==> GivenOut(a, events, i, o) || GivesOut(a, events, i, o)
  {
    hide GivesOut;
  }

  lemma NoneGivenOut(a: Actor, events: seq<Event>, o: nat)
    requires Waiting(a.waiters)
    ensures !GivenOut(a, events, 0, o) && ActorAt(a, events, 0) == a
  {
  }

  /** Of the offsets from the start of a run on, exactly those below the end of the log have been
      given out. */
  lemma {:induction false} WatermarkExactly(a: Actor, events: seq<Event>, i: nat, o: nat)
    requires Waiting(a.waiters) && Ready(a) && i <= |events| && o >= a.log.store.next
    ensures o < ActorAt(a, events, i).log.store.next <==> GivenOut(a, events, i, o)
  {
    hide GivesOut, GivenOut, Ready, ActorAt, Waiting;
    if i == 0 {
      NoneGivenOut(a, events, o);
    } else {
      WatermarkExactly(a, events, i - 1, o);
      GivenOutStep(a, events, i - 1, o);
      NextStays(a, events, i - 1, i);
      GivesAt(a, events, i - 1, o);
    }
  }

  /** And no offset is given out twice. */
  lemma GivenOutOnce(a: Actor, events: seq<Event>, n: nat, m: nat, o: nat)
    requires Waiting(a.waiters) && Ready(a) && GivesOut(a, events, n, o) && GivesOut(a, events, m, o)
    ensures n == m
  {
    hide Ready, ActorAt, Waiting;
    if n < m { NextStays(a, events, n + 1, m); }
    if m < n { NextStays(a, events, m + 1, n); }
  }

  /** A watermark query is answered with one past the last offset given out. */
  lemma WatermarkAnswer(a: Actor, events: seq<Event>, i: nat, o: nat) returns (at: nat)
    requires Waiting(a.waiters) && Ready(a) && i < |events| && events[i].Dequeued? && events[i].request.command == HighWatermark
    requires o >= a.log.store.next
    ensures at < |Run(a, events).answers| && Run(a, events).answers[at].request == events[i].request
    ensures Run(a, events).answers[at].reply.Number?
    ensures o < Run(a, events).answers[at].reply.value <==> GivenOut(a, events, i, o)
  {
    hide Run, Receive, ActorAt, Ready, Waiting, GivenOut, AnswersUpTo;
    at := AnswersAreTrue(a, events, i);
    WatermarkExactly(a, events, i, o);
  }

  lemma FenceRises(a: Actor, e: Event)
    requires Waiting(a.waiters) && Ready(a)
    ensures a.log.store.generation <= Receive(a, e).actor.log.store.generation
  {
    if e.Dequeued? && !e.request.command.Commit? {
      HandleIsTrue(a.log, e.request.command, e.request.io);
      hide Handle, Ready, ReadTrue, Grown, Readable, Names;
    } else {
      if |a.waiters| > 0 { SyncKeepsStore(a.log, a.waiters[0].io); }
      if e.Dequeued? { SyncKeepsStore(a.log, (a.waiters + [e.request])[0].io); }
      hide Flush, Handle, Verdicts, Ready;
    }
  }

  lemma {:induction false} FenceStays(a: Actor, events: seq<Event>, n: nat, m: nat)
    requires Waiting(a.waiters) && Ready(a) && n <= m <= |events|
    ensures ActorAt(a, events, n).log.store.generation <= ActorAt(a, events, m).log.store.generation
  {
    hide Ready, Receive, ActorAt, Waiting;
    if n < m {
      FenceStays(a, events, n, m - 1);
      ReadyAt(a, events, m - 1);
      StepAt(a, events, m - 1);
      FenceRises(ActorAt(a, events, m - 1), events[m - 1]);
    }
  }

  /** Once an append has been let through under a fence, every later append under a lower one is
      refused and changes nothing. */
  lemma OldLeaderIsFenced(a: Actor, events: seq<Event>, i: nat, j: nat) returns (at: nat, later: nat)
    requires Waiting(a.waiters) && Ready(a) && i < j < |events|
    requires events[i].Dequeued? && events[i].request.command.AppendBatch? && events[i].request.command.items != []
    requires events[j].Dequeued? && events[j].request.command.AppendBatch? && events[j].request.command.items != []
    requires var earlier, fence := events[i].request.command.fence, events[j].request.command.fence; earlier.Some? && fence.Some? && fence.value < earlier.value
    ensures at < |Run(a, events).answers| && Run(a, events).answers[at].request == events[i].request
    ensures later < |Run(a, events).answers| && Run(a, events).answers[later].request == events[j].request
    ensures var first, second := Run(a, events).answers[at].reply, Run(a, events).answers[later].reply;
            first.Appended? ==> second.Refused? && second.error.StaleFence? && ActorAt(a, events, j + 1).log == ActorAt(a, events, j).log
  {
    hide Run, Receive, ActorAt, Ready, Waiting, Truthful, AnswersUpTo;
    at := AnswersAreTrue(a, events, i);
    later := AnswersAreTrue(a, events, j);
    FenceStays(a, events, i + 1, j);
    if Run(a, events).answers[at].reply.Appended? {
      FenceKnown(ActorAt(a, events, i).log, ActorAt(a, events, i + 1).log, events[i].request, Run(a, events).answers[at].reply);
      StaleIsRefused(ActorAt(a, events, j).log, ActorAt(a, events, j + 1).log, events[j].request, Run(a, events).answers[later].reply);
    }
  }

  lemma FenceKnown(l: PartitionLog, l': PartitionLog, r: Request, reply: Reply)
    requires r.command.AppendBatch? && r.command.items != [] && r.command.fence.Some?
    requires Truthful(l, l', r.command, r.io, reply) && reply.Appended?
    ensures l'.store.generation >= r.command.fence.value
  {
    hide Grown, Names;
  }

  lemma StaleIsRefused(l: PartitionLog, l': PartitionLog, r: Request, reply: Reply)
    requires r.command.AppendBatch? && r.command.items != [] && r.command.fence.Some? && r.command.fence.value < l.store.generation
    requires Truthful(l, l', r.command, r.io, reply)
    ensures l' == l && reply == Refused(StaleFence(r.command.fence.value, l.store.generation))
  {
    hide Grown, Names;
  }

  lemma EmptyFits(mode: Mode, maxBytes: nat)
    ensures Waiting(Empty(mode, maxBytes).waiters) && Ready(Empty(mode, maxBytes))
  {
  }
}
