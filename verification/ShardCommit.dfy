// What the shard actor's acknowledgements are worth, and why grouping commits does not
// show in any other reply.
module ShardCommit {
  import opened Basics
  import opened Partition
  import opened Shard

  /** Committed records are below the end and, unless syncing is left to the operating system,
      on disk; a clean log is committed to its end. */
  predicate SoundLog(l: PartitionLog) {
    && l.sync.committed <= l.store.next && l.sync.synced <= l.store.next
    && (!l.mode.Os? ==> l.sync.committed <= l.sync.synced)
    && (!l.sync.dirty ==> l.sync.committed == l.store.next)
  }

  predicate Rises(l: PartitionLog, l': PartitionLog) {
    && l'.mode == l.mode && l'.maxBytes == l.maxBytes && l.store.next <= l'.store.next
    && l.sync.committed <= l'.sync.committed && l.sync.synced <= l'.sync.synced
  }

  lemma FlushRises(l: PartitionLog, io: Io)
    requires SoundLog(l)
    ensures SoundLog(Flush(l, io).log) && Rises(l, Flush(l, io).log) && Flush(l, io).log.store == l.store
    ensures Flush(l, io).result.Ok? ==> Flush(l, io).log.sync.committed == l.store.next
  {
  }

  lemma RollRises(l: PartitionLog, io: Io)
    requires SoundLog(l)
    ensures SoundLog(Rolled(l, io).log) && Rises(l, Rolled(l, io).log)
  {
  }

  lemma AppendRises(l: PartitionLog, items: seq<Item>, overhead: nat, fence: Option<nat>, io: Io)
    requires SoundLog(l)
    ensures SoundLog(Append(l, items, overhead, fence, io).log) && Rises(l, Append(l, items, overhead, fence, io).log)
  {
    hide WithAll, Bytes, Numbered, Flush, Rolled;
    var f := Fenced(l, fence);
    var filed := f.(store := Filed(f.store, items, overhead), sync := f.sync.(dirty := true));
    FlushRises(filed, io);
    RollRises(filed, io);
    RollRises(Flush(filed, io).log, io);
  }

  lemma PurgeRises(l: PartitionLog, offset: nat, io: Io)
    requires SoundLog(l)
    ensures SoundLog(Purge(l, offset, io).log) && Rises(l, Purge(l, offset, io).log)
  {
    hide Purgeable;
  }

  lemma HandleRises(l: PartitionLog, c: Command, io: Io)
    requires SoundLog(l) && !c.Commit?
    ensures SoundLog(Handle(l, c, io).log) && Rises(l, Handle(l, c, io).log) && !Handle(l, c, io).reply.Committed?
  {
    hide Flush, Append, Purge, ReadRange, Kept, Held;
    match c
    case AppendBatch(items, overhead, fence) => AppendRises(l, items, overhead, fence, io);
    case AppendFrame(frame, overhead, expected) =>
      if frame.Some? { AppendRises(l, [frame.value], overhead, None, io); }
    case PurgeOffset(offset) => PurgeRises(l, offset, io);
    case FlushNow => FlushRises(l, io);
    case FlushDue => FlushRises(l, io);
    case _ =>
  }

  predicate Sound(a: Actor) {
    SoundLog(a.log) && Waiting(a.waiters) && a.published <= a.log.sync.committed
  }

  /** The acknowledged offset lies below the watermark it was given, which the log stands by. */
  predicate AckHolds(answer: Answer, l: PartitionLog) {
    answer.reply.Committed? ==>
      && answer.request.command.Commit? && answer.request.command.offset < answer.reply.hwm <= l.sync.committed
      && (!l.mode.Os? ==> answer.reply.hwm <= l.sync.synced)
  }

  ghost predicate AcksHold(answers: seq<Answer>, l: PartitionLog) {
    forall i :: 0 <= i < |answers| ==> AckHolds(answers[i], l)
  }

  /** In one epoch a waiter is acknowledged exactly when the sync succeeded and its offset has
      been appended; when the sync fails, every waiter fails. */
  lemma EpochExactly(a: Actor, i: nat)
    requires Sound(a) && i < |a.waiters|
    ensures var step, sync := CommitEpoch(a), EpochSync(a.log, a.waiters);
            && |step.answers| == |a.waiters| && step.answers[i].request == a.waiters[i]
            && (step.answers[i].reply.Committed? <==> sync.result.Ok? && a.waiters[i].command.offset < a.log.store.next)
            && (sync.result.Err? ==> step.answers[i].reply == CommitFailed)
  {
    FlushRises(a.log, a.waiters[0].io);
    hide Flush;
  }

  lemma EpochSound(a: Actor)
    requires Sound(a)
    ensures var step := CommitEpoch(a);
            Sound(step.actor) && Rises(a.log, step.actor.log) && AcksHold(step.answers, step.actor.log)
  {
    if |a.waiters| > 0 { FlushRises(a.log, a.waiters[0].io); }
    hide Flush;
  }

  lemma ReceiveSound(a: Actor, e: Event)
    requires Sound(a)
    ensures var step := Receive(a, e);
            Sound(step.actor) && Rises(a.log, step.actor.log) && AcksHold(step.answers, step.actor.log)
  {
    hide CommitEpoch, Handle;
    if e.Dequeued? && !e.request.command.Commit? {
      HandleRises(a.log, e.request.command, e.request.io);
    } else {
      EpochSound(a);
      if e.Dequeued? {
        assert Sound(a.(waiters := a.waiters + [e.request]));
        EpochSound(a.(waiters := a.waiters + [e.request]));
      }
    }
  }

  lemma AcksStay(answers: seq<Answer>, l: PartitionLog, l': PartitionLog)
    requires AcksHold(answers, l) && Rises(l, l')
    ensures AcksHold(answers, l')
  {
  }

  /** In every run, whatever the file system answers: an offset is acknowledged only below a
      watermark the log stands by, and clients are never shown more than that. */
  lemma {:induction false} AcksAreSound(a: Actor, events: seq<Event>)
    requires Sound(a)
    ensures var step := Run(a, events);
            Sound(step.actor) && Rises(a.log, step.actor.log) && AcksHold(step.answers, step.actor.log)
    decreases |events|
  {
    if events == [] {
      EpochSound(a);
      hide CommitEpoch;
    } else {
      ReceiveSound(a, events[0]);
      var first := Receive(a, events[0]);
      hide Receive, CommitEpoch, Sound, AckHolds;
      ReceiveWaits(a, events[0]);
      AcksAreSound(first.actor, events[1..]);
      AcksStay(first.answers, first.actor.log, Run(first.actor, events[1..]).actor.log);
    }
  }

  /** A client that sees a published watermark past its offset is told so without asking the
      actor. */
  function FastPath(a: Actor, offset: nat): Option<nat> {
    if a.published > offset then Some(a.published) else None
  }

  lemma FastPathHolds(a: Actor, offset: nat)
    requires Sound(a)
    ensures FastPath(a, offset).Some? ==> offset < FastPath(a, offset).value <= a.log.sync.committed
    ensures FastPath(a, offset).Some? && !a.log.mode.Os? ==> offset < a.log.sync.synced
    ensures FastPath(a, offset).Some? <==> offset < a.published
  {
  }

  function Empty(mode: Mode, maxBytes: nat): Actor {
    Actor(PartitionLog(mode, maxBytes, Store(map[], [], 0, 0, {}, 0, 0, 0), Sync(0, 0, false, false, 0)), 0, [])
  }

  /** Every acknowledged offset is on disk. */
  ghost predicate AcksOnDisk(step: Step) {
    forall i | 0 <= i < |step.answers| && step.answers[i].reply.Committed? && step.answers[i].request.command.Commit? ::
      step.answers[i].request.command.offset < step.actor.log.sync.synced
  }

  /** An acknowledged offset is on disk in every run exactly when syncing is not left to the
      operating system. */
  lemma OnDiskExactly(mode: Mode, maxBytes: nat)
    ensures (forall events :: AcksOnDisk(Run(Empty(mode, maxBytes), events))) <==> !mode.Os?
  {
    var a := Empty(mode, maxBytes);
    if mode.Os? {
      UnsyncedAck(maxBytes);
    } else {
      forall events ensures AcksOnDisk(Run(a, events)) {
        AcksAreSound(a, events);
        hide Run;
        var step := Run(a, events);
        assert forall i :: 0 <= i < |step.answers| ==> AckHolds(step.answers[i], step.actor.log);
      }
    }
  }

  function WriteAndCommit(): seq<Event> {
    var io := Io(true, true, true, true);
    [Dequeued(Request(0, AppendBatch([Item(1, "q", 0)], 0, None), io)), Dequeued(Request(1, Commit(0), io))]
  }

  lemma UnsyncedAck(maxBytes: nat)
    ensures !AcksOnDisk(Run(Empty(Os, maxBytes), WriteAndCommit()))
  {
    var a, events := Empty(Os, maxBytes), WriteAndCommit();
    var items := [Item(1, "q", 0)];
    assert items[1..] == [];
    var first := Receive(a, events[0]);
    assert first.actor.log.store.next == 1 && first.actor.log.sync == Sync(0, 0, true, false, 0);
    assert events[1..][0] == events[1] && events[1..][1..] == [];
    var second := Receive(first.actor, events[1]);
    assert second.actor.waiters == [events[1].request];
    var third := CommitEpoch(second.actor);
    assert third.answers[0] == Answer(events[1].request, Committed(1));
    assert Run(second.actor, []) == third;
    assert Run(first.actor, events[1..]) == Step(third.actor, second.answers + third.answers);
    var step := Run(a, events);
    assert step.answers == first.answers + (second.answers + third.answers);
    assert step.answers[1] == third.answers[0];
  }

  /** Commands whose replies speak of the log's contents only. */
  predicate IsData(c: Command) {
    c.AppendBatch? || c.AppendFrame? || c.Read? || c.HighWatermark? || c.PurgeOffset? || c.Gc?
  }

  function DataAnswers(answers: seq<Answer>): seq<Answer> {
    if answers == [] then []
    else (if IsData(answers[0].request.command) then [answers[0]] else []) + DataAnswers(answers[1..])
  }

  datatype Serial = Serial(log: PartitionLog, answers: seq<Answer>)

  /** The reference: each command is settled before the next is looked at. */
  function OneAtATime(l: PartitionLog, requests: seq<Request>): Serial
    decreases |requests|
  {
    if requests == [] then Serial(l, []) else
      var first := Settle(l, requests[0]);
      var rest := OneAtATime(first.log, requests[1..]);
      Serial(rest.log, [first.answers[0]] + rest.answers)
  }

  function Settle(l: PartitionLog, r: Request): (s: Serial)
    ensures |s.answers| == 1
  {
    if r.command.Commit? then
      var step := CommitEpoch(Actor(l, 0, [r]));
      Serial(step.actor.log, step.answers)
    else
      var h := Handle(l, r.command, r.io);
      Serial(h.log, [Answer(r, h.reply)])
  }

  predicate SameStore(l: PartitionLog, l': PartitionLog) {
    l.mode == l'.mode && l.maxBytes == l'.maxBytes && l.store == l'.store
  }

  lemma SyncKeepsStore(l: PartitionLog, io: Io)
    ensures SameStore(l, Flush(l, io).log)
  {
  }

  lemma AppendSame(l: PartitionLog, l': PartitionLog, items: seq<Item>, overhead: nat, fence: Option<nat>, io: Io)
    requires SameStore(l, l') && !l.mode.Always?
    ensures var r, r' := Append(l, items, overhead, fence, io), Append(l', items, overhead, fence, io);
            SameStore(r.log, r'.log) && r.result == r'.result
  {
    hide Flush, Numbered, WithAll, Bytes;
  }

  /** Unless every write syncs, contents and data replies do not depend on what is synced. */
  lemma HandleSame(l: PartitionLog, l': PartitionLog, c: Command, io: Io)
    requires SameStore(l, l') && !l.mode.Always? && !c.Commit?
    ensures SameStore(Handle(l, c, io).log, Handle(l', c, io).log)
    ensures IsData(c) ==> Handle(l, c, io).reply == Handle(l', c, io).reply
  {
    hide Flush, Append, Range, Kept, Held, Purgeable;
    match c
    case AppendBatch(items, overhead, fence) => AppendSame(l, l', items, overhead, fence, io);
    case AppendFrame(frame, overhead, expected) =>
      if frame.Some? { AppendSame(l, l', [frame.value], overhead, None, io); }
    case _ =>
      SyncKeepsStore(l, io);
      SyncKeepsStore(l', io);
  }

  lemma {:induction false} DataSplit(a: seq<Answer>, b: seq<Answer>)
    ensures DataAnswers(a + b) == DataAnswers(a) + DataAnswers(b)
  {
    if a == [] {
      assert a + b == b;
    } else {
      DataSplit(a[1..], b);
      assert (a + b)[1..] == a[1..] + b;
    }
  }

  lemma {:induction false} CommitsCarryNoData(answers: seq<Answer>)
    requires forall i :: 0 <= i < |answers| ==> answers[i].request.command.Commit?
    ensures DataAnswers(answers) == []
  {
    if answers != [] { CommitsCarryNoData(answers[1..]); }
  }

  /** The actor and the reference have the same contents, and the same log where writes sync. */
  predicate Alike(a: Actor, l: PartitionLog) {
    SameStore(a.log, l) && (l.mode.Always? ==> a.log == l && a.waiters == [])
  }

  lemma EpochAlike(a: Actor, l: PartitionLog)
    requires Waiting(a.waiters) && SameStore(a.log, l)
    ensures SameStore(CommitEpoch(a).actor.log, l) && DataAnswers(CommitEpoch(a).answers) == []
  {
    if |a.waiters| > 0 { SyncKeepsStore(a.log, a.waiters[0].io); }
    hide Flush;
    CommitsCarryNoData(CommitEpoch(a).answers);
  }

  lemma SettleAlike(a: Actor, l: PartitionLog, r: Request)
    requires Waiting(a.waiters) && Alike(a, l)
    ensures var step, serial := Receive(a, Dequeued(r)), Settle(l, r);
            Alike(step.actor, serial.log) && DataAnswers(step.answers) == DataAnswers(serial.answers)
  {
    if r.command.Commit? {
      hide Handle, Flush;
      assert a.waiters == [] ==> a.waiters + [r] == [r];
      EpochAlike(Actor(l, 0, [r]), l);
      EpochAlike(Actor(a.log, a.published, [r]), l);
    } else {
      hide Handle, CommitEpoch;
      if !l.mode.Always? { HandleSame(a.log, l, r.command, r.io); }
      HandleKeepsMode(l, r.command, r.io);
      OneData(Answer(r, Handle(a.log, r.command, r.io).reply));
      OneData(Answer(r, Handle(l, r.command, r.io).reply));
    }
  }

  lemma OneData(answer: Answer)
    ensures DataAnswers([answer]) == if IsData(answer.request.command) then [answer] else []
  {
    assert [answer][1..] == [];
  }

  /** For every grouping of commits, the replies to appends, reads, purges, watermark queries
      and segment collection are those of one-at-a-time processing, in the same order. */
  lemma {:induction false} GroupingInvisible(a: Actor, events: seq<Event>, l: PartitionLog)
    requires Waiting(a.waiters) && Alike(a, l)
    ensures DataAnswers(Run(a, events).answers) == DataAnswers(OneAtATime(l, Commands(events)).answers)
    decreases |events|
  {
    hide Receive, CommitEpoch, Settle, Alike;
    if events == [] {
      assert SameStore(a.log, l) by { AlikeStore(a, l); }
      EpochAlike(a, l);
    } else {
      var e, rest := events[0], events[1..];
      ReceiveWaits(a, e);
      var first := Receive(a, e);
      DataSplit(first.answers, Run(first.actor, rest).answers);
      if e.Timeout? {
        TimeoutAlike(a, l);
        GroupingInvisible(first.actor, rest, l);
        assert Commands(events) == Commands(rest);
      } else {
        SettleAlike(a, l, e.request);
        var serial := Settle(l, e.request);
        GroupingInvisible(first.actor, rest, serial.log);
        assert Commands(events)[0] == e.request && Commands(events)[1..] == Commands(rest);
        assert serial.answers == [serial.answers[0]];
        assert OneAtATime(l, Commands(events)).answers == serial.answers + OneAtATime(serial.log, Commands(rest)).answers;
        DataSplit(serial.answers, OneAtATime(serial.log, Commands(rest)).answers);
      }
    }
  }

  lemma AlikeStore(a: Actor, l: PartitionLog)
    requires Alike(a, l)
    ensures SameStore(a.log, l)
  {
  }

  lemma TimeoutAlike(a: Actor, l: PartitionLog)
    requires Waiting(a.waiters) && Alike(a, l)
    ensures Alike(Receive(a, Timeout).actor, l) && DataAnswers(Receive(a, Timeout).answers) == []
  {
    if a.waiters != [] { EpochAlike(a, l); }
    hide CommitEpoch;
  }

  lemma HandlePublishes(l: PartitionLog, c: Command, io: Io)
    requires !l.mode.Always? && !c.Commit? && !Publishes(c)
    ensures Handle(l, c, io).log.sync.committed == l.sync.committed
  {
    hide Flush, Append, AppendRaw, Range, Kept, Held, Purgeable;
  }

  lemma {:induction false} PublishedStays(a: Actor, events: seq<Event>)
    requires Sound(a) && !a.log.mode.Always? && a.published == a.log.sync.committed
    ensures Run(a, events).actor.published == Run(a, events).actor.log.sync.committed
    decreases |events|
  {
    if events != [] {
      var e := events[0];
      ReceiveSound(a, e);
      hide Handle, EpochSync;
      if e.Dequeued? && !e.request.command.Commit? && !Publishes(e.request.command) {
        HandlePublishes(a.log, e.request.command, e.request.io);
      }
      PublishedStays(Receive(a, e).actor, events[1..]);
    }
  }

  /** The watermark shown to clients is the log's own after every run exactly when writes do not
      sync one by one: a purge that syncs moves the log's watermark without showing it. */
  lemma PublishedExactly(mode: Mode, maxBytes: nat)
    ensures (forall events :: Run(Empty(mode, maxBytes), events).actor.published == Run(Empty(mode, maxBytes), events).actor.log.sync.committed)
            <==> !mode.Always?
  {
    var a := Empty(mode, maxBytes);
    if mode.Always? {
      SilentSync(maxBytes);
    } else {
      forall events ensures Run(a, events).actor.published == Run(a, events).actor.log.sync.committed {
        PublishedStays(a, events);
      }
    }
  }

  function FailThenPurge(): seq<Event> {
    [Dequeued(Request(0, AppendBatch([Item(1, "q", 0)], 0, None), Io(false, true, true, true))),
     Dequeued(Request(1, PurgeOffset(0), Io(true, true, true, true)))]
  }

  lemma SilentSync(maxBytes: nat)
    ensures var step := Run(Empty(Always, maxBytes), FailThenPurge()); step.actor.published < step.actor.log.sync.committed
  {
    var a, events := Empty(Always, maxBytes), FailThenPurge();
    var items := [Item(1, "q", 0)];
    assert items[1..] == [];
    assert WithAll(map[], items, 0) == map[0 := items[0]] by { assert WithAll(map[0 := items[0]], [], 1) == map[0 := items[0]]; }
    var first := Receive(a, events[0]);
    assert first.actor.log.store.next == 1 && 0 in first.actor.log.store.records && first.actor.published == 0;
    assert first.actor.log.sync == Sync(0, 0, true, false, 0);
    assert events[1..][0] == events[1] && events[1..][1..] == [];
    var second := Receive(first.actor, events[1]);
    assert second.actor.log.sync.committed == 1 && second.actor.published == 0;
    assert Run(second.actor, []) == Step(second.actor, []);
    assert Run(first.actor, events[1..]).actor == second.actor;
  }
}
