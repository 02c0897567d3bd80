// The durable record of messages on their way to the dead-letter queue.
module Lifecycle {
  import opened Basics
  import opened Bytes
  import opened Journal
  import opened Recovery

  const VERSION: nat := 1
  const COMPACT_OPS: nat := 1024

  datatype Source = Source(topic: string, partition: nat, offset: nat, messageId: Uuid)

  datatype DlqPhase = Prepared | DlqCommitted

  datatype Transition = Transition(source: Source, lane: string, reason: string, phase: DlqPhase, updatedAt: Millis)

  type Transitions = map<Source, Transition>

  datatype Event = Upsert(transition: Transition) | Remove(source: Source)

  function ApplyEvent(state: Transitions, event: Event): Transitions {
    match event
    case Upsert(t) => state[t.source := t]
    case Remove(source) => state - {source}
  }

  predicate IsCommitted(state: Transitions, source: Source) {
    source in state && state[source].phase.DlqCommitted?
  }

  /** A transition already committed to the dead-letter queue is not taken back. */
  function Raised(state: Transitions, t: Transition): Transition {
    if IsCommitted(state, t.source) then t.(phase := DlqCommitted) else t
  }

  datatype WriteError = SnapshotKeysNotStrings

  /** How a write ends: plainly, compacted, or durable with the call reporting failure. */
  datatype Ending = Plain | Compacted | Failed

  function Written<S, C>(store: Store<S, C>, w: World<S, C>, c: C, e: Ending): World<S, C>
    requires Recovery.Enabled(store, w, Append(c))
  {
    if e.Failed? then Recovery.Next(store, Recovery.Next(store, w, Append(c)), Crash)
    else Mutated(store, w, c, e.Compacted?)
  }

  lemma FailedShape<S, C>(store: Store<S, C>, w: World<S, C>, c: C)
    requires Recovery.Enabled(store, w, Append(c))
    ensures var w' := Written(store, w, c, Failed);
            && w'.phase.Idle? && w'.history == w.history + [Entry(c, false)]
            && w'.disk == w.disk.(journal := w.disk.journal + Line(store.codec, NextRecord(store, w.disk, c)))
            && EndsClean(w'.disk.journal)
  {
    hide Load;
  }

  lemma FailedKeeps<S, C(!new)>(store: Store<S, C>, w: World<S, C>, c: C)
    requires Invariant(store, w) && Recovery.Enabled(store, w, Append(c))
    ensures Invariant(store, Written(store, w, c, Failed))
  {
    hide Invariant, Load;
    StepKeeps(store, w, Append(c));
    StepKeeps(store, Recovery.Next(store, w, Append(c)), Crash);
  }

  /** The world after a write that is durable: one more entry, nothing left in progress. */
  ghost predicate Lands<S, C>(store: Store<S, C>, w: World<S, C>, c: C, e: Ending, w': World<S, C>) {
    var next := Snapshot(store.apply(Total(store, w).state, c), Total(store, w).sequence + 1);
    && w'.phase.Idle? && Total(store, w') == next && EndsClean(w'.disk.journal)
    && w'.disk == (if e.Compacted? then Disk(next, [])
                   else w.disk.(journal := w.disk.journal + Line(store.codec, Record(store.version, next.sequence, c))))
  }

  lemma FailedLands<S, C(!new)>(store: Store<S, C>, w: World<S, C>, c: C)
    requires Invariant(store, w) && w.phase.Idle? && EndsClean(w.disk.journal) && Recovery.Enabled(store, w, Append(c))
    ensures Lands(store, w, c, Failed, Written(store, w, c, Failed))
  {
    LoadIsTotal(store, w);
    FailedShape(store, w, c);
    hide Invariant, Load, ApplyAll, Written, Line, EndsClean;
    TotalSnoc(store, w, Written(store, w, c, Failed), c);
  }

  lemma WriteLands<S, C(!new)>(store: Store<S, C>, w: World<S, C>, c: C, e: Ending)
    requires Invariant(store, w) && w.phase.Idle? && EndsClean(w.disk.journal)
    ensures Recovery.Enabled(store, w, Append(c))
    ensures Invariant(store, Written(store, w, c, e)) && Lands(store, w, c, e, Written(store, w, c, e))
  {
    LoadIsTotal(store, w);
    hide Invariant, Load, ApplyAll, Mutated, Recovery.Next, Line;
    if e.Failed? {
      FailedKeeps(store, w, c);
      FailedLands(store, w, c);
      hide Lands, EndsClean, Written;
    } else {
      MutationLands(store, w, c, e.Compacted?);
    }
  }

  /** The disk and what is held in memory are those of the world. */
  ghost predicate InStep<S, C(!new)>(store: Store<S, C>, w: World<S, C>, disk: Disk<S>, held: Snapshot<S>) {
    Invariant(store, w) && w.phase.Idle? && w.disk == disk && Total(store, w) == held
  }

  function HeldAfter<S, C>(store: Store<S, C>, held: Snapshot<S>, c: C): Snapshot<S> {
    Snapshot(store.apply(held.state, c), held.sequence + 1)
  }

  function DiskAfter<S, C>(store: Store<S, C>, disk: Disk<S>, held: Snapshot<S>, c: C, e: Ending): Disk<S> {
    if e.Compacted? then Disk(HeldAfter(store, held, c), [])
    else disk.(journal := disk.journal + Line(store.codec, Record(store.version, held.sequence + 1, c)))
  }

  lemma WriteInStep<S, C(!new)>(store: Store<S, C>, w: World<S, C>, disk: Disk<S>, held: Snapshot<S>, c: C, e: Ending)
    requires InStep(store, w, disk, held) && EndsClean(disk.journal)
    ensures Recovery.Enabled(store, w, Append(c))
    ensures InStep(store, Written(store, w, c, e), DiskAfter(store, disk, held, c, e), HeldAfter(store, held, c))
    ensures EndsClean(DiskAfter(store, disk, held, c, e).journal)
  {
    hide Invariant, Load, ApplyAll, Written, Line, EndsClean, Total;
    WriteLands(store, w, c, e);
  }

  /** A record written behind a torn tail makes the journal unreadable. */
  lemma BehindTear<S, C(!new)>(store: Store<S, C>, w: World<S, C>, disk: Disk<S>, held: Snapshot<S>, c: C)
    requires InStep(store, w, disk, held)
    ensures Load(store, DiskAfter(store, disk, held, c, Plain)).Ok? <==> EndsClean(disk.journal)
  {
    LoadIsTotal(store, w);
    AppendSafeExactly(store, w, c);
    hide Invariant, Load, EndsClean, Line;
  }

  class LifecycleStore {
    const codec: Codec<Event>
    var snapshot: Snapshot<Transitions>
    var journal: Text
    var sequence: nat
    var transitions: Transitions
    var journalOps: nat
    ghost var world: World<Transitions, Event>

    function Self(): Store<Transitions, Event> {
      Store(codec, VERSION, ApplyEvent, map[])
    }

    /** What is in memory is what a restart would load. */
    ghost predicate Valid()
      reads this
    {
      && InStep(Self(), world, Disk(snapshot, journal), Snapshot(transitions, sequence))
      && forall s :: s in transitions ==> transitions[s].source == s
    }

    /** Opens the store over what earlier processes left on disk, with or without a torn tail. */
    constructor (codec: Codec<Event>, snapshot: Snapshot<Transitions>, journal: Text, ghost world: World<Transitions, Event>)
      requires Invariant(Store(codec, VERSION, ApplyEvent, map[]), world) && world.phase.Idle?
      requires world.disk == Disk(snapshot, journal)
      requires forall s :: s in Total(Store(codec, VERSION, ApplyEvent, map[]), world).state ==>
                 Total(Store(codec, VERSION, ApplyEvent, map[]), world).state[s].source == s
      ensures Valid() && transitions == Total(Store(codec, VERSION, ApplyEvent, map[]), world).state
      ensures this.world == world && this.codec == codec
    {
      ghost var store := Store(codec, VERSION, ApplyEvent, map[]);
      LoadIsTotal(store, world);
      var loaded := Replay(codec, VERSION, ApplyEvent, journal, Replayed(snapshot.state, snapshot.sequence, 0));
      this.codec := codec;
      this.snapshot := snapshot;
      this.journal := journal;
      this.sequence := loaded.value.sequence;
      this.transitions := loaded.value.state;
      this.journalOps := loaded.value.operations;
      this.world := world;
    }

    /** Appends the event, updates memory, and compacts when the journal is long: but the
        snapshot is a map whose keys are records, which does not serialize unless empty. Behind
        a torn tail the journal can no longer be loaded, unless compaction empties it. */
    method Write(event: Event) returns (r: Result<(), WriteError>)
      requires Valid()
      modifies this
      ensures transitions == ApplyEvent(old(transitions), event)
      ensures old(EndsClean(journal)) ==> Valid() && EndsClean(journal)
      ensures !old(EndsClean(journal)) && journal != [] ==> Load(Self(), Disk(snapshot, journal)).Err?
      ensures r.Err? <==> old(journalOps) + 1 >= COMPACT_OPS && transitions != map[]
      ensures journalOps == if r.Ok? && old(journalOps) + 1 >= COMPACT_OPS then 0 else old(journalOps) + 1
    {
      hide InStep, Written, Load, Line, EndsClean;
      ghost var clean, ending, disk, held := EndsClean(journal), Plain, Disk(snapshot, journal), Snapshot(transitions, sequence);
      BehindTear(Self(), world, disk, held, event);
      journal := journal + Line(codec, Record(VERSION, sequence + 1, event));
      sequence := sequence + 1;
      transitions := ApplyEvent(transitions, event);
      journalOps := journalOps + 1;
      r := Ok(());
      if journalOps >= COMPACT_OPS {
        if transitions != map[] {
          ending := Failed;
          r := Err(SnapshotKeysNotStrings);
        } else {
          ending := Compacted;
          snapshot := Snapshot(transitions, sequence);
          journal := [];
          journalOps := 0;
        }
      }
      assert Disk(snapshot, journal) == DiskAfter(Self(), disk, held, event, ending);
      if clean {
        WriteInStep(Self(), world, disk, held, event, ending);
        world := Written(Self(), world, event, ending);
      }
    }

    /** Success is reported exactly while the journal is short: from then on every call
        fails although its event is durable, because the map is never empty here. */
    method Prepare(t: Transition) returns (r: Result<(), WriteError>)
      requires Valid()
      modifies this
      ensures old(EndsClean(journal)) ==> Valid() && EndsClean(journal)
      ensures transitions == old(transitions)[t.source := Raised(old(transitions), t)]
      ensures forall s :: IsCommitted(old(transitions), s) ==> IsCommitted(transitions, s)
      ensures t.source !in old(transitions) || old(transitions)[t.source].phase.Prepared? ==> transitions[t.source] == t
      ensures t.source in old(transitions) && old(transitions)[t.source].phase.DlqCommitted? ==>
                transitions[t.source] == t.(phase := DlqCommitted)
      ensures r.Ok? <==> old(journalOps) + 1 < COMPACT_OPS
      ensures r.Err? ==> journalOps >= COMPACT_OPS
    {
      r := Write(Upsert(Raised(transitions, t)));
      assert t.source in transitions;
    }

    method MarkDlqCommitted(source: Source, now: Millis) returns (r: Result<(), WriteError>)
      requires Valid()
      modifies this
      ensures old(EndsClean(journal)) ==> Valid() && EndsClean(journal)
      ensures source !in old(transitions) ==> transitions == old(transitions) && r.Ok?
      ensures source in old(transitions) ==> (r.Ok? <==> old(journalOps) + 1 < COMPACT_OPS)
      ensures source in old(transitions) ==>
                IsCommitted(transitions, source) &&
                transitions == old(transitions)[source := old(transitions)[source].(phase := DlqCommitted, updatedAt := now)]
    {
      if source !in transitions {
        return Ok(());
      }
      r := Prepare(transitions[source].(phase := DlqCommitted, updatedAt := now));
    }

    /** A clear that empties the map is the one write that can compact, and it starts the count
        over; while anything is left, a long journal makes it report failure too. */
    method Clear(source: Source) returns (r: Result<(), WriteError>)
      requires Valid()
      modifies this
      ensures transitions == old(transitions) - {source}
      ensures old(EndsClean(journal)) ==> Valid() && EndsClean(journal)
      ensures source !in old(transitions) ==> r.Ok? && journalOps == old(journalOps)
      ensures source in old(transitions) ==>
                && (r.Err? <==> old(journalOps) + 1 >= COMPACT_OPS && transitions != map[])
                && journalOps == if r.Ok? && old(journalOps) + 1 >= COMPACT_OPS then 0 else old(journalOps) + 1
    {
      if source !in transitions {
        return Ok(());
      }
      r := Write(Remove(source));
    }
  }
}
