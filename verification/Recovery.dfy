// A durable state kept as a snapshot file plus a journal, with crashes between
// and inside every write. `history` is what has become durable so far.
module Recovery {
  import opened Bytes
  import opened Basics
  import opened Journal

  datatype Snapshot<+S> = Snapshot(state: S, sequence: nat)

  datatype Disk<+S> = Disk(snapshot: Snapshot<S>, journal: Text)

  /** The store a run works on: codec, record version, effect of a command, empty state. */
  datatype Store<!S, !C> = Store(codec: Codec<C>, version: nat, apply: (S, C) -> S, init: S)

  function Load<S, C>(store: Store<S, C>, disk: Disk<S>): Result<Replayed<S>, JournalError> {
    ReplayBytes(store.codec, store.version, store.apply, disk.journal,
                Replayed(disk.snapshot.state, disk.snapshot.sequence, 0))
  }

  /** Where a mutation stands; everything here is lost in a crash. */
  datatype Phase<+S> =
    | Idle
    | Appended(memory: Snapshot<S>)
    | Snapped(memory: Snapshot<S>)
    | Finished(memory: Snapshot<S>)

  /** One durable command, and whether its caller was told so. */
  datatype Entry<+C> = Entry(command: C, acked: bool)

  /** The journal's tail: whole lines, or the first `k` bytes of a record. */
  datatype Tail<+C> = Clean | Torn(last: Record<C>, k: nat)

  datatype World<+S, +C> = World(
    disk: Disk<S>,
    phase: Phase<S>,
    whole: seq<Record<C>>,
    tail: Tail<C>,
    history: seq<Entry<C>>,
    crashes: nat)

  datatype Action<C> =
    | Append(command: C)
    | TearAppend(lost: C, k: nat)
    | WriteSnapshot
    | Truncate
    | Acknowledge
    | Crash

  function NextRecord<S, C>(store: Store<S, C>, disk: Disk<S>, command: C): Record<C>
    requires Load(store, disk).Ok?
  {
    Record(store.version, Load(store, disk).value.sequence + 1, command)
  }

  predicate Enabled<S, C>(store: Store<S, C>, w: World<S, C>, a: Action<C>) {
    match a
    case Append(_) => w.phase.Idle? && EndsClean(w.disk.journal) && Load(store, w.disk).Ok?
    case TearAppend(c, k) =>
      && w.phase.Idle? && EndsClean(w.disk.journal) && Load(store, w.disk).Ok?
      && k <= |Line(store.codec, NextRecord(store, w.disk, c))|
    case WriteSnapshot => w.phase.Appended?
    case Truncate => w.phase.Snapped?
    case Acknowledge => w.phase.Appended? || w.phase.Finished?
    case Crash => true
  }

  /** One step of the store, or a crash. The bookkeeping fields follow the bytes. */
  function Next<S, C>(store: Store<S, C>, w: World<S, C>, a: Action<C>): World<S, C>
    requires Enabled(store, w, a)
  {
    match a
    case Append(c) =>
      var r := NextRecord(store, w.disk, c);
      w.(disk := w.disk.(journal := w.disk.journal + Line(store.codec, r)),
         phase := Appended(Snapshot(store.apply(Load(store, w.disk).value.state, c), r.sequence)),
         whole := w.whole + [r],
         history := w.history + [Entry(c, false)])
    case TearAppend(c, k) =>
      var r := NextRecord(store, w.disk, c);
      var full := |store.codec.encode(r)|;
      w.(disk := w.disk.(journal := w.disk.journal + Line(store.codec, r)[..k]),
         whole := if k > full then w.whole + [r] else w.whole,
         tail := if k == 0 || k > full then Clean else Torn(r, k),
         history := if k >= full then w.history + [Entry(c, false)] else w.history,
         crashes := w.crashes + 1)
    case WriteSnapshot => w.(disk := w.disk.(snapshot := w.phase.memory), phase := Snapped(w.phase.memory))
    case Truncate => w.(disk := w.disk.(journal := []), phase := Finished(w.phase.memory), whole := [])
    case Acknowledge =>
      w.(phase := Idle,
         history := if |w.history| == 0 then w.history
                    else w.history[..|w.history| - 1] + [w.history[|w.history| - 1].(acked := true)])
    case Crash => w.(phase := Idle, crashes := w.crashes + 1)
  }

  function Start<S, C>(store: Store<S, C>): World<S, C> {
    World(Disk(Snapshot(store.init, 0), []), Idle, [], Clean, [], 0)
  }

  ghost predicate Run<S, C>(store: Store<S, C>, worlds: seq<World<S, C>>, actions: seq<Action<C>>) {
    && |worlds| == |actions| + 1
    && worlds[0] == Start(store)
    && forall i :: 0 <= i < |actions| ==> Enabled(store, worlds[i], actions[i]) && worlds[i + 1] == Next(store, worlds[i], actions[i])
  }

  function Events<C>(history: seq<Entry<C>>): (events: seq<C>)
    ensures |events| == |history|
  {
    seq(|history|, i requires 0 <= i < |history| => history[i].command)
  }

  function Unacked<C>(history: seq<Entry<C>>): nat {
    if |history| == 0 then 0
    else Unacked(history[..|history| - 1]) + if history[|history| - 1].acked then 0 else 1
  }

  /** The records on disk, the last one counted when only its newline is missing. */
  function Durable<S, C>(store: Store<S, C>, w: World<S, C>): seq<Record<C>> {
    if w.tail.Torn? && w.tail.k >= |store.codec.encode(w.tail.last)| then w.whole + [w.tail.last] else w.whole
  }

  ghost predicate JournalShape<S, C>(store: Store<S, C>, w: World<S, C>) {
    match w.tail
    case Clean => w.disk.journal == EncodeAll(store.codec, w.whole)
    case Torn(r, k) =>
      && 0 < k <= |store.codec.encode(r)| && r.version == store.version
      && w.disk.journal == EncodeAll(store.codec, w.whole) + Line(store.codec, r)[..k]
  }

  /** The snapshot covers a prefix of the history, the journal the rest of it. */
  ghost predicate Consistent<S, C>(store: Store<S, C>, w: World<S, C>) {
    var recs, n, at := Durable(store, w), |w.history|, w.disk.snapshot.sequence;
    && |recs| <= n && n - |recs| <= at <= n
    && Numbered(store.version, n - |recs|, recs)
    && Commands(recs) == Events(w.history)[n - |recs|..]
    && w.disk.snapshot.state == ApplyAll(store.apply, store.init, Events(w.history)[..at])
  }

  ghost predicate PhaseFits<S, C>(store: Store<S, C>, w: World<S, C>) {
    match w.phase
    case Idle => true
    case Appended(m) => w.tail.Clean? && |w.history| > 0 && m == Total(store, w)
    case Snapped(m) => w.tail.Clean? && |w.history| > 0 && m == Total(store, w) && w.disk.snapshot == m
    case Finished(m) => w.tail.Clean? && |w.history| > 0 && m == Total(store, w) && w.disk.snapshot == m
  }

  /** What the store means: every durable command applied, in order. */
  function Total<S, C>(store: Store<S, C>, w: World<S, C>): Snapshot<S> {
    Snapshot(ApplyAll(store.apply, store.init, Events(w.history)), |w.history|)
  }

  ghost predicate Invariant<S, C(!new)>(store: Store<S, C>, w: World<S, C>) {
    && Lawful(store.codec)
    && JournalShape(store, w)
    && Consistent(store, w)
    && PhaseFits(store, w)
    && (!w.phase.Idle? ==> |w.history| > 0 && !w.history[|w.history| - 1].acked)
    && Unacked(w.history) <= w.crashes + (if w.phase.Idle? then 0 else 1)
  }

  lemma NumberedVersions<C>(version: nat, base: nat, recs: seq<Record<C>>)
    requires Numbered(version, base, recs)
    ensures AllVersion(version, recs)
  {
  }

  /** Loading gives the whole history, whatever the snapshot covers. */
  lemma LoadIsTotal<S, C(!new)>(store: Store<S, C>, w: World<S, C>)
    requires Lawful(store.codec) && JournalShape(store, w) && Consistent(store, w)
    ensures Load(store, w.disk).Ok?
    ensures Load(store, w.disk).value.state == Total(store, w).state
    ensures Load(store, w.disk).value.sequence == Total(store, w).sequence
  {
    hide ReplayBytes, EncodeAll, Fold, ApplyAll;
    var recs, n, at := Durable(store, w), |w.history|, w.disk.snapshot.sequence;
    var base := n - |recs|;
    var start := Replayed(w.disk.snapshot.state, at, 0);
    LoadIsFold(store, w, base);
    FoldNumbered(store.apply, store.version, base, recs, start);
    var events := Events(w.history);
    assert Commands(recs)[at - base..] == events[at..];
    ApplyConcat(store.apply, store.init, events[..at], events[at..]);
    assert events[..at] + events[at..] == events;
  }

  lemma LoadIsFold<S, C(!new)>(store: Store<S, C>, w: World<S, C>, base: nat)
    requires Lawful(store.codec) && JournalShape(store, w) && Numbered(store.version, base, Durable(store, w))
    ensures Load(store, w.disk) ==
            Ok(Fold(store.apply, Durable(store, w), Replayed(w.disk.snapshot.state, w.disk.snapshot.sequence, 0)))
  {
    hide ReplayBytes, EncodeAll, Fold;
    var start := Replayed(w.disk.snapshot.state, w.disk.snapshot.sequence, 0);
    var recs := Durable(store, w);
    match w.tail
    case Clean =>
      NumberedVersions(store.version, base, w.whole);
      ReplayWhole(store.codec, store.version, store.apply, w.whole, [], start);
      assert EncodeAll(store.codec, w.whole) + [] == w.disk.journal;
      ReplayTail(store.codec, store.version, store.apply, [], Fold(store.apply, w.whole, start));
    case Torn(r, k) =>
      assert forall i :: 0 <= i < |w.whole| ==> w.whole[i] == recs[i];
      assert AllVersion(store.version, w.whole + [r]);
      TornAppend(store.codec, store.version, store.apply, w.whole, r, k, start);
  }

  lemma UnackedSnoc<C>(history: seq<Entry<C>>, e: Entry<C>)
    ensures Unacked(history + [e]) == Unacked(history) + if e.acked then 0 else 1
  {
    assert (history + [e])[..|history|] == history;
  }

  lemma ConsistentSnoc<S, C(!new)>(store: Store<S, C>, w: World<S, C>, w': World<S, C>, c: C)
    requires Consistent(store, w) && Load(store, w.disk).Ok? && Load(store, w.disk).value.sequence == |w.history|
    requires w'.disk.snapshot == w.disk.snapshot && w'.history == w.history + [Entry(c, false)]
    requires Durable(store, w') == Durable(store, w) + [NextRecord(store, w.disk, c)]
    ensures Consistent(store, w')
  {
    hide ApplyAll, Load;
    var recs, recs', n := Durable(store, w), Durable(store, w'), |w.history|;
    assert forall i :: 0 <= i < |recs| ==> recs'[i] == recs[i];
    assert Events(w'.history) == Events(w.history) + [c];
    assert Events(w'.history)[n - |recs|..] == Events(w.history)[n - |recs|..] + [c];
    assert Commands(recs') == Commands(recs) + [c];
    assert Events(w'.history)[..w.disk.snapshot.sequence] == Events(w.history)[..w.disk.snapshot.sequence];
  }

  lemma TotalSnoc<S, C>(store: Store<S, C>, w: World<S, C>, w': World<S, C>, c: C)
    requires w'.history == w.history + [Entry(c, false)]
    ensures Total(store, w').state == store.apply(Total(store, w).state, c)
    ensures Total(store, w').sequence == Total(store, w).sequence + 1
  {
    assert Events(w'.history) == Events(w.history) + [c];
    ApplyConcat(store.apply, store.init, Events(w.history), [c]);
    assert [c][1..] == [];
  }

  lemma AppendKeeps<S, C(!new)>(store: Store<S, C>, w: World<S, C>, c: C)
    requires Invariant(store, w) && w.tail.Clean? && Enabled(store, w, Append(c))
    ensures Invariant(store, Next(store, w, Append(c)))
  {
    hide ApplyAll, EncodeAll, Load, Unacked;
    var w' := Next(store, w, Append(c));
    LoadIsTotal(store, w);
    EncodeSnoc(store.codec, w.whole, NextRecord(store, w.disk, c));
    ConsistentSnoc(store, w, w', c);
    TotalSnoc(store, w, w', c);
    UnackedSnoc(w.history, Entry(c, false));
  }

  lemma TearKeeps<S, C(!new)>(store: Store<S, C>, w: World<S, C>, c: C, k: nat)
    requires Invariant(store, w) && w.tail.Clean? && Enabled(store, w, TearAppend(c, k))
    ensures Invariant(store, Next(store, w, TearAppend(c, k)))
  {
    hide ApplyAll, EncodeAll, Load, Unacked;
    var w' := Next(store, w, TearAppend(c, k));
    var r := NextRecord(store, w.disk, c);
    LoadIsTotal(store, w);
    UnackedSnoc(w.history, Entry(c, false));
    var full := |store.codec.encode(r)|;
    if k >= full {
      ConsistentSnoc(store, w, w', c);
    }
    if k > full {
      assert Line(store.codec, r)[..k] == Line(store.codec, r);
      EncodeSnoc(store.codec, w.whole, r);
    } else if k == 0 {
      assert w'.disk.journal == w.disk.journal;
    }
  }

  /** A journal that ends in a whole line has no torn tail. */
  lemma CleanTail<S, C(!new)>(store: Store<S, C>, w: World<S, C>)
    requires Lawful(store.codec) && JournalShape(store, w) && EndsClean(w.disk.journal)
    ensures w.tail.Clean?
  {
    if w.tail.Torn? {
      TornTail(store, w);
      assert false;
    }
  }

  lemma TornTail<S, C(!new)>(store: Store<S, C>, w: World<S, C>)
    requires Lawful(store.codec) && JournalShape(store, w) && w.tail.Torn?
    ensures !EndsClean(w.disk.journal)
  {
    var Torn(r, k) := w.tail;
    assert w.disk.journal[|w.disk.journal| - 1] == store.codec.encode(r)[k - 1];
  }

  lemma SnapshotKeeps<S, C(!new)>(store: Store<S, C>, w: World<S, C>)
    requires Invariant(store, w) && w.phase.Appended?
    ensures Invariant(store, Next(store, w, WriteSnapshot))
  {
    hide ApplyAll, EncodeAll, Unacked;
    assert Events(w.history)[..|w.history|] == Events(w.history);
  }

  lemma TruncateKeeps<S, C(!new)>(store: Store<S, C>, w: World<S, C>)
    requires Invariant(store, w) && w.phase.Snapped?
    ensures Invariant(store, Next(store, w, Truncate))
  {
    hide ApplyAll, Unacked;
    assert Events(w.history)[..|w.history|] == Events(w.history);
  }

  /** Acknowledging changes what the caller knows, not what is stored. */
  lemma SameEvents<S, C(!new)>(store: Store<S, C>, w: World<S, C>, w': World<S, C>)
    requires Consistent(store, w) && JournalShape(store, w)
    requires w' == w.(phase := w'.phase, history := w'.history) && Events(w'.history) == Events(w.history)
    ensures Consistent(store, w') && JournalShape(store, w')
  {
    hide ApplyAll, EncodeAll, Events;
    assert |Events(w.history)| == |w.history| && |Events(w'.history)| == |w'.history|;
  }

  lemma AcknowledgeKeeps<S, C(!new)>(store: Store<S, C>, w: World<S, C>)
    requires Invariant(store, w) && (w.phase.Appended? || w.phase.Finished?)
    ensures Invariant(store, Next(store, w, Acknowledge))
  {
    hide Lawful, ApplyAll, EncodeAll, JournalShape, Consistent, Unacked;
    var w' := Next(store, w, Acknowledge);
    var n := |w.history|;
    assert w.history == w.history[..n - 1] + [w.history[n - 1]];
    UnackedSnoc(w.history[..n - 1], w.history[n - 1]);
    UnackedSnoc(w.history[..n - 1], w.history[n - 1].(acked := true));
    assert Events(w'.history) == Events(w.history);
    SameEvents(store, w, w');
  }

  lemma StepKeeps<S, C(!new)>(store: Store<S, C>, w: World<S, C>, a: Action<C>)
    requires Invariant(store, w) && Enabled(store, w, a)
    ensures Invariant(store, Next(store, w, a))
  {
    hide Next, JournalShape, Consistent, Load;
    match a
    case Append(c) => CleanTail(store, w); AppendKeeps(store, w, c);
    case TearAppend(c, k) => CleanTail(store, w); TearKeeps(store, w, c, k);
    case WriteSnapshot => SnapshotKeeps(store, w);
    case Truncate => TruncateKeeps(store, w);
    case Acknowledge => AcknowledgeKeeps(store, w);
    case Crash => CrashKeeps(store, w);
  }

  lemma CrashKeeps<S, C(!new)>(store: Store<S, C>, w: World<S, C>)
    requires Invariant(store, w)
    ensures Invariant(store, Next(store, w, Crash))
  {
  }

  /** A whole mutation without a crash: append, perhaps compact, acknowledge. */
  function Mutated<S, C>(store: Store<S, C>, w: World<S, C>, c: C, compact: bool): World<S, C>
    requires Enabled(store, w, Append(c))
  {
    var appended := Next(store, w, Append(c));
    if compact then Next(store, Next(store, Next(store, appended, WriteSnapshot), Truncate), Acknowledge)
    else Next(store, appended, Acknowledge)
  }

  lemma MutationShape<S, C>(store: Store<S, C>, w: World<S, C>, c: C, compact: bool)
    requires Enabled(store, w, Append(c))
    ensures var w', loaded := Mutated(store, w, c, compact), Load(store, w.disk).value;
            && w'.phase.Idle? && w'.history == w.history + [Entry(c, true)]
            && w'.disk == (if compact then Disk(Snapshot(store.apply(loaded.state, c), loaded.sequence + 1), [])
                           else w.disk.(journal := w.disk.journal + Line(store.codec, NextRecord(store, w.disk, c))))
            && EndsClean(w'.disk.journal)
  {
    hide Load;
    var w1 := Next(store, w, Append(c));
    assert w1.history == w.history + [Entry(c, false)] && w1.history[..|w.history|] == w.history;
  }

  lemma MutationKeeps<S, C(!new)>(store: Store<S, C>, w: World<S, C>, c: C, compact: bool)
    requires Invariant(store, w) && Enabled(store, w, Append(c))
    ensures Invariant(store, Mutated(store, w, c, compact))
  {
    hide Invariant, Load;
    var w1 := Next(store, w, Append(c));
    StepKeeps(store, w, Append(c));
    if compact {
      var w2 := Next(store, w1, WriteSnapshot);
      StepKeeps(store, w1, WriteSnapshot);
      var w3 := Next(store, w2, Truncate);
      StepKeeps(store, w2, Truncate);
      StepKeeps(store, w3, Acknowledge);
    } else {
      StepKeeps(store, w1, Acknowledge);
    }
  }

  lemma MutationLands<S, C(!new)>(store: Store<S, C>, w: World<S, C>, c: C, compact: bool)
    requires Invariant(store, w) && w.phase.Idle? && EndsClean(w.disk.journal)
    ensures Enabled(store, w, Append(c))
    ensures var w', loaded := Mutated(store, w, c, compact), Load(store, w.disk).value;
            && Invariant(store, w') && w'.phase.Idle?
            && w'.history == w.history + [Entry(c, true)]
            && Total(store, w').state == store.apply(loaded.state, c)
            && w'.disk == (if compact then Disk(Snapshot(store.apply(loaded.state, c), loaded.sequence + 1), [])
                           else w.disk.(journal := w.disk.journal + Line(store.codec, NextRecord(store, w.disk, c))))
            && EndsClean(w'.disk.journal)
  {
    LoadIsTotal(store, w);
    hide Invariant, Load, ApplyAll, Mutated, Next;
    MutationShape(store, w, c, compact);
    MutationKeeps(store, w, c, compact);
    var w' := Mutated(store, w, c, compact);
    TotalSnoc(store, w, w.(history := w.history + [Entry(c, false)]), c);
    assert Events(w'.history) == Events(w.history + [Entry(c, false)]);
  }

  /** Append never trims the file, so a command written behind a torn record leaves a
      store that cannot be loaded again; behind a whole line it never does. */
  lemma AppendSafeExactly<S, C(!new)>(store: Store<S, C>, w: World<S, C>, c: C)
    requires Invariant(store, w) && Load(store, w.disk).Ok?
    ensures Load(store, w.disk.(journal := w.disk.journal + Line(store.codec, NextRecord(store, w.disk, c)))).Ok? <==>
            EndsClean(w.disk.journal)
  {
    hide EncodeAll, ReplayBytes, ApplyAll, Fold;
    var r := NextRecord(store, w.disk, c);
    var recs := Durable(store, w);
    assert forall i :: 0 <= i < |w.whole| ==> w.whole[i] == recs[i];
    NumberedVersions(store.version, |w.history| - |recs|, recs);
    assert AllVersion(store.version, w.whole);
    var start := Replayed(w.disk.snapshot.state, w.disk.snapshot.sequence, 0);
    match w.tail
    case Clean =>
      AppendBehindTear(store.codec, store.version, store.apply, w.whole, r, 0, r, start);
      assert EncodeAll(store.codec, w.whole) + Line(store.codec, r)[..0] == w.disk.journal;
    case Torn(last, k) =>
      AppendBehindTear(store.codec, store.version, store.apply, w.whole, last, k, r, start);
  }

  /** Later histories only add commands and acknowledgements. */
  ghost predicate Extends<C>(before: seq<Entry<C>>, after: seq<Entry<C>>) {
    && |before| <= |after|
    && forall i :: 0 <= i < |before| ==> after[i].command == before[i].command && (before[i].acked ==> after[i].acked)
  }

  lemma StepExtends<S, C(!new)>(store: Store<S, C>, w: World<S, C>, a: Action<C>)
    requires Enabled(store, w, a)
    ensures Extends(w.history, Next(store, w, a).history)
  {
  }

  lemma StartInvariant<S, C(!new)>(store: Store<S, C>)
    requires Lawful(store.codec)
    ensures Invariant(store, Start(store)) && Total(store, Start(store)) == Snapshot(store.init, 0)
  {
    hide Lawful;
    assert Events<C>([]) == [];
  }

  lemma {:induction false} RunKeeps<S, C(!new)>(store: Store<S, C>, worlds: seq<World<S, C>>, actions: seq<Action<C>>, i: nat)
    requires Lawful(store.codec) && Run(store, worlds, actions) && i <= |actions|
    ensures Invariant(store, worlds[i])
  {
    hide Invariant, Lawful, Next, Enabled;
    if i == 0 {
      StartInvariant(store);
    } else {
      RunKeeps(store, worlds, actions, i - 1);
      StepKeeps(store, worlds[i - 1], actions[i - 1]);
    }
  }

  lemma {:induction false} RunExtends<S, C(!new)>(
    store: Store<S, C>, worlds: seq<World<S, C>>, actions: seq<Action<C>>, i: nat, j: nat)
    requires Run(store, worlds, actions) && i <= j <= |actions|
    ensures Extends(worlds[i].history, worlds[j].history)
  {
    if i < j {
      RunExtends(store, worlds, actions, i, j - 1);
      StepExtends(store, worlds[j - 1], actions[j - 1]);
    }
  }

  /** In every run, at every moment: reloading gives every acknowledged command, in
      order, and besides them at most one in-flight command per crash so far. */
  lemma RecoveryTheorem<S, C(!new)>(
    store: Store<S, C>, worlds: seq<World<S, C>>, actions: seq<Action<C>>, i: nat, j: nat)
    requires Lawful(store.codec) && Run(store, worlds, actions) && i <= j <= |actions|
    ensures Load(store, worlds[j].disk).Ok?
    ensures Load(store, worlds[j].disk).value.state == ApplyAll(store.apply, store.init, Events(worlds[j].history))
    ensures Extends(worlds[i].history, worlds[j].history)
    ensures Unacked(worlds[j].history) <= worlds[j].crashes + (if worlds[j].phase.Idle? then 0 else 1)
  {
    RunKeeps(store, worlds, actions, j);
    LoadIsTotal(store, worlds[j]);
    RunExtends(store, worlds, actions, i, j);
  }
}
