// At-least-once delivery on one lane. Workers deliver messages or move them to the
// dead-letter queue in separate durable steps, commit the cursor concurrently, and can
// be stopped between any two steps. The dead-letter log and the table of idempotency
// entries that point into it are stored apart.
module Delivery {
  import Basics
  import opened Log
  import opened Cursor
  import opened Lifecycle
  import Commits

  /** Where a delivery task stands. `phase`: what it is about to record for its message, and then
      to note in memory; `noted`: that is the commit of the copy. `clear`: the lifecycle record
      goes once the message is committed. */
  datatype Task =
    | Delivering(m: Message)
    | Preparing(m: Message)
    | Writing(m: Message, phase: DlqPhase, noted: bool)
    | Inserting(m: Message, phase: DlqPhase, noted: bool)
    | LookingUp(m: Message)
    | Copying(m: Message)
    | Entering(m: Message, position: nat)
    | Waiting(m: Message, position: nat)
    | Noting(m: Message)
    | Ready(m: Message, clear: bool)
    | Committing(m: Message, clear: bool)
    | Clearing(m: Message)
    | Removing(m: Message)
    | Forgetting(m: Message)

  datatype DlqRecord = Copy(of: nat) | Other

  /** `delivered`: offsets a destination or a lease holder reported delivered. `dlq`: the
      dead-letter log, committed below `dlqHwm`. `entries`: where the copy of an offset was put.
      `phases`: the lifecycle record on disk; `memory`: what the process takes it to be. */
  datatype World = World(
    core: Commits.State,
    delivered: set<nat>,
    dlq: seq<DlqRecord>,
    dlqHwm: nat,
    entries: map<nat, nat>,
    phases: map<nat, DlqPhase>,
    memory: map<nat, DlqPhase>,
    tasks: map<nat, Task>)

  datatype Action =
    | Pick(t: nat, m: Message)
    | HttpSuccess(t: nat)
    | SeeComplete(t: nat)
    | GiveUp(t: nat)
    | LeaseDelivered(t: nat, m: Message)
    | LeaseDead(t: nat, m: Message)
    | Prepare(t: nat)
    | WritePhase(t: nat)
    | InsertPhase(t: nat)
    | LookUp(t: nat)
    | AppendCopy(t: nat)
    | PutEntry(t: nat)
    | AppendOther
    | SyncDlq(h: nat)
    | AwaitCommitted(t: nat)
    | NoteCommitted(t: nat)
    | BeginCommit(t: nat)
    | CommitStep(step: Commits.Action)
    | EndCommit(t: nat)
    | ClearPhase(t: nat)
    | RemovePhase(t: nat)
    | ForgetPhase(t: nat)
    | Compact
    | ReadFails(offset: nat)
    | Abort(t: nat)
    | Crash
    | LoseTail
    | LoseDlqTail(kept: set<nat>)

  /** The steps of the commit protocol that do not depend on a task's own state. */
  predicate Inner(a: Commits.Action) {
    !a.Report? && !a.Begin? && !a.Crash? && !a.LoseTail?
  }

  predicate Free(w: World, t: nat) {
    t !in w.tasks && t !in w.core.threads
  }

  /** A committed message of the lane. */
  predicate Deliverable(lane: Commits.Lane, s: Commits.State, m: Message) {
    m in s.log && m.lane == lane.owner && m.offset < s.hwm
  }

  predicate Enabled(lane: Commits.Lane, w: World, a: Action) {
    match a
    case Pick(t, m) => Free(w, t) && Deliverable(lane, w.core, m)
    case HttpSuccess(t) => t in w.tasks && w.tasks[t].Delivering?
    case SeeComplete(t) => t in w.tasks && w.tasks[t].Delivering? && Complete(w.core.cursor, w.core.keys, w.tasks[t].m.offset)
    case GiveUp(t) => t in w.tasks && w.tasks[t].Delivering?
    case LeaseDelivered(t, m) => Free(w, t) && Deliverable(lane, w.core, m)
    case LeaseDead(t, m) => Free(w, t) && Deliverable(lane, w.core, m)
    case Prepare(t) => t in w.tasks && w.tasks[t].Preparing?
    case WritePhase(t) => t in w.tasks && w.tasks[t].Writing?
    case InsertPhase(t) => t in w.tasks && w.tasks[t].Inserting?
    case LookUp(t) => t in w.tasks && w.tasks[t].LookingUp?
    case AppendCopy(t) => t in w.tasks && w.tasks[t].Copying?
    case PutEntry(t) => t in w.tasks && w.tasks[t].Entering?
    case AppendOther => true
    case SyncDlq(h) => w.dlqHwm <= h <= |w.dlq|
    case AwaitCommitted(t) => t in w.tasks && w.tasks[t].Waiting? && w.tasks[t].position < w.dlqHwm
    case NoteCommitted(t) => t in w.tasks && w.tasks[t].Noting?
    case BeginCommit(t) => t in w.tasks && w.tasks[t].Ready? && t !in w.core.threads
    case CommitStep(step) => Inner(step) && Commits.Enabled(lane, w.core, step)
    case EndCommit(t) => t in w.tasks && w.tasks[t].Committing? && t !in w.core.threads
    case ClearPhase(t) => t in w.tasks && w.tasks[t].Clearing?
    case RemovePhase(t) => t in w.tasks && w.tasks[t].Removing?
    case ForgetPhase(t) => t in w.tasks && w.tasks[t].Forgetting?
    case Compact => w.memory == map[]
    case ReadFails(_) => true
    case Abort(t) => t in w.tasks
    case Crash => true
    case LoseTail => true
    case LoseDlqTail(_) => w.dlqHwm <= |w.dlq|
  }

  function Entitle(s: Commits.State, o: nat): Commits.State {
    s.(entitled := s.entitled + {o})
  }

  // What each action does, field by field.

  function CoreNext(lane: Commits.Lane, w: World, a: Action): Commits.State
    requires Enabled(lane, w, a)
  {
    match a
    case HttpSuccess(t) => Entitle(w.core, w.tasks[t].m.offset)
    case LeaseDelivered(_, m) => Entitle(w.core, m.offset)
    case NoteCommitted(t) => Entitle(w.core, w.tasks[t].m.offset)
    case BeginCommit(t) => w.core.(threads := w.core.threads[t := Commits.Entered(w.tasks[t].m.topic, w.tasks[t].m.offset)])
    case CommitStep(step) => Commits.Next(lane, w.core, step)
    case Abort(t) => w.core.(threads := w.core.threads - {t})
    case Crash => w.core.(threads := map[])
    case LoseTail => Commits.AfterTailLoss(w.core)
    case LoseDlqTail(_) => w.core.(threads := map[])
    case _ => w.core
  }

  function DeliveredNext(lane: Commits.Lane, w: World, a: Action): set<nat>
    requires Enabled(lane, w, a)
  {
    match a
    case HttpSuccess(t) => w.delivered + {w.tasks[t].m.offset}
    case LeaseDelivered(_, m) => w.delivered + {m.offset}
    case _ => w.delivered
  }

  function DlqNext(lane: Commits.Lane, w: World, a: Action): seq<DlqRecord>
    requires Enabled(lane, w, a)
  {
    match a
    case AppendCopy(t) => w.dlq + [Copy(w.tasks[t].m.offset)]
    case AppendOther => w.dlq + [Other]
    case LoseDlqTail(_) => w.dlq[..w.dlqHwm]
    case _ => w.dlq
  }

  /** A lost tail may leave some entries behind. */
  function EntriesNext(lane: Commits.Lane, w: World, a: Action): map<nat, nat>
    requires Enabled(lane, w, a)
  {
    match a
    case PutEntry(t) => w.entries[w.tasks[t].m.offset := w.tasks[t].position]
    case LoseDlqTail(kept) => map o | o in w.entries && o in kept :: w.entries[o]
    case _ => w.entries
  }

  function PhasesNext(lane: Commits.Lane, w: World, a: Action): map<nat, DlqPhase>
    requires Enabled(lane, w, a)
  {
    match a
    case WritePhase(t) => w.phases[w.tasks[t].m.offset := w.tasks[t].phase]
    case RemovePhase(t) => w.phases - {w.tasks[t].m.offset}
    case ReadFails(o) => w.phases - {o}
    case Compact => map[]
    case _ => w.phases
  }

  /** A restart reads the disk. */
  function MemoryNext(lane: Commits.Lane, w: World, a: Action): map<nat, DlqPhase>
    requires Enabled(lane, w, a)
  {
    match a
    case InsertPhase(t) => w.memory[w.tasks[t].m.offset := w.tasks[t].phase]
    case ForgetPhase(t) => w.memory - {w.tasks[t].m.offset}
    case ReadFails(o) => w.memory - {o}
    case Crash => w.phases
    case LoseTail => w.phases
    case LoseDlqTail(_) => w.phases
    case _ => w.memory
  }

  /** A message that memory has as committed is not prepared again. */
  function PreparedAs(w: World, o: nat): DlqPhase {
    if o in w.memory then w.memory[o] else Prepared
  }

  function TasksNext(lane: Commits.Lane, w: World, a: Action): map<nat, Task>
    requires Enabled(lane, w, a)
  {
    match a
    case Pick(t, m) => w.tasks[t := Delivering(m)]
    case HttpSuccess(t) => w.tasks[t := Ready(w.tasks[t].m, false)]
    case SeeComplete(t) => w.tasks[t := Ready(w.tasks[t].m, true)]
    case GiveUp(t) => w.tasks[t := Preparing(w.tasks[t].m)]
    case LeaseDelivered(t, m) => w.tasks[t := Ready(m, false)]
    case LeaseDead(t, m) => w.tasks[t := Preparing(m)]
    case Prepare(t) => w.tasks[t := Writing(w.tasks[t].m, PreparedAs(w, w.tasks[t].m.offset), false)]
    case WritePhase(t) => w.tasks[t := Inserting(w.tasks[t].m, w.tasks[t].phase, w.tasks[t].noted)]
    case InsertPhase(t) => w.tasks[t := if w.tasks[t].noted then Ready(w.tasks[t].m, true) else LookingUp(w.tasks[t].m)]
    case LookUp(t) =>
      var m := w.tasks[t].m;
      w.tasks[t := if m.offset in w.entries then Waiting(m, w.entries[m.offset]) else Copying(m)]
    case AppendCopy(t) => w.tasks[t := Entering(w.tasks[t].m, |w.dlq|)]
    case PutEntry(t) => w.tasks[t := Waiting(w.tasks[t].m, w.tasks[t].position)]
    case AwaitCommitted(t) => w.tasks[t := Noting(w.tasks[t].m)]
    case NoteCommitted(t) =>
      var m := w.tasks[t].m;
      w.tasks[t := if m.offset in w.memory then Writing(m, DlqCommitted, true) else Ready(m, true)]
    case BeginCommit(t) => w.tasks[t := Committing(w.tasks[t].m, w.tasks[t].clear)]
    case EndCommit(t) => if w.tasks[t].clear then w.tasks[t := Clearing(w.tasks[t].m)] else w.tasks - {t}
    case ClearPhase(t) => if w.tasks[t].m.offset in w.memory then w.tasks[t := Removing(w.tasks[t].m)] else w.tasks - {t}
    case RemovePhase(t) => w.tasks[t := Forgetting(w.tasks[t].m)]
    case ForgetPhase(t) => w.tasks - {t}
    case Abort(t) => w.tasks - {t}
    case Crash => map[]
    case LoseTail => map[]
    case LoseDlqTail(_) => map[]
    case _ => w.tasks
  }

  function Next(lane: Commits.Lane, w: World, a: Action): World
    requires Enabled(lane, w, a)
  {
    World(CoreNext(lane, w, a), DeliveredNext(lane, w, a), DlqNext(lane, w, a), if a.SyncDlq? then a.h else w.dlqHwm,
          EntriesNext(lane, w, a), PhasesNext(lane, w, a), MemoryNext(lane, w, a), TasksNext(lane, w, a))
  }

  function Start(): World {
    World(Commits.Start(), {}, [], 0, map[], map[], map[], map[])
  }

  /** No surviving entry names a lost record. */
  predicate SafeLoss(w: World, kept: set<nat>) {
    forall o :: o in w.entries && o in kept ==> w.entries[o] < w.dlqHwm
  }

  /** A copy of the message is in the dead-letter queue, committed. */
  ghost predicate InQueue(w: World, o: nat) {
    exists p :: 0 <= p < w.dlqHwm <= |w.dlq| && w.dlq[p] == Copy(o)
  }

  predicate CopyAt(w: World, o: nat, p: nat) {
    p < |w.dlq| && w.dlq[p] == Copy(o)
  }

  /** The message at `o`, if the lane holds one, has been marked complete. */
  ghost predicate Done(lane: Commits.Lane, s: Commits.State, o: nat) {
    forall m :: m in s.log && OnLane(m, lane.topic, lane.owner) && m.offset == o ==> o in s.marked
  }

  /** The commit thread `t` is on its way to marking `o`, or it is marked. */
  ghost predicate Tracks(lane: Commits.Lane, s: Commits.State, t: nat, o: nat) {
    if t in s.threads && (s.threads[t].Entered? || s.threads[t].Unmarked?) then s.threads[t].offset == o
    else Done(lane, s, o)
  }

  ghost predicate TaskOk(lane: Commits.Lane, w: World, t: nat, task: Task) {
    && Deliverable(lane, w.core, task.m)
    && match task
       case Entering(m, p) => CopyAt(w, m.offset, p)
       case Waiting(m, p) => CopyAt(w, m.offset, p)
       case Writing(m, phase, noted) => (phase.DlqCommitted? ==> InQueue(w, m.offset)) && (noted ==> m.offset in w.core.entitled)
       case Inserting(m, phase, noted) => (phase.DlqCommitted? ==> InQueue(w, m.offset)) && (noted ==> m.offset in w.core.entitled)
       case Noting(m) => InQueue(w, m.offset)
       case Ready(m, _) => m.offset in w.core.entitled
       case Committing(m, _) => Tracks(lane, w.core, t, m.offset)
       case Clearing(m) => Done(lane, w.core, m.offset)
       case Removing(m) => Done(lane, w.core, m.offset)
       case Forgetting(m) => Done(lane, w.core, m.offset)
       case _ => true
  }

  /** What has been reported was delivered, or its copy is in the queue; entries name copies. */
  ghost predicate Earned(w: World) {
    && w.dlqHwm <= |w.dlq|
    && (forall o :: o in w.entries ==> CopyAt(w, o, w.entries[o]))
    && (forall o :: o in w.core.entitled ==> o in w.delivered || InQueue(w, o))
    && (forall o :: o in w.phases && w.phases[o].DlqCommitted? ==> InQueue(w, o))
    && (forall o :: o in w.memory && w.memory[o].DlqCommitted? ==> InQueue(w, o))
  }

  ghost predicate TasksOk(lane: Commits.Lane, w: World) {
    forall t :: t in w.tasks ==> TaskOk(lane, w, t, w.tasks[t])
  }

  ghost predicate Invariant(lane: Commits.Lane, w: World) {
    Commits.Invariant(lane, w.core) && Earned(w) && TasksOk(lane, w)
  }

  /** What the code does not see to: the lane keeps to its topic, a lost tail ends behind the
      cursor, and a loss of dead-letter records takes their entries along. */
  ghost predicate Sheltered(lane: Commits.Lane, w: World, a: Action)
    requires Enabled(lane, w, a)
  {
    && Commits.OneTopic(lane, Next(lane, w, a).core.log)
    && (a.LoseTail? ==> w.core.cursor <= w.core.hwm)
    && (a.LoseDlqTail? ==> SafeLoss(w, a.kept))
  }

  /** What one step of the commit protocol cannot do, whatever it is. */
  lemma InnerStep(lane: Commits.Lane, s: Commits.State, a: Commits.Action)
    requires Commits.Enabled(lane, s, a) && Inner(a)
    ensures var s' := Commits.Next(lane, s, a);
            && s'.entitled == s.entitled && s.marked <= s'.marked && s.hwm <= s'.hwm
            && (s'.log == s.log || (a.Append? && s'.log == s.log + [a.m]))
  {
    hide TopicFrom, Take;
  }

  lemma DoneStays(lane: Commits.Lane, s: Commits.State, a: Commits.Action, o: nat)
    requires Commits.Enabled(lane, s, a) && Inner(a) && Done(lane, s, o) && o < s.end
    ensures Done(lane, Commits.Next(lane, s, a), o)
  {
    InnerStep(lane, s, a);
    hide Commits.Next;
    assert forall m :: m in Commits.Next(lane, s, a).log ==> m in s.log || (a.Append? && m == a.m);
  }

  lemma TracksStays(lane: Commits.Lane, s: Commits.State, a: Commits.Action, t: nat, o: nat)
    requires Commits.Invariant(lane, s) && Commits.Enabled(lane, s, a) && Inner(a) && Tracks(lane, s, t, o) && o < s.end
    ensures Tracks(lane, Commits.Next(lane, s, a), t, o)
  {
    hide TopicFrom, Take, Commits.Invariant;
    if Done(lane, s, o) { DoneStays(lane, s, a, o); }
    if a.ReadCursor? && a.t == t && s.threads[t].Entered? && o < s.cursor {
      BelowCursorDone(lane, s, o);
      DoneStays(lane, s, a, o);
    }
  }

  lemma BelowCursorDone(lane: Commits.Lane, s: Commits.State, o: nat)
    requires Commits.Invariant(lane, s) && o < s.cursor
    ensures Done(lane, s, o)
  {
  }

  /** What a step relies on in the commit protocol. */
  ghost predicate CoreFacts(lane: Commits.Lane, w: World, a: Action) {
    && ((a.HttpSuccess? || a.NoteCommitted? || a.BeginCommit?) ==> a.t in w.tasks && Deliverable(lane, w.core, w.tasks[a.t].m))
    && (a.BeginCommit? ==> w.tasks[a.t].m.offset in w.core.entitled && a.t !in w.core.threads)
    && (a.LeaseDelivered? ==> Deliverable(lane, w.core, a.m))
    && (a.CommitStep? ==> Inner(a.step) && Commits.Enabled(lane, w.core, a.step))
  }

  lemma CoreFactsHold(lane: Commits.Lane, w: World, a: Action)
    requires TasksOk(lane, w) && Enabled(lane, w, a)
    ensures CoreFacts(lane, w, a)
  {
    hide Commits.Enabled, Deliverable, Done, Tracks, InQueue, CopyAt, Complete;
  }

  lemma CoreKept(lane: Commits.Lane, w: World, a: Action)
    requires Invariant(lane, w) && Enabled(lane, w, a) && Commits.OneTopic(lane, CoreNext(lane, w, a).log)
    requires a.LoseTail? ==> w.core.cursor <= w.core.hwm
    ensures Commits.Invariant(lane, CoreNext(lane, w, a))
  {
    hide Commits.Invariant, Commits.Next, Commits.Enabled, Commits.OneTopic, Commits.AfterTailLoss, Earned, TasksOk, CoreFacts, Enabled;
    CoreFactsHold(lane, w, a);
    match a
    case CommitStep(step) => InnerKept(lane, w, a);
    case Abort(t) => Dropped(lane, w.core, t);
    case Crash => ThreadsGone(lane, w.core);
    case LoseDlqTail(_) => ThreadsGone(lane, w.core);
    case LoseTail => Commits.TailLossKeeps(lane, w.core);
    case _ => ReportKept(lane, w, a);
  }

  lemma InnerKept(lane: Commits.Lane, w: World, a: Action)
    requires a.CommitStep? && Commits.Invariant(lane, w.core) && CoreFacts(lane, w, a) && Enabled(lane, w, a)
    requires Commits.OneTopic(lane, CoreNext(lane, w, a).log)
    ensures Commits.Invariant(lane, CoreNext(lane, w, a))
  {
    hide Commits.Invariant, Commits.Next, Commits.Enabled, Commits.OneTopic;
    Commits.StepKeeps(lane, w.core, a.step);
  }

  lemma ReportKept(lane: Commits.Lane, w: World, a: Action)
    requires Commits.Invariant(lane, w.core) && CoreFacts(lane, w, a) && Enabled(lane, w, a)
    requires !a.CommitStep? && !a.Abort? && !a.Crash? && !a.LoseDlqTail? && !a.LoseTail?
    ensures Commits.Invariant(lane, CoreNext(lane, w, a))
  {
    hide Commits.Invariant, Entitle, Enabled;
    match a
    case HttpSuccess(t) => Reported(lane, w.core, w.tasks[t].m.offset);
    case LeaseDelivered(t, m) => Reported(lane, w.core, m.offset);
    case NoteCommitted(t) => Reported(lane, w.core, w.tasks[t].m.offset);
    case BeginCommit(t) => Began(lane, w.core, t, w.tasks[t].m);
    case _ =>
  }

  lemma Reported(lane: Commits.Lane, s: Commits.State, o: nat)
    requires Commits.Invariant(lane, s) && o < s.hwm
    ensures Commits.Invariant(lane, Entitle(s, o))
  {
    Commits.StepKeeps(lane, s, Commits.Report(o));
  }

  lemma Began(lane: Commits.Lane, s: Commits.State, t: nat, m: Message)
    requires Commits.Invariant(lane, s) && t !in s.threads && m in s.log && m.lane == lane.owner && m.offset in s.entitled
    ensures Commits.Invariant(lane, s.(threads := s.threads[t := Commits.Entered(m.topic, m.offset)]))
  {
    Commits.StepKeeps(lane, s, Commits.Begin(t, m));
  }

  lemma Dropped(lane: Commits.Lane, s: Commits.State, t: nat)
    requires Commits.Invariant(lane, s)
    ensures Commits.Invariant(lane, s.(threads := s.threads - {t}))
  {
    Commits.QuietStepKeeps(lane, s, s.(threads := s.threads - {t}), t, Basics.None);
  }

  lemma ThreadsGone(lane: Commits.Lane, s: Commits.State)
    requires Commits.Invariant(lane, s)
    ensures Commits.Invariant(lane, s.(threads := map[]))
  {
    Commits.StepKeeps(lane, s, Commits.Crash);
  }

  /** The dead-letter log only grows, except for a tail that was not committed. */
  lemma DlqStep(lane: Commits.Lane, w: World, a: Action)
    requires Enabled(lane, w, a) && w.dlqHwm <= |w.dlq|
    ensures var w' := Next(lane, w, a);
            && w.dlqHwm <= w'.dlqHwm <= |w'.dlq|
            && (forall p :: 0 <= p < w.dlqHwm ==> w'.dlq[p] == w.dlq[p])
            && (!a.LoseDlqTail? ==> w.dlq <= w'.dlq)
  {
    hide CoreNext, DeliveredNext, EntriesNext, PhasesNext, MemoryNext, TasksNext, Commits.Enabled, Deliverable;
  }

  /** No step takes a committed copy out of the queue. */
  lemma QueueStays(lane: Commits.Lane, w: World, a: Action, o: nat)
    requires Enabled(lane, w, a) && InQueue(w, o)
    ensures InQueue(Next(lane, w, a), o)
  {
    hide Next, Enabled;
    var p :| 0 <= p < w.dlqHwm <= |w.dlq| && w.dlq[p] == Copy(o);
    DlqStep(lane, w, a);
    assert Next(lane, w, a).dlq[p] == Copy(o);
  }

  lemma CopyStays(lane: Commits.Lane, w: World, a: Action, o: nat, p: nat)
    requires Enabled(lane, w, a) && w.dlqHwm <= |w.dlq| && CopyAt(w, o, p) && (a.LoseDlqTail? ==> p < w.dlqHwm)
    ensures CopyAt(Next(lane, w, a), o, p)
  {
    hide Next, Enabled;
    DlqStep(lane, w, a);
  }

  lemma EntriesKept(lane: Commits.Lane, w: World, a: Action, o: nat)
    requires Invariant(lane, w) && Enabled(lane, w, a) && (a.LoseDlqTail? ==> SafeLoss(w, a.kept)) && o in EntriesNext(lane, w, a)
    ensures CopyAt(Next(lane, w, a), o, EntriesNext(lane, w, a)[o])
  {
    var p := EntriesNext(lane, w, a)[o];
    if a.PutEntry? { assert TaskOk(lane, w, a.t, w.tasks[a.t]); }
    assert CopyAt(w, o, p) && w.dlqHwm <= |w.dlq| && (a.LoseDlqTail? ==> p < w.dlqHwm);
    hide Next, Enabled, EntriesNext, Invariant;
    CopyStays(lane, w, a, o, p);
  }

  /** Only a delivery or a committed copy earns a completion. */
  lemma EntitledStep(lane: Commits.Lane, w: World, a: Action, o: nat)
    requires Invariant(lane, w) && Enabled(lane, w, a) && o in CoreNext(lane, w, a).entitled
    ensures o in w.core.entitled || o in DeliveredNext(lane, w, a) || InQueue(w, o)
    ensures w.delivered <= DeliveredNext(lane, w, a)
  {
    if a.CommitStep? { InnerStep(lane, w.core, a.step); }
    if a.NoteCommitted? { assert TaskOk(lane, w, a.t, w.tasks[a.t]); }
    hide Commits.Invariant, Commits.Next, Commits.Enabled, Deliverable, InQueue, Earned, TasksOk;
  }

  lemma EntitledKept(lane: Commits.Lane, w: World, a: Action, o: nat)
    requires Invariant(lane, w) && Enabled(lane, w, a) && o in Next(lane, w, a).core.entitled
    ensures o in Next(lane, w, a).delivered || InQueue(Next(lane, w, a), o)
  {
    assert Earned(w);
    hide CoreNext, DeliveredNext, DlqNext, EntriesNext, PhasesNext, MemoryNext, TasksNext, Enabled, Invariant, InQueue;
    EntitledStep(lane, w, a, o);
    if InQueue(w, o) { QueueStays(lane, w, a, o); }
  }

  lemma PhasesKept(lane: Commits.Lane, w: World, a: Action, o: nat)
    requires Invariant(lane, w) && Enabled(lane, w, a) && o in PhasesNext(lane, w, a) && PhasesNext(lane, w, a)[o].DlqCommitted?
    ensures InQueue(Next(lane, w, a), o)
  {
    if a.WritePhase? { assert TaskOk(lane, w, a.t, w.tasks[a.t]); }
    assert InQueue(w, o) by { hide InQueue, Commits.Enabled, Deliverable, Commits.Invariant; }
    hide Next, Enabled, Invariant, InQueue;
    QueueStays(lane, w, a, o);
  }

  lemma MemoryKept(lane: Commits.Lane, w: World, a: Action, o: nat)
    requires Invariant(lane, w) && Enabled(lane, w, a) && o in MemoryNext(lane, w, a) && MemoryNext(lane, w, a)[o].DlqCommitted?
    ensures InQueue(Next(lane, w, a), o)
  {
    if a.InsertPhase? { assert TaskOk(lane, w, a.t, w.tasks[a.t]); }
    assert InQueue(w, o) by { hide InQueue, Commits.Enabled, Deliverable, Commits.Invariant; }
    hide Next, Enabled, Invariant, InQueue;
    QueueStays(lane, w, a, o);
  }

  lemma EarnedKept(lane: Commits.Lane, w: World, a: Action)
    requires Invariant(lane, w) && Enabled(lane, w, a) && (a.LoseDlqTail? ==> SafeLoss(w, a.kept))
    ensures Earned(Next(lane, w, a))
  {
    var w' := Next(lane, w, a);
    assert w'.entries == EntriesNext(lane, w, a) && w'.phases == PhasesNext(lane, w, a) && w'.memory == MemoryNext(lane, w, a);
    assert w.dlqHwm <= |w.dlq|;
    hide Commits.Invariant, Enabled, Next, EntriesNext, PhasesNext, MemoryNext, TasksOk, InQueue, SafeLoss, CopyAt;
    DlqStep(lane, w, a);
    forall o | o in w'.entries ensures CopyAt(w', o, w'.entries[o]) { EntriesKept(lane, w, a, o); }
    forall o | o in w'.core.entitled ensures o in w'.delivered || InQueue(w', o) { EntitledKept(lane, w, a, o); }
    forall o | o in w'.phases && w'.phases[o].DlqCommitted? ensures InQueue(w', o) { PhasesKept(lane, w, a, o); }
    forall o | o in w'.memory && w'.memory[o].DlqCommitted? ensures InQueue(w', o) { MemoryKept(lane, w, a, o); }
  }

  /** The message of a task stays a committed message of the lane. */
  lemma DeliverableStays(lane: Commits.Lane, w: World, a: Action, m: Message)
    requires Enabled(lane, w, a) && Deliverable(lane, w.core, m) && !a.LoseTail?
    ensures Deliverable(lane, CoreNext(lane, w, a), m)
  {
    if a.CommitStep? { InnerStep(lane, w.core, a.step); }
    hide Commits.Next, Commits.Enabled;
  }

  /** What a task relies on in the commit protocol stays. */
  lemma CommitFactsStay(lane: Commits.Lane, w: World, a: Action, t: nat, o: nat)
    requires Invariant(lane, w) && Enabled(lane, w, a) && o < w.core.end && t in w.tasks
    requires !a.LoseTail? && !((a.BeginCommit? || a.Abort?) && a.t == t)
    ensures o in w.core.entitled ==> o in CoreNext(lane, w, a).entitled
    ensures Done(lane, w.core, o) ==> Done(lane, CoreNext(lane, w, a), o)
    ensures Tracks(lane, w.core, t, o) && !a.Crash? && !a.LoseDlqTail? ==> Tracks(lane, CoreNext(lane, w, a), t, o)
  {
    if a.CommitStep? {
      hide Commits.Next, Commits.Enabled, Commits.Invariant, Done, Tracks, Earned, TasksOk;
      InnerStep(lane, w.core, a.step);
      if Done(lane, w.core, o) { DoneStays(lane, w.core, a.step, o); }
      if Tracks(lane, w.core, t, o) { TracksStays(lane, w.core, a.step, t, o); }
    } else {
      OtherFactsStay(lane, w, a, t, o);
    }
  }

  lemma OtherFactsStay(lane: Commits.Lane, w: World, a: Action, t: nat, o: nat)
    requires Enabled(lane, w, a) && t in w.tasks && !a.CommitStep?
    requires !a.LoseTail? && !((a.BeginCommit? || a.Abort?) && a.t == t)
    ensures o in w.core.entitled ==> o in CoreNext(lane, w, a).entitled
    ensures Done(lane, w.core, o) ==> Done(lane, CoreNext(lane, w, a), o)
    ensures Tracks(lane, w.core, t, o) && !a.Crash? && !a.LoseDlqTail? ==> Tracks(lane, CoreNext(lane, w, a), t, o)
  {
    hide Commits.Next, Commits.Enabled, Deliverable, Complete;
  }

  lemma TaskFacts(lane: Commits.Lane, w: World, t: nat)
    requires Invariant(lane, w) && t in w.tasks
    ensures TaskOk(lane, w, t, w.tasks[t]) && w.dlqHwm <= |w.dlq| && w.tasks[t].m.offset < w.core.end
  {
    hide InQueue, Done, Tracks;
  }

  lemma OtherActs(lane: Commits.Lane, w: World, a: Action, t: nat)
    requires Enabled(lane, w, a) && t in w.tasks && t in TasksNext(lane, w, a) && TasksNext(lane, w, a)[t] == w.tasks[t]
    ensures !a.Crash? && !a.LoseTail? && !a.LoseDlqTail? && !((a.BeginCommit? || a.Abort?) && a.t == t)
  {
    hide Commits.Enabled, Deliverable;
  }

  /** A task other than the acting one stays in order. */
  lemma OthersKept(lane: Commits.Lane, w: World, a: Action, t: nat)
    requires Invariant(lane, w) && Enabled(lane, w, a) && t in w.tasks && t in TasksNext(lane, w, a)
    requires TasksNext(lane, w, a)[t] == w.tasks[t]
    ensures TaskOk(lane, Next(lane, w, a), t, w.tasks[t])
  {
    var task := w.tasks[t];
    TaskFacts(lane, w, t);
    OtherActs(lane, w, a, t);
    hide CoreNext, DeliveredNext, DlqNext, EntriesNext, PhasesNext, MemoryNext, TasksNext, Enabled, Invariant, Deliverable, InQueue, CopyAt, Done, Tracks;
    DeliverableStays(lane, w, a, task.m);
    CommitFactsStay(lane, w, a, t, task.m.offset);
    if task.Entering? || task.Waiting? {
      CopyStays(lane, w, a, task.m.offset, task.position);
    } else if InQueue(w, task.m.offset) {
      QueueStays(lane, w, a, task.m.offset);
    }
  }

  /** Actions after which a task's new state rests on what was already there. */
  predicate Quiet(a: Action) {
    || a.Pick? || a.SeeComplete? || a.GiveUp? || a.LeaseDead? || a.Prepare? || a.WritePhase? || a.InsertPhase? || a.LookUp? || a.PutEntry?
    || a.AwaitCommitted? || a.EndCommit? || a.ClearPhase? || a.RemovePhase?
  }

  /** The message a task holds, and what is known of it. */
  ghost predicate Before(lane: Commits.Lane, w: World, a: Action)
    requires Quiet(a)
  {
    a.t in w.tasks ==> TaskOk(lane, w, a.t, w.tasks[a.t])
  }

  lemma TakenActor(lane: Commits.Lane, w: World, a: Action)
    requires Enabled(lane, w, a) && (a.Pick? || a.LeaseDead? || a.GiveUp?) && Before(lane, w, a)
    ensures a.t in TasksNext(lane, w, a) && TaskOk(lane, w, a.t, TasksNext(lane, w, a)[a.t])
  {
    hide Deliverable, Done, Tracks, InQueue, CopyAt, Commits.Enabled, Complete;
  }

  lemma CompleteActor(lane: Commits.Lane, w: World, a: Action)
    requires Commits.Invariant(lane, w.core) && Enabled(lane, w, a) && a.SeeComplete? && Before(lane, w, a)
    ensures a.t in TasksNext(lane, w, a) && TaskOk(lane, w, a.t, TasksNext(lane, w, a)[a.t])
  {
    CompleteIsEntitled(lane, w.core, w.tasks[a.t].m);
    hide Commits.Invariant, Deliverable, Done, Tracks, InQueue, CopyAt, Commits.Enabled, Complete;
  }

  lemma CompleteIsEntitled(lane: Commits.Lane, s: Commits.State, m: Message)
    requires Commits.Invariant(lane, s) && Deliverable(lane, s, m) && Complete(s.cursor, s.keys, m.offset)
    ensures m.offset in s.entitled
  {
  }

  lemma RecordActor(lane: Commits.Lane, w: World, a: Action)
    requires Enabled(lane, w, a) && (a.Prepare? || a.WritePhase? || a.InsertPhase?) && Before(lane, w, a)
    requires forall o :: o in w.memory && w.memory[o].DlqCommitted? ==> InQueue(w, o)
    ensures a.t in TasksNext(lane, w, a) && TaskOk(lane, w, a.t, TasksNext(lane, w, a)[a.t])
  {
    hide Deliverable, Done, Tracks, InQueue, CopyAt, Commits.Enabled, Complete;
  }

  lemma CopyActor(lane: Commits.Lane, w: World, a: Action)
    requires Enabled(lane, w, a) && (a.LookUp? || a.PutEntry? || a.AwaitCommitted?) && Before(lane, w, a)
    requires w.dlqHwm <= |w.dlq| && forall o :: o in w.entries ==> CopyAt(w, o, w.entries[o])
    ensures a.t in TasksNext(lane, w, a) && TaskOk(lane, w, a.t, TasksNext(lane, w, a)[a.t])
  {
    hide Deliverable, Done, Tracks, InQueue, CopyAt, Commits.Enabled, Complete;
    if a.AwaitCommitted? { CopyIsIn(w, w.tasks[a.t].m.offset, w.tasks[a.t].position); }
  }

  lemma DoneActor(lane: Commits.Lane, w: World, a: Action)
    requires Enabled(lane, w, a) && (a.EndCommit? || a.ClearPhase? || a.RemovePhase?) && Before(lane, w, a) && a.t in TasksNext(lane, w, a)
    ensures TaskOk(lane, w, a.t, TasksNext(lane, w, a)[a.t])
  {
    hide Deliverable, Done, InQueue, CopyAt, Commits.Enabled, Complete;
  }

  lemma QuietActor(lane: Commits.Lane, w: World, a: Action)
    requires Invariant(lane, w) && Enabled(lane, w, a) && Quiet(a) && a.t in TasksNext(lane, w, a)
    ensures TaskOk(lane, w, a.t, TasksNext(lane, w, a)[a.t])
  {
    hide TaskOk, Enabled, TasksNext, CopyAt, InQueue, Commits.Invariant;
    match a
    case SeeComplete(_) => CompleteActor(lane, w, a);
    case Prepare(_) => RecordActor(lane, w, a);
    case WritePhase(_) => RecordActor(lane, w, a);
    case InsertPhase(_) => RecordActor(lane, w, a);
    case LookUp(_) => CopyActor(lane, w, a);
    case PutEntry(_) => CopyActor(lane, w, a);
    case AwaitCommitted(_) => CopyActor(lane, w, a);
    case EndCommit(_) => DoneActor(lane, w, a);
    case ClearPhase(_) => DoneActor(lane, w, a);
    case RemovePhase(_) => DoneActor(lane, w, a);
    case _ => TakenActor(lane, w, a);
  }

  lemma CopyIsIn(w: World, o: nat, p: nat)
    requires CopyAt(w, o, p) && p < w.dlqHwm <= |w.dlq|
    ensures InQueue(w, o)
  {
  }

  lemma QuietFrame(lane: Commits.Lane, w: World, a: Action)
    requires Enabled(lane, w, a) && Quiet(a)
    ensures Next(lane, w, a).core == w.core && Next(lane, w, a).dlq == w.dlq && Next(lane, w, a).dlqHwm == w.dlqHwm
  {
    hide Commits.Enabled, Deliverable, PhasesNext, MemoryNext, DeliveredNext, EntriesNext, TasksNext, Complete;
  }

  lemma TaskFrame(lane: Commits.Lane, w: World, w': World, t: nat, task: Task)
    requires TaskOk(lane, w, t, task) && w'.core == w.core && w'.dlq == w.dlq && w'.dlqHwm == w.dlqHwm
    ensures TaskOk(lane, w', t, task)
  {
    hide Deliverable, Done, Tracks;
  }

  lemma ReportActor(lane: Commits.Lane, w: World, a: Action)
    requires Enabled(lane, w, a) && (a.HttpSuccess? || a.LeaseDelivered?)
    requires a.t in w.tasks ==> TaskOk(lane, w, a.t, w.tasks[a.t])
    ensures TaskOk(lane, Next(lane, w, a), a.t, TasksNext(lane, w, a)[a.t])
  {
    hide Commits.Enabled, Done, Tracks, InQueue, CopyAt, PhasesNext, MemoryNext, DeliveredNext, EntriesNext, DlqNext, Complete;
  }

  lemma NoteActor(lane: Commits.Lane, w: World, a: Action)
    requires Enabled(lane, w, a) && a.NoteCommitted? && TaskOk(lane, w, a.t, w.tasks[a.t])
    ensures TaskOk(lane, Next(lane, w, a), a.t, TasksNext(lane, w, a)[a.t])
  {
    QueueStays(lane, w, a, w.tasks[a.t].m.offset);
    hide Commits.Enabled, Done, Tracks, InQueue, CopyAt, PhasesNext, MemoryNext, DeliveredNext, EntriesNext, DlqNext, Complete;
  }

  lemma AppendActor(lane: Commits.Lane, w: World, a: Action)
    requires Enabled(lane, w, a) && (a.AppendCopy? || a.BeginCommit?) && TaskOk(lane, w, a.t, w.tasks[a.t])
    ensures TaskOk(lane, Next(lane, w, a), a.t, TasksNext(lane, w, a)[a.t])
  {
    hide Commits.Enabled, Done, InQueue, PhasesNext, MemoryNext, DeliveredNext, EntriesNext, Complete;
  }

  lemma BusyActor(lane: Commits.Lane, w: World, a: Action)
    requires Invariant(lane, w) && Enabled(lane, w, a)
    requires a.HttpSuccess? || a.LeaseDelivered? || a.NoteCommitted? || a.AppendCopy? || a.BeginCommit?
    ensures TaskOk(lane, Next(lane, w, a), a.t, TasksNext(lane, w, a)[a.t])
  {
    assert a.t in w.tasks ==> TaskOk(lane, w, a.t, w.tasks[a.t]);
    assert !a.LeaseDelivered? ==> a.t in w.tasks;
    hide Invariant, Enabled, Next, TasksNext, TaskOk;
    match a
    case NoteCommitted(_) => NoteActor(lane, w, a);
    case AppendCopy(_) => AppendActor(lane, w, a);
    case BeginCommit(_) => AppendActor(lane, w, a);
    case _ => ReportActor(lane, w, a);
  }

  /** The acting task moves to a state that is in order. */
  lemma ActorKept(lane: Commits.Lane, w: World, a: Action, t: nat)
    requires Invariant(lane, w) && Enabled(lane, w, a) && t in TasksNext(lane, w, a)
    requires t in w.tasks ==> TasksNext(lane, w, a)[t] != w.tasks[t]
    ensures TaskOk(lane, Next(lane, w, a), t, TasksNext(lane, w, a)[t])
  {
    ActorActs(lane, w, a, t);
    hide Invariant, Enabled, TasksNext, Next, TaskOk;
    if Quiet(a) {
      QuietActor(lane, w, a);
      QuietFrame(lane, w, a);
      TaskFrame(lane, w, Next(lane, w, a), t, TasksNext(lane, w, a)[t]);
    } else {
      BusyActor(lane, w, a);
    }
  }

  lemma ActorActs(lane: Commits.Lane, w: World, a: Action, t: nat)
    requires Enabled(lane, w, a) && t in TasksNext(lane, w, a)
    requires t in w.tasks ==> TasksNext(lane, w, a)[t] != w.tasks[t]
    ensures (Quiet(a) || a.HttpSuccess? || a.LeaseDelivered? || a.NoteCommitted? || a.AppendCopy? || a.BeginCommit?) && a.t == t
  {
    hide Commits.Enabled, Deliverable;
  }

  lemma StepKeeps(lane: Commits.Lane, w: World, a: Action)
    requires Invariant(lane, w) && Enabled(lane, w, a) && Sheltered(lane, w, a)
    ensures Invariant(lane, Next(lane, w, a))
  {
    var w' := Next(lane, w, a);
    assert w'.tasks == TasksNext(lane, w, a) && w'.core == CoreNext(lane, w, a);
    hide CoreNext, DeliveredNext, DlqNext, EntriesNext, PhasesNext, MemoryNext, TasksNext, Enabled, Commits.Invariant, Earned, TaskOk;
    CoreKept(lane, w, a);
    EarnedKept(lane, w, a);
    forall t | t in w'.tasks ensures TaskOk(lane, w', t, w'.tasks[t]) {
      if t in w.tasks && w'.tasks[t] == w.tasks[t] {
        OthersKept(lane, w, a, t);
      } else {
        ActorKept(lane, w, a, t);
      }
    }
  }

  ghost predicate Run(lane: Commits.Lane, states: seq<World>, actions: seq<Action>) {
    && |states| == |actions| + 1
    && states[0] == Start()
    && forall i :: 0 <= i < |actions| ==> Enabled(lane, states[i], actions[i]) && states[i + 1] == Next(lane, states[i], actions[i])
  }

  ghost predicate ShelteredRun(lane: Commits.Lane, states: seq<World>, actions: seq<Action>) {
    Run(lane, states, actions) && forall i :: 0 <= i < |actions| ==> Sheltered(lane, states[i], actions[i])
  }

  /** What is known of step `i` of a run. */
  lemma StepAt(lane: Commits.Lane, states: seq<World>, actions: seq<Action>, i: nat)
    requires ShelteredRun(lane, states, actions) && i < |actions|
    ensures Enabled(lane, states[i], actions[i]) && states[i + 1] == Next(lane, states[i], actions[i])
    ensures Sheltered(lane, states[i], actions[i])
  {
    hide Enabled, Next, Sheltered, Start;
  }

  lemma StartKeeps(lane: Commits.Lane, states: seq<World>, actions: seq<Action>)
    requires ShelteredRun(lane, states, actions)
    ensures Invariant(lane, states[0])
  {
    assert states[0] == Start();
    hide Enabled, Next, Sheltered;
  }

  lemma {:induction false} RunKeeps(lane: Commits.Lane, states: seq<World>, actions: seq<Action>, i: nat)
    requires |states| == |actions| + 1 && i <= |actions| && ShelteredRun(lane, states, actions)
    ensures Invariant(lane, states[i])
  {
    hide ShelteredRun, Invariant, Enabled, Next, Sheltered;
    if i == 0 {
      StartKeeps(lane, states, actions);
    } else {
      RunKeeps(lane, states, actions, i - 1);
      StepAt(lane, states, actions, i - 1);
      StepKeeps(lane, states[i - 1], actions[i - 1]);
    }
  }

  /** With any crashes between any steps: a message of the owner that the store takes as complete
      was delivered, or a copy of it is in the dead-letter queue, committed; and a recorded
      commit of a copy is true. */
  lemma NothingIsSkipped(lane: Commits.Lane, states: seq<World>, actions: seq<Action>, i: nat)
    requires |states| == |actions| + 1 && i <= |actions| && ShelteredRun(lane, states, actions)
    ensures var w := states[i];
            && (forall m | m in w.core.log && m.lane == lane.owner && Complete(w.core.cursor, w.core.keys, m.offset) ::
                  m.offset in w.delivered || InQueue(w, m.offset))
            && (forall o | o in w.phases && w.phases[o].DlqCommitted? :: InQueue(w, o))
  {
    RunKeeps(lane, states, actions, i);
    hide InQueue;
  }

  /** Records of other publishers arriving in the dead-letter log. */
  function WithOthers(w: World, n: nat): World {
    w.(dlq := w.dlq + seq(n, _ => Other))
  }

  /** Every entry that points into the log names a copy. */
  ghost predicate EntriesTrue(w: World) {
    forall o :: o in w.entries && w.entries[o] < |w.dlq| ==> w.dlq[w.entries[o]] == Copy(o)
  }

  lemma DlqLossShape(lane: Commits.Lane, w: World, kept: set<nat>)
    requires w.dlqHwm <= |w.dlq|
    ensures var lost := Next(lane, w, LoseDlqTail(kept));
            lost.dlq == w.dlq[..w.dlqHwm] && lost.entries == map o | o in w.entries && o in kept :: w.entries[o]
  {
    hide CoreNext, DeliveredNext, PhasesNext, MemoryNext, TasksNext;
  }

  /** A loss of unsynced dead-letter records is safe, whatever arrives later, exactly when no
      surviving entry names a lost record. */
  lemma DlqLossSafeExactly(lane: Commits.Lane, w: World, kept: set<nat>)
    requires Invariant(lane, w)
    ensures (forall n: nat :: EntriesTrue(WithOthers(Next(lane, w, LoseDlqTail(kept)), n))) <==> SafeLoss(w, kept)
  {
    hide Commits.Invariant, TasksOk, InQueue, Next;
    DlqLossShape(lane, w, kept);
    var lost := Next(lane, w, LoseDlqTail(kept));
    if o :| o in w.entries && o in kept && w.entries[o] >= w.dlqHwm {
      var n := w.entries[o] + 1 - w.dlqHwm;
      var filled := WithOthers(lost, n);
      assert filled.dlq[w.entries[o]] == Other && !EntriesTrue(filled);
    }
  }

  ghost predicate Reachable(lane: Commits.Lane, w: World) {
    exists states, actions :: Run(lane, states, actions) && states[|actions|] == w
  }

  lemma ReachStep(lane: Commits.Lane, w: World, a: Action) returns (w': World)
    requires Reachable(lane, w) && Enabled(lane, w, a)
    ensures w' == Next(lane, w, a) && Reachable(lane, w')
  {
    hide Next, Start, Enabled;
    w' := Next(lane, w, a);
    var states, actions :| Run(lane, states, actions) && states[|actions|] == w;
    var states', actions' := states + [w'], actions + [a];
    forall i | 0 <= i < |actions'|
      ensures Enabled(lane, states'[i], actions'[i]) && states'[i + 1] == Next(lane, states'[i], actions'[i])
    {
      if i < |actions| { assert states'[i] == states[i] && states'[i + 1] == states[i + 1] && actions'[i] == actions[i]; }
    }
    assert Run(lane, states', actions');
  }
}
