// From any reachable state, a task that is not disturbed brings its message to completion: the
// path of a delivery that succeeds, and the path into the dead-letter queue.
module DeliveryPaths {
  import opened Log
  import opened Cursor
  import opened Lifecycle
  import opened Delivery
  import opened DeliveryCauses
  import Commits
  import CommitAlone

  /** The actions can be taken one after the other and lead from `w` to `w'`. */
  ghost predicate Path(lane: Commits.Lane, w: World, actions: seq<Action>, w': World)
    decreases |actions|
  {
    if actions == [] then w' == w
    else Enabled(lane, w, actions[0]) && Path(lane, Next(lane, w, actions[0]), actions[1..], w')
  }

  lemma PathFirst(lane: Commits.Lane, w: World, a: Action, rest: seq<Action>, w': World)
    requires Enabled(lane, w, a) && Path(lane, Next(lane, w, a), rest, w')
    ensures Path(lane, w, [a] + rest, w')
  {
    hide Enabled, Next;
    assert ([a] + rest)[1..] == rest;
  }

  lemma PathOne(lane: Commits.Lane, w: World, a: Action)
    requires Enabled(lane, w, a)
    ensures Path(lane, w, [a], Next(lane, w, a))
  {
    hide Enabled, Next;
    PathFirst(lane, w, a, [], Next(lane, w, a));
    assert [a] + [] == [a];
  }

  lemma {:induction false} PathOn(lane: Commits.Lane, w: World, a: seq<Action>, m: World, b: seq<Action>, w': World)
    requires Path(lane, w, a, m) && Path(lane, m, b, w')
    ensures Path(lane, w, a + b, w')
    decreases |a|
  {
    hide Enabled, Next;
    if a == [] {
      assert a + b == b;
    } else {
      assert (a + b)[1..] == a[1..] + b;
      PathOn(lane, Next(lane, w, a[0]), a[1..], m, b, w');
    }
  }

  /** The commit's own steps as steps of the delivery. */
  function Inside(steps: seq<Commits.Action>): seq<Action> {
    seq(|steps|, (i: nat) requires i < |steps| => CommitStep(steps[i]))
  }

  lemma CommitStepOnly(lane: Commits.Lane, w: World, a: Commits.Action)
    requires Inner(a) && Commits.Enabled(lane, w.core, a)
    ensures Enabled(lane, w, CommitStep(a)) && Next(lane, w, CommitStep(a)) == w.(core := Commits.Next(lane, w.core, a))
  {
    hide Commits.Next, Commits.Enabled;
  }

  lemma {:induction false} CommitInside(lane: Commits.Lane, w: World, t: nat, steps: seq<Commits.Action>, s': Commits.State)
    requires CommitAlone.Leads(lane, w.core, t, steps, s')
    ensures Path(lane, w, Inside(steps), w.(core := s'))
    decreases |steps|
  {
    if steps != [] {
      hide Commits.Next, Commits.Enabled, Enabled, Next;
      var a, rest := steps[0], steps[1..];
      CommitStepOnly(lane, w, a);
      CommitInside(lane, w.(core := Commits.Next(lane, w.core, a)), t, rest, s');
      PathFirst(lane, w, CommitStep(a), Inside(rest), w.(core := s'));
      assert Inside(steps) == [CommitStep(a)] + Inside(rest);
    }
  }

  // What holds in every reachable state, whatever is lost and whatever topics a lane uses.

  /** Offsets ascend, and only a committing task has a commit under way. */
  ghost predicate Basic(w: World) {
    && Ascending(w.core.log) && (forall m :: m in w.core.log ==> m.offset < w.core.end) && w.core.hwm <= w.core.end
    && (forall t :: t in w.core.threads ==> t in w.tasks && w.tasks[t].Committing?)
  }

  lemma LogStep(lane: Commits.Lane, s: Commits.State, a: Commits.Action)
    requires Commits.Enabled(lane, s, a) && Inner(a)
    requires Ascending(s.log) && (forall m :: m in s.log ==> m.offset < s.end) && s.hwm <= s.end
    ensures var s' := Commits.Next(lane, s, a);
            && Ascending(s'.log) && (forall m :: m in s'.log ==> m.offset < s'.end) && s'.hwm <= s'.end
            && (forall t :: t in s'.threads ==> t in s.threads)
  {
    hide TopicFrom, Take;
    if a.Append? {
      var s' := Commits.Next(lane, s, a);
      assert forall m :: m in s'.log ==> m in s.log || m == a.m;
    }
  }

  lemma TailLog(s: Commits.State)
    requires Ascending(s.log)
    ensures var s' := Commits.AfterTailLoss(s); Ascending(s'.log) && forall m :: m in s'.log ==> m.offset < s'.end
  {
    var s' := Commits.AfterTailLoss(s);
    forall m | m in s'.log ensures m.offset < s'.end {
      var i :| 0 <= i < |s'.log| && s'.log[i] == m;
    }
  }

  lemma LogKept(lane: Commits.Lane, w: World, a: Action)
    requires Basic(w) && Enabled(lane, w, a)
    ensures var s := CoreNext(lane, w, a); Ascending(s.log) && (forall m :: m in s.log ==> m.offset < s.end) && s.hwm <= s.end
  {
    if a.CommitStep? { LogStep(lane, w.core, a.step); }
    if a.LoseTail? { TailLog(w.core); }
    hide Commits.Next, Commits.Enabled, Ascending, Commits.Below, Deliverable, Complete;
  }

  lemma ThreadsFrom(lane: Commits.Lane, w: World, a: Action, t: nat)
    requires Basic(w) && Enabled(lane, w, a) && t in CoreNext(lane, w, a).threads
    ensures a == BeginCommit(t) || (t in w.core.threads && !a.Crash? && !a.LoseTail? && !a.LoseDlqTail? && a != Abort(t))
  {
    if a.CommitStep? { LogStep(lane, w.core, a.step); }
    hide Commits.Next, Commits.Enabled, Ascending, Deliverable, Complete;
  }

  lemma CommittingStays(lane: Commits.Lane, w: World, a: Action, t: nat)
    requires Enabled(lane, w, a) && t in w.tasks && w.tasks[t].Committing? && t in w.core.threads
    requires !a.Crash? && !a.LoseTail? && !a.LoseDlqTail? && a != Abort(t)
    ensures t in TasksNext(lane, w, a) && TasksNext(lane, w, a)[t].Committing?
  {
    hide Commits.Enabled, Deliverable, Complete;
  }

  lemma ThreadKept(lane: Commits.Lane, w: World, a: Action, t: nat)
    requires Basic(w) && Enabled(lane, w, a) && t in CoreNext(lane, w, a).threads
    ensures t in TasksNext(lane, w, a) && TasksNext(lane, w, a)[t].Committing?
  {
    ThreadsFrom(lane, w, a, t);
    if a != BeginCommit(t) {
      hide CoreNext, Enabled, Ascending, TasksNext;
      CommittingStays(lane, w, a, t);
    }
  }

  lemma BasicKept(lane: Commits.Lane, w: World, a: Action)
    requires Basic(w) && Enabled(lane, w, a)
    ensures Basic(Next(lane, w, a))
  {
    LogKept(lane, w, a);
    forall t | t in CoreNext(lane, w, a).threads ensures t in TasksNext(lane, w, a) && TasksNext(lane, w, a)[t].Committing? {
      ThreadKept(lane, w, a, t);
    }
    hide CoreNext, TasksNext, Enabled, Ascending, DeliveredNext, DlqNext, EntriesNext, PhasesNext, MemoryNext;
  }

  lemma StartBasic(lane: Commits.Lane, states: seq<World>, actions: seq<Action>)
    requires Run(lane, states, actions)
    ensures Basic(states[0])
  {
    hide Enabled, Next;
  }

  lemma {:induction false} RunBasic(lane: Commits.Lane, states: seq<World>, actions: seq<Action>, i: nat)
    requires |states| == |actions| + 1 && i <= |actions| && Run(lane, states, actions)
    ensures Basic(states[i])
  {
    hide Run, Basic, Enabled, Next;
    if i == 0 {
      StartBasic(lane, states, actions);
    } else {
      RunBasic(lane, states, actions, i - 1);
      StepOf(lane, states, actions, i - 1);
      BasicKept(lane, states[i - 1], actions[i - 1]);
    }
  }

  // The end of every path: commit the cursor.

  /** Only the commit of `o` has happened: it is complete, nothing complete is forgotten, and of
      the messages on its topic no other has become so. */
  ghost predicate CommitOnly(lane: Commits.Lane, s: Commits.State, topic: string, o: nat, s': Commits.State) {
    && s'.log == s.log && s'.end == s.end && s'.hwm == s.hwm && s'.threads == s.threads
    && s.cursor <= s'.cursor && Complete(s'.cursor, s'.keys, o)
    && (forall x :: Complete(s.cursor, s.keys, x) ==> Complete(s'.cursor, s'.keys, x))
    && (forall m :: m in s.log && OnLane(m, topic, lane.owner) && Complete(s'.cursor, s'.keys, m.offset) ==>
          Complete(s.cursor, s.keys, m.offset) || m.offset == o)
  }

  function AfterCommit(w: World, t: nat, m: Message, clear: bool, s': Commits.State): World {
    w.(core := s', tasks := if clear then w.tasks[t := Clearing(m)] else w.tasks - {t})
  }

  lemma Begins(lane: Commits.Lane, w: World, t: nat, m: Message, clear: bool)
    requires t in w.tasks && w.tasks[t] == Ready(m, clear) && t !in w.core.threads
    ensures Path(lane, w, [BeginCommit(t)],
                 w.(core := CommitAlone.At(w.core, t, Commits.Entered(m.topic, m.offset)), tasks := w.tasks[t := Committing(m, clear)]))
  {
    PathOne(lane, w, BeginCommit(t));
    hide Path;
  }

  lemma EndsCommit(lane: Commits.Lane, w: World, t: nat, m: Message, clear: bool)
    requires t in w.tasks && w.tasks[t] == Committing(m, clear) && t !in w.core.threads
    ensures Path(lane, w, [EndCommit(t)], w.(tasks := if clear then w.tasks[t := Clearing(m)] else w.tasks - {t}))
  {
    PathOne(lane, w, EndCommit(t));
    hide Path;
  }

  lemma CommitsOnly(lane: Commits.Lane, s: Commits.State, t: nat, topic: string, o: nat, shared: bool, s': Commits.State)
    requires t !in s.threads && CommitAlone.Committed(lane, s, t, topic, o, shared, s')
    ensures CommitOnly(lane, s, topic, o, s') && s'.entitled == s.entitled
  {
    CommitAlone.CommittedMeans(lane, s, t, topic, o, shared, s');
    hide CommitAlone.Committed, Complete;
    assert s.threads - {t} == s.threads;
  }

  lemma ReadyCommits(lane: Commits.Lane, w: World, t: nat, m: Message, clear: bool) returns (steps: seq<Commits.Action>, w': World)
    requires Basic(w) && t in w.tasks && w.tasks[t] == Ready(m, clear)
    ensures Path(lane, w, [BeginCommit(t)] + Inside(steps) + [EndCommit(t)], w')
    ensures w' == AfterCommit(w, t, m, clear, w'.core) && CommitOnly(lane, w.core, m.topic, m.offset, w'.core)
  {
    hide Basic, Ascending, Path, CommitOnly, Inside, CommitAlone.Leads, CommitAlone.Committed, CommitAlone.At;
    ReadyFacts(w, t);
    var s';
    steps, s' := CommitAlone.CommitRuns(lane, w.core, t, m.topic, m.offset, false);
    CommitsOnly(lane, w.core, t, m.topic, m.offset, false, s');
    Begins(lane, w, t, m, clear);
    var begun := w.(core := CommitAlone.At(w.core, t, Commits.Entered(m.topic, m.offset)), tasks := w.tasks[t := Committing(m, clear)]);
    CommitInside(lane, begun, t, steps, s');
    var done := begun.(core := s');
    NoThread(lane, w.core, m.topic, m.offset, s', t);
    EndsCommit(lane, done, t, m, clear);
    w' := AfterCommit(w, t, m, clear, s');
    SameTasks(w.tasks, t, Committing(m, clear), Clearing(m));
    PathOn(lane, w, [BeginCommit(t)], begun, Inside(steps), done);
    PathOn(lane, w, [BeginCommit(t)] + Inside(steps), done, [EndCommit(t)], w');
  }

  lemma ReadyFacts(w: World, t: nat)
    requires Basic(w) && t in w.tasks && w.tasks[t].Ready?
    ensures t !in w.core.threads && Ascending(w.core.log)
  {
    hide Ascending;
  }

  lemma SameTasks(tasks: map<nat, Task>, t: nat, a: Task, b: Task)
    ensures tasks[t := a] - {t} == tasks - {t} && tasks[t := a][t := b] == tasks[t := b]
  {
  }

  lemma NoThread(lane: Commits.Lane, s: Commits.State, topic: string, o: nat, s': Commits.State, t: nat)
    requires CommitOnly(lane, s, topic, o, s') && t !in s.threads
    ensures t !in s'.threads
  {
  }

  // The path of a delivery that succeeds.

  /** A worker hears that its message `m` was delivered, or a lease holder reports it. */
  predicate Reports(lane: Commits.Lane, w: World, a: Action, t: nat, m: Message) {
    || (a == HttpSuccess(t) && t in w.tasks && w.tasks[t] == Delivering(m))
    || (a == LeaseDelivered(t, m) && Free(w, t) && Deliverable(lane, w.core, m))
  }

  function Reported(w: World, t: nat, m: Message): World {
    w.(core := Entitle(w.core, m.offset), delivered := w.delivered + {m.offset}, tasks := w.tasks[t := Ready(m, false)])
  }

  lemma Succeeds(lane: Commits.Lane, w: World, a: Action, t: nat, m: Message)
    requires Basic(w) && Reports(lane, w, a, t, m)
    ensures Path(lane, w, [a], Reported(w, t, m)) && Basic(Reported(w, t, m))
  {
    PathOne(lane, w, a);
    BasicKept(lane, w, a);
    hide Path, Basic, Deliverable;
  }

  /** From any reachable state, a message reported delivered is committed at once: the steps are
      enabled one after the other, the message ends complete, its task is gone, and neither the
      dead-letter log nor any lifecycle record has changed. */
  lemma SuccessCompletes(lane: Commits.Lane, states: seq<World>, actions: seq<Action>, i: nat, a: Action, t: nat, m: Message)
    returns (steps: seq<Commits.Action>, w': World)
    requires |states| == |actions| + 1 && i <= |actions| && Run(lane, states, actions) && Reports(lane, states[i], a, t, m)
    ensures Path(lane, states[i], [a] + ([BeginCommit(t)] + Inside(steps) + [EndCommit(t)]), w')
    ensures var w := states[i];
            && CommitOnly(lane, w.core, m.topic, m.offset, w'.core)
            && w'.delivered == w.delivered + {m.offset} && w'.tasks == w.tasks - {t}
            && w'.dlq == w.dlq && w'.dlqHwm == w.dlqHwm && w'.entries == w.entries && w'.phases == w.phases && w'.memory == w.memory
  {
    var w := states[i];
    hide Run, Basic, Path, Inside, Reports;
    RunBasic(lane, states, actions, i);
    Succeeds(lane, w, a, t, m);
    var w1 := Reported(w, t, m);
    steps, w' := ReadyCommits(lane, w1, t, m, false);
    PathOn(lane, w, [a], w1, [BeginCommit(t)] + Inside(steps) + [EndCommit(t)], w');
    assert w1.tasks - {t} == w.tasks - {t};
  }

  // The path into the dead-letter queue.

  function Moved(w: World, t: nat, task: Task): World {
    w.(tasks := w.tasks[t := task])
  }

  lemma MovedTwice(w: World, t: nat, a: Task, b: Task)
    ensures Moved(Moved(w, t, a), t, b) == Moved(w, t, b)
  {
    assert w.tasks[t := a][t := b] == w.tasks[t := b];
  }

  function Noted(w: World, o: nat, phase: DlqPhase): World {
    w.(phases := w.phases[o := phase], memory := w.memory[o := phase])
  }

  lemma OneStep(lane: Commits.Lane, w: World, a: Action, w': World)
    requires Enabled(lane, w, a) && Next(lane, w, a) == w'
    ensures Path(lane, w, [a], w')
  {
    hide Enabled, Next;
    PathOne(lane, w, a);
  }

  lemma ThreeSteps(lane: Commits.Lane, w0: World, a: Action, w1: World, b: Action, w2: World, c: Action, w3: World)
    requires Path(lane, w0, [a], w1) && Path(lane, w1, [b], w2) && Path(lane, w2, [c], w3)
    ensures Path(lane, w0, [a, b, c], w3)
  {
    hide Path;
    PathOn(lane, w0, [a], w1, [b], w2);
    PathOn(lane, w0, [a] + [b], w2, [c], w3);
    assert [a] + [b] + [c] == [a, b, c];
  }

  lemma Writes(lane: Commits.Lane, w: World, t: nat, m: Message, phase: DlqPhase, noted: bool)
    requires t in w.tasks && w.tasks[t] == Writing(m, phase, noted)
    ensures Path(lane, w, [WritePhase(t)], Moved(w.(phases := w.phases[m.offset := phase]), t, Inserting(m, phase, noted)))
  {
    OneStep(lane, w, WritePhase(t), Moved(w.(phases := w.phases[m.offset := phase]), t, Inserting(m, phase, noted)));
    hide Path;
  }

  lemma Inserts(lane: Commits.Lane, w: World, t: nat, m: Message, phase: DlqPhase, noted: bool)
    requires t in w.tasks && w.tasks[t] == Inserting(m, phase, noted)
    ensures Path(lane, w, [InsertPhase(t)],
                 Moved(w.(memory := w.memory[m.offset := phase]), t, if noted then Ready(m, true) else LookingUp(m)))
  {
    OneStep(lane, w, InsertPhase(t), Moved(w.(memory := w.memory[m.offset := phase]), t, if noted then Ready(m, true) else LookingUp(m)));
    hide Path;
  }

  /** A record is written, then noted in memory. */
  lemma Records(lane: Commits.Lane, w: World, t: nat, a: Action, m: Message, phase: DlqPhase, noted: bool)
    requires Path(lane, w, [a], Moved(w, t, Writing(m, phase, noted)))
    ensures Path(lane, w, [a, WritePhase(t), InsertPhase(t)],
                 Moved(Noted(w, m.offset, phase), t, if noted then Ready(m, true) else LookingUp(m)))
  {
    hide Path;
    var w1 := Moved(w, t, Writing(m, phase, noted));
    Writes(lane, w1, t, m, phase, noted);
    var w2 := Moved(w.(phases := w.phases[m.offset := phase]), t, Inserting(m, phase, noted));
    assert w2 == Moved(w1.(phases := w1.phases[m.offset := phase]), t, Inserting(m, phase, noted)) by {
      MovedTwice(w.(phases := w.phases[m.offset := phase]), t, Writing(m, phase, noted), Inserting(m, phase, noted));
    }
    Inserts(lane, w2, t, m, phase, noted);
    var task := if noted then Ready(m, true) else LookingUp(m);
    var w3 := Moved(Noted(w, m.offset, phase), t, task);
    assert w3 == Moved(w2.(memory := w2.memory[m.offset := phase]), t, task) by {
      MovedTwice(Noted(w, m.offset, phase), t, Inserting(m, phase, noted), task);
    }
    ThreeSteps(lane, w, a, w1, WritePhase(t), w2, InsertPhase(t), w3);
  }

  lemma Prepares(lane: Commits.Lane, w: World, t: nat, m: Message)
    requires t in w.tasks && w.tasks[t] == Preparing(m)
    ensures Path(lane, w, [Prepare(t), WritePhase(t), InsertPhase(t)], Moved(Noted(w, m.offset, PreparedAs(w, m.offset)), t, LookingUp(m)))
  {
    OneStep(lane, w, Prepare(t), Moved(w, t, Writing(m, PreparedAs(w, m.offset), false)));
    hide Path, PreparedAs;
    Records(lane, w, t, Prepare(t), m, PreparedAs(w, m.offset), false);
  }

  /** The copy that is there, or a new one at the end. */
  function Place(w: World, o: nat): nat {
    if o in w.entries then w.entries[o] else |w.dlq|
  }

  function Copied(w: World, o: nat): World {
    if o in w.entries then w else w.(dlq := w.dlq + [Copy(o)], entries := w.entries[o := |w.dlq|])
  }

  function CopySteps(w: World, t: nat, o: nat): seq<Action> {
    if o in w.entries then [LookUp(t)] else [LookUp(t), AppendCopy(t), PutEntry(t)]
  }

  lemma Copies(lane: Commits.Lane, w: World, t: nat, m: Message)
    requires t in w.tasks && w.tasks[t] == LookingUp(m)
    ensures Path(lane, w, CopySteps(w, t, m.offset), Moved(Copied(w, m.offset), t, Waiting(m, Place(w, m.offset))))
  {
    var o := m.offset;
    if o in w.entries {
      OneStep(lane, w, LookUp(t), Moved(w, t, Waiting(m, w.entries[o])));
    } else {
      OneStep(lane, w, LookUp(t), Moved(w, t, Copying(m)));
      AppendsCopy(lane, w, t, m);
      hide Path;
      ThreeSteps(lane, w, LookUp(t), Moved(w, t, Copying(m)), AppendCopy(t), Moved(w.(dlq := w.dlq + [Copy(o)]), t, Entering(m, |w.dlq|)),
                 PutEntry(t), Moved(Copied(w, o), t, Waiting(m, |w.dlq|)));
    }
  }

  lemma AppendsCopy(lane: Commits.Lane, w: World, t: nat, m: Message)
    requires m.offset !in w.entries
    ensures var w1, w2 := Moved(w, t, Copying(m)), Moved(w.(dlq := w.dlq + [Copy(m.offset)]), t, Entering(m, |w.dlq|));
            Path(lane, w1, [AppendCopy(t)], w2) && Path(lane, w2, [PutEntry(t)], Moved(Copied(w, m.offset), t, Waiting(m, |w.dlq|)))
  {
    var w1 := Moved(w, t, Copying(m));
    var w2 := Moved(w.(dlq := w.dlq + [Copy(m.offset)]), t, Entering(m, |w.dlq|));
    var w3 := Moved(Copied(w, m.offset), t, Waiting(m, |w.dlq|));
    MovedTwice(w, t, Copying(m), Entering(m, |w.dlq|));
    MovedTwice(w, t, Entering(m, |w.dlq|), Waiting(m, |w.dlq|));
    assert Next(lane, w1, AppendCopy(t)) == w2;
    assert Next(lane, w2, PutEntry(t)) == w3;
    OneStep(lane, w1, AppendCopy(t), w2);
    OneStep(lane, w2, PutEntry(t), w3);
    hide Path;
  }

  /** The dead-letter log is synced, the wait is over, and the commit of the copy is recorded. */
  lemma Notes(lane: Commits.Lane, w: World, t: nat, m: Message, p: nat)
    requires t in w.tasks && w.tasks[t] == Waiting(m, p) && p < |w.dlq| && w.dlqHwm <= |w.dlq| && m.offset in w.memory
    ensures Path(lane, w, [SyncDlq(|w.dlq|), AwaitCommitted(t)] + [NoteCommitted(t), WritePhase(t), InsertPhase(t)],
                 Moved(Noted(w.(core := Entitle(w.core, m.offset), dlqHwm := |w.dlq|), m.offset, DlqCommitted), t, Ready(m, true)))
  {
    var synced := w.(dlqHwm := |w.dlq|);
    Awaits(lane, w, t, m, p);
    var w1 := Moved(synced, t, Noting(m));
    var w2 := synced.(core := Entitle(w.core, m.offset));
    NotesCommit(lane, w1, w2, t, m);
    hide Path, Entitle;
    RecordsFrom(lane, w1, w2, t, m);
    PathOn(lane, w, [SyncDlq(|w.dlq|), AwaitCommitted(t)], w1, [NoteCommitted(t), WritePhase(t), InsertPhase(t)],
           Moved(Noted(w2, m.offset, DlqCommitted), t, Ready(m, true)));
  }

  lemma Awaits(lane: Commits.Lane, w: World, t: nat, m: Message, p: nat)
    requires t in w.tasks && w.tasks[t] == Waiting(m, p) && p < |w.dlq| && w.dlqHwm <= |w.dlq|
    ensures Path(lane, w, [SyncDlq(|w.dlq|), AwaitCommitted(t)], Moved(w.(dlqHwm := |w.dlq|), t, Noting(m)))
  {
    var synced := w.(dlqHwm := |w.dlq|);
    OneStep(lane, w, SyncDlq(|w.dlq|), synced);
    OneStep(lane, synced, AwaitCommitted(t), Moved(synced, t, Noting(m)));
    hide Path;
    PathOn(lane, w, [SyncDlq(|w.dlq|)], synced, [AwaitCommitted(t)], Moved(synced, t, Noting(m)));
    assert [SyncDlq(|w.dlq|)] + [AwaitCommitted(t)] == [SyncDlq(|w.dlq|), AwaitCommitted(t)];
  }

  lemma NotesCommit(lane: Commits.Lane, w1: World, w2: World, t: nat, m: Message)
    requires t in w1.tasks && w1.tasks[t] == Noting(m) && m.offset in w1.memory
    requires w2.tasks[t := Noting(m)] == w1.tasks && w2 == w1.(core := Entitle(w1.core, m.offset), tasks := w2.tasks)
    ensures Path(lane, w1, [NoteCommitted(t)], Moved(w2, t, Writing(m, DlqCommitted, true)))
  {
    MovedTwice(w2, t, Noting(m), Writing(m, DlqCommitted, true));
    OneStep(lane, w1, NoteCommitted(t), Moved(w2, t, Writing(m, DlqCommitted, true)));
    hide Path;
  }

  lemma RecordsFrom(lane: Commits.Lane, w1: World, w2: World, t: nat, m: Message)
    requires Path(lane, w1, [NoteCommitted(t)], Moved(w2, t, Writing(m, DlqCommitted, true)))
    ensures Path(lane, w1, [NoteCommitted(t), WritePhase(t), InsertPhase(t)], Moved(Noted(w2, m.offset, DlqCommitted), t, Ready(m, true)))
  {
    hide Path;
    var v1 := Moved(w2, t, Writing(m, DlqCommitted, true));
    Writes(lane, v1, t, m, DlqCommitted, true);
    var v2 := Moved(w2.(phases := w2.phases[m.offset := DlqCommitted]), t, Inserting(m, DlqCommitted, true));
    MovedTwice(w2.(phases := w2.phases[m.offset := DlqCommitted]), t, Writing(m, DlqCommitted, true), Inserting(m, DlqCommitted, true));
    Inserts(lane, v2, t, m, DlqCommitted, true);
    var v3 := Moved(Noted(w2, m.offset, DlqCommitted), t, Ready(m, true));
    MovedTwice(Noted(w2, m.offset, DlqCommitted), t, Inserting(m, DlqCommitted, true), Ready(m, true));
    ThreeSteps(lane, w1, NoteCommitted(t), v1, WritePhase(t), v2, InsertPhase(t), v3);
  }

  lemma ClearsFirst(lane: Commits.Lane, w: World, t: nat, m: Message)
    requires t in w.tasks && w.tasks[t] == Clearing(m) && m.offset in w.memory
    ensures Path(lane, w, [ClearPhase(t)], Moved(w, t, Removing(m)))
  {
    OneStep(lane, w, ClearPhase(t), Moved(w, t, Removing(m)));
    hide Path;
  }

  lemma Removes(lane: Commits.Lane, w: World, t: nat, m: Message)
    ensures Path(lane, Moved(w, t, Removing(m)), [RemovePhase(t)], Moved(w.(phases := w.phases - {m.offset}), t, Forgetting(m)))
  {
    MovedTwice(w, t, Removing(m), Forgetting(m));
    OneStep(lane, Moved(w, t, Removing(m)), RemovePhase(t), Moved(w.(phases := w.phases - {m.offset}), t, Forgetting(m)));
    hide Path;
  }

  lemma Forgets(lane: Commits.Lane, w: World, t: nat, m: Message)
    ensures Path(lane, Moved(w, t, Forgetting(m)), [ForgetPhase(t)], w.(memory := w.memory - {m.offset}, tasks := w.tasks - {t}))
  {
    assert w.tasks[t := Forgetting(m)] - {t} == w.tasks - {t};
    OneStep(lane, Moved(w, t, Forgetting(m)), ForgetPhase(t), w.(memory := w.memory - {m.offset}, tasks := w.tasks - {t}));
    hide Path;
  }

  /** The record goes from disk, then from memory. */
  lemma Clears(lane: Commits.Lane, w: World, t: nat, m: Message)
    requires t in w.tasks && w.tasks[t] == Clearing(m) && m.offset in w.memory
    ensures Path(lane, w, [ClearPhase(t), RemovePhase(t), ForgetPhase(t)],
                 w.(phases := w.phases - {m.offset}, memory := w.memory - {m.offset}, tasks := w.tasks - {t}))
  {
    hide Path;
    var gone := w.(phases := w.phases - {m.offset});
    ClearsFirst(lane, w, t, m);
    Removes(lane, w, t, m);
    Forgets(lane, gone, t, m);
    ThreeSteps(lane, w, ClearPhase(t), Moved(w, t, Removing(m)), RemovePhase(t), Moved(gone, t, Forgetting(m)), ForgetPhase(t),
               gone.(memory := gone.memory - {m.offset}, tasks := gone.tasks - {t}));
  }

  lemma BasicFrame(w: World, w': World, t: nat)
    requires Basic(w) && t !in w.core.threads
    requires w'.core.log == w.core.log && w'.core.end == w.core.end && w'.core.hwm == w.core.hwm && w'.core.threads == w.core.threads
    requires forall u :: u != t && u in w.tasks ==> u in w'.tasks && w'.tasks[u] == w.tasks[u]
    ensures Basic(w')
  {
    hide Ascending;
  }

  /** Every step of the path up to the cursor's commit, for a task that has given up. */
  function DeadSteps(w: World, t: nat, o: nat): seq<Action> {
    [Prepare(t), WritePhase(t), InsertPhase(t)] + CopySteps(w, t, o) +
    ([SyncDlq(|Copied(w, o).dlq|), AwaitCommitted(t)] + [NoteCommitted(t), WritePhase(t), InsertPhase(t)])
  }

  /** The message is in the dead-letter log, and recorded so. */
  function DeadLettered(w: World, t: nat, m: Message): World {
    var c := Copied(w, m.offset);
    Moved(Noted(c.(core := Entitle(w.core, m.offset), dlqHwm := |c.dlq|), m.offset, DlqCommitted), t, Ready(m, true))
  }

  lemma DeadLetters(lane: Commits.Lane, w: World, t: nat, m: Message)
    requires t in w.tasks && w.tasks[t] == Preparing(m) && w.dlqHwm <= |w.dlq| && (m.offset in w.entries ==> w.entries[m.offset] < |w.dlq|)
    ensures Path(lane, w, DeadSteps(w, t, m.offset), DeadLettered(w, t, m))
  {
    var o, phase := m.offset, PreparedAs(w, m.offset);
    hide Path, Entitle, PreparedAs, CopySteps;
    Prepares(lane, w, t, m);
    var w1 := Moved(Noted(w, o, phase), t, LookingUp(m));
    Copies(lane, w1, t, m);
    assert CopySteps(w1, t, o) == CopySteps(w, t, o) by { SameCopySteps(w, w1, t, o); }
    var w2 := Moved(Copied(w1, o), t, Waiting(m, Place(w1, o)));
    PathOn(lane, w, [Prepare(t), WritePhase(t), InsertPhase(t)], w1, CopySteps(w, t, o), w2);
    Notes(lane, w2, t, m, Place(w1, o));
    var last := [SyncDlq(|w2.dlq|), AwaitCommitted(t)] + [NoteCommitted(t), WritePhase(t), InsertPhase(t)];
    var w3 := Moved(Noted(w2.(core := Entitle(w2.core, o), dlqHwm := |w2.dlq|), o, DlqCommitted), t, Ready(m, true));
    PathOn(lane, w, [Prepare(t), WritePhase(t), InsertPhase(t)] + CopySteps(w, t, o), w2, last, w3);
    SameDead(w, w1, w2, w3, t, m);
  }

  lemma SameCopySteps(w: World, w1: World, t: nat, o: nat)
    requires w1.entries == w.entries
    ensures CopySteps(w1, t, o) == CopySteps(w, t, o)
  {
  }

  lemma SameDead(w: World, w1: World, w2: World, w3: World, t: nat, m: Message)
    requires w1 == Moved(Noted(w, m.offset, PreparedAs(w, m.offset)), t, LookingUp(m))
    requires w2 == Moved(Copied(w1, m.offset), t, Waiting(m, Place(w1, m.offset)))
    requires w3 == Moved(Noted(w2.(core := Entitle(w2.core, m.offset), dlqHwm := |w2.dlq|), m.offset, DlqCommitted), t, Ready(m, true))
    ensures w3 == DeadLettered(w, t, m) && w2.dlq == Copied(w, m.offset).dlq
  {
    hide Entitle, PreparedAs, Place;
    var o := m.offset;
    SameMaps(w.phases, o, PreparedAs(w, o), DlqCommitted);
    SameMaps(w.memory, o, PreparedAs(w, o), DlqCommitted);
    SameMaps(w.tasks, t, LookingUp(m), Waiting(m, Place(w1, o)));
    SameMaps(w.tasks, t, Waiting(m, Place(w1, o)), Ready(m, true));
  }

  lemma SameMaps<V>(f: map<nat, V>, k: nat, a: V, b: V)
    ensures f[k := a][k := b] == f[k := b]
  {
  }

  /** A worker gives up on its message `m`, or a lease holder reports it dead. */
  predicate Abandons(lane: Commits.Lane, w: World, a: Action, t: nat, m: Message) {
    || (a == GiveUp(t) && t in w.tasks && w.tasks[t] == Delivering(m))
    || (a == LeaseDead(t, m) && Free(w, t) && Deliverable(lane, w.core, m))
  }

  /** From any state reached without the losses the code does not guard against, a message that is
      given up on is recorded, copied to the dead-letter log once, synced there, and only then
      committed and its record cleared: the steps are enabled one after the other, the message
      ends complete with a committed copy and not as delivered, and no other record, entry, task
      or completion has changed. */
  lemma GivingUpCompletes(lane: Commits.Lane, states: seq<World>, actions: seq<Action>, i: nat, a: Action, t: nat, m: Message)
    returns (steps: seq<Commits.Action>, w': World)
    requires |states| == |actions| + 1 && i <= |actions| && ShelteredRun(lane, states, actions) && Abandons(lane, states[i], a, t, m)
    ensures Path(lane, states[i],
                 [a] + DeadSteps(states[i], t, m.offset) + ([BeginCommit(t)] + Inside(steps) + [EndCommit(t)]) +
                 [ClearPhase(t), RemovePhase(t), ForgetPhase(t)], w')
    ensures var w, o := states[i], m.offset;
            && CommitOnly(lane, w.core, m.topic, o, w'.core) && w'.delivered == w.delivered && w'.tasks == w.tasks - {t}
            && w'.dlq == (if o in w.entries then w.dlq else w.dlq + [Copy(o)]) && w'.dlqHwm == |w'.dlq| && InQueue(w', o)
            && w'.entries == (if o in w.entries then w.entries else w.entries[o := |w.dlq|])
            && w'.phases == w.phases - {o} && w'.memory == w.memory - {o}
  {
    assert Run(lane, states, actions);
    hide ShelteredRun, Run, Invariant, Path, Inside, DeadSteps, Basic, CommitOnly, Abandons;
    RunBasic(lane, states, actions, i);
    RunKeeps(lane, states, actions, i);
    var w, o := states[i], m.offset;
    EntryFacts(lane, w, o);
    var w0 := Moved(w, t, Preparing(m));
    GivesUpFirst(lane, w, a, t, m);
    DeadLetters(lane, w0, t, m);
    assert DeadSteps(w0, t, o) == DeadSteps(w, t, o) by { SameDeadSteps(w, w0, t, o); }
    var w1 := DeadLettered(w0, t, m);
    assert Basic(w1) by { DeadBasic(lane, w, w0, w1, a, t, m); }
    steps, w' := ReadyCommits(lane, w1, t, m, true);
    var w2 := w';
    Clears(lane, w2, t, m);
    w' := w2.(phases := w2.phases - {o}, memory := w2.memory - {o}, tasks := w2.tasks - {t});
    var commit := [BeginCommit(t)] + Inside(steps) + [EndCommit(t)];
    PathOn(lane, w, [a], w0, DeadSteps(w, t, o), w1);
    PathOn(lane, w, [a] + DeadSteps(w, t, o), w1, commit, w2);
    PathOn(lane, w, [a] + DeadSteps(w, t, o) + commit, w2, [ClearPhase(t), RemovePhase(t), ForgetPhase(t)], w');
    DeadEnds(lane, w, w0, w1, w2, w', t, m);
  }

  /** A message found complete when it is picked up again is committed once more and its lifecycle
      record, if there is one, cleared; nothing goes to the dead-letter log and nothing counts as
      delivered. (A task that sees its message below the cursor at its first look just ends.) */
  lemma SeenCompleteClears(lane: Commits.Lane, states: seq<World>, actions: seq<Action>, i: nat, t: nat, m: Message)
    returns (steps: seq<Commits.Action>, w': World)
    requires |states| == |actions| + 1 && i <= |actions| && Run(lane, states, actions)
    requires t in states[i].tasks && states[i].tasks[t] == Delivering(m) && Complete(states[i].core.cursor, states[i].core.keys, m.offset)
    ensures Path(lane, states[i],
                 [SeeComplete(t)] + ([BeginCommit(t)] + Inside(steps) + [EndCommit(t)]) +
                 (if m.offset in states[i].memory then [ClearPhase(t), RemovePhase(t), ForgetPhase(t)] else [ClearPhase(t)]), w')
    ensures var w, o := states[i], m.offset;
            && CommitOnly(lane, w.core, m.topic, o, w'.core) && w'.delivered == w.delivered && w'.tasks == w.tasks - {t}
            && w'.dlq == w.dlq && w'.dlqHwm == w.dlqHwm && w'.entries == w.entries
            && w'.phases == (if o in w.memory then w.phases - {o} else w.phases) && w'.memory == w.memory - {o}
  {
    hide Run, Path, Inside, Basic, CommitOnly, Complete;
    var w, o := states[i], m.offset;
    RunBasic(lane, states, actions, i);
    var w1 := Moved(w, t, Ready(m, true));
    SeesFirst(lane, w, t, m);
    steps, w' := ReadyCommits(lane, w1, t, m, true);
    var w2, commit := w', [BeginCommit(t)] + Inside(steps) + [EndCommit(t)];
    PathOn(lane, w, [SeeComplete(t)], w1, commit, w2);
    if o in w.memory {
      Clears(lane, w2, t, m);
      w' := w2.(phases := w2.phases - {o}, memory := w2.memory - {o}, tasks := w2.tasks - {t});
      PathOn(lane, w, [SeeComplete(t)] + commit, w2, [ClearPhase(t), RemovePhase(t), ForgetPhase(t)], w');
    } else {
      ClearsNothing(lane, w2, t, m);
      w' := w2.(tasks := w2.tasks - {t});
      PathOn(lane, w, [SeeComplete(t)] + commit, w2, [ClearPhase(t)], w');
      assert w.memory - {o} == w.memory;
    }
    SameTasks(w.tasks, t, Ready(m, true), Clearing(m));
    SameTasks(w.tasks, t, Clearing(m), Clearing(m));
  }

  lemma SeesFirst(lane: Commits.Lane, w: World, t: nat, m: Message)
    requires Basic(w) && t in w.tasks && w.tasks[t] == Delivering(m) && Complete(w.core.cursor, w.core.keys, m.offset)
    ensures Path(lane, w, [SeeComplete(t)], Moved(w, t, Ready(m, true))) && Basic(Moved(w, t, Ready(m, true)))
  {
    OneStep(lane, w, SeeComplete(t), Moved(w, t, Ready(m, true)));
    BasicKept(lane, w, SeeComplete(t));
    hide Path, Basic;
  }

  lemma ClearsNothing(lane: Commits.Lane, w: World, t: nat, m: Message)
    requires t in w.tasks && w.tasks[t] == Clearing(m) && m.offset !in w.memory
    ensures Path(lane, w, [ClearPhase(t)], w.(tasks := w.tasks - {t}))
  {
    OneStep(lane, w, ClearPhase(t), w.(tasks := w.tasks - {t}));
    hide Path;
  }

  lemma EntryFacts(lane: Commits.Lane, w: World, o: nat)
    requires Invariant(lane, w)
    ensures w.dlqHwm <= |w.dlq| && (o in w.entries ==> CopyAt(w, o, w.entries[o]))
  {
    hide Commits.Invariant, TasksOk, InQueue;
  }

  lemma GivesUpFirst(lane: Commits.Lane, w: World, a: Action, t: nat, m: Message)
    requires Abandons(lane, w, a, t, m)
    ensures Path(lane, w, [a], Moved(w, t, Preparing(m)))
  {
    OneStep(lane, w, a, Moved(w, t, Preparing(m)));
    hide Path, Deliverable;
  }

  lemma SameDeadSteps(w: World, w0: World, t: nat, o: nat)
    requires w0.entries == w.entries && w0.dlq == w.dlq
    ensures DeadSteps(w0, t, o) == DeadSteps(w, t, o)
  {
  }

  lemma DeadBasic(lane: Commits.Lane, w: World, w0: World, w1: World, a: Action, t: nat, m: Message)
    requires Basic(w) && Abandons(lane, w, a, t, m) && w0 == Moved(w, t, Preparing(m)) && w1 == DeadLettered(w0, t, m)
    ensures Basic(w1)
  {
    assert t !in w.core.threads;
    hide Basic;
    BasicFrame(w, w1, t);
  }

  lemma DeadEnds(lane: Commits.Lane, w: World, w0: World, w1: World, w2: World, w': World, t: nat, m: Message)
    requires w0 == Moved(w, t, Preparing(m)) && w1 == DeadLettered(w0, t, m) && w2 == AfterCommit(w1, t, m, true, w2.core)
    requires CommitOnly(lane, w1.core, m.topic, m.offset, w2.core) && (m.offset in w.entries ==> CopyAt(w, m.offset, w.entries[m.offset]))
    requires w' == w2.(phases := w2.phases - {m.offset}, memory := w2.memory - {m.offset}, tasks := w2.tasks - {t})
    ensures var o := m.offset;
            && CommitOnly(lane, w.core, m.topic, o, w'.core) && w'.delivered == w.delivered && w'.tasks == w.tasks - {t}
            && w'.dlq == (if o in w.entries then w.dlq else w.dlq + [Copy(o)]) && w'.dlqHwm == |w'.dlq| && InQueue(w', o)
            && w'.entries == (if o in w.entries then w.entries else w.entries[o := |w.dlq|])
            && w'.phases == w.phases - {o} && w'.memory == w.memory - {o}
  {
    var o := m.offset;
    assert CommitOnly(lane, w.core, m.topic, o, w'.core) by { SameCommit(lane, w.core, m.topic, o, o, w'.core); }
    hide CommitOnly, InQueue;
    assert w2.tasks - {t} == w.tasks - {t};
    assert w2.phases - {o} == w.phases - {o} && w2.memory - {o} == w.memory - {o};
    CopyIsIn(w', o, if o in w.entries then w.entries[o] else |w.dlq|);
  }

  lemma SameCommit(lane: Commits.Lane, s: Commits.State, topic: string, o: nat, x: nat, s': Commits.State)
    requires CommitOnly(lane, Entitle(s, x), topic, o, s')
    ensures CommitOnly(lane, s, topic, o, s')
  {
    hide Complete;
  }
}
