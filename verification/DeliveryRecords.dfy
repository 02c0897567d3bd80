// What becomes of a lifecycle record. A task reads the phase in memory, writes the record and
// notes it in memory in three steps, and another task on the same message can come between.
module DeliveryRecords {
  import opened Log
  import opened Lifecycle
  import opened Delivery
  import Commits

  /** Task `t` has read the record of `o` and not yet noted what it wrote. */
  predicate Busy(w: World, t: nat, o: nat) {
    t in w.tasks && w.tasks[t].m.offset == o &&
    (w.tasks[t].Writing? || w.tasks[t].Inserting? || w.tasks[t].Removing? || w.tasks[t].Forgetting?)
  }

  /** Task `t` has written the record of `o` and memory does not have it yet. */
  predicate Ahead(w: World, t: nat, o: nat) {
    t in w.tasks && w.tasks[t].m.offset == o && (w.tasks[t].Inserting? || w.tasks[t].Forgetting?)
  }

  predicate Committed(phases: map<nat, DlqPhase>, o: nat) {
    o in phases && phases[o].DlqCommitted?
  }

  /** In any run at all: a committed record falls back to prepared exactly when a task writes
      what it read before the commit was noted. */
  lemma FallsBackExactly(lane: Commits.Lane, w: World, a: Action, o: nat)
    requires Enabled(lane, w, a) && Committed(w.phases, o)
    ensures var w' := Next(lane, w, a);
            o in w'.phases && !Committed(w'.phases, o) <==>
            a.WritePhase? && w.tasks[a.t].m.offset == o && w.tasks[a.t].phase.Prepared?
  {
    hide CoreNext, DeliveredNext, DlqNext, EntriesNext, MemoryNext, TasksNext, Commits.Enabled, Deliverable;
  }

  /** What such a task holds it did read: memory had no commit then. */
  lemma {:induction false} ReadEarlier(lane: Commits.Lane, states: seq<World>, actions: seq<Action>, i: nat, t: nat) returns (j: nat)
    requires |states| == |actions| + 1 && i <= |actions| && Run(lane, states, actions)
    requires t in states[i].tasks && states[i].tasks[t].Writing? && states[i].tasks[t].phase.Prepared?
    ensures j < i && actions[j] == Prepare(t) && !Committed(states[j].memory, states[i].tasks[t].m.offset)
    ensures forall n :: j < n <= i ==> t in states[n].tasks && states[n].tasks[t] == states[i].tasks[t]
  {
    hide Run;
    Began(lane, states, actions, i, t);
    RunStep(lane, states, actions, i - 1);
    WritingSince(lane, states[i - 1], actions[i - 1], t);
    hide Next, Enabled;
    if t in states[i - 1].tasks && states[i - 1].tasks[t] == states[i].tasks[t] {
      j := ReadEarlier(lane, states, actions, i - 1, t);
    } else {
      j := i - 1;
    }
  }

  lemma Began(lane: Commits.Lane, states: seq<World>, actions: seq<Action>, i: nat, t: nat)
    requires Run(lane, states, actions) && i <= |actions| && t in states[i].tasks
    ensures i > 0
  {
    hide Enabled, Next;
  }

  lemma RunStep(lane: Commits.Lane, states: seq<World>, actions: seq<Action>, i: nat)
    requires Run(lane, states, actions) && i < |actions|
    ensures Enabled(lane, states[i], actions[i]) && states[i + 1] == Next(lane, states[i], actions[i])
  {
    hide Enabled, Next, Start;
  }

  lemma WritingSince(lane: Commits.Lane, w: World, a: Action, t: nat)
    requires Enabled(lane, w, a) && t in Next(lane, w, a).tasks
    requires Next(lane, w, a).tasks[t].Writing? && Next(lane, w, a).tasks[t].phase.Prepared?
    ensures (t in w.tasks && w.tasks[t] == Next(lane, w, a).tasks[t])
         || (a == Prepare(t) && !Committed(w.memory, Next(lane, w, a).tasks[t].m.offset))
  {
    hide CoreNext, DeliveredNext, DlqNext, EntriesNext, PhasesNext, MemoryNext, Commits.Enabled, Deliverable;
  }

  /** At most one task at a time is busy with the record of `o`. */
  ghost predicate Solo(w: World, o: nat) {
    forall t, u :: Busy(w, t, o) && Busy(w, u, o) ==> t == u
  }

  /** Memory has the record of `o` that is on disk, unless a task is about to note it. */
  ghost predicate InMemory(w: World, o: nat) {
    o in w.phases ==> (o in w.memory && w.memory[o] == w.phases[o]) || exists t :: Ahead(w, t, o)
  }

  /** A task about to write `o` as prepared read what memory still has. */
  ghost predicate ReadsHold(w: World, o: nat) {
    forall t :: Busy(w, t, o) && w.tasks[t].Writing? && w.tasks[t].phase.Prepared? ==> !Committed(w.memory, o)
  }

  /** What a task is about to note is what is on disk. */
  ghost predicate WritesHold(w: World, o: nat) {
    forall t :: Ahead(w, t, o) ==> (o in w.phases ==> w.tasks[t].Inserting? && w.phases[o] == w.tasks[t].phase)
  }

  ghost predicate InTouch(w: World, o: nat) {
    InMemory(w, o) && ReadsHold(w, o) && WritesHold(w, o)
  }

  /** No task is stopped between writing the record of `o` and noting it, and no two overlap. */
  ghost predicate Orderly(w: World, a: Action, o: nat) {
    Solo(w, o) && !(a.Abort? && Ahead(w, a.t, o))
  }

  /** A step that has nothing to do with the record of `o`. */
  predicate Aside(w: World, a: Action, o: nat) {
    && ((a.Prepare? || a.WritePhase? || a.InsertPhase? || a.NoteCommitted? || a.ClearPhase? || a.RemovePhase? || a.ForgetPhase?) ==>
          a.t in w.tasks && w.tasks[a.t].m.offset != o)
    && !a.Crash? && !a.LoseTail? && !a.LoseDlqTail? && !a.Compact? && a != ReadFails(o)
  }

  lemma AsideRecords(lane: Commits.Lane, w: World, a: Action, o: nat)
    requires Enabled(lane, w, a) && Aside(w, a, o)
    ensures var w' := Next(lane, w, a);
            && (o in w'.phases <==> o in w.phases) && (o in w.phases ==> w'.phases[o] == w.phases[o])
            && (o in w'.memory <==> o in w.memory) && (o in w.memory ==> w'.memory[o] == w.memory[o])
  {
    hide CoreNext, DeliveredNext, DlqNext, EntriesNext, TasksNext, Commits.Enabled, Deliverable;
  }

  lemma AsideTask(lane: Commits.Lane, w: World, a: Action, o: nat, t: nat)
    requires Enabled(lane, w, a) && Aside(w, a, o)
    ensures var w' := Next(lane, w, a);
            && (Busy(w', t, o) ==> Busy(w, t, o) && w'.tasks[t] == w.tasks[t])
            && (Ahead(w, t, o) && !(a.Abort? && a.t == t) ==> Ahead(w', t, o))
  {
    hide CoreNext, DeliveredNext, DlqNext, EntriesNext, PhasesNext, MemoryNext, Commits.Enabled, Deliverable;
  }

  lemma AsideKeeps(lane: Commits.Lane, w: World, a: Action, o: nat)
    requires Enabled(lane, w, a) && Aside(w, a, o) && Orderly(w, a, o) && InTouch(w, o)
    ensures InTouch(Next(lane, w, a), o)
  {
    hide Next, Enabled, Aside;
    AsideRecords(lane, w, a, o);
    forall t
      ensures Busy(Next(lane, w, a), t, o) ==> Busy(w, t, o) && Next(lane, w, a).tasks[t] == w.tasks[t]
      ensures Ahead(w, t, o) && !(a.Abort? && a.t == t) ==> Ahead(Next(lane, w, a), t, o)
    {
      AsideTask(lane, w, a, o, t);
    }
  }

  /** A call on the record of `o` itself. */
  lemma CallKeeps(lane: Commits.Lane, w: World, a: Action, o: nat)
    requires Enabled(lane, w, a) && InTouch(w, o) && Solo(w, o)
    requires a.Prepare? || a.NoteCommitted? || a.ClearPhase?
    requires a.t in w.tasks && w.tasks[a.t].m.offset == o
    ensures InTouch(Next(lane, w, a), o)
  {
    hide CoreNext, DeliveredNext, DlqNext, EntriesNext, Commits.Enabled, Deliverable;
    var w' := Next(lane, w, a);
    assert w'.phases == w.phases && w'.memory == w.memory;
    assert forall t :: Ahead(w', t, o) <==> Ahead(w, t, o);
    assert forall t :: Ahead(w', t, o) ==> w'.tasks[t] == w.tasks[t];
  }

  lemma WriteKeeps(lane: Commits.Lane, w: World, a: Action, o: nat)
    requires Enabled(lane, w, a) && InTouch(w, o) && Solo(w, o)
    requires (a.WritePhase? || a.RemovePhase?) && w.tasks[a.t].m.offset == o
    ensures InTouch(Next(lane, w, a), o)
  {
    hide CoreNext, DeliveredNext, DlqNext, EntriesNext, Commits.Enabled, Deliverable;
    var w' := Next(lane, w, a);
    assert Busy(w, a.t, o) && Ahead(w', a.t, o);
    assert forall t :: Busy(w', t, o) ==> Busy(w, t, o);
    assert forall t :: Ahead(w', t, o) ==> Busy(w', t, o);
    assert forall t :: Busy(w', t, o) ==> t == a.t;
    assert w'.tasks[a.t].Inserting? || w'.tasks[a.t].Forgetting?;
  }

  lemma NoteKeeps(lane: Commits.Lane, w: World, a: Action, o: nat)
    requires Enabled(lane, w, a) && InTouch(w, o) && Solo(w, o)
    requires (a.InsertPhase? || a.ForgetPhase?) && w.tasks[a.t].m.offset == o
    ensures InTouch(Next(lane, w, a), o)
  {
    hide CoreNext, DeliveredNext, DlqNext, EntriesNext, Commits.Enabled, Deliverable;
    var w' := Next(lane, w, a);
    assert Busy(w, a.t, o) && Ahead(w, a.t, o);
    assert forall t :: Busy(w', t, o) ==> Busy(w, t, o) && t != a.t;
  }

  lemma OutsideKeeps(lane: Commits.Lane, w: World, a: Action, o: nat)
    requires Enabled(lane, w, a) && InTouch(w, o)
    requires a.Crash? || a.LoseTail? || a.LoseDlqTail? || a.Compact? || a == ReadFails(o)
    ensures InTouch(Next(lane, w, a), o)
  {
    hide CoreNext, DeliveredNext, DlqNext, EntriesNext, Commits.Enabled, Deliverable;
    var w' := Next(lane, w, a);
    assert forall t :: Busy(w', t, o) ==> Busy(w, t, o) && w'.tasks[t] == w.tasks[t];
  }

  lemma TouchKept(lane: Commits.Lane, w: World, a: Action, o: nat)
    requires Enabled(lane, w, a) && Orderly(w, a, o) && InTouch(w, o)
    ensures InTouch(Next(lane, w, a), o)
  {
    assert (a.Prepare? || a.WritePhase? || a.InsertPhase? || a.NoteCommitted? || a.ClearPhase? || a.RemovePhase? || a.ForgetPhase?) ==>
      a.t in w.tasks;
    hide InTouch, Solo, Ahead, Next, Enabled;
    if Aside(w, a, o) {
      AsideKeeps(lane, w, a, o);
    } else if a.Prepare? || a.NoteCommitted? || a.ClearPhase? {
      CallKeeps(lane, w, a, o);
    } else if a.WritePhase? || a.RemovePhase? {
      WriteKeeps(lane, w, a, o);
    } else if a.InsertPhase? || a.ForgetPhase? {
      NoteKeeps(lane, w, a, o);
    } else {
      OutsideKeeps(lane, w, a, o);
    }
  }

  ghost predicate OrderlyRun(lane: Commits.Lane, states: seq<World>, actions: seq<Action>, o: nat) {
    ShelteredRun(lane, states, actions) && forall i :: 0 <= i < |actions| ==> Orderly(states[i], actions[i], o)
  }

  lemma OrderlyAt(lane: Commits.Lane, states: seq<World>, actions: seq<Action>, i: nat, o: nat)
    requires OrderlyRun(lane, states, actions, o) && i < |actions|
    ensures ShelteredRun(lane, states, actions) && Orderly(states[i], actions[i], o)
    ensures Enabled(lane, states[i], actions[i]) && states[i + 1] == Next(lane, states[i], actions[i])
  {
    assert ShelteredRun(lane, states, actions);
    StepAt(lane, states, actions, i);
    hide Orderly, ShelteredRun, Enabled, Next;
  }

  lemma StartInTouch(lane: Commits.Lane, states: seq<World>, actions: seq<Action>, o: nat)
    requires OrderlyRun(lane, states, actions, o)
    ensures InTouch(states[0], o)
  {
    assert states[0] == Start();
    hide Orderly, Enabled, Next, Sheltered;
  }

  lemma {:induction false} RunInTouch(lane: Commits.Lane, states: seq<World>, actions: seq<Action>, i: nat, o: nat)
    requires |states| == |actions| + 1 && i <= |actions| && OrderlyRun(lane, states, actions, o)
    ensures InTouch(states[i], o)
  {
    hide OrderlyRun, InTouch, Orderly, Enabled, Next;
    if i == 0 {
      StartInTouch(lane, states, actions, o);
    } else {
      RunInTouch(lane, states, actions, i - 1, o);
      OrderlyAt(lane, states, actions, i - 1, o);
      TouchKept(lane, states[i - 1], actions[i - 1], o);
    }
  }

  lemma NoFallBack(lane: Commits.Lane, w: World, a: Action, o: nat)
    requires Enabled(lane, w, a) && Solo(w, o) && InTouch(w, o) && Committed(w.phases, o)
    ensures o in Next(lane, w, a).phases ==> Committed(Next(lane, w, a).phases, o)
  {
    FallsBackExactly(lane, w, a, o);
    hide Next, Commits.Enabled, Deliverable;
    assert a.WritePhase? && w.tasks[a.t].m.offset == o ==> Busy(w, a.t, o) && !Ahead(w, a.t, o);
    assert forall t :: Ahead(w, t, o) ==> Busy(w, t, o);
  }

  lemma DropsExactly(lane: Commits.Lane, w: World, a: Action, o: nat)
    requires Enabled(lane, w, a) && o in w.phases
    ensures o !in Next(lane, w, a).phases <==> a == ReadFails(o) || a.Compact? || (a.RemovePhase? && w.tasks[a.t].m.offset == o)
  {
    hide CoreNext, DeliveredNext, DlqNext, EntriesNext, MemoryNext, TasksNext, Commits.Enabled, Deliverable;
  }

  lemma RemovedIsDone(lane: Commits.Lane, w: World, a: Action)
    requires Invariant(lane, w) && Enabled(lane, w, a) && a.RemovePhase?
    ensures Done(lane, Next(lane, w, a).core, w.tasks[a.t].m.offset)
  {
    assert TaskOk(lane, w, a.t, w.tasks[a.t]);
    hide Commits.Invariant, Commits.Enabled, Deliverable, Done, DeliveredNext, DlqNext, EntriesNext, PhasesNext, MemoryNext, TasksNext;
  }

  /** As long as calls on the record of a message do not overlap and none is cut off between its
      write and its note: the record never falls back from committed to prepared, no crash
      drops it, and it goes only once its message is complete, by a restart that could not
      read the message, or by a compaction while a task has written it and memory does not
      have it yet. */
  lemma RecordsOutlive(lane: Commits.Lane, states: seq<World>, actions: seq<Action>, i: nat, o: nat)
    requires |states| == |actions| + 1 && i < |actions| && OrderlyRun(lane, states, actions, o) && o in states[i].phases
    ensures var w, w' := states[i], states[i + 1];
            && (o in w'.phases && Committed(w.phases, o) ==> Committed(w'.phases, o))
            && (o !in w'.phases ==> actions[i] == ReadFails(o) || (actions[i].RemovePhase? && Done(lane, w'.core, o)) ||
                                    (actions[i].Compact? && exists t :: Ahead(w, t, o)))
  {
    OrderlyAt(lane, states, actions, i, o);
    RunInTouch(lane, states, actions, i, o);
    RunKeeps(lane, states, actions, i);
    var w, a := states[i], actions[i];
    DropsExactly(lane, w, a, o);
    assert a.Compact? ==> w.memory == map[];
    hide OrderlyRun, ShelteredRun, Invariant, Enabled, Next, Done, ReadsHold, WritesHold, Ahead;
    if Committed(w.phases, o) { NoFallBack(lane, w, a, o); }
    if a.RemovePhase? { RemovedIsDone(lane, w, a); }
  }
}
