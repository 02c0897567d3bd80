// What brings a message into the dead-letter queue, and what counts it as delivered.
module DeliveryCauses {
  import opened Log
  import opened Cursor
  import opened Lifecycle
  import opened Delivery
  import Commits

  /** A worker gives up on the message at `o`, or a lease holder reports it dead. */
  predicate GivesUp(w: World, a: Action, o: nat) {
    (a.GiveUp? && a.t in w.tasks && w.tasks[a.t].m.offset == o) || (a.LeaseDead? && a.m.offset == o)
  }

  /** Its destination accepts the message at `o`, or a lease holder reports it delivered. */
  predicate Delivers(w: World, a: Action, o: nat) {
    (a.HttpSuccess? && a.t in w.tasks && w.tasks[a.t].m.offset == o) || (a.LeaseDelivered? && a.m.offset == o)
  }

  /** A task on its way to the dead-letter queue. */
  predicate DeadLettering(task: Task) {
    || task.Preparing? || task.Writing? || task.Inserting? || task.LookingUp? || task.Copying? || task.Entering? || task.Waiting?
    || task.Noting?
  }

  predicate IsOn(w: World, t: nat, o: nat) {
    t in w.tasks && DeadLettering(w.tasks[t]) && w.tasks[t].m.offset == o
  }

  /** Anything of a dead-lettering of `o`: a task, a copy, a lifecycle record. */
  ghost predicate Trace(w: World, o: nat) {
    (exists t :: IsOn(w, t, o)) || Copy(o) in w.dlq || o in w.phases || o in w.memory
  }

  lemma TaskTraced(lane: Commits.Lane, w: World, a: Action, t: nat, o: nat)
    requires Enabled(lane, w, a) && IsOn(Next(lane, w, a), t, o)
    ensures IsOn(w, t, o) || GivesUp(w, a, o)
  {
    hide CoreNext, DeliveredNext, DlqNext, EntriesNext, PhasesNext, MemoryNext, Commits.Enabled, Deliverable, Complete;
  }

  lemma CopyTraced(lane: Commits.Lane, w: World, a: Action, o: nat)
    requires Enabled(lane, w, a) && Copy(o) in Next(lane, w, a).dlq
    ensures Copy(o) in w.dlq || (a.AppendCopy? && IsOn(w, a.t, o))
  {
    hide CoreNext, DeliveredNext, EntriesNext, PhasesNext, MemoryNext, TasksNext, Commits.Enabled, Deliverable, Complete;
  }

  lemma RecordTraced(lane: Commits.Lane, w: World, a: Action, o: nat)
    requires Enabled(lane, w, a)
    ensures o in Next(lane, w, a).phases ==> o in w.phases || (a.WritePhase? && IsOn(w, a.t, o))
    ensures o in Next(lane, w, a).memory ==> o in w.memory || o in w.phases || (a.InsertPhase? && IsOn(w, a.t, o))
  {
    hide CoreNext, DeliveredNext, DlqNext, EntriesNext, TasksNext, Commits.Enabled, Deliverable, Complete;
  }

  lemma StepTraced(lane: Commits.Lane, w: World, a: Action, o: nat)
    requires Enabled(lane, w, a) && Trace(Next(lane, w, a), o)
    ensures Trace(w, o) || GivesUp(w, a, o)
  {
    hide Next, Enabled, IsOn, GivesUp;
    RecordTraced(lane, w, a, o);
    if Copy(o) in Next(lane, w, a).dlq { CopyTraced(lane, w, a, o); }
    if t :| IsOn(Next(lane, w, a), t, o) { TaskTraced(lane, w, a, t, o); }
  }

  lemma StepOf(lane: Commits.Lane, states: seq<World>, actions: seq<Action>, i: nat)
    requires Run(lane, states, actions) && i < |actions|
    ensures Enabled(lane, states[i], actions[i]) && states[i + 1] == Next(lane, states[i], actions[i])
  {
    hide Enabled, Next, Start;
  }

  lemma NothingAtStart(lane: Commits.Lane, states: seq<World>, actions: seq<Action>, o: nat)
    requires Run(lane, states, actions)
    ensures !Trace(states[0], o) && o !in states[0].delivered
  {
    hide Enabled, Next;
  }

  /** In any run at all: a copy in the dead-letter log, a lifecycle record on disk or in memory and
      a task on its way there are all preceded by a step that gave up on a message at that
      offset. */
  lemma {:induction false} DeadForCause(lane: Commits.Lane, states: seq<World>, actions: seq<Action>, i: nat, o: nat) returns (j: nat)
    requires |states| == |actions| + 1 && i <= |actions| && Run(lane, states, actions) && Trace(states[i], o)
    ensures j < i && GivesUp(states[j], actions[j], o)
  {
    hide Run, Enabled, Next, Trace, GivesUp;
    if i == 0 { NothingAtStart(lane, states, actions, o); }
    StepOf(lane, states, actions, i - 1);
    StepTraced(lane, states[i - 1], actions[i - 1], o);
    if GivesUp(states[i - 1], actions[i - 1], o) {
      j := i - 1;
    } else {
      j := DeadForCause(lane, states, actions, i - 1, o);
    }
  }

  lemma StepDelivers(lane: Commits.Lane, w: World, a: Action, o: nat)
    requires Enabled(lane, w, a)
    ensures o in Next(lane, w, a).delivered <==> o in w.delivered || Delivers(w, a, o)
  {
    hide CoreNext, DlqNext, EntriesNext, PhasesNext, MemoryNext, TasksNext, Commits.Enabled, Deliverable, Complete;
  }

  lemma {:induction false} DeliveredForCause(lane: Commits.Lane, states: seq<World>, actions: seq<Action>, i: nat, o: nat) returns (j: nat)
    requires |states| == |actions| + 1 && i <= |actions| && Run(lane, states, actions) && o in states[i].delivered
    ensures j < i && Delivers(states[j], actions[j], o)
  {
    hide Run, Enabled, Next, Trace, Delivers;
    if i == 0 { NothingAtStart(lane, states, actions, o); }
    StepOf(lane, states, actions, i - 1);
    StepDelivers(lane, states[i - 1], actions[i - 1], o);
    if Delivers(states[i - 1], actions[i - 1], o) {
      j := i - 1;
    } else {
      j := DeliveredForCause(lane, states, actions, i - 1, o);
    }
  }

  /** So a message the store takes as complete was delivered at an earlier step, or given up on at
      one and put into the dead-letter queue, committed. */
  lemma CompleteForCause(lane: Commits.Lane, states: seq<World>, actions: seq<Action>, i: nat, m: Message) returns (j: nat)
    requires |states| == |actions| + 1 && i <= |actions| && ShelteredRun(lane, states, actions)
    requires m in states[i].core.log && m.lane == lane.owner && Complete(states[i].core.cursor, states[i].core.keys, m.offset)
    ensures j < i && (Delivers(states[j], actions[j], m.offset) || (GivesUp(states[j], actions[j], m.offset) && InQueue(states[i], m.offset)))
  {
    assert Run(lane, states, actions);
    hide ShelteredRun, Run, Complete, Delivers, GivesUp;
    NothingIsSkipped(lane, states, actions, i);
    if m.offset in states[i].delivered {
      j := DeliveredForCause(lane, states, actions, i, m.offset);
    } else {
      QueueTraced(states[i], m.offset);
      j := DeadForCause(lane, states, actions, i, m.offset);
    }
  }

  lemma QueueTraced(w: World, o: nat)
    requires InQueue(w, o)
    ensures Trace(w, o)
  {
  }
}
