// Three runs of the delivery protocol that go wrong: a lost dead-letter copy that counts, a
// committed lifecycle record that falls back, and a record that compaction drops.
module DeliveryRaces {
  import opened Log
  import opened Cursor
  import opened Lifecycle
  import opened Delivery
  import opened DeliveryRecords
  import Commits

  function OneMessage(lane: Commits.Lane): Message {
    Message(0, lane.topic, lane.owner, 0)
  }

  /** The lane with one committed message, nothing delivered. */
  function OneCommitted(lane: Commits.Lane): Commits.State {
    Commits.State([OneMessage(lane)], 1, 1, 0, {}, {}, {}, map[])
  }

  /** That message with nothing in the dead-letter queue; record, memory and tasks as given. */
  function Plain(lane: Commits.Lane, phases: map<nat, DlqPhase>, memory: map<nat, DlqPhase>, tasks: map<nat, Task>): World {
    World(OneCommitted(lane), {}, [], 0, map[], phases, memory, tasks)
  }

  lemma CommittedReachable(lane: Commits.Lane)
    ensures Reachable(lane, Plain(lane, map[], map[], map[]))
  {
    assert Reachable(lane, Start()) by { assert Run(lane, [Start()], []); }
    hide Reachable;
    var w := ReachStep(lane, Start(), CommitStep(Commits.Append(OneMessage(lane))));
    assert w == Start().(core := Commits.State([OneMessage(lane)], 1, 0, 0, {}, {}, {}, map[]));
    w := ReachStep(lane, w, CommitStep(Commits.AdvanceHwm(1)));
  }

  /** A lease holder reports the message dead and the record is written. */
  lemma Recorded(lane: Commits.Lane, w: World, t: nat) returns (w': World)
    requires Reachable(lane, w) && Free(w, t) && w.core == OneCommitted(lane) && PreparedAs(w, 0).Prepared?
    ensures w' == w.(phases := w.phases[0 := Prepared], tasks := w.tasks[t := Inserting(OneMessage(lane), Prepared, false)])
    ensures Reachable(lane, w')
  {
    hide Reachable, Commits.Next, Commits.Enabled, Complete;
    var m := OneMessage(lane);
    var w1 := ReachStep(lane, w, LeaseDead(t, m));
    assert w1 == w.(tasks := w.tasks[t := Preparing(m)]);
    var w2 := ReachStep(lane, w1, Prepare(t));
    assert w2 == w.(tasks := w1.tasks[t := Writing(m, Prepared, false)]);
    w' := ReachStep(lane, w2, WritePhase(t));
    assert w'.tasks == w.tasks[t := Inserting(m, Prepared, false)];
  }

  lemma NotedFirst(lane: Commits.Lane, w: World, t: nat) returns (w': World)
    requires Reachable(lane, w) && t in w.tasks && w.tasks[t] == Inserting(OneMessage(lane), Prepared, false)
    ensures w' == w.(memory := w.memory[0 := Prepared], tasks := w.tasks[t := LookingUp(OneMessage(lane))])
    ensures Reachable(lane, w')
  {
    hide Reachable, Commits.Next, Commits.Enabled, Complete;
    w' := ReachStep(lane, w, InsertPhase(t));
  }

  /** It is noted in memory, and the copy goes into the dead-letter log. */
  lemma Copied(lane: Commits.Lane, w: World, t: nat) returns (w': World)
    requires Reachable(lane, w) && t in w.tasks && w.tasks[t] == LookingUp(OneMessage(lane)) && 0 !in w.entries
    ensures w' == w.(dlq := w.dlq + [Copy(0)], entries := w.entries[0 := |w.dlq|], tasks := w.tasks[t := Waiting(OneMessage(lane), |w.dlq|)])
    ensures Reachable(lane, w')
  {
    hide Reachable, Commits.Next, Commits.Enabled, Complete;
    var m := OneMessage(lane);
    var w1 := ReachStep(lane, w, LookUp(t));
    assert w1 == w.(tasks := w.tasks[t := Copying(m)]);
    var w2 := ReachStep(lane, w1, AppendCopy(t));
    assert w2 == w.(dlq := w.dlq + [Copy(0)], tasks := w1.tasks[t := Entering(m, |w.dlq|)]);
    w' := ReachStep(lane, w2, PutEntry(t));
    assert w'.tasks == w.tasks[t := Waiting(m, |w.dlq|)];
  }

  /** The record at the copy's position is synced, and the commit of the copy is recorded. */
  lemma Noted(lane: Commits.Lane, w: World, t: nat) returns (w': World)
    requires Reachable(lane, w) && t in w.tasks && w.tasks[t] == Waiting(OneMessage(lane), 0) && 0 in w.memory
    requires |w.dlq| == 1 && w.dlqHwm == 0 && w.core == OneCommitted(lane)
    ensures w' == w.(core := OneCommitted(lane).(entitled := {0}), dlqHwm := 1, phases := w.phases[0 := DlqCommitted],
                     tasks := w.tasks[t := Inserting(OneMessage(lane), DlqCommitted, true)])
    ensures Reachable(lane, w')
  {
    hide Reachable, Commits.Next, Commits.Enabled, Complete;
    var m := OneMessage(lane);
    var w1 := ReachStep(lane, w, SyncDlq(1));
    var w2 := ReachStep(lane, w1, AwaitCommitted(t));
    assert w2 == w.(dlqHwm := 1, tasks := w.tasks[t := Noting(m)]);
    var w3 := ReachStep(lane, w2, NoteCommitted(t));
    assert w3 == w2.(core := OneCommitted(lane).(entitled := {0}), tasks := w2.tasks[t := Writing(m, DlqCommitted, true)]);
    w' := ReachStep(lane, w3, WritePhase(t));
    assert w'.tasks == w.tasks[t := Inserting(m, DlqCommitted, true)];
  }

  /** The message is given up on; its copy is appended and entered, but not synced. The copy is
      lost and its entry survives. */
  lemma EntryLeft(lane: Commits.Lane)
    ensures Reachable(lane, Plain(lane, map[0 := Prepared], map[0 := Prepared], map[]).(entries := map[0 := 0]))
  {
    CommittedReachable(lane);
    hide Reachable, Commits.Next, Commits.Enabled, Complete;
    var w := Recorded(lane, Plain(lane, map[], map[], map[]), 0);
    w := NotedFirst(lane, w, 0);
    w := Copied(lane, w, 0);
    assert w.entries == map[0 := 0] && w.dlq == [Copy(0)] && w.phases == map[0 := Prepared];
    w := ReachStep(lane, w, LoseDlqTail({0}));
    assert w == Plain(lane, map[0 := Prepared], map[0 := Prepared], map[]).(entries := map[0 := 0]);
  }

  /** The next attempt appends nothing. */
  lemma CopyLost(lane: Commits.Lane)
    ensures Reachable(lane, Plain(lane, map[0 := Prepared], map[0 := Prepared], map[0 := Waiting(OneMessage(lane), 0)]).(entries := map[0 := 0]))
  {
    EntryLeft(lane);
    hide Reachable, Commits.Next, Commits.Enabled, Complete;
    var w := Recorded(lane, Plain(lane, map[0 := Prepared], map[0 := Prepared], map[]).(entries := map[0 := 0]), 0);
    w := NotedFirst(lane, w, 0);
    w := ReachStep(lane, w, LookUp(0));
    assert w == Plain(lane, map[0 := Prepared], map[0 := Prepared], map[0 := Waiting(OneMessage(lane), 0)]).(entries := map[0 := 0]);
  }

  /** Another record is synced in its place, and the message counts as dead-lettered. */
  lemma CopyCounted(lane: Commits.Lane)
    ensures Reachable(lane, World(OneCommitted(lane).(entitled := {0}), {}, [Other], 1, map[0 := 0], map[0 := DlqCommitted],
                                  map[0 := DlqCommitted], map[0 := Ready(OneMessage(lane), true)]))
  {
    CopyLost(lane);
    hide Reachable, Commits.Next, Commits.Enabled, Complete;
    var m := OneMessage(lane);
    var w := Plain(lane, map[0 := Prepared], map[0 := Prepared], map[0 := Waiting(m, 0)]).(entries := map[0 := 0]);
    w := ReachStep(lane, w, AppendOther);
    assert w.dlq == [Other];
    w := Noted(lane, w, 0);
    w := ReachStep(lane, w, InsertPhase(0));
    assert w.phases == map[0 := DlqCommitted] && w.memory == map[0 := DlqCommitted] && w.tasks == map[0 := Ready(m, true)];
  }

  /** The copy is lost while its entry survives, another record takes its place, and the message
      is recorded as dead-lettered and complete with no copy anywhere. */
  lemma LostCopyCounts(lane: Commits.Lane) returns (w: World, m: Message)
    ensures Reachable(lane, w) && m in w.core.log && m.lane == lane.owner
    ensures Complete(w.core.cursor, w.core.keys, m.offset) && m.offset !in w.delivered && Copy(m.offset) !in w.dlq
    ensures m.offset in w.phases && w.phases[m.offset].DlqCommitted?
  {
    CopyCounted(lane);
    hide Reachable;
    m := OneMessage(lane);
    w := World(OneCommitted(lane).(entitled := {0}), {}, [Other], 1, map[0 := 0], map[0 := DlqCommitted], map[0 := DlqCommitted],
               map[0 := Ready(m, true)]);
    w := ReachStep(lane, w, BeginCommit(0));
    w := ReachStep(lane, w, CommitStep(Commits.ReadCursor(0)));
    w := ReachStep(lane, w, CommitStep(Commits.Mark(0)));
  }

  /** A task has read the phase; another dead-letters the message and records the commit. */
  lemma Overtaken(lane: Commits.Lane)
    ensures Reachable(lane, World(OneCommitted(lane).(entitled := {0}), {}, [Copy(0)], 1, map[0 := 0], map[0 := DlqCommitted],
                                  map[0 := Prepared],
                                  map[0 := Writing(OneMessage(lane), Prepared, false), 1 := Inserting(OneMessage(lane), DlqCommitted, true)]))
  {
    CommittedReachable(lane);
    hide Reachable, Commits.Next, Commits.Enabled, Complete;
    var m := OneMessage(lane);
    var w := ReachStep(lane, Plain(lane, map[], map[], map[]), LeaseDead(0, m));
    w := ReachStep(lane, w, Prepare(0));
    assert w == Plain(lane, map[], map[], map[0 := Writing(m, Prepared, false)]);
    w := Recorded(lane, w, 1);
    w := NotedFirst(lane, w, 1);
    w := Copied(lane, w, 1);
    assert w == World(OneCommitted(lane), {}, [Copy(0)], 0, map[0 := 0], map[0 := Prepared], map[0 := Prepared],
                      map[0 := Writing(m, Prepared, false), 1 := Waiting(m, 0)]);
    w := Noted(lane, w, 1);
    assert w.phases == map[0 := DlqCommitted] && w.tasks == map[0 := Writing(m, Prepared, false), 1 := Inserting(m, DlqCommitted, true)];
  }

  /** The first task then writes what it read: the committed record falls back to prepared. */
  lemma RecordFallsBack(lane: Commits.Lane) returns (w: World, a: Action)
    ensures Reachable(lane, w) && Enabled(lane, w, a) && Committed(w.phases, 0)
    ensures 0 in Next(lane, w, a).phases && !Committed(Next(lane, w, a).phases, 0)
  {
    Overtaken(lane);
    hide Reachable;
    w := World(OneCommitted(lane).(entitled := {0}), {}, [Copy(0)], 1, map[0 := 0], map[0 := DlqCommitted], map[0 := Prepared],
               map[0 := Writing(OneMessage(lane), Prepared, false), 1 := Inserting(OneMessage(lane), DlqCommitted, true)]);
    a := WritePhase(0);
  }

  /** A compaction between the write of a record and its note in memory: the call goes on as
      if the message were recorded, and a restart would find nothing. */
  lemma CompactionDrops(lane: Commits.Lane) returns (w: World)
    ensures Reachable(lane, w) && w.tasks == map[0 := LookingUp(OneMessage(lane))]
    ensures w.memory == map[0 := Prepared] && w.phases == map[]
  {
    CommittedReachable(lane);
    hide Reachable, Commits.Next, Commits.Enabled, Complete;
    w := Recorded(lane, Plain(lane, map[], map[], map[]), 0);
    w := ReachStep(lane, w, Compact);
    w := ReachStep(lane, w, InsertPhase(0));
  }
}
