// The shard actor as it is written: nested loops over the queue, settling each epoch
// when its linger time ends.
module ShardActor {
  import opened Basics
  import opened Partition
  import opened Shard

  class Owner {
    var log: PartitionLog
    var published: nat

    function View(waiters: seq<Request>): Actor
      reads this
    {
      Actor(log, published, waiters)
    }

    constructor (log: PartitionLog)
      ensures View([]) == Actor(log, log.sync.committed, [])
    {
      this.log, published := log, log.sync.committed;
    }

    method ProcessNonCommit(r: Request, ghost waiters: seq<Request>) returns (answer: Answer)
      requires !r.command.Commit? && Waiting(waiters)
      modifies this
      ensures Step(View(waiters), [answer]) == Receive(old(View(waiters)), Dequeued(r))
    {
      hide Handle;
      var h := Handle(log, r.command, r.io);
      log := h.log;
      if Publishes(r.command) { published := log.sync.committed; }
      answer := Answer(r, h.reply);
    }

    method CommitWaiters(waiters: seq<Request>) returns (answers: seq<Answer>)
      requires Waiting(waiters) && |waiters| > 0
      modifies this
      ensures Step(View([]), answers) == CommitEpoch(old(View(waiters)))
    {
      hide Flush;
      var needsFlush, i := false, 0;
      while i < |waiters| && !needsFlush
        invariant 0 <= i <= |waiters|
        invariant needsFlush <==> exists k :: 0 <= k < i && log.sync.committed <= waiters[k].command.offset
        decreases |waiters| - i, !needsFlush
      {
        needsFlush := log.sync.committed <= waiters[i].command.offset;
        i := i + 1;
      }
      var ok := true;
      if needsFlush {
        var r := Flush(log, waiters[0].io);
        log, ok := r.log, r.result.Ok?;
      }
      published := log.sync.committed;
      answers := [];
      var hwm := published;
      var j := 0;
      while j < |waiters|
        invariant 0 <= j <= |waiters| && |answers| == j
        invariant forall k :: 0 <= k < j ==> answers[k] == Verdict(waiters[k], hwm, ok)
      {
        var reply := if ok && hwm > waiters[j].command.offset then Committed(hwm) else CommitFailed;
        answers := answers + [Answer(waiters[j], reply)];
        j := j + 1;
      }
    }

    /** Gathers one epoch until its linger time ends; other commands are answered meanwhile. */
    method GatherEpoch(events: seq<Event>, start: nat, opening: Request, sent: seq<Answer>, ghost goal: Step)
      returns (answers: seq<Answer>, i: nat)
      requires start <= |events| && opening.command.Commit?
      requires var first := Receive(View([]), Dequeued(opening));
               Continues(goal, sent + first.answers, first.actor, events[start..])
      modifies this
      ensures start <= i <= |events| && Continues(goal, answers, View([]), events[i..])
    {
      hide Handle, EpochSync, Verdicts, Run, Continues;
      var waiters := [opening];
      assert [] + [opening] == waiters;
      answers, i := sent, start;
      ghost var closing := log.mode.Always?;
      if !log.mode.Always? {
        assert sent + [] == sent;
        while i < |events|
          invariant start <= i <= |events| && Waiting(waiters) && |waiters| > 0 && !closing && !log.mode.Always?
          invariant Continues(goal, answers, View(waiters), events[i..])
        {
          var e := events[i];
          Unfold(goal, answers, View(waiters), events, i);
          i := i + 1;
          if e.Timeout? {
            closing := true;
            break;
          } else if e.request.command.Commit? {
            KeepsGathering(View(waiters), e.request, answers);
            waiters := waiters + [e.request];
          } else {
            HandleKeepsMode(log, e.request.command, e.request.io);
            var answer := ProcessNonCommit(e.request, waiters);
            answers := answers + [answer];
          }
        }
      }
      if !closing {
        assert events[i..] == [];
        QueueEnds(goal, answers, View(waiters));
      }
      var last := CommitWaiters(waiters);
      answers := answers + last;
    }

    /** The actor's loop answers as the event-by-event account says. */
    method RunActor(events: seq<Event>) returns (answers: seq<Answer>)
      modifies this
      ensures Step(View([]), answers) == Run(old(View([])), events)
    {
      hide Receive, CommitEpoch;
      answers := [];
      var i := 0;
      ghost var goal := Run(View([]), events);
      assert events[0..] == events;
      while i < |events|
        invariant 0 <= i <= |events|
        invariant Continues(goal, answers, View([]), events[i..])
      {
        hide Run, Continues;
        var e := events[i];
        Unfold(goal, answers, View([]), events, i);
        i := i + 1;
        if e.Timeout? {
          Idle(View([]));
          assert answers + [] == answers;
        } else if e.request.command.Commit? {
          answers, i := GatherEpoch(events, i, e.request, answers, goal);
        } else {
          var answer := ProcessNonCommit(e.request, []);
          answers := answers + [answer];
        }
      }
      assert events[i..] == [];
    }
  }

  /** The answers so far and those still to come make up the whole. */
  ghost predicate Continues(goal: Step, answers: seq<Answer>, a: Actor, rest: seq<Event>) {
    Waiting(a.waiters) && goal == Step(Run(a, rest).actor, answers + Run(a, rest).answers)
  }

  lemma Unfold(goal: Step, answers: seq<Answer>, a: Actor, events: seq<Event>, i: nat)
    requires i < |events| && Continues(goal, answers, a, events[i..])
    ensures Continues(goal, answers + Receive(a, events[i]).answers, Receive(a, events[i]).actor, events[i + 1..])
  {
    hide Receive;
    ReceiveWaits(a, events[i]);
    assert events[i..][1..] == events[i + 1..];
  }

  lemma Idle(a: Actor)
    requires a.waiters == []
    ensures Receive(a, Timeout) == Step(a, [])
  {
  }

  lemma KeepsGathering(a: Actor, r: Request, answers: seq<Answer>)
    requires Waiting(a.waiters) && r.command.Commit? && !a.log.mode.Always?
    ensures Receive(a, Dequeued(r)) == Step(a.(waiters := a.waiters + [r]), []) && answers + [] == answers
  {
  }

  lemma QueueEnds(goal: Step, answers: seq<Answer>, a: Actor)
    requires Continues(goal, answers, a, []) && a.waiters != []
    ensures Continues(goal, answers + CommitEpoch(a).answers, CommitEpoch(a).actor, [])
  {
  }
}
