// The shard actor: one owner of the log that answers commands in turn and gathers
// commit requests into epochs, each settled by one sync.
module Shard {
  import opened Basics
  import opened Partition

  datatype Command =
    | AppendBatch(items: seq<Item>, overhead: nat, fence: Option<nat>)
    | AppendFrame(frame: Option<Item>, overhead: nat, expected: Option<nat>)
    | Read(from: nat, max: nat)
    | HighWatermark
    | PurgeOffset(offset: nat)
    | Gc(watermark: nat)
    | Commit(offset: nat)
    | FlushNow
    | FlushDue
    | FlushCount
    | InjectFailure

  datatype Request = Request(id: nat, command: Command, io: Io)

  datatype Reply =
    | Appended(stored: seq<Stored>)
    | Messages(stored: seq<Stored>)
    | Number(value: nat)
    | Flag(purged: bool)
    | Done
    | Refused(error: LogError)
    | Committed(hwm: nat)
    | CommitFailed

  datatype Answer = Answer(request: Request, reply: Reply)

  /** What the actor's queue hands it: a command, or the end of the linger time. */
  datatype Event = Dequeued(request: Request) | Timeout

  datatype Handled = Handled(log: PartitionLog, reply: Reply)

  /** Any command but a commit. */
  function Handle(l: PartitionLog, c: Command, io: Io): Handled
    requires !c.Commit?
  {
    match c
    case AppendBatch(items, overhead, fence) =>
      var r := Append(l, items, overhead, fence, io);
      Handled(r.log, if r.result.Ok? then Appended(r.result.value) else Refused(r.result.error))
    case AppendFrame(frame, overhead, expected) =>
      var r := AppendRaw(l, frame, overhead, expected, io);
      Handled(r.log, if r.result.Ok? then Appended([r.result.value]) else Refused(r.result.error))
    case Read(from, max) => Handled(l, Messages(ReadRange(l, from, max)))
    case HighWatermark => Handled(l, Number(l.store.next))
    case PurgeOffset(offset) =>
      var r := Purge(l, offset, io);
      Handled(r.log, Flag(r.result.Ok? && r.result.value))
    case Gc(watermark) =>
      var r := GcSealed(l, watermark);
      Handled(r.log, if r.result.Ok? then Number(r.result.value) else Refused(r.result.error))
    case FlushNow =>
      var r := Flush(l, io);
      Handled(r.log, if r.result.Ok? then Number(r.log.sync.committed) else Refused(r.result.error))
    case FlushDue =>
      var r := FlushIfDue(l, io);
      Handled(r.log, if r.result.Ok? then Done else Refused(r.result.error))
    case FlushCount => Handled(l, Number(l.sync.flushes))
    case InjectFailure => Handled(l.(sync := l.sync.(failNext := true)), Done)
  }

  lemma HandleKeepsMode(l: PartitionLog, c: Command, io: Io)
    requires !c.Commit?
    ensures Handle(l, c, io).log.mode == l.mode
  {
    hide WithAll, Bytes, Numbered, Range, Kept, Held, Purgeable;
  }

  /** Commands after which the watermark is shown to the shard's clients. */
  predicate Publishes(c: Command) {
    c.AppendBatch? || c.AppendFrame? || c.FlushNow? || c.FlushDue?
  }

  /** The actor between two events; it gathers an epoch while there are waiters. */
  datatype Actor = Actor(log: PartitionLog, published: nat, waiters: seq<Request>)

  predicate Waiting(waiters: seq<Request>) {
    forall i :: 0 <= i < |waiters| ==> waiters[i].command.Commit?
  }

  predicate NeedsFlush(l: PartitionLog, waiters: seq<Request>)
    requires Waiting(waiters)
  {
    exists i :: 0 <= i < |waiters| && l.sync.committed <= waiters[i].command.offset
  }

  function Verdict(r: Request, hwm: nat, ok: bool): Answer
    requires r.command.Commit?
  {
    Answer(r, if ok && hwm > r.command.offset then Committed(hwm) else CommitFailed)
  }

  function Verdicts(waiters: seq<Request>, hwm: nat, ok: bool): (answers: seq<Answer>)
    requires Waiting(waiters)
    ensures |answers| == |waiters|
    ensures forall i :: 0 <= i < |waiters| ==> answers[i] == Verdict(waiters[i], hwm, ok)
  {
    if waiters == [] then [] else [Verdict(waiters[0], hwm, ok)] + Verdicts(waiters[1..], hwm, ok)
  }

  datatype Step = Step(actor: Actor, answers: seq<Answer>)

  /** The log once an epoch's sync is over, and whether it succeeded. */
  function EpochSync(l: PartitionLog, waiters: seq<Request>): Outcome<()>
    requires Waiting(waiters)
  {
    if |waiters| > 0 && NeedsFlush(l, waiters) then Flush(l, waiters[0].io) else Outcome(l, Ok(()))
  }

  function CommitEpoch(a: Actor): Step
    requires Waiting(a.waiters)
  {
    var r := EpochSync(a.log, a.waiters);
    var hwm := r.log.sync.committed;
    Step(Actor(r.log, hwm, []), Verdicts(a.waiters, hwm, r.result.Ok?))
  }

  function Receive(a: Actor, e: Event): Step
    requires Waiting(a.waiters)
  {
    match e
    case Timeout => if a.waiters == [] then Step(a, []) else CommitEpoch(a)
    case Dequeued(r) =>
      if r.command.Commit? then
        var gathered := a.(waiters := a.waiters + [r]);
        if a.log.mode.Always? then CommitEpoch(gathered) else Step(gathered, [])
      else
        var h := Handle(a.log, r.command, r.io);
        Step(a.(log := h.log, published := if Publishes(r.command) then h.log.sync.committed else a.published), [Answer(r, h.reply)])
  }

  lemma ReceiveWaits(a: Actor, e: Event)
    requires Waiting(a.waiters)
    ensures Waiting(Receive(a, e).actor.waiters)
  {
  }

  /** A whole run; the queue's end also ends an open epoch. */
  function Run(a: Actor, events: seq<Event>): Step
    requires Waiting(a.waiters)
    decreases |events|
  {
    if events == [] then (if a.waiters == [] then Step(a, []) else CommitEpoch(a)) else
      ReceiveWaits(a, events[0]);
      var first := Receive(a, events[0]);
      var rest := Run(first.actor, events[1..]);
      Step(rest.actor, first.answers + rest.answers)
  }

  /** How often a request occurs, and how often it is answered. */
  function Asked(requests: seq<Request>, r: Request): nat {
    if requests == [] then 0 else (if requests[0] == r then 1 else 0) + Asked(requests[1..], r)
  }

  function Answered(answers: seq<Answer>, r: Request): nat {
    if answers == [] then 0 else (if answers[0].request == r then 1 else 0) + Answered(answers[1..], r)
  }

  function Commands(events: seq<Event>): seq<Request> {
    if events == [] then []
    else (if events[0].Dequeued? then [events[0].request] else []) + Commands(events[1..])
  }

  lemma {:induction false} AnsweredSplit(a: seq<Answer>, b: seq<Answer>, r: Request)
    ensures Answered(a + b, r) == Answered(a, r) + Answered(b, r)
  {
    if a == [] {
      assert a + b == b;
    } else {
      AnsweredSplit(a[1..], b, r);
      assert (a + b)[1..] == a[1..] + b;
    }
  }

  lemma {:induction false} AskedSplit(a: seq<Request>, b: seq<Request>, r: Request)
    ensures Asked(a + b, r) == Asked(a, r) + Asked(b, r)
  {
    if a == [] {
      assert a + b == b;
    } else {
      AskedSplit(a[1..], b, r);
      assert (a + b)[1..] == a[1..] + b;
    }
  }

  lemma {:induction false} EpochAnswersAll(waiters: seq<Request>, hwm: nat, ok: bool, r: Request)
    requires Waiting(waiters)
    ensures Answered(Verdicts(waiters, hwm, ok), r) == Asked(waiters, r)
  {
    if waiters != [] {
      EpochAnswersAll(waiters[1..], hwm, ok, r);
      AnsweredSplit([Verdict(waiters[0], hwm, ok)], Verdicts(waiters[1..], hwm, ok), r);
    }
  }

  /** One event: what was waiting or came in is answered or still waiting. */
  lemma ReceiveConserves(a: Actor, e: Event, r: Request)
    requires Waiting(a.waiters)
    ensures Answered(Receive(a, e).answers, r) + Asked(Receive(a, e).actor.waiters, r) == Asked(a.waiters, r) + Asked(Commands([e]), r)
  {
    hide Handle, Verdicts, EpochSync;
    assert [e][1..] == [];
    var gathered := if e.Dequeued? then a.waiters + [e.request] else a.waiters;
    if Waiting(gathered) {
      var sync := EpochSync(a.log, gathered);
      EpochAnswersAll(gathered, sync.log.sync.committed, sync.result.Ok?, r);
    }
    if e.Dequeued? { AskedSplit(a.waiters, [e.request], r); }
  }

  /** Every dequeued command is answered exactly once. */
  lemma {:induction false} AnsweredOnce(a: Actor, events: seq<Event>, r: Request)
    requires Waiting(a.waiters)
    ensures Answered(Run(a, events).answers, r) == Asked(a.waiters, r) + Asked(Commands(events), r)
    ensures Run(a, events).actor.waiters == []
    decreases |events|
  {
    hide Handle, Verdicts, EpochSync, Receive;
    if events == [] {
      var sync := EpochSync(a.log, a.waiters);
      EpochAnswersAll(a.waiters, sync.log.sync.committed, sync.result.Ok?, r);
    } else {
      ReceiveWaits(a, events[0]);
      ReceiveConserves(a, events[0], r);
      var first := Receive(a, events[0]);
      AnsweredOnce(first.actor, events[1..], r);
      AnsweredSplit(first.answers, Run(first.actor, events[1..]).answers, r);
      CommandsSplit(events);
      AskedSplit(Commands([events[0]]), Commands(events[1..]), r);
    }
  }

  lemma CommandsSplit(events: seq<Event>)
    requires events != []
    ensures Commands(events) == Commands([events[0]]) + Commands(events[1..])
  {
    assert [events[0]][1..] == [];
  }
}
