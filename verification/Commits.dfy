// Concurrent cursor commits on one lane, one store access at a time. The cursor belongs
// to the lane's owner; each commit scans the topic of the message it is for. `marked` is
// the history of completions ever written, `entitled` the offsets whose delivery or
// dead-lettering has been reported.
module Commits {
  import opened Basics
  import opened Log
  import opened Cursor

  /** Where a commit stands. `topic` is the one it scans, `seen` the cursor it read first. `ahead`:
      it has read the cursor again and the next message is not below it. */
  datatype Thread =
    | Entered(topic: string, offset: nat)
    | Unmarked(topic: string, offset: nat, seen: nat)
    | Marked(topic: string, seen: nat)
    | Scanning(topic: string, seen: nat, hwm: nat, next: nat)
    | Paging(topic: string, seen: nat, hwm: nat, next: nat, page: Log, count: nat, ahead: bool)
    | Writing(seen: nat, next: nat)

  datatype State = State(
    log: Log,
    end: nat,
    hwm: nat,
    cursor: nat,
    keys: set<nat>,
    marked: set<nat>,
    entitled: set<nat>,
    threads: map<nat, Thread>)

  /** A lane's owner, and the topic its messages are meant to be on. */
  datatype Lane = Lane(topic: string, owner: Uuid)

  datatype Action =
    | Report(offset: nat)
    | Begin(t: nat, m: Message)
    | ReadCursor(t: nat)
    | Mark(t: nat)
    | ReadHwm(t: nat)
    | Fetch(t: nat)
    | Check(t: nat)
    | EndPage(t: nat)
    | Write(t: nat, dropped: set<nat>)
    | Append(m: Message)
    | AdvanceHwm(h: nat)
    | Crash
    | LoseTail

  predicate Enabled(lane: Lane, s: State, a: Action) {
    match a
    case Report(o) => o < s.hwm
    case Begin(t, m) => t !in s.threads && m in s.log && m.lane == lane.owner && m.offset in s.entitled
    case ReadCursor(t) => t in s.threads && s.threads[t].Entered?
    case Mark(t) => t in s.threads && s.threads[t].Unmarked?
    case ReadHwm(t) => t in s.threads && s.threads[t].Marked?
    case Fetch(t) => t in s.threads && s.threads[t].Scanning?
    case Check(t) => t in s.threads && s.threads[t].Paging? && |s.threads[t].page| > 0
    case EndPage(t) => t in s.threads && s.threads[t].Paging? && |s.threads[t].page| == 0
    case Write(t, dropped) => t in s.threads && s.threads[t].Writing? && forall o :: o in dropped ==> o < s.threads[t].next
    case Append(m) => m.offset >= s.end
    case AdvanceHwm(h) => s.hwm <= h <= s.end
    case Crash => true
    case LoseTail => true
  }

  /** The thread after one of its own steps; none when the commit is over. */
  function Moved(lane: Lane, s: State, th: Thread): Option<Thread> {
    match th
    case Entered(topic, o) => if o < s.cursor then None else Some(Unmarked(topic, o, s.cursor))
    case Unmarked(topic, o, seen) => Some(Marked(topic, seen))
    case Marked(topic, seen) => Some(Scanning(topic, seen, s.hwm, seen))
    case Scanning(topic, seen, h, next) =>
      if next >= h then Some(Writing(seen, next)) else
        var page := Take(TopicFrom(s.log, topic, next), PAGE);
        Some(if |page| == 0 then Writing(seen, h) else Paging(topic, seen, h, next, page, |page|, false))
    case Paging(topic, seen, h, next, page, count, ahead) =>
      Some(if |page| == 0 then (if count < PAGE then Writing(seen, h) else Scanning(topic, seen, h, next))
           else if ahead && page[0].offset !in s.keys then Writing(seen, page[0].offset)
           else if !ahead && page[0].lane == lane.owner && page[0].offset >= s.cursor then th.(ahead := true)
           else Paging(topic, seen, h, page[0].offset + 1, page[1..], count, false))
    case Writing(_, _) => None
  }

  function Below(log: Log, end: nat): Log {
    log[..IndexFrom(log, end)]
  }

  /** A crash that loses the records not yet synced; their offsets are given out again. */
  function AfterTailLoss(s: State): State {
    s.(log := Below(s.log, s.hwm), end := s.hwm, threads := map[])
  }

  function Put(threads: map<nat, Thread>, t: nat, th: Option<Thread>): map<nat, Thread> {
    if th.Some? then threads[t := th.value] else threads - {t}
  }

  function Next(lane: Lane, s: State, a: Action): State
    requires Enabled(lane, s, a)
  {
    match a
    case Report(o) => s.(entitled := s.entitled + {o})
    case Begin(t, m) => s.(threads := s.threads[t := Entered(m.topic, m.offset)])
    case Append(m) => s.(log := s.log + [m], end := m.offset + 1)
    case AdvanceHwm(h) => s.(hwm := h)
    case Crash => s.(threads := map[])
    case LoseTail => AfterTailLoss(s)
    case Mark(t) =>
      var o := s.threads[t].offset;
      s.(keys := s.keys + {o}, marked := s.marked + {o}, threads := Put(s.threads, t, Moved(lane, s, s.threads[t])))
    case Write(t, dropped) =>
      var Writing(seen, next) := s.threads[t];
      var over := s.threads - {t};
      if next == seen then s.(threads := over)
      else s.(cursor := next, keys := s.keys - dropped, threads := over)
    case _ => s.(threads := Put(s.threads, a.t, Moved(lane, s, s.threads[a.t])))
  }

  function Start(): State {
    State([], 0, 0, 0, {}, {}, {}, map[])
  }

  /** Every message of the lane below `x` has been marked complete. */
  ghost predicate Clear(lane: Lane, s: State, x: nat) {
    forall m :: m in s.log && OnLane(m, lane.topic, lane.owner) && m.offset < x ==> m.offset in s.marked
  }

  ghost predicate PageOk(lane: Lane, s: State, h: nat, next: nat, page: Log, count: nat) {
    && Ascending(page)
    && (forall m :: m in page ==> m in s.log && m.topic == lane.topic && m.offset >= next)
    && (count < PAGE ==> forall m :: m in s.log && m.topic == lane.topic && next <= m.offset < h ==> m in page)
    && (|page| > 0 ==> forall m :: m in s.log && m.topic == lane.topic && next <= m.offset <= page[|page| - 1].offset ==> m in page)
  }

  ghost predicate ThreadOk(lane: Lane, s: State, th: Thread) {
    match th
    case Entered(topic, o) => topic == lane.topic && o in s.entitled
    case Unmarked(topic, o, seen) => topic == lane.topic && o in s.entitled && seen <= s.end && Clear(lane, s, seen)
    case Marked(topic, seen) => topic == lane.topic && seen <= s.end && Clear(lane, s, seen)
    case Scanning(topic, seen, h, next) => topic == lane.topic && h <= s.end && next <= s.end && Clear(lane, s, next)
    case Paging(topic, seen, h, next, page, count, ahead) =>
      topic == lane.topic && h <= s.end && next <= s.end && Clear(lane, s, next) && PageOk(lane, s, h, next, page, count)
    case Writing(seen, next) => next <= s.end && Clear(lane, s, next)
  }

  /** All messages of the owner are on the lane's topic. */
  ghost predicate OneTopic(lane: Lane, log: Log) {
    forall m :: m in log && m.lane == lane.owner ==> m.topic == lane.topic
  }

  ghost predicate Invariant(lane: Lane, s: State) {
    && OneTopic(lane, s.log) && Ascending(s.log) && (forall m :: m in s.log ==> m.offset < s.end)
    && s.hwm <= s.end && s.cursor <= s.end
    && s.keys <= s.marked <= s.entitled && (forall o :: o in s.entitled ==> o < s.hwm)
    && Clear(lane, s, s.cursor)
    && forall t :: t in s.threads ==> ThreadOk(lane, s, s.threads[t])
  }

  /** Marks, reports and appends disturb no thread that was in order. */
  lemma ThreadStays(lane: Lane, s: State, s': State, th: Thread)
    requires ThreadOk(lane, s, th) && forall m :: m in s.log ==> m.offset < s.end
    requires s.marked <= s'.marked && s.entitled <= s'.entitled && s.end <= s'.end
    requires s'.log == s.log || (|s'.log| == |s.log| + 1 && s.log <= s'.log && s'.log[|s.log|].offset >= s.end)
    ensures ThreadOk(lane, s', th)
  {
    assert forall m :: m in s'.log ==> m in s.log || m.offset >= s.end;
    assert forall m :: m in s.log ==> m in s'.log;
    if th.Paging? {
      PageStays(lane, s, s', th.hwm, th.next, th.page, th.count);
    }
  }

  lemma PageStays(lane: Lane, s: State, s': State, h: nat, next: nat, page: Log, count: nat)
    requires PageOk(lane, s, h, next, page, count) && h <= s.end
    requires forall m :: m in s'.log ==> m in s.log || m.offset >= s.end
    requires forall m :: m in s.log ==> m in s'.log && m.offset < s.end
    ensures PageOk(lane, s', h, next, page, count)
  {
    if |page| > 0 {
      assert page[|page| - 1] in page;
    }
  }

  lemma CheckOk(lane: Lane, s: State, th: Thread)
    requires Invariant(lane, s) && ThreadOk(lane, s, th) && th.Paging? && |th.page| > 0
    ensures ThreadOk(lane, s, Moved(lane, s, th).value)
  {
    var Paging(_, seen, h, next, page, count, ahead) := th;
    var m := page[0];
    assert m in page;
    assert forall x :: x in page ==> m.offset <= x.offset <= page[|page| - 1].offset;
    assert forall x :: x in s.log && OnLane(x, lane.topic, lane.owner) && x.offset < m.offset ==> x.offset in s.marked;
    if if ahead then m.offset in s.keys else m.lane != lane.owner || m.offset < s.cursor {
      forall x | x in s.log && OnLane(x, lane.topic, lane.owner) && x.offset < m.offset + 1
        ensures x.offset in s.marked
      {
        if x.offset == m.offset { SameOffset(s.log, x, m); }
      }
      RestOfPage(lane, s, h, next, page, count);
    }
  }

  lemma RestOfPage(lane: Lane, s: State, h: nat, next: nat, page: Log, count: nat)
    requires PageOk(lane, s, h, next, page, count) && |page| > 0
    ensures PageOk(lane, s, h, page[0].offset + 1, page[1..], count)
  {
    var rest := page[1..];
    forall m | m in page && m.offset > page[0].offset ensures m in rest {
      var i :| 0 <= i < |page| && page[i] == m;
      assert rest[i - 1] == m;
    }
    forall m | m in rest ensures m in page && m.offset > page[0].offset {
      var i :| 0 <= i < |rest| && rest[i] == m;
      assert page[i + 1] == m;
    }
  }

  lemma FetchOk(lane: Lane, s: State, th: Thread)
    requires Invariant(lane, s) && ThreadOk(lane, s, th) && th.Scanning?
    ensures ThreadOk(lane, s, Moved(lane, s, th).value)
  {
    hide TopicFrom, Take;
    var Scanning(_, seen, h, next) := th;
    if next < h {
      var page := Take(TopicFrom(s.log, lane.topic, next), PAGE);
      PageOf(s.log, lane.topic, next, page);
    }
  }

  lemma MovedOk(lane: Lane, s: State, th: Thread)
    requires Invariant(lane, s) && ThreadOk(lane, s, th) && !th.Writing? && !th.Unmarked?
    ensures Moved(lane, s, th).Some? ==> ThreadOk(lane, s, Moved(lane, s, th).value)
  {
    if th.Paging? && |th.page| > 0 {
      CheckOk(lane, s, th);
    } else if th.Scanning? {
      FetchOk(lane, s, th);
    }
  }

  lemma QuietStepKeeps(lane: Lane, s: State, s': State, t: nat, th: Option<Thread>)
    requires Invariant(lane, s) && s' == s.(threads := Put(s.threads, t, th))
    requires th.Some? ==> ThreadOk(lane, s, th.value)
    ensures Invariant(lane, s')
  {
    hide Ascending;
    forall u | u in s'.threads ensures ThreadOk(lane, s', s'.threads[u]) {
      var x := s'.threads[u];
      assert ThreadOk(lane, s, x);
      ThreadStays(lane, s, s', x);
    }
  }

  lemma MarkKeeps(lane: Lane, s: State, t: nat)
    requires Invariant(lane, s) && Enabled(lane, s, Mark(t))
    ensures Invariant(lane, Next(lane, s, Mark(t)))
  {
    hide Ascending;
    var s' := Next(lane, s, Mark(t));
    forall u | u in s'.threads ensures ThreadOk(lane, s', s'.threads[u]) {
      if u != t { ThreadStays(lane, s, s', s.threads[u]); }
    }
  }

  lemma WriteKeeps(lane: Lane, s: State, t: nat, dropped: set<nat>)
    requires Invariant(lane, s) && Enabled(lane, s, Write(t, dropped))
    ensures Invariant(lane, Next(lane, s, Write(t, dropped)))
  {
    hide Ascending;
    var s' := Next(lane, s, Write(t, dropped));
    forall u | u in s'.threads ensures ThreadOk(lane, s', s'.threads[u]) {
      ThreadStays(lane, s, s', s.threads[u]);
    }
  }

  lemma WorldKeeps(lane: Lane, s: State, a: Action)
    requires Invariant(lane, s) && Enabled(lane, s, a)
    requires a.Report? || a.Begin? || a.Append? || a.AdvanceHwm? || a.Crash?
    requires OneTopic(lane, Next(lane, s, a).log)
    ensures Invariant(lane, Next(lane, s, a))
  {
    var s' := Next(lane, s, a);
    if a.Append? {
      assert forall m :: m in s'.log ==> m in s.log || m == a.m;
    }
    forall u | u in s'.threads ensures ThreadOk(lane, s', s'.threads[u]) {
      if u in s.threads { ThreadStays(lane, s, s', s.threads[u]); }
    }
  }

  lemma TailLossKeeps(lane: Lane, s: State)
    requires Invariant(lane, s) && s.cursor <= s.hwm
    ensures Invariant(lane, AfterTailLoss(s))
  {
    var s' := AfterTailLoss(s);
    forall m | m in s'.log ensures m in s.log && m.offset < s.hwm {
      var i :| 0 <= i < |s'.log| && s'.log[i] == m;
      assert s.log[i] == m;
    }
  }

  /** What the code does not see to: the owner's messages keep to one topic, and a lost tail ends
      behind the cursor. */
  ghost predicate Sheltered(lane: Lane, s: State, a: Action)
    requires Enabled(lane, s, a)
  {
    OneTopic(lane, Next(lane, s, a).log) && (a.LoseTail? ==> s.cursor <= s.hwm)
  }

  lemma StepKeeps(lane: Lane, s: State, a: Action)
    requires Invariant(lane, s) && Enabled(lane, s, a) && Sheltered(lane, s, a)
    ensures Invariant(lane, Next(lane, s, a))
  {
    match a
    case Mark(t) => MarkKeeps(lane, s, t);
    case Write(t, dropped) => WriteKeeps(lane, s, t, dropped);
    case ReadCursor(t) => OwnStepKeeps(lane, s, a);
    case ReadHwm(t) => OwnStepKeeps(lane, s, a);
    case Fetch(t) => OwnStepKeeps(lane, s, a);
    case Check(t) => OwnStepKeeps(lane, s, a);
    case EndPage(t) => OwnStepKeeps(lane, s, a);
    case LoseTail => TailLossKeeps(lane, s);
    case _ => WorldKeeps(lane, s, a);
  }

  lemma OwnStepKeeps(lane: Lane, s: State, a: Action)
    requires Invariant(lane, s) && Enabled(lane, s, a)
    requires a.ReadCursor? || a.ReadHwm? || a.Fetch? || a.Check? || a.EndPage?
    ensures Invariant(lane, Next(lane, s, a))
  {
    hide Invariant, ThreadOk, Moved;
    var th := s.threads[a.t];
    assert ThreadOk(lane, s, th) by { ThreadInvariant(lane, s, a.t); }
    MovedOk(lane, s, th);
    QuietStepKeeps(lane, s, Next(lane, s, a), a.t, Moved(lane, s, th));
  }

  lemma ThreadInvariant(lane: Lane, s: State, t: nat)
    requires Invariant(lane, s) && t in s.threads
    ensures ThreadOk(lane, s, s.threads[t])
  {
  }

  ghost predicate Run(lane: Lane, states: seq<State>, actions: seq<Action>) {
    && |states| == |actions| + 1
    && states[0] == Start()
    && forall i :: 0 <= i < |actions| ==> Enabled(lane, states[i], actions[i]) && states[i + 1] == Next(lane, states[i], actions[i])
  }

  ghost predicate ShelteredRun(lane: Lane, states: seq<State>, actions: seq<Action>) {
    Run(lane, states, actions) && forall i :: 0 <= i < |actions| ==> Sheltered(lane, states[i], actions[i])
  }

  lemma {:induction false} RunKeeps(lane: Lane, states: seq<State>, actions: seq<Action>, i: nat)
    requires ShelteredRun(lane, states, actions) && i <= |actions|
    ensures Invariant(lane, states[i])
  {
    if i > 0 {
      RunKeeps(lane, states, actions, i - 1);
      StepKeeps(lane, states[i - 1], actions[i - 1]);
    }
  }

  /** Under any interleaving and any crashes, every message of the owner below the stored cursor
      was marked complete, and only reported messages ever are, as long as the owner's messages
      stay on one topic and no tail is lost below the cursor. */
  lemma CursorIsSound(lane: Lane, states: seq<State>, actions: seq<Action>, i: nat, m: Message)
    requires ShelteredRun(lane, states, actions) && i <= |actions|
    requires m in states[i].log && m.lane == lane.owner && Complete(states[i].cursor, states[i].keys, m.offset)
    ensures m.offset in states[i].marked && m.offset in states[i].entitled
  {
    RunKeeps(lane, states, actions, i);
  }

  /** The scan reads records that are not yet synced, so the cursor can pass the watermark.
      If the tail is then lost, the offsets below the cursor are given to new messages that
      will never be delivered: the cursor survives a loss exactly when it is not past it. */
  lemma TailLossSafeExactly(lane: Lane, s: State)
    requires Invariant(lane, s)
    ensures (forall m: Message | m.offset >= AfterTailLoss(s).end :: Clear(lane, Next(lane, AfterTailLoss(s), Append(m)), s.cursor)) <==>
            s.cursor <= s.hwm
  {
    var lost := AfterTailLoss(s);
    if s.cursor <= s.hwm {
      TailLossKeeps(lane, s);
      forall m: Message | m.offset >= lost.end
        ensures Clear(lane, Next(lane, lost, Append(m)), s.cursor)
      {
        var s' := Next(lane, lost, Append(m));
        assert forall x :: x in s'.log ==> x in lost.log || x == m;
      }
    } else {
      var m := Lanes(lane, s.hwm);
      var s' := Next(lane, lost, Append(m));
      assert s'.log[|lost.log|] == m;
      assert m in s'.log && m.offset !in s'.marked;
    }
  }

  /** Every completion ever written is still known to the store. */
  ghost predicate Remembers(s: State) {
    forall o :: o in s.marked ==> Complete(s.cursor, s.keys, o)
  }

  /** Only a write that moves the cursor back can forget a completion. */
  lemma ForwardKeepsMemory(lane: Lane, s: State, a: Action)
    requires Remembers(s) && Enabled(lane, s, a)
    requires a.Write? ==> s.threads[a.t].next >= s.cursor
    ensures Remembers(Next(lane, s, a))
  {
    hide TopicFrom, Take, OnLane;
  }

  /** A write forgets exactly the completions it moves back over whose keys are gone. */
  lemma BackwardForgets(lane: Lane, s: State, t: nat, dropped: set<nat>)
    requires Remembers(s) && Enabled(lane, s, Write(t, dropped))
    requires s.threads[t].next != s.threads[t].seen
    ensures Remembers(Next(lane, s, Write(t, dropped))) <==>
            forall o :: o in s.marked && s.threads[t].next <= o < s.cursor ==> o in s.keys
  {
    hide TopicFrom, Take, OnLane;
    var s' := Next(lane, s, Write(t, dropped));
    assert s'.marked == s.marked;
  }

  ghost predicate Reachable(lane: Lane, s: State) {
    exists states, actions :: Run(lane, states, actions) && states[|actions|] == s
  }

  lemma StartReachable(lane: Lane)
    ensures Reachable(lane, Start())
  {
    assert Run(lane, [Start()], []);
  }

  lemma ReachStep(lane: Lane, s: State, a: Action) returns (s': State)
    requires Reachable(lane, s) && Enabled(lane, s, a)
    ensures s' == Next(lane, s, a) && Reachable(lane, s')
  {
    hide Next, Start;
    s' := Next(lane, s, a);
    var states, actions :| Run(lane, states, actions) && states[|actions|] == s;
    var states', actions' := states + [s'], actions + [a];
    forall i | 0 <= i < |actions'|
      ensures Enabled(lane, states'[i], actions'[i]) && states'[i + 1] == Next(lane, states'[i], actions'[i])
    {
      if i < |actions| { assert states'[i] == states[i] && states'[i + 1] == states[i + 1] && actions'[i] == actions[i]; }
    }
    assert Run(lane, states', actions');
  }

  function Lanes(lane: Lane, offset: nat): Message {
    Message(offset, lane.topic, lane.owner, offset)
  }

  function TwoMessages(lane: Lane): Log {
    [Lanes(lane, 0), Lanes(lane, 1)]
  }

  lemma PageOfTwo(lane: Lane)
    ensures Take(TopicFrom(TwoMessages(lane), lane.topic, 0), PAGE) == TwoMessages(lane)
  {
    var log := TwoMessages(lane);
    assert IndexFrom(log, 0) == 0 && log[0..] == log;
    assert log[1..] == [log[1]] && log[1..][1..] == [];
    assert OfTopic(log[1..], lane.topic) == [log[1]];
  }

  /** A message of the lane takes two reads to check: the cursor's, then the key's. */
  lemma ChecksBoth(lane: Lane, s: State, t: nat) returns (s': State)
    requires Reachable(lane, s) && t in s.threads && s.threads[t].Paging? && |s.threads[t].page| > 0 && !s.threads[t].ahead
    requires s.threads[t].page[0].lane == lane.owner && s.threads[t].page[0].offset >= s.cursor
    ensures var th := s.threads[t];
            s' == s.(threads := s.threads[t := if th.page[0].offset in s.keys then th.(next := th.page[0].offset + 1, page := th.page[1..])
                                               else Writing(th.seen, th.page[0].offset)])
    ensures Reachable(lane, s')
  {
    hide TopicFrom, Take, Run, Reachable;
    var s1 := ReachStep(lane, s, Check(t));
    assert s1 == s.(threads := s.threads[t := s.threads[t].(ahead := true)]);
    s' := ReachStep(lane, s1, Check(t));
    assert s'.threads == s.threads[t := s'.threads[t]];
  }

  lemma TwoCommitted(lane: Lane) returns (s: State)
    ensures Reachable(lane, s) && s == State(TwoMessages(lane), 2, 2, 0, {}, {}, {0, 1}, map[])
  {
    StartReachable(lane);
    s := ReachStep(lane, Start(), Append(Lanes(lane, 0)));
    s := ReachStep(lane, s, Append(Lanes(lane, 1)));
    s := ReachStep(lane, s, AdvanceHwm(2));
    s := ReachStep(lane, s, Report(0));
    s := ReachStep(lane, s, Report(1));
    assert s.log == TwoMessages(lane);
  }

  lemma FirstScans(lane: Lane) returns (s: State)
    ensures Reachable(lane, s) && s == State(TwoMessages(lane), 2, 2, 0, {0}, {0}, {0, 1}, map[0 := Writing(0, 1)])
  {
    hide TopicFrom, Take, Run, Reachable;
    PageOfTwo(lane);
    s := TwoCommitted(lane);
    s := ReachStep(lane, s, Begin(0, Lanes(lane, 0)));
    s := ReachStep(lane, s, ReadCursor(0));
    s := ReachStep(lane, s, Mark(0));
    s := ReachStep(lane, s, ReadHwm(0));
    s := ReachStep(lane, s, Fetch(0));
    s := ChecksBoth(lane, s, 0);
    assert s.threads[0] == Paging(lane.topic, 0, 2, 1, [Lanes(lane, 1)], 2, false);
    s := ChecksBoth(lane, s, 0);
    assert s.threads == map[0 := Writing(0, 1)];
  }

  lemma SecondScans(lane: Lane) returns (s: State)
    ensures Reachable(lane, s)
    ensures s == State(TwoMessages(lane), 2, 2, 0, {0, 1}, {0, 1}, {0, 1},
                       map[0 := Writing(0, 1), 1 := Paging(lane.topic, 0, 2, 0, TwoMessages(lane), 2, false)])
  {
    hide TopicFrom, Take, Run, Reachable;
    PageOfTwo(lane);
    s := FirstScans(lane);
    s := ReachStep(lane, s, Begin(1, Lanes(lane, 1)));
    s := ReachStep(lane, s, ReadCursor(1));
    s := ReachStep(lane, s, Mark(1));
    s := ReachStep(lane, s, ReadHwm(1));
    s := ReachStep(lane, s, Fetch(1));
  }

  lemma SecondCommits(lane: Lane) returns (s: State)
    ensures Reachable(lane, s) && s == State(TwoMessages(lane), 2, 2, 2, {}, {0, 1}, {0, 1}, map[0 := Writing(0, 1)])
  {
    hide TopicFrom, Take, Run, Reachable;
    s := SecondScans(lane);
    s := ChecksBoth(lane, s, 1);
    assert s.threads[1] == Paging(lane.topic, 0, 2, 1, [Lanes(lane, 1)], 2, false);
    s := ChecksBoth(lane, s, 1);
    assert s.threads[1] == Paging(lane.topic, 0, 2, 2, [], 2, false);
    s := ReachStep(lane, s, EndPage(1));
    s := ReachStep(lane, s, Write(1, {0, 1}));
    assert s.threads == map[0 := Writing(0, 1)];
  }

  /** Two commits that overlap: the one that scanned first writes last and takes the cursor
      back over the other's completed message. The store then calls it incomplete again, so
      it is delivered twice; the run is one the store really allows. */
  lemma OverlapForgets(lane: Lane) returns (s: State)
    ensures Reachable(lane, s) && 1 in s.marked && !Complete(s.cursor, s.keys, 1)
  {
    s := SecondCommits(lane);
    s := ReachStep(lane, s, Write(0, {}));
  }

  /** And the cursor does pass it: a synced and completed message, then a record of another
      lane and one of this lane that are not synced yet. */
  lemma CursorPassesWatermark(lane: Lane) returns (s: State)
    ensures Reachable(lane, s) && s.hwm < s.cursor
  {
    hide TopicFrom, Take, Run, Reachable;
    var log := [Lanes(lane, 0), Message(1, lane.topic, lane.owner + 1, 1), Lanes(lane, 2)];
    PageOfThree(lane, log);
    StartReachable(lane);
    s := ReachStep(lane, Start(), Append(log[0]));
    s := ReachStep(lane, s, AdvanceHwm(1));
    s := ReachStep(lane, s, Report(0));
    s := ReachStep(lane, s, Append(log[1]));
    s := ReachStep(lane, s, Append(log[2]));
    assert s.log == log;
    s := ReachStep(lane, s, Begin(0, log[0]));
    s := ReachStep(lane, s, ReadCursor(0));
    s := ReachStep(lane, s, Mark(0));
    s := ReachStep(lane, s, ReadHwm(0));
    s := ReachStep(lane, s, Fetch(0));
    s := ChecksBoth(lane, s, 0);
    assert s.threads[0] == Paging(lane.topic, 0, 1, 1, [log[1], log[2]], 3, false);
    s := ReachStep(lane, s, Check(0));
    assert s.threads[0] == Paging(lane.topic, 0, 1, 2, [log[2]], 3, false);
    s := ChecksBoth(lane, s, 0);
    s := ReachStep(lane, s, Write(0, {0}));
  }

  lemma PageOfThree(lane: Lane, log: Log)
    requires |log| == 3 && forall i :: 0 <= i < 3 ==> log[i].topic == lane.topic
    ensures Take(TopicFrom(log, lane.topic, 0), PAGE) == log
  {
    assert IndexFrom(log, 0) == 0 && log[0..] == log;
    assert log[1..][1..] == [log[2]] && log[1..][0] == log[1] && [log[2]][1..] == [];
    assert OfTopic([log[2]], lane.topic) == [log[2]];
    assert OfTopic(log[1..], lane.topic) == [log[1]] + [log[2]];
    assert log == [log[0]] + ([log[1]] + [log[2]]);
  }

  lemma SecondMarked(lane: Lane, m: Message, second: Message) returns (s: State)
    requires m == Lanes(lane, 0) && second.offset == 1 && second.lane == lane.owner
    ensures Reachable(lane, s) && s == State([m, second], 2, 2, 0, {1}, {1}, {1}, map[0 := Marked(second.topic, 0)])
  {
    hide TopicFrom, Take, Run, Reachable;
    StartReachable(lane);
    s := ReachStep(lane, Start(), Append(m));
    s := ReachStep(lane, s, Append(second));
    s := ReachStep(lane, s, AdvanceHwm(2));
    s := ReachStep(lane, s, Report(1));
    assert s == State([m, second], 2, 2, 0, {}, {}, {1}, map[]);
    s := ReachStep(lane, s, Begin(0, second));
    s := ReachStep(lane, s, ReadCursor(0));
    s := ReachStep(lane, s, Mark(0));
  }

  lemma SecondScanned(lane: Lane, m: Message, second: Message) returns (s: State)
    requires m == Lanes(lane, 0) && second.offset == 1 && second.lane == lane.owner && second.topic != lane.topic
    ensures Reachable(lane, s) && s == State([m, second], 2, 2, 0, {1}, {1}, {1}, map[0 := Writing(0, 2)])
  {
    hide TopicFrom, Take, Run, Reachable;
    PageOfSecond(m, second);
    s := SecondMarked(lane, m, second);
    s := ReachStep(lane, s, ReadHwm(0));
    s := ReachStep(lane, s, Fetch(0));
    assert s == State([m, second], 2, 2, 0, {1}, {1}, {1}, map[0 := Paging(second.topic, 0, 2, 0, [second], 1, false)]);
    s := ChecksBoth(lane, s, 0);
    assert [second][1..] == [];
    assert s.threads == map[0 := Paging(second.topic, 0, 2, 2, [], 1, false)];
    s := ReachStep(lane, s, EndPage(0));
    assert s.threads == map[0 := Writing(0, 2)];
  }

  /** A lane on two topics: the commit of the second message scans its own topic only and takes
      the cursor past the first, which nobody has delivered. */
  lemma SecondTopicSkips(lane: Lane, other: string) returns (s: State, m: Message)
    requires other != lane.topic
    ensures Reachable(lane, s) && m in s.log && m.lane == lane.owner
    ensures Complete(s.cursor, s.keys, m.offset) && m.offset !in s.marked && m.offset !in s.entitled
  {
    hide TopicFrom, Take, Run, Reachable;
    m := Lanes(lane, 0);
    s := SecondScanned(lane, m, Message(1, other, lane.owner, 1));
    s := ReachStep(lane, s, Write(0, {1}));
  }

  lemma PageOfSecond(first: Message, second: Message)
    requires first.topic != second.topic
    ensures Take(TopicFrom([first, second], second.topic, 0), PAGE) == [second]
  {
    var log := [first, second];
    assert IndexFrom(log, 0) == 0 && log[0..] == log;
    assert log[1..] == [second] && [second][1..] == [];
    assert OfTopic([second], second.topic) == [second];
  }
}
