// Publishing an accepted fan-out and replaying it until every member is settled.
module FanoutReplay {
  import opened Basics
  import opened Bytes
  import opened Journal
  import opened Fanout

  const MAX_U32: nat := 0xFFFF_FFFF

  function SaturatingInc(n: nat): nat {
    if n < MAX_U32 then n + 1 else MAX_U32
  }

  function Attempts(c: Command, memberId: Uuid): nat {
    if memberId in c.outcomes then c.outcomes[memberId].attempts else 0
  }

  function Pow2(n: nat): nat {
    if n == 0 then 1 else 2 * Pow2(n - 1)
  }

  function Backoff(attempts: nat): nat {
    1000 * Pow2(if attempts == 0 then 0 else if attempts - 1 < 6 then attempts - 1 else 6)
  }

  /** The wait after the n-th failed attempt in a row: one second, doubled each time, and 64 seconds
      from the seventh on. */
  lemma BackoffDoubles(attempts: nat)
    requires attempts > 0
    ensures attempts == 1 ==> Backoff(attempts) == 1000
    ensures attempts < 7 ==> Backoff(attempts + 1) == 2 * Backoff(attempts)
    ensures attempts >= 7 ==> Backoff(attempts) == 64000
  {
    assert Pow2(6) == 2 * Pow2(5) && Pow2(5) == 2 * Pow2(4) && Pow2(4) == 2 * Pow2(3) && Pow2(3) == 2 * Pow2(2);
    assert Pow2(2) == 2 * Pow2(1) && Pow2(1) == 2 * Pow2(0) && Pow2(0) == 1;
  }

  /** One execution of a command: the member positions whose results it records, in the order
      it records them, and the reply and the time of each. A replay works through the members
      in order and leaves out those waiting for their retry time; a publish request waits for
      nobody and records results as they come in. A store error cuts either of them short. */
  datatype Pass = Pass(order: seq<nat>, waits: bool, now: Millis, replies: nat -> Option<string>, clock: nat -> Millis)

  function ReplayOf(n: nat, now: Millis, replies: nat -> Option<string>, clock: nat -> Millis): Pass {
    Pass(seq(n, i => i), true, now, replies, clock)
  }

  /** The time a retry is counted from. */
  function TimeOf(pass: Pass, p: nat): Millis {
    if pass.waits then pass.now else pass.clock(p)
  }

  /** Whether the execution publishes a member, judged by the command it claimed. */
  predicate Due(c: Command, memberId: Uuid, pass: Pass) {
    memberId in c.outcomes ==>
      var o := c.outcomes[memberId];
      !OutcomeSettled(o) && (pass.waits && o.nextAttemptAt.Some? ==> o.nextAttemptAt.value <= pass.now)
  }

  /** The outcome recorded for position `p`: one more attempt than the claimed command counts. */
  function Attempted(c: Command, memberId: Uuid, pass: Pass, p: nat, max: nat): Outcome {
    var attempts := SaturatingInc(Attempts(c, memberId));
    var reply := pass.replies(p);
    if reply.Some? then Outcome(reply, None, attempts, None, false)
    else Outcome(None, Some("error"), attempts, Some(TimeOf(pass, p) + Backoff(attempts)), attempts >= max)
  }

  function Visit(claimed: Command, current: Command, p: nat, pass: Pass, max: nat): Command {
    if p < |claimed.members| && Due(claimed, claimed.members[p].memberId, pass)
    then Recorded(current, claimed.members[p].memberId, Attempted(claimed, claimed.members[p].memberId, pass, p, max), pass.clock(p))
    else current
  }

  function PassFrom(claimed: Command, current: Command, i: nat, pass: Pass, max: nat): Command
    requires i <= |pass.order|
    decreases |pass.order| - i
  {
    if i == |pass.order| then current
    else PassFrom(claimed, Visit(claimed, current, pass.order[i], pass, max), i + 1, pass, max)
  }

  /** An execution that claimed the command as it stands. */
  function AfterPass(c: Command, pass: Pass, max: nat): Command {
    PassFrom(c, c, 0, pass, max)
  }

  /** Records one outcome, then writes the updated command back. */
  method RecordAndUpdate(store: FanoutStore, id: Uuid, mid: Uuid, outcome: Outcome, at: Millis)
    requires store.Valid() && EndsClean(store.journal)
    requires id in store.Contents() && store.Contents()[id].id == id
    modifies store
    ensures store.Valid() && EndsClean(store.journal)
    ensures store.Contents() == old(store.Contents())[id := Recorded(old(store.Contents())[id], mid, outcome, at)]
  {
    var updated := store.RecordOutcome(id, mid, outcome, at);
    store.Mutate(Replace(updated.value));
  }

  /** The replay loop over the store; `stop` members are gone through before an error ends it. */
  method ReplayCommand(
    store: FanoutStore, claimed: Command, stop: nat, now: Millis, replies: nat -> Option<string>, clock: nat -> Millis, max: nat)
    requires store.Valid() && EndsClean(store.journal) && stop <= |claimed.members|
    requires claimed.id in store.Contents() && store.Contents()[claimed.id].id == claimed.id
    modifies store
    ensures store.Valid() && EndsClean(store.journal)
    ensures store.Contents() == old(store.Contents())[claimed.id :=
              PassFrom(claimed, old(store.Contents())[claimed.id], 0, ReplayOf(stop, now, replies, clock), max)]
  {
    hide FanoutStore.Valid, FanoutStore.Contents, Recorded, Attempted, Due;
    ghost var before := store.Contents();
    ghost var current, pass := before[claimed.id], ReplayOf(stop, now, replies, clock);
    var i := 0;
    while i < stop
      invariant 0 <= i <= stop
      invariant store.Valid() && EndsClean(store.journal)
      invariant store.Contents() == before[claimed.id := current] && current.id == claimed.id
      invariant PassFrom(claimed, current, i, pass, max) == PassFrom(claimed, before[claimed.id], 0, pass, max)
    {
      var mid := claimed.members[i].memberId;
      if Due(claimed, mid, ReplayOf(stop, now, replies, clock)) {
        var outcome := Attempted(claimed, mid, ReplayOf(stop, now, replies, clock), i, max);
        RecordAndUpdate(store, claimed.id, mid, outcome, clock(i));
        KeepsId(current, mid, outcome, clock(i));
        current := Recorded(current, mid, outcome, clock(i));
      }
      i := i + 1;
    }
  }

  /** The results of a publish request, recorded as they come in. */
  method PublishToGroup(store: FanoutStore, claimed: Command, pass: Pass, max: nat)
    requires store.Valid() && EndsClean(store.journal)
    requires !pass.waits && forall j :: 0 <= j < |pass.order| ==> pass.order[j] < |claimed.members|
    requires claimed.id in store.Contents() && store.Contents()[claimed.id].id == claimed.id
    modifies store
    ensures store.Valid() && EndsClean(store.journal)
    ensures store.Contents() == old(store.Contents())[claimed.id := PassFrom(claimed, old(store.Contents())[claimed.id], 0, pass, max)]
  {
    hide FanoutStore.Valid, FanoutStore.Contents, Recorded, Attempted, Due;
    ghost var before := store.Contents();
    ghost var current := before[claimed.id];
    var joined := 0;
    while joined < |pass.order|
      invariant 0 <= joined <= |pass.order|
      invariant store.Valid() && EndsClean(store.journal)
      invariant store.Contents() == before[claimed.id := current] && current.id == claimed.id
      invariant PassFrom(claimed, current, joined, pass, max) == PassFrom(claimed, before[claimed.id], 0, pass, max)
    {
      var p := pass.order[joined];
      var mid := claimed.members[p].memberId;
      if Due(claimed, mid, pass) {
        var outcome := Attempted(claimed, mid, pass, p, max);
        RecordAndUpdate(store, claimed.id, mid, outcome, pass.clock(p));
        KeepsId(current, mid, outcome, pass.clock(p));
        current := Recorded(current, mid, outcome, pass.clock(p));
      }
      joined := joined + 1;
    }
  }

  lemma KeepsId(current: Command, mid: Uuid, o: Outcome, at: Millis)
    ensures Recorded(current, mid, o, at).id == current.id && Recorded(current, mid, o, at).members == current.members
  {
  }

  /** From its `i`-th visit on, the execution records a result for this member. */
  ghost predicate Tries(claimed: Command, i: nat, pass: Pass, mid: Uuid) {
    Due(claimed, mid, pass) && exists j :: i <= j < |pass.order| && At(claimed, pass.order[j], mid)
  }

  predicate At(c: Command, p: nat, mid: Uuid) {
    p < |c.members| && c.members[p].memberId == mid
  }

  /** The outcome is what one of the visits to the member records. */
  ghost predicate OneOf(claimed: Command, i: nat, pass: Pass, max: nat, mid: Uuid, o: Outcome) {
    exists j :: i <= j < |pass.order| && At(claimed, pass.order[j], mid) && o == Attempted(claimed, mid, pass, pass.order[j], max)
  }

  /** Whatever the store holds by now, an execution replaces exactly the outcomes of the members
      it tries, each by one attempt counted from the command it claimed; nothing else changes. */
  lemma {:induction false} PassExactly(claimed: Command, current: Command, i: nat, pass: Pass, max: nat, mid: Uuid)
    requires i <= |pass.order|
    ensures var after := PassFrom(claimed, current, i, pass, max);
            && after.id == current.id && after.members == current.members
            && (!Tries(claimed, i, pass, mid) ==> SameOutcome(after, current, mid))
            && (Tries(claimed, i, pass, mid) ==> mid in after.outcomes && OneOf(claimed, i, pass, max, mid, after.outcomes[mid]))
    decreases |pass.order| - i
  {
    if i < |pass.order| {
      PassExactly(claimed, Visit(claimed, current, pass.order[i], pass, max), i + 1, pass, max, mid);
      hide Attempted;
    }
  }

  predicate SameOutcome(c: Command, c': Command, mid: Uuid) {
    (mid in c.outcomes <==> mid in c'.outcomes) && (mid in c.outcomes ==> c.outcomes[mid] == c'.outcomes[mid])
  }

  /** The n-th failed attempt of a member that an execution tries once sets the retry time: the wait
      after n attempts, counted from the replay's start or from the failure of a request's
      publish; it is the last one exactly when n is the limit or more. An answer ends it. */
  lemma RetryTime(claimed: Command, current: Command, pass: Pass, max: nat, p: nat)
    requires p < |claimed.members| && Tries(claimed, 0, pass, claimed.members[p].memberId)
    requires forall j :: 0 <= j < |pass.order| && At(claimed, pass.order[j], claimed.members[p].memberId) ==> pass.order[j] == p
    ensures var mid := claimed.members[p].memberId;
            var after := PassFrom(claimed, current, 0, pass, max);
            var n := SaturatingInc(if mid in claimed.outcomes then claimed.outcomes[mid].attempts else 0);
            && mid in after.outcomes && after.outcomes[mid].attempts == n && after.outcomes[mid].response == pass.replies(p)
            && (pass.replies(p).None? ==>
                  && after.outcomes[mid].nextAttemptAt == Some((if pass.waits then pass.now else pass.clock(p)) + Backoff(n))
                  && (after.outcomes[mid].terminal <==> n >= max) && after.outcomes[mid].error.Some?)
            && (pass.replies(p).Some? ==> after.outcomes[mid].nextAttemptAt.None? && !after.outcomes[mid].terminal && after.outcomes[mid].error.None?)
  {
    PassExactly(claimed, current, 0, pass, max, claimed.members[p].memberId);
    hide Backoff;
  }

  /** A replay leaves a member alone exactly when it is settled or its retry time is still ahead; a
      publish request leaves alone only the settled ones. */
  lemma TriedExactly(c: Command, pass: Pass, p: nat)
    requires p < |c.members| && p in pass.order
    ensures var mid := c.members[p].memberId;
            Tries(c, 0, pass, mid) <==>
            !(mid in c.outcomes && (c.outcomes[mid].response.Some? || c.outcomes[mid].terminal ||
                                    (pass.waits && c.outcomes[mid].nextAttemptAt.Some? && c.outcomes[mid].nextAttemptAt.value > pass.now)))
  {
    var j :| 0 <= j < |pass.order| && pass.order[j] == p;
    assert At(c, pass.order[j], c.members[p].memberId);
  }

  /** A settled member keeps its outcome through an execution that claimed the command since. */
  lemma SettledStays(c: Command, pass: Pass, max: nat, mid: Uuid)
    requires MemberSettled(c, mid)
    ensures SameOutcome(AfterPass(c, pass, max), c, mid)
  {
    PassExactly(c, c, 0, pass, max, mid);
  }

  /** A settled member stays settled exactly when the execution does not try it or, if it
      claimed the command before the member was settled, ends with an answer or the last
      attempt. */
  lemma StaleSettledExactly(claimed: Command, current: Command, pass: Pass, max: nat, p: nat)
    requires p < |claimed.members| && MemberSettled(current, claimed.members[p].memberId)
    requires forall j :: 0 <= j < |pass.order| && At(claimed, pass.order[j], claimed.members[p].memberId) ==> pass.order[j] == p
    ensures var mid := claimed.members[p].memberId;
            MemberSettled(PassFrom(claimed, current, 0, pass, max), mid) <==>
            (Tries(claimed, 0, pass, mid) ==> pass.replies(p).Some? || SaturatingInc(Attempts(claimed, mid)) >= max)
  {
    PassExactly(claimed, current, 0, pass, max, claimed.members[p].memberId);
  }

  /** It does fail: a replay claims a command, the request that still executes it records the
      member's delivery and ends, and the replay's own publish fails. The delivered member is
      unsettled again and the completed command is not. */
  lemma StaleClaimUndoes() returns (claimed: Command, current: Command, after: Command, request: Pass, replay: Pass)
    ensures claimed.outcomes == map[] && current == PassFrom(claimed, claimed, 0, request, 20) && current.completed
    ensures after == PassFrom(claimed, current, 0, replay, 20) && !after.completed && !AllSettled(after)
  {
    claimed := Command(1, "", "", 2, 0, 0, [Member(3, "")], map[], false, None);
    request := Pass([0], false, 0, (p: nat) => Some("ok"), (p: nat) => 5);
    replay := Pass([0], true, 0, (p: nat) => None, (p: nat) => 6);
    current, after := PassFrom(claimed, claimed, 0, request, 20), PassFrom(claimed, PassFrom(claimed, claimed, 0, request, 20), 0, replay, 20);
    var delivered := Recorded(claimed, 3, Attempted(claimed, 3, request, 0, 20), 5);
    assert current == delivered && AllSettled(delivered);
    var undone := Recorded(delivered, 3, Attempted(claimed, 3, replay, 0, 20), 6);
    assert after == undone;
    assert !MemberSettled(undone, undone.members[0].memberId);
  }

  /** This pass tries every member that is not settled. */
  ghost predicate FullPass(c: Command, pass: Pass) {
    forall k :: 0 <= k < |c.members| && !MemberSettled(c, c.members[k].memberId) ==> Tries(c, 0, pass, c.members[k].memberId)
  }

  /** Unsettled members have had at least `n` attempts and, once tried, fewer than the maximum. */
  predicate Tried(c: Command, n: nat, max: nat) {
    forall k :: 0 <= k < |c.members| && !MemberSettled(c, c.members[k].memberId) ==>
      n <= Attempts(c, c.members[k].memberId) && (n > 0 ==> Attempts(c, c.members[k].memberId) < max)
  }

  predicate FlagExact(c: Command) {
    c.completed <==> AllSettled(c)
  }

  lemma {:induction false} FlagKept(claimed: Command, current: Command, i: nat, pass: Pass, max: nat)
    requires i <= |pass.order| && FlagExact(current)
    ensures FlagExact(PassFrom(claimed, current, i, pass, max))
    decreases |pass.order| - i
  {
    if i < |pass.order| {
      var p := pass.order[i];
      if p < |claimed.members| {
        RecordedFlag(current, claimed.members[p].memberId, Attempted(claimed, claimed.members[p].memberId, pass, p, max), pass.clock(p));
      }
      hide Recorded, Attempted, Due, AllSettled;
      FlagKept(claimed, Visit(claimed, current, p, pass, max), i + 1, pass, max);
    }
  }

  lemma RecordedFlag(c: Command, mid: Uuid, o: Outcome, at: Millis)
    ensures var r := Recorded(c, mid, o, at); r.completed <==> AllSettled(r)
  {
    var noted := c.(outcomes := c.outcomes[mid := o], updatedAt := at);
    var r := Recorded(c, mid, o, at);
    assert r.members == noted.members && r.outcomes == noted.outcomes;
    assert forall k :: MemberSettled(noted, k) <==> MemberSettled(r, k);
  }

  lemma PassCounts(c: Command, pass: Pass, max: nat, n: nat, k: nat)
    requires 0 < max <= MAX_U32 && Tried(c, n, max) && k < |c.members|
    requires !MemberSettled(AfterPass(c, pass, max), c.members[k].memberId)
    ensures var m, a := if FullPass(c, pass) then n + 1 else n, Attempts(AfterPass(c, pass, max), c.members[k].memberId);
            m <= a && (m > 0 ==> a < max)
  {
    var mid := c.members[k].memberId;
    PassExactly(c, c, 0, pass, max, mid);
  }

  lemma PassTries(c: Command, pass: Pass, max: nat, n: nat)
    requires 0 < max <= MAX_U32 && Tried(c, n, max) && FlagExact(c)
    ensures Tried(AfterPass(c, pass, max), if FullPass(c, pass) then n + 1 else n, max)
    ensures FlagExact(AfterPass(c, pass, max)) && AfterPass(c, pass, max).members == c.members
  {
    var after := AfterPass(c, pass, max);
    FlagKept(c, c, 0, pass, max);
    PassExactly(c, c, 0, pass, max, 0);
    forall k | 0 <= k < |after.members| && !MemberSettled(after, after.members[k].memberId)
      ensures var m, a := if FullPass(c, pass) then n + 1 else n, Attempts(after, after.members[k].memberId); m <= a && (m > 0 ==> a < max)
    {
      hide FullPass, Attempts, AfterPass, FlagExact, Tried;
      PassCounts(c, pass, max, n, k);
    }
  }

  /** The command after these passes, each on the command the one before left. */
  function AfterPasses(c: Command, passes: seq<Pass>, max: nat): Command {
    if |passes| == 0 then c else AfterPass(AfterPasses(c, passes[..|passes| - 1], max), passes[|passes| - 1], max)
  }

  ghost function FullPasses(c: Command, passes: seq<Pass>, max: nat): nat {
    if |passes| == 0 then 0 else
      var earlier := passes[..|passes| - 1];
      FullPasses(c, earlier, max) + if FullPass(AfterPasses(c, earlier, max), passes[|passes| - 1]) then 1 else 0
  }

  lemma {:induction false} PassesTry(c: Command, passes: seq<Pass>, max: nat)
    requires 0 < max <= MAX_U32 && FlagExact(c)
    ensures Tried(AfterPasses(c, passes, max), FullPasses(c, passes, max), max)
    ensures FlagExact(AfterPasses(c, passes, max)) && AfterPasses(c, passes, max).members == c.members
    decreases |passes|
  {
    if |passes| > 0 {
      var earlier := passes[..|passes| - 1];
      PassesTry(c, earlier, max);
      hide Tried, FlagExact, AfterPass, FullPass;
      PassTries(AfterPasses(c, earlier, max), passes[|passes| - 1], max, FullPasses(c, earlier, max));
    }
  }

  lemma LimitSettles(c: Command, n: nat, max: nat, k: nat)
    requires 0 < max && Tried(c, n, max) && k < |c.members|
    ensures MemberSettled(c, c.members[k].memberId) || n < max
  {
  }

  /** However the publishes go and whatever other passes come between, cut short or not: from
      any command whose flag is right, whatever it has recorded so far, as many full passes as
      the attempt limit complete it. */
  lemma ReplaySettles(c: Command, passes: seq<Pass>, max: nat)
    requires 0 < max <= MAX_U32 && FlagExact(c) && FullPasses(c, passes, max) >= max
    ensures AllSettled(AfterPasses(c, passes, max)) && AfterPasses(c, passes, max).completed
  {
    PassesTry(c, passes, max);
    var after := AfterPasses(c, passes, max);
    forall k | 0 <= k < |after.members|
      ensures MemberSettled(after, after.members[k].memberId)
    {
      hide AfterPasses, FullPasses, Tried, MemberSettled;
      LimitSettles(after, FullPasses(c, passes, max), max, k);
    }
  }

  /** An accepted command has a right flag; by `FlagKept` no execution, however stale its claim, spoils it. */
  lemma AcceptedFlag(c: Command)
    requires |c.members| > 0 && c.outcomes == map[] && !c.completed
    ensures FlagExact(c)
  {
    assert !MemberSettled(c, c.members[0].memberId);
  }

  const MAX_BACKOFF: nat := 64000

  lemma BackoffBounded(attempts: nat)
    ensures 1000 <= Backoff(attempts) <= MAX_BACKOFF
  {
    assert Pow2(0) == 1 && Pow2(1) == 2 && Pow2(2) == 4 && Pow2(3) == 8;
    assert Pow2(4) == 16 && Pow2(5) == 32 && Pow2(6) == 64;
  }

  predicate WaitsUntil(c: Command, latest: Millis) {
    forall id :: id in c.outcomes && !OutcomeSettled(c.outcomes[id]) && c.outcomes[id].nextAttemptAt.Some? ==>
      c.outcomes[id].nextAttemptAt.value <= latest
  }

  /** Every retry time the pass can set is over by `now`. */
  predicate OverBy(pass: Pass, now: Millis) {
    forall j :: 0 <= j < |pass.order| ==> TimeOf(pass, pass.order[j]) + MAX_BACKOFF <= now
  }

  lemma PassWaits(c: Command, pass: Pass, max: nat, now: Millis)
    requires WaitsUntil(c, now) && OverBy(pass, now)
    ensures WaitsUntil(AfterPass(c, pass, max), now)
  {
    var after := AfterPass(c, pass, max);
    forall id | id in after.outcomes && !OutcomeSettled(after.outcomes[id]) && after.outcomes[id].nextAttemptAt.Some?
      ensures after.outcomes[id].nextAttemptAt.value <= now
    {
      PassExactly(c, c, 0, pass, max, id);
      BackoffBounded(SaturatingInc(Attempts(c, id)));
      hide Backoff, Due;
    }
  }

  lemma {:induction false} PassesWait(c: Command, passes: seq<Pass>, max: nat, now: Millis)
    requires WaitsUntil(c, now) && forall e :: 0 <= e < |passes| ==> OverBy(passes[e], now)
    ensures WaitsUntil(AfterPasses(c, passes, max), now)
    decreases |passes|
  {
    if |passes| > 0 {
      PassesWait(c, passes[..|passes| - 1], max, now);
      hide WaitsUntil, OverBy, AfterPass;
      PassWaits(AfterPasses(c, passes[..|passes| - 1], max), passes[|passes| - 1], max, now);
    }
  }

  /** The pass goes through all members, and is a request or comes after all retry times. */
  ghost predicate Rested(c: Command, earlier: seq<Pass>, pass: Pass) {
    && (forall k :: 0 <= k < |c.members| ==> k in pass.order)
    && (pass.waits ==> WaitsUntil(c, pass.now) && forall e :: 0 <= e < |earlier| ==> OverBy(earlier[e], pass.now))
  }

  ghost function RestedPasses(c: Command, passes: seq<Pass>): nat {
    if |passes| == 0 then 0 else
      var earlier := passes[..|passes| - 1];
      RestedPasses(c, earlier) + if Rested(c, earlier, passes[|passes| - 1]) then 1 else 0
  }

  lemma RestedIsFull(c: Command, earlier: seq<Pass>, pass: Pass, max: nat)
    requires 0 < max <= MAX_U32 && FlagExact(c) && Rested(c, earlier, pass)
    ensures FullPass(AfterPasses(c, earlier, max), pass)
  {
    PassesTry(c, earlier, max);
    if pass.waits { PassesWait(c, earlier, max, pass.now); }
    var now := AfterPasses(c, earlier, max);
    hide AfterPasses, OverBy, FullPasses, Tried;
    forall k | 0 <= k < |now.members| && !MemberSettled(now, now.members[k].memberId)
      ensures Tries(now, 0, pass, now.members[k].memberId)
    {
      assert k in pass.order;
      var j :| 0 <= j < |pass.order| && pass.order[j] == k;
      assert At(now, pass.order[j], now.members[k].memberId);
    }
  }

  lemma {:induction false} RestedCount(c: Command, passes: seq<Pass>, max: nat)
    requires 0 < max <= MAX_U32 && FlagExact(c)
    ensures RestedPasses(c, passes) <= FullPasses(c, passes, max)
    decreases |passes|
  {
    if |passes| > 0 {
      var earlier := passes[..|passes| - 1];
      RestedCount(c, earlier, max);
      hide FlagExact, FullPass, Rested, AfterPasses;
      if Rested(c, earlier, passes[|passes| - 1]) { RestedIsFull(c, earlier, passes[|passes| - 1], max); }
    }
  }

  /** A command is complete after as many uncut passes as the attempt limit, each a publish
      request or a replay later than every earlier pass by the longest backoff. */
  lemma SpacedReplaySettles(c: Command, passes: seq<Pass>, max: nat)
    requires 0 < max <= MAX_U32 && FlagExact(c) && RestedPasses(c, passes) >= max
    ensures AllSettled(AfterPasses(c, passes, max)) && AfterPasses(c, passes, max).completed
  {
    RestedCount(c, passes, max);
    ReplaySettles(c, passes, max);
  }
}
