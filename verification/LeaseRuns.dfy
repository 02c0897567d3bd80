// Runs of the lease endpoints: a request checks its token, looks its lease id up, lets go of
// what is then under that id, and acts, in four steps interleaved with claims, heartbeats,
// expiry, changes of leadership, restarts and other requests. Lease ids come from clients
// and may be anything.
module LeaseRuns {
  import opened Basics
  import opened Log
  import opened Claim
  import opened LeaseTable
  import opened LeaseApi

  datatype Call = Call(id: Uuid, holder: string, identity: Identity, verdict: Verdict)

  datatype Stage = Validated | LookedUp(found: Finding) | Resolved(job: Job)

  datatype Pending = Pending(request: Call, stage: Stage)

  datatype World = World(node: Node, table: Leases, pending: map<nat, Pending>, effects: set<Identity>)

  datatype Action =
    | Grant(holder: string, job: Job)
    | Touch(op: Operation) // a heartbeat's extension or withdrawal, or expiry
    | Begin(t: nat, request: Call)
    | LookUp(t: nat, now: Millis)
    | TakeOrCheck(t: nat, later: Millis)
    | Finish(t: nat, ok: bool, at: Millis)
    | Change(node: Node)
    | Restart

  /** Logs only grow and watermarks only rise. */
  predicate Grows(b: Broker, b': Broker) {
    forall p :: p in b.shards ==> p in b'.shards && b.shards[p].log <= b'.shards[p].log && b.shards[p].hwm <= b'.shards[p].hwm
  }

  function IdentityOf(job: Job): Identity {
    Identity(job.generation, job.key, job.messageId, job.lane)
  }

  /** Claims hand out jobs for committed records only. */
  lemma ClaimsAreRecorded(r: Claim.Request, job: Job)
    requires Justified(r, job)
    ensures Recorded(r.broker, IdentityOf(job))
  {
  }

  ghost predicate Enabled(w: World, a: Action) {
    match a
    case Grant(_, job) => Recorded(w.node.broker, IdentityOf(job))
    case Touch(op) => !op.Insert?
    case Begin(t, _) => t !in w.pending
    case LookUp(t, _) => t in w.pending && w.pending[t].stage.Validated?
    case TakeOrCheck(t, _) => t in w.pending && w.pending[t].stage.LookedUp?
    case Finish(t, _, _) => t in w.pending && w.pending[t].stage.Resolved?
    case Change(node) => WellFormed(node.broker) && Grows(w.node.broker, node.broker)
    case Restart => true
  }

  function LetGoBy(w: World, request: Call, found: Finding, later: Millis): Resolution {
    LetGo(w.node, w.table, request.id, request.holder, request.identity, found, later)
  }

  function ConcludedBy(w: World, p: Pending, ok: bool, at: Millis): Conclusion
    requires p.stage.Resolved?
  {
    Conclude(w.table, p.request.holder, p.stage.job, p.request.verdict, ok, at)
  }

  ghost function TableNext(w: World, a: Action): Leases
    requires Enabled(w, a)
  {
    match a
    case Grant(holder, job) => Inserted(w.table, holder, job)
    case Touch(op) => Performed(w.table, op)
    case LookUp(_, now) => Purged(w.table, now)
    case TakeOrCheck(t, later) => LetGoBy(w, w.pending[t].request, w.pending[t].stage.found, later).table
    case Finish(t, ok, at) => ConcludedBy(w, w.pending[t], ok, at).table
    case Restart => Leases(map[], map[])
    case _ => w.table
  }

  ghost function PendingNext(w: World, a: Action): map<nat, Pending>
    requires Enabled(w, a)
  {
    match a
    case Begin(t, request) =>
      if ValidateToken(w.node, request.identity).Ok? then w.pending[t := Pending(request, Validated)] else w.pending
    case LookUp(t, now) =>
      var request := w.pending[t].request;
      w.pending[t := Pending(request, LookedUp(Find(Purged(w.table, now), request.id, request.identity)))]
    case TakeOrCheck(t, later) =>
      var request := w.pending[t].request;
      var r := LetGoBy(w, request, w.pending[t].stage.found, later);
      if r.result.Ok? then w.pending[t := Pending(request, Resolved(r.result.value))] else w.pending - {t}
    case Finish(t, _, _) => w.pending - {t}
    case Restart => map[]
    case _ => w.pending
  }

  ghost function EffectsNext(w: World, a: Action): set<Identity>
    requires Enabled(w, a)
  {
    if a.Finish? && ConcludedBy(w, w.pending[a.t], a.ok, a.at).acted then w.effects + {IdentityOf(w.pending[a.t].stage.job)}
    else w.effects
  }

  ghost function Next(w: World, a: Action): World
    requires Enabled(w, a)
  {
    World(if a.Change? then a.node else w.node, TableNext(w, a), PendingNext(w, a), EffectsNext(w, a))
  }

  /** Every lease is on a committed record. */
  ghost predicate LeasesRecorded(b: Broker, t: Leases) {
    forall id :: id in t.byId ==> Recorded(b, IdentityOf(t.byId[id].job))
  }

  ghost predicate PendingOk(n: Node, p: Pending) {
    Recorded(n.broker, p.request.identity) && (p.stage.Resolved? ==> Recorded(n.broker, IdentityOf(p.stage.job)))
  }

  ghost predicate Invariant(w: World) {
    && WellFormed(w.node.broker) && Forward(w.table) && LeasesRecorded(w.node.broker, w.table)
    && (forall t :: t in w.pending ==> PendingOk(w.node, w.pending[t]))
    && (forall x :: x in w.effects ==> Recorded(w.node.broker, x))
  }

  /** The job a step puts into the table, if it puts one there. */
  ghost function Entered(w: World, a: Action): Option<Job>
    requires Enabled(w, a)
  {
    match a
    case Grant(_, job) => if job.key in w.table.offsets then None else Some(job)
    case Finish(t, ok, at) =>
      var p := w.pending[t];
      if (p.request.verdict.Retry? || !ok) && p.stage.job.key !in w.table.offsets then Some(Again(p, at)) else None
    case _ => None
  }

  /** The job that goes back into the table when a request ends. */
  function Again(p: Pending, at: Millis): Job
    requires p.stage.Resolved?
  {
    var verdict := p.request.verdict;
    p.stage.job.(expiresAt := at + if verdict.Retry? then (if verdict.after < MIN_RETRY then MIN_RETRY else verdict.after) else RETRY_HOLD)
  }

  lemma FinishTable(w: World, a: Action)
    requires a.Finish? && Enabled(w, a)
    ensures var p := w.pending[a.t];
            TableNext(w, a) == if p.request.verdict.Retry? || !a.ok then Inserted(w.table, p.request.holder, Again(p, a.at)) else w.table
  {
    hide Inserted;
  }

  /** No step but an insertion leaves anything new under an id. */
  lemma UnderStep(w: World, a: Action, id: Uuid)
    requires Enabled(w, a) && Forward(w.table)
    ensures var e := Entered(w, a);
            && (e.Some? && e.value.leaseId == id ==> id in TableNext(w, a).byId && TableNext(w, a).byId[id].job == e.value)
            && (!(e.Some? && e.value.leaseId == id) && id in TableNext(w, a).byId ==>
                  id in w.table.byId && IdentityOf(TableNext(w, a).byId[id].job) == IdentityOf(w.table.byId[id].job))
  {
    if a.Finish? { FinishTable(w, a); }
    hide Recorded, WellFormed, Grows, ConcludedBy, IsExpired;
  }

  lemma TableKept(w: World, a: Action)
    requires Forward(w.table) && Enabled(w, a)
    ensures Forward(TableNext(w, a))
  {
    hide WellFormed, Recorded, LetGo, Forward, Conclude, Inserted, Purged, Grows;
    match a
    case Grant(holder, job) => ForwardKept(w.table, Insert(holder, job));
    case Touch(op) => ForwardKept(w.table, op);
    case LookUp(_, now) => ForwardKept(w.table, Purge(now));
    case TakeOrCheck(t, later) =>
      var r := w.pending[t].request;
      LetGoKeeps(w.node, w.table, r.id, r.holder, r.identity, w.pending[t].stage.found, later);
    case Finish(t, ok, at) =>
      FinishTable(w, a);
      ForwardKept(w.table, Insert(w.pending[t].request.holder, Again(w.pending[t], at)));
    case Restart => assert Forward(Leases(map[], map[])) by { NoLeases(); }
    case _ =>
  }

  lemma NoLeases()
    ensures Forward(Leases(map[], map[])) && Inverse(Leases(map[], map[]))
  {
  }

  lemma RecordedStays(b: Broker, b': Broker, x: Identity)
    requires Recorded(b, x) && Grows(b, b')
    ensures Recorded(b', x)
  {
    var p := x.key.partition;
    var m := Message(x.key.offset, x.key.topic, x.lane, x.messageId);
    var i :| 0 <= i < |b.shards[p].log| && b.shards[p].log[i] == m;
    assert b'.shards[p].log[i] == m;
  }

  lemma GrowsOn(w: World, a: Action)
    requires Enabled(w, a)
    ensures Grows(w.node.broker, Next(w, a).node.broker)
  {
    hide TableNext, PendingNext, EffectsNext;
  }

  lemma EnteredRecorded(w: World, a: Action)
    requires Invariant(w) && Enabled(w, a)
    ensures Entered(w, a).Some? ==> Recorded(w.node.broker, IdentityOf(Entered(w, a).value))
  {
    hide Recorded, WellFormed, Grows, Forward;
    if a.Finish? { assert PendingOk(w.node, w.pending[a.t]); }
  }

  lemma LeasesStayRecorded(w: World, a: Action)
    requires Invariant(w) && Enabled(w, a)
    ensures LeasesRecorded(Next(w, a).node.broker, TableNext(w, a))
  {
    GrowsOn(w, a);
    EnteredRecorded(w, a);
    var b, t := Next(w, a).node.broker, TableNext(w, a);
    forall id | id in t.byId ensures Recorded(b, IdentityOf(t.byId[id].job)) {
      UnderStep(w, a, id);
      hide TableNext, PendingNext, EffectsNext, Recorded, WellFormed, Grows, Forward, Entered;
      RecordedStays(w.node.broker, b, IdentityOf(t.byId[id].job));
    }
  }

  /** What a request takes is a lease on a committed record, or the record it names. */
  lemma LetGoRecorded(w: World, request: Call, found: Finding, later: Millis)
    requires Forward(w.table) && LeasesRecorded(w.node.broker, w.table) && Recorded(w.node.broker, request.identity)
    ensures var r := LetGoBy(w, request, found, later); r.result.Ok? ==> Recorded(w.node.broker, IdentityOf(r.result.value))
  {
    hide Recorded, Forward;
  }

  lemma PendingKept(w: World, a: Action, t: nat)
    requires Invariant(w) && Enabled(w, a) && t in PendingNext(w, a)
    ensures PendingOk(Next(w, a).node, PendingNext(w, a)[t])
  {
    GrowsOn(w, a);
    if a.Begin? && t == a.t && t !in w.pending {
      TokenExactly(w.node, a.request.identity);
    }
    hide WellFormed, Recorded, ValidateToken, LetGoBy, Find, Purged, TableNext, EffectsNext, Forward, Grows;
    if t in w.pending {
      assert PendingOk(w.node, w.pending[t]);
      RecordedStays(w.node.broker, Next(w, a).node.broker, w.pending[t].request.identity);
      if w.pending[t].stage.Resolved? {
        RecordedStays(w.node.broker, Next(w, a).node.broker, IdentityOf(w.pending[t].stage.job));
      }
      if a.TakeOrCheck? && a.t == t { LetGoRecorded(w, w.pending[t].request, w.pending[t].stage.found, a.later); }
    }
  }

  lemma EffectsKept(w: World, a: Action, x: Identity)
    requires Invariant(w) && Enabled(w, a) && x in EffectsNext(w, a)
    ensures Recorded(Next(w, a).node.broker, x)
  {
    GrowsOn(w, a);
    hide WellFormed, Recorded, TableNext, PendingNext, Forward, Grows, Conclude;
    if a.Finish? { assert PendingOk(w.node, w.pending[a.t]); }
    RecordedStays(w.node.broker, Next(w, a).node.broker, x);
  }

  lemma StepKeeps(w: World, a: Action)
    requires Invariant(w) && Enabled(w, a)
    ensures Invariant(Next(w, a))
  {
    TableKept(w, a);
    LeasesStayRecorded(w, a);
    hide Forward, LeasesRecorded, Recorded, WellFormed, TableNext, PendingNext, EffectsNext, PendingOk, Grows;
    forall t | t in Next(w, a).pending ensures PendingOk(Next(w, a).node, Next(w, a).pending[t]) { PendingKept(w, a, t); }
    forall x | x in Next(w, a).effects ensures Recorded(Next(w, a).node.broker, x) { EffectsKept(w, a, x); }
  }

  ghost predicate Run(states: seq<World>, actions: seq<Action>) {
    && |states| == |actions| + 1
    && Invariant(states[0]) && states[0].pending == map[]
    && forall i :: 0 <= i < |actions| ==> Enabled(states[i], actions[i]) && states[i + 1] == Next(states[i], actions[i])
  }

  lemma {:induction false} RunKeeps(states: seq<World>, actions: seq<Action>, i: nat)
    requires Run(states, actions) && i <= |actions|
    ensures Invariant(states[i])
  {
    if i > 0 {
      RunKeeps(states, actions, i - 1);
      hide Invariant, Enabled, Next;
      StepKeeps(states[i - 1], actions[i - 1]);
    }
  }

  /** What is known of step `i` of a run. */
  lemma StepOf(states: seq<World>, actions: seq<Action>, i: nat)
    requires Run(states, actions) && i < |actions|
    ensures Invariant(states[i]) && Enabled(states[i], actions[i]) && states[i + 1] == Next(states[i], actions[i])
  {
    RunKeeps(states, actions, i);
    hide Invariant, Enabled, Next;
  }

  /** The request's token was accepted: current generation, committed record. */
  ghost predicate Asked(w: World, a: Action, t: nat, request: Call) {
    a == Begin(t, request) && Current(w.node, request.identity) && Recorded(w.node.broker, request.identity)
  }

  ghost predicate LookedUpBy(w: World, a: Action, t: nat, request: Call, found: Finding) {
    && a.LookUp? && a.t == t && t in w.pending && w.pending[t] == Pending(request, Validated)
    && found == Find(Purged(w.table, a.now), request.id, request.identity)
  }

  /** The request let go of `job`: no other lease id or holder held its offset, and now nobody does. */
  ghost predicate LetGoOf(w: World, a: Action, t: nat, request: Call, found: Finding, job: Job) {
    && a.TakeOrCheck? && a.t == t && t in w.pending && w.pending[t] == Pending(request, LookedUp(found))
    && LetGoBy(w, request, found, a.later).result == Ok(job) && job.leaseId == request.id
    && OwnOrFree(Purged(w.table, a.later), request.id, request.holder, job.key)
    && job.key !in LetGoBy(w, request, found, a.later).table.offsets
  }

  /** Which step brings a request to its stage. */
  ghost predicate StageSet(w: World, a: Action, t: nat, p: Pending) {
    match p.stage
    case Validated => Asked(w, a, t, p.request)
    case LookedUp(found) => LookedUpBy(w, a, t, p.request, found)
    case Resolved(job) => exists found :: LetGoOf(w, a, t, p.request, found, job)
  }

  lemma StepSets(w: World, a: Action, t: nat)
    requires Invariant(w) && Enabled(w, a) && t in PendingNext(w, a)
    ensures (t in w.pending && PendingNext(w, a)[t] == w.pending[t]) || StageSet(w, a, t, PendingNext(w, a)[t])
  {
    if a.Begin? && a.t == t { TokenExactly(w.node, a.request.identity); }
    if a.TakeOrCheck? && a.t == t { LetGoStep(w, a, t); }
    hide WellFormed, Recorded, ValidateToken, Find, Purged, TableNext, EffectsNext, Forward, LetGoBy, Grows, LetGoOf;
  }

  lemma LetGoStep(w: World, a: Action, t: nat)
    requires Forward(w.table) && Enabled(w, a) && a.TakeOrCheck? && a.t == t && t in PendingNext(w, a)
    ensures StageSet(w, a, t, PendingNext(w, a)[t])
  {
    var request, found := w.pending[t].request, w.pending[t].stage.found;
    LetGoFrees(w.node, w.table, request.id, request.holder, request.identity, found, a.later);
    hide Forward, LetGo, OwnOrFree, Purged;
    assert LetGoOf(w, a, t, request, found, PendingNext(w, a)[t].stage.job);
  }

  /** The step at which a pending request came to its present stage. */
  lemma {:induction false} StageSince(states: seq<World>, actions: seq<Action>, i: nat, t: nat) returns (j: nat)
    requires Run(states, actions) && i <= |actions| && t in states[i].pending
    ensures j < i && StageSet(states[j], actions[j], t, states[i].pending[t])
    ensures forall n :: j < n <= i ==> t in states[n].pending && states[n].pending[t] == states[i].pending[t]
  {
    PendingLater(states, actions, i, t);
    StepOf(states, actions, i - 1);
    StepSets(states[i - 1], actions[i - 1], t);
    assert |states| == |actions| + 1;
    hide Run, Invariant, Enabled, PendingNext, StageSet, TableNext, EffectsNext;
    if t in states[i - 1].pending && states[i].pending[t] == states[i - 1].pending[t] {
      j := StageSince(states, actions, i - 1, t);
    } else {
      j := i - 1;
    }
  }

  lemma PendingLater(states: seq<World>, actions: seq<Action>, i: nat, t: nat)
    requires Run(states, actions) && i <= |actions| && t in states[i].pending
    ensures i > 0
  {
    hide Invariant, Enabled, Next;
  }

  /** The three steps that brought a request to the point where it acts on `job`. */
  ghost predicate Path(states: seq<World>, actions: seq<Action>, v: nat, l: nat, k: nat, i: nat, t: nat, request: Call, found: Finding, job: Job)
    requires |states| == |actions| + 1
  {
    && v < l < k < i <= |actions|
    && Asked(states[v], actions[v], t, request)
    && LookedUpBy(states[l], actions[l], t, request, found)
    && LetGoOf(states[k], actions[k], t, request, found, job)
    && forall n :: v < n <= i ==> t in states[n].pending
  }

  lemma PathTo(states: seq<World>, actions: seq<Action>, i: nat, t: nat) returns (v: nat, l: nat, k: nat, found: Finding)
    requires Run(states, actions) && i <= |actions| && t in states[i].pending && states[i].pending[t].stage.Resolved?
    ensures Path(states, actions, v, l, k, i, t, states[i].pending[t].request, found, states[i].pending[t].stage.job)
  {
    k := StageSince(states, actions, i, t);
    found :| LetGoOf(states[k], actions[k], t, states[i].pending[t].request, found, states[i].pending[t].stage.job);
    l := StageSince(states, actions, k, t);
    v := StageSince(states, actions, l, t);
  }

  /** Step `i` completes or dead-letters the record of `job`, or sets out to. */
  ghost predicate ActsAt(states: seq<World>, actions: seq<Action>, i: nat, request: Call, job: Job)
    requires |states| == |actions| + 1
  {
    && i < |actions| && actions[i].Finish? && actions[i].t in states[i].pending
    && states[i].pending[actions[i].t] == Pending(request, Resolved(job)) && !request.verdict.Retry?
  }

  /** In every run, whatever ids are presented, a completion or dead-letter acts on a committed
      record. Its token was accepted under the generation then current, and later it let go of
      the offset it acts on, which no other lease id or holder held. It is the record the token
      names unless another one was put under its lease id between look-up and take. */
  lemma EffectsAreGuarded(states: seq<World>, actions: seq<Action>, i: nat, request: Call, job: Job)
    returns (v: nat, l: nat, k: nat, found: Finding)
    requires Run(states, actions) && ActsAt(states, actions, i, request, job)
    ensures Recorded(states[i].node.broker, IdentityOf(job)) && Recorded(states[i].node.broker, request.identity)
    ensures Path(states, actions, v, l, k, i, actions[i].t, request, found, job)
    ensures !Swapped(states, actions, l, k, request) ==> Matches(job, request.identity)
  {
    RunKeeps(states, actions, i);
    assert PendingOk(states[i].node, states[i].pending[actions[i].t]);
    v, l, k, found := PathTo(states, actions, i, actions[i].t);
    NamedExactly(states, actions, v, l, k, i, actions[i].t, request, found, job);
  }

  /** Between look-up and take, the last job put under the request's lease id is another record's. */
  ghost predicate Swapped(states: seq<World>, actions: seq<Action>, l: nat, k: nat, request: Call)
    requires |states| == |actions| + 1
  {
    exists n: nat, x :: LastPut(states, actions, l, n, k, request.id, x) && x != request.identity
  }

  /** The step puts a job for `x` under the id. */
  ghost predicate Puts(w: World, a: Action, id: Uuid, x: Identity) {
    Enabled(w, a) && Entered(w, a).Some? && Entered(w, a).value.leaseId == id && IdentityOf(Entered(w, a).value) == x
  }

  ghost predicate NonePut(states: seq<World>, actions: seq<Action>, l: nat, k: nat, id: Uuid)
    requires |states| == |actions| + 1
  {
    k <= |actions| && forall m, x :: l < m < k ==> !Puts(states[m], actions[m], id, x)
  }

  ghost predicate LastPut(states: seq<World>, actions: seq<Action>, l: nat, n: nat, k: nat, id: Uuid, x: Identity)
    requires |states| == |actions| + 1
  {
    l < n < k <= |actions| && Puts(states[n], actions[n], id, x) && NonePut(states, actions, n, k, id)
  }

  ghost predicate SameUnder(t: Leases, x: Identity, id: Uuid) {
    id in t.byId ==> IdentityOf(t.byId[id].job) == x
  }

  /** The step puts `x` under the id, or leaves at most what was there. */
  lemma StepUnder(w: World, a: Action, x: Identity, id: Uuid)
    requires Enabled(w, a) && Forward(w.table)
    requires Puts(w, a, id, x) || ((forall y :: !Puts(w, a, id, y)) && SameUnder(w.table, x, id))
    ensures SameUnder(TableNext(w, a), x, id)
  {
    UnderStep(w, a, id);
    var e := Entered(w, a);
    hide TableNext, Entered, Enabled, Forward;
    if e.Some? && e.value.leaseId == id { assert Puts(w, a, id, IdentityOf(e.value)); }
  }

  /** `x` was under the id after step `l` and nothing was put there before `k`, or `y` was, last. */
  ghost predicate Since(states: seq<World>, actions: seq<Action>, l: nat, n: nat, k: nat, id: Uuid, x: Identity, y: Identity)
    requires |states| == |actions| + 1
  {
    (NonePut(states, actions, l, k, id) && y == x) || LastPut(states, actions, l, n, k, id, y)
  }

  lemma RunStepUnder(states: seq<World>, actions: seq<Action>, k: nat, x: Identity, id: Uuid)
    requires Run(states, actions) && k < |actions|
    requires Puts(states[k], actions[k], id, x) || ((forall y :: !Puts(states[k], actions[k], id, y)) && SameUnder(states[k].table, x, id))
    ensures SameUnder(states[k + 1].table, x, id)
  {
    StepOf(states, actions, k);
    assert Forward(states[k].table);
    hide Run, Invariant, Enabled, Puts, SameUnder, TableNext, PendingNext, EffectsNext;
    StepUnder(states[k], actions[k], x, id);
  }

  /** What is under an id is what was last put there. */
  lemma {:induction false} UnderId(states: seq<World>, actions: seq<Action>, l: nat, k: nat, id: Uuid, x: Identity)
    returns (n: nat, y: Identity)
    requires |states| == |actions| + 1 && l < k <= |actions| && Run(states, actions) && SameUnder(states[l + 1].table, x, id)
    ensures SameUnder(states[k].table, y, id) && Since(states, actions, l, n, k, id, x, y)
  {
    hide Run, SameUnder, Puts, NonePut, LastPut, Since;
    if k == l + 1 {
      n, y := l, x;
      SinceStart(states, actions, l, id, x);
    } else {
      var w, a := states[k - 1], actions[k - 1];
      if z :| Puts(w, a, id, z) {
        n, y := k - 1, z;
        SinceNow(states, actions, l, k - 1, id, x, y);
      } else {
        n, y := UnderId(states, actions, l, k - 1, id, x);
        SinceStays(states, actions, l, n, k - 1, id, x, y);
      }
      RunStepUnder(states, actions, k - 1, y, id);
    }
  }

  lemma SinceStart(states: seq<World>, actions: seq<Action>, l: nat, id: Uuid, x: Identity)
    requires |states| == |actions| + 1 && l < |actions|
    ensures Since(states, actions, l, l, l + 1, id, x, x)
  {
    hide Puts;
  }

  lemma SinceNow(states: seq<World>, actions: seq<Action>, l: nat, k: nat, id: Uuid, x: Identity, y: Identity)
    requires |states| == |actions| + 1 && l < k < |actions| && Puts(states[k], actions[k], id, y)
    ensures Since(states, actions, l, k, k + 1, id, x, y)
  {
    hide Puts;
  }

  lemma SinceStays(states: seq<World>, actions: seq<Action>, l: nat, n: nat, k: nat, id: Uuid, x: Identity, y: Identity)
    requires |states| == |actions| + 1 && l < k < |actions| && forall z :: !Puts(states[k], actions[k], id, z)
    requires Since(states, actions, l, n, k, id, x, y)
    ensures Since(states, actions, l, n, k + 1, id, x, y)
  {
    hide Puts;
  }

  lemma OneLastPut(states: seq<World>, actions: seq<Action>, l: nat, k: nat, id: Uuid, n: nat, x: Identity, m: nat, y: Identity)
    requires |states| == |actions| + 1 && LastPut(states, actions, l, m, k, id, y)
    ensures !NonePut(states, actions, l, k, id)
    ensures LastPut(states, actions, l, n, k, id, x) ==> x == y
  {
    hide Entered, Enabled;
  }

  /** A request acts on the record its token names exactly when it found no lease, or nothing was
      put under its lease id between its look-up and its take but, last, that same record. */
  lemma NamedExactly(
    states: seq<World>, actions: seq<Action>, v: nat, l: nat, k: nat, i: nat, t: nat, request: Call, found: Finding, job: Job)
    requires |states| == |actions| + 1 && Run(states, actions) && Path(states, actions, v, l, k, i, t, request, found, job)
    ensures Matches(job, request.identity) <==> found.Absent? || !Swapped(states, actions, l, k, request)
  {
    hide Run, LookedUpBy, LetGoOf, Asked, SameUnder;
    TakenIs(states[k], actions[k], t, request, found, job);
    if found.Own? {
      FoundIs(states, actions, l, t, request, found);
      var n, y := UnderId(states, actions, l, k, request.id, request.identity);
      hide LastPut, NonePut;
      forall m: nat, x | LastPut(states, actions, l, m, k, request.id, x) ensures x == y {
        OneLastPut(states, actions, l, k, request.id, n, y, m, x);
      }
    }
  }

  lemma TakenIs(w: World, a: Action, t: nat, request: Call, found: Finding, job: Job)
    requires LetGoOf(w, a, t, request, found, job)
    ensures found.Own? ==> forall x :: SameUnder(w.table, x, request.id) ==> IdentityOf(job) == x
    ensures found.Absent? ==> Matches(job, request.identity)
    ensures !found.Foreign?
  {
    hide OwnOrFree;
  }

  lemma FoundIs(states: seq<World>, actions: seq<Action>, l: nat, t: nat, request: Call, found: Finding)
    requires Run(states, actions) && l < |actions| && LookedUpBy(states[l], actions[l], t, request, found)
    ensures found.Own? ==> SameUnder(states[l + 1].table, request.identity, request.id)
  {
    StepOf(states, actions, l);
    hide Run, Invariant, Enabled, PendingNext, EffectsNext, Purged;
  }

  /** A request whose steps follow one another directly acts on the record it names, under the
      current generation, and on an offset that nobody holds. */
  lemma PromptEffect(states: seq<World>, actions: seq<Action>, i: nat, request: Call, job: Job)
    requires Run(states, actions) && ActsAt(states, actions, i, request, job)
    requires i >= 3 && actions[i].t !in states[i - 3].pending
    ensures Matches(job, request.identity) && Current(states[i].node, request.identity)
    ensures Recorded(states[i].node.broker, request.identity) && job.key !in states[i].table.offsets
  {
    var v, l, k, found := EffectsAreGuarded(states, actions, i, request, job);
    assert v == i - 3 && l == i - 2 && k == i - 1;
    var n := LastChange(states, actions, v, i);
    FreeAfter(states, actions, k, actions[i].t, request, found, job);
    hide Run, LetGoOf, LookedUpBy, Puts, Recorded, Current, Matches;
  }

  lemma FreeAfter(states: seq<World>, actions: seq<Action>, k: nat, t: nat, request: Call, found: Finding, job: Job)
    requires Run(states, actions) && k < |actions| && LetGoOf(states[k], actions[k], t, request, found, job)
    ensures job.key !in states[k + 1].table.offsets
  {
    StepOf(states, actions, k);
    hide Run, Invariant, PendingNext, EffectsNext, OwnOrFree, LetGoBy;
  }

  /** A request whose steps are not interrupted does what the endpoints do at once: it is dropped at
      the token check, or ends resolved with that job, or is dropped with that table. */
  lemma AloneIsResolve(w: World, t: nat, request: Call, now: Millis, later: Millis) returns (asked: World, found: World, taken: World)
    requires t !in w.pending
    ensures var r := Resolve(w.node, w.table, request.id, request.holder, request.identity, now, later);
            && asked == Next(w, Begin(t, request))
            && (t !in asked.pending ==> asked == w && r.result.Err? && r.table == w.table)
            && (t in asked.pending ==>
                  && Enabled(asked, LookUp(t, now)) && found == Next(asked, LookUp(t, now))
                  && Enabled(found, TakeOrCheck(t, later)) && taken == Next(found, TakeOrCheck(t, later))
                  && taken.table == r.table
                  && taken.pending == (if r.result.Ok? then w.pending[t := Pending(request, Resolved(r.result.value))] else w.pending)
                  && taken.node == w.node && taken.effects == w.effects)
  {
    hide ValidateToken, Find, Purged, Matches;
    asked := Next(w, Begin(t, request));
    found, taken := asked, asked;
    if t in asked.pending {
      found := Next(asked, LookUp(t, now));
      hide LetGo;
      taken := Next(found, TakeOrCheck(t, later));
      assert found.pending == w.pending[t := found.pending[t]];
      assert w.pending[t := found.pending[t]] - {t} == w.pending;
    }
  }

  /** The step leases the offset, which was free, under this id. */
  ghost predicate Grants(w: World, w': World, k: Key, id: Uuid) {
    k !in w.table.offsets && k in w'.table.offsets && w'.table.offsets[k] == id
  }

  /** A lease once entered keeps its id until the offset is free again. */
  lemma OffsetStays(w: World, a: Action, k: Key)
    requires Enabled(w, a) && k in w.table.offsets && k in TableNext(w, a).offsets
    ensures TableNext(w, a).offsets[k] == w.table.offsets[k]
  {
    if a.Finish? { FinishTable(w, a); }
    hide ValidateToken, Matches, Holds, IsExpired, Recorded, WellFormed, Grows, ConcludedBy;
  }

  lemma RunOffsetStays(states: seq<World>, actions: seq<Action>, i: nat, k: Key)
    requires Run(states, actions) && i < |actions| && k in states[i].table.offsets && k in states[i + 1].table.offsets
    ensures states[i + 1].table.offsets[k] == states[i].table.offsets[k]
  {
    StepOf(states, actions, i);
    hide Run, Invariant, Enabled, TableNext, PendingNext, EffectsNext;
    OffsetStays(states[i], actions[i], k);
  }

  lemma {:induction false} LeasedSince(states: seq<World>, actions: seq<Action>, j: nat, i: nat, k: Key) returns (n: nat)
    requires |states| == |actions| + 1 && j <= i <= |actions| && Run(states, actions)
    requires k !in states[j].table.offsets && k in states[i].table.offsets
    ensures j <= n < i && Grants(states[n], states[n + 1], k, states[i].table.offsets[k])
  {
    hide Run;
    if k in states[i - 1].table.offsets {
      RunOffsetStays(states, actions, i - 1, k);
      n := LeasedSince(states, actions, j, i - 1, k);
    } else {
      n := i - 1;
    }
  }

  /** If the offset is held when the request acts, the holder's lease was entered after the
      request let go of it. */
  lemma HeldSinceTake(
    states: seq<World>, actions: seq<Action>, k: nat, i: nat, t: nat, request: Call, found: Finding, job: Job) returns (n: nat)
    requires Run(states, actions) && k < i <= |actions| && LetGoOf(states[k], actions[k], t, request, found, job)
    requires job.key in states[i].table.offsets
    ensures k < n < i && Grants(states[n], states[n + 1], job.key, states[i].table.offsets[job.key])
  {
    FreeAfter(states, actions, k, t, request, found, job);
    hide Run, LetGoOf;
    n := LeasedSince(states, actions, k + 1, i, job.key);
  }

  /** The last change of leadership in a stretch of a run, if there is one. */
  lemma {:induction false} LastChange(states: seq<World>, actions: seq<Action>, j: nat, i: nat) returns (n: nat)
    requires Run(states, actions) && j <= i <= |actions|
    ensures (n == i && states[i].node == states[j].node && forall m :: j <= m < i ==> !actions[m].Change?)
         || (j <= n < i && IsLastChange(actions, n, i) && states[i].node == actions[n].node)
  {
    hide Invariant, TableNext, PendingNext, EffectsNext, Enabled;
    if j == i {
      n := i;
    } else if actions[i - 1].Change? {
      n := i - 1;
    } else {
      var m := LastChange(states, actions, j, i - 1);
      assert states[i].node == states[i - 1].node;
      n := if m == i - 1 then i else m;
    }
  }

  ghost predicate IsLastChange(actions: seq<Action>, n: nat, i: nat) {
    n < i <= |actions| && actions[n].Change? && forall m :: n < m < i ==> !actions[m].Change?
  }

  /** The request acts under its own generation exactly when leadership has not changed since its
      token was accepted, or the last change left the node leading the shard under it. */
  lemma EffectCurrentExactly(states: seq<World>, actions: seq<Action>, v: nat, i: nat, t: nat, request: Call)
    requires Run(states, actions) && v < i <= |actions| && Asked(states[v], actions[v], t, request)
    ensures Current(states[i].node, request.identity) <==>
            (forall n :: v < n < i ==> !actions[n].Change?) ||
            (exists n :: v < n < i && IsLastChange(actions, n, i) && Current(actions[n].node, request.identity))
  {
    var n := LastChange(states, actions, v, i);
    hide Run, Current, Recorded;
    if n < i {
      assert n != v && forall m :: v < m < i && IsLastChange(actions, m, i) ==> m == n;
    }
  }

  /** A step that puts a job on a free offset under a lease id that is in use. */
  ghost predicate Reuses(w: World, a: Action)
    requires Enabled(w, a)
  {
    Entered(w, a).Some? && Entered(w, a).value.leaseId in w.table.byId
  }

  /** Leases and marks stay each other's inverse exactly as long as no step reuses a lease id. */
  lemma ReuseBreaksExactly(w: World, a: Action)
    requires Inverse(w.table) && Enabled(w, a)
    ensures Inverse(TableNext(w, a)) <==> !Reuses(w, a)
  {
    hide WellFormed, Recorded, LetGo, Inverse, Conclude, Inserted, Purged, Grows;
    match a
    case Grant(holder, job) => InsertKeepsExactly(w.table, holder, job);
    case Touch(op) => OperationKeeps(w.table, op);
    case LookUp(_, now) => OperationKeeps(w.table, Purge(now));
    case TakeOrCheck(_, _) => LetGoInverse(w, a);
    case Finish(t, ok, at) =>
      FinishTable(w, a);
      InsertKeepsExactly(w.table, w.pending[t].request.holder, Again(w.pending[t], at));
    case Restart => assert Inverse(Leases(map[], map[])) by { NoLeases(); }
    case _ =>
  }

  lemma LetGoInverse(w: World, a: Action)
    requires Inverse(w.table) && a.TakeOrCheck? && Enabled(w, a)
    ensures Inverse(TableNext(w, a))
  {
    OperationKeeps(w.table, Purge(a.later));
    OperationKeeps(w.table, Withdraw(w.pending[a.t].request.id, w.pending[a.t].request.holder, a.later));
    hide Inverse, Purged, Performed;
  }
}
