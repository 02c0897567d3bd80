// The lease endpoints: a completion or failure names its record in full, is checked
// against the log and the shard's generation, lets go of its lease, and only then acts.
module LeaseApi {
  import opened Basics
  import opened Log
  import opened Claim
  import opened LeaseTable

  const RETRY_HOLD: Millis := 5000
  const MIN_RETRY: nat := 250

  datatype ApiError = NotLeader | Conflicting | Uncommitted | Missing | Failed

  /** What the caller says about the record it was leased. */
  datatype Identity = Identity(generation: nat, key: Key, messageId: Uuid, lane: Uuid)

  datatype Node = Node(broker: Broker, leads: set<nat>, generations: map<nat, nat>)

  function Generation(n: Node, partition: nat): nat {
    if partition in n.generations then n.generations[partition] else 0
  }

  /** The record exists, is committed, and has this id and lane. */
  predicate Recorded(b: Broker, x: Identity) {
    && x.key.partition in b.shards && x.key.offset < b.shards[x.key.partition].hwm
    && Message(x.key.offset, x.key.topic, x.lane, x.messageId) in b.shards[x.key.partition].log
  }

  predicate Current(n: Node, x: Identity) {
    x.key.partition in n.leads && x.generation == Generation(n, x.key.partition)
  }

  function ReadMessage(b: Broker, k: Key): Result<Message, ApiError> {
    if k.partition !in b.shards then Err(Missing) else
      var batch := ReadRange(b.shards[k.partition].log, k.offset, 1);
      if |batch| > 0 && batch[0].offset == k.offset && batch[0].topic == k.topic then Ok(batch[0]) else Err(Missing)
  }

  function ValidateToken(n: Node, x: Identity): Result<Message, ApiError> {
    var p := x.key.partition;
    if p !in n.leads then Err(NotLeader)
    else if x.generation != Generation(n, p) then Err(Conflicting)
    else if p !in n.broker.shards then Err(Missing)
    else if x.key.offset >= n.broker.shards[p].hwm then Err(Uncommitted)
    else
      match ReadMessage(n.broker, x.key)
      case Err(e) => Err(e)
      case Ok(m) => if m.id != x.messageId || m.lane != x.lane then Err(Conflicting) else Ok(m)
  }

  /** A token is accepted exactly when the node leads the shard under that generation and the
      committed record it names is the one in the log. */
  lemma TokenExactly(n: Node, x: Identity)
    requires WellFormed(n.broker)
    ensures ValidateToken(n, x).Ok? <==> Current(n, x) && Recorded(n.broker, x)
  {
    hide IndexFrom;
    var p := x.key.partition;
    if p in n.broker.shards {
      var log := n.broker.shards[p].log;
      var i := IndexFrom(log, x.key.offset);
      var m := Message(x.key.offset, x.key.topic, x.lane, x.messageId);
      if m in log { ReadsIt(log, m); }
      assert i < |log| ==> log[i..][0] == log[i];
    }
  }

  lemma ReadsIt(log: Log, m: Message)
    requires Ascending(log) && m in log
    ensures var i := IndexFrom(log, m.offset); i < |log| && log[i] == m
  {
    var i :| 0 <= i < |log| && log[i] == m;
    IndexFromIs(log, m.offset, i);
  }

  predicate Matches(job: Job, x: Identity) {
    job.generation == x.generation && job.key == x.key && job.messageId == x.messageId && job.lane == x.lane
  }

  datatype Resolution = Resolution(table: Leases, result: Result<Job, ApiError>)

  /** What a request finds under its lease id: its own lease, none, or one for something else. */
  datatype Finding = Own | Absent | Foreign

  function Find(t: Leases, id: Uuid, x: Identity): Finding {
    if id !in t.byId then Absent else if Matches(t.byId[id].job, x) then Own else Foreign
  }

  /** The job a request is taken to have when the table knows nothing of it. */
  function JobOf(n: Node, id: Uuid, x: Identity, later: Millis): Job {
    Job(id, x.key, x.messageId, later, x.generation,
        if x.key.partition in n.broker.shards then n.broker.shards[x.key.partition].hwm else 0, x.lane)
  }

  /** A request lets go of what is now under its lease id; without a lease it stands only if the
      offset is free. */
  function LetGo(n: Node, t: Leases, id: Uuid, holder: string, x: Identity, found: Finding, later: Millis): Resolution {
    var q := Purged(t, later);
    match found
    case Foreign => Resolution(t, Err(Conflicting))
    case Own =>
      Resolution(Performed(t, Withdraw(id, holder, later)),
                 if id !in q.byId then Err(Missing) else if !Holds(q, id, holder) then Err(Conflicting) else Ok(q.byId[id].job))
    case Absent => Resolution(q, if x.key in q.offsets then Err(Conflicting) else Ok(JobOf(n, id, x, later)))
  }

  /** All of it at once, as a request that runs alone does it. */
  function Resolve(n: Node, t: Leases, id: Uuid, holder: string, x: Identity, now: Millis, later: Millis): Resolution {
    match ValidateToken(n, x)
    case Err(e) => Resolution(t, Err(e))
    case Ok(_) =>
      var p := Purged(t, now);
      LetGo(n, p, id, holder, x, Find(p, id, x), later)
  }

  /** Nobody else holds the offset. */
  ghost predicate OwnOrFree(t: Leases, id: Uuid, holder: string, k: Key) {
    forall i :: i in t.byId && t.byId[i].job.key == k ==> i == id && t.byId[i].holder == holder
  }

  lemma LetGoKeeps(n: Node, t: Leases, id: Uuid, holder: string, x: Identity, found: Finding, later: Millis)
    requires Forward(t)
    ensures Forward(LetGo(n, t, id, holder, x, found, later).table)
  {
    ForwardKept(t, Purge(later));
    ForwardKept(t, Withdraw(id, holder, later));
    hide Forward, Purged, Performed;
  }

  /** What a request is let through with was under its own id and holder, or free; now nobody
      holds it. */
  lemma LetGoFrees(n: Node, t: Leases, id: Uuid, holder: string, x: Identity, found: Finding, later: Millis)
    requires Forward(t)
    ensures var r := LetGo(n, t, id, holder, x, found, later);
            r.result.Ok? ==>
              && r.result.value.leaseId == id && r.result.value.key !in r.table.offsets
              && OwnOrFree(Purged(t, later), id, holder, r.result.value.key)
  {
    ForwardKept(t, Purge(later));
  }

  lemma ResolveKeeps(n: Node, t: Leases, id: Uuid, holder: string, x: Identity, now: Millis, later: Millis)
    requires Forward(t)
    ensures Forward(Resolve(n, t, id, holder, x, now, later).table)
    ensures Forward(Purged(Purged(t, now), later))
  {
    ForwardKept(t, Purge(now));
    ForwardKept(Purged(t, now), Purge(later));
    hide ValidateToken, Forward, Purged, Released, LetGo;
    LetGoKeeps(n, Purged(t, now), id, holder, x, Find(Purged(t, now), id, x), later);
  }

  /** Whatever lease id is presented, a request is let through only for a current, committed
      record with that id and lane whose offset no other lease id or holder holds; and then
      nobody holds it. */
  lemma ResolveIsGuarded(n: Node, t: Leases, id: Uuid, holder: string, x: Identity, now: Millis, later: Millis)
    requires WellFormed(n.broker) && Forward(t)
    ensures var r := Resolve(n, t, id, holder, x, now, later);
            r.result.Ok? ==>
              && Current(n, x) && Recorded(n.broker, x) && Matches(r.result.value, x) && r.result.value.leaseId == id
              && OwnOrFree(Purged(Purged(t, now), later), id, holder, x.key)
              && x.key !in r.table.offsets
  {
    TokenExactly(n, x);
    ResolveKeeps(n, t, id, holder, x, now, later);
    hide ValidateToken, WellFormed, Recorded;
  }

  /** And it is let through whenever all of that holds and its lease has not run out. */
  lemma ResolveAdmits(n: Node, t: Leases, id: Uuid, holder: string, x: Identity, now: Millis, later: Millis)
    requires WellFormed(n.broker) && Inverse(t) && Current(n, x) && Recorded(n.broker, x)
    requires id in t.byId ==> Matches(t.byId[id].job, x) && !IsExpired(t.byId[id], now) && !IsExpired(t.byId[id], later)
    requires OwnOrFree(t, id, holder, x.key)
    ensures Resolve(n, t, id, holder, x, now, later).result.Ok?
  {
    TokenExactly(n, x);
    OperationKeeps(t, Purge(now));
    hide ValidateToken, WellFormed, Recorded;
  }

  datatype Verdict = Delivered | DeadLetter | Retry(after: nat)

  datatype Conclusion = Conclusion(table: Leases, acted: bool, result: Result<(), ApiError>)

  /** What follows once the lease is let go. `ok`: the cursor commit or the move to the
      dead-letter queue succeeded; one that failed may have gone part of the way. A failed or
      retried job is leased again, for a while. */
  function Conclude(t: Leases, holder: string, job: Job, verdict: Verdict, ok: bool, at: Millis): Conclusion {
    match verdict
    case Retry(after) =>
      var again := job.(expiresAt := at + (if after < MIN_RETRY then MIN_RETRY else after));
      Conclusion(Inserted(t, holder, again), false, if job.key in t.offsets then Err(Conflicting) else Ok(()))
    case _ =>
      if ok then Conclusion(t, true, Ok(()))
      else Conclusion(Inserted(t, holder, job.(expiresAt := at + RETRY_HOLD)), true, Err(Failed))
  }

  method ResolveCompletionJob(n: Node, table: Table, id: Uuid, holder: string, x: Identity, now: Millis, later: Millis)
    returns (r: Result<Job, ApiError>)
    modifies table
    ensures Resolution(table.Value(), r) == Resolve(n, old(table.Value()), id, holder, x, now, later)
  {
    hide Purged;
    var valid := ValidateToken(n, x);
    if valid.Err? { return Err(valid.error); }
    var existing := table.Get(id, now);
    if existing.Some? {
      if !Matches(existing.value, x) { return Err(Conflicting); }
      var taken := table.Take(id, holder, later);
      match taken {
        case Ok(job) => return Ok(job);
        case Err(e) => return Err(if e.NotFound? then Missing else Conflicting);
      }
    }
    var leased := table.IsOffsetLeased(x.key, later);
    if leased { return Err(Conflicting); }
    return Ok(Job(id, x.key, x.messageId, later, x.generation, n.broker.shards[x.key.partition].hwm, x.lane));
  }

  ghost predicate Guarded(n: Node, t: Leases, id: Uuid, holder: string, x: Identity) {
    Current(n, x) && Recorded(n.broker, x) && OwnOrFree(t, id, holder, x.key)
  }

  /** Completing, with no other request running: the cursor is touched only for a guarded request,
      and the table ends without the lease or, when the commit failed, with the offset held
      again. */
  method LeaseComplete(
    n: Node, table: Table, id: Uuid, holder: string, x: Identity, committed: bool, now: Millis, later: Millis, at: Millis)
    returns (r: Result<(), ApiError>, acted: bool)
    requires WellFormed(n.broker) && Forward(table.Value())
    modifies table
    ensures var res := Resolve(n, old(table.Value()), id, holder, x, now, later);
            if res.result.Err? then r == Err(res.result.error) && !acted && table.Value() == res.table
            else Conclusion(table.Value(), acted, r) == Conclude(res.table, holder, res.result.value, Delivered, committed, at)
    ensures acted ==> Guarded(n, Purged(Purged(old(table.Value()), now), later), id, holder, x)
    ensures r.Ok? <==> acted && committed
    ensures r.Ok? ==> x.key !in table.offsets
    ensures acted && !committed ==>
              x.key in table.offsets && table.offsets[x.key] == id && id in table.byId && table.byId[id].holder == holder &&
              Matches(table.byId[id].job, x) && table.byId[id].job.expiresAt == at + 5000
  {
    hide Resolve, Forward, WellFormed, OwnOrFree, Purged;
    ResolveIsGuarded(n, table.Value(), id, holder, x, now, later);
    var res := ResolveCompletionJob(n, table, id, holder, x, now, later);
    if res.Err? { return Err(res.error), false; }
    if !committed {
      var _ := table.TryInsert(holder, res.value.(expiresAt := at + RETRY_HOLD));
      return Err(Failed), true;
    }
    return Ok(()), true;
  }

  /** Failing, with no other request running: dead-lettered under the same guard, or held back for the retry delay. */
  method LeaseFail(
    n: Node, table: Table, id: Uuid, holder: string, x: Identity, deadLetter: bool, retryAfter: nat, moved: bool,
    now: Millis, later: Millis, at: Millis)
    returns (r: Result<(), ApiError>, acted: bool)
    requires WellFormed(n.broker) && Forward(table.Value())
    modifies table
    ensures var res := Resolve(n, old(table.Value()), id, holder, x, now, later);
            var verdict := if deadLetter then DeadLetter else Retry(retryAfter);
            if res.result.Err? then r == Err(res.result.error) && !acted && table.Value() == res.table
            else Conclusion(table.Value(), acted, r) == Conclude(res.table, holder, res.result.value, verdict, moved, at)
    ensures acted ==> deadLetter && Guarded(n, Purged(Purged(old(table.Value()), now), later), id, holder, x)
    ensures r.Ok? && deadLetter ==> x.key !in table.offsets
    ensures (r.Ok? && !deadLetter) || (acted && !moved) ==>
              x.key in table.offsets && table.offsets[x.key] == id && id in table.byId && table.byId[id].holder == holder &&
              Matches(table.byId[id].job, x) &&
              table.byId[id].job.expiresAt == at + (if deadLetter then 5000 else if retryAfter < 250 then 250 else retryAfter)
  {
    hide Resolve, Forward, WellFormed, OwnOrFree, Purged;
    ResolveIsGuarded(n, table.Value(), id, holder, x, now, later);
    var res := ResolveCompletionJob(n, table, id, holder, x, now, later);
    if res.Err? { return Err(res.error), false; }
    if deadLetter {
      if !moved {
        var _ := table.TryInsert(holder, res.value.(expiresAt := at + RETRY_HOLD));
        return Err(Failed), true;
      }
      return Ok(()), true;
    }
    var ok := table.TryInsert(holder, res.value.(expiresAt := at + (if retryAfter < MIN_RETRY then MIN_RETRY else retryAfter)));
    if !ok { return Err(Conflicting), false; }
    return Ok(()), false;
  }

  function Beaten(n: Node, t: Leases, id: Uuid, holder: string, ttl: Millis, now: Millis, later: Millis, at: Millis): Leases {
    var beat := Performed(t, Extend(id, holder, ttl, now, later));
    var p := Purged(t, now);
    if Holds(p, id, holder) && !IsExpired(p.byId[id], later) && !Serves(n, p.byId[id].job)
    then Performed(beat, Withdraw(id, holder, at)) else beat
  }

  /** The node still leads the job's shard under the job's generation. */
  predicate Serves(n: Node, job: Job) {
    job.generation == Generation(n, job.key.partition) && job.key.partition in n.leads
  }

  /** The lease is there and has not run out. */
  predicate Live(t: Leases, id: Uuid, now: Millis) {
    id in t.byId && t.byId[id].job.expiresAt > now
  }

  /** A lease of that holder, live at both readings of the clock. */
  predicate Beats(t: Leases, id: Uuid, holder: string, now: Millis, later: Millis) {
    Live(t, id, now) && Live(t, id, later) && t.byId[id].holder == holder
  }

  lemma PurgedExactly(t: Leases, id: Uuid, now: Millis)
    ensures id in Purged(t, now).byId <==> Live(t, id, now)
    ensures Live(t, id, now) ==> Purged(t, now).byId[id] == t.byId[id]
  {
  }

  /** What a heartbeat leaves: its own lease extended and nothing else changed but for leases that
      have run out; or, when its shard has moved on, its own lease and mark gone. */
  lemma BeatenExactly(n: Node, t: Leases, id: Uuid, holder: string, ttl: Millis, now: Millis, later: Millis, at: Millis)
    ensures var t' := Beaten(n, t, id, holder, ttl, now, later, at);
            && (Beats(t, id, holder, now, later) && Serves(n, t.byId[id].job) ==>
                  id in t'.byId && t'.byId[id] == Lease(t.byId[id].job.(expiresAt := later + ttl), holder))
            && (Beats(t, id, holder, now, later) && !Serves(n, t.byId[id].job) ==>
                  id !in t'.byId && t.byId[id].job.key !in t'.offsets)
            && (forall i :: i != id ==>
                  (i in t'.byId <==> Live(t, i, now) && (Beats(t, id, holder, now, later) && !Serves(n, t.byId[id].job) ==> Live(t, i, at))))
            && (forall i :: i != id && i in t'.byId ==> t'.byId[i] == t.byId[i])
  {
    hide Serves;
  }

  /** A heartbeat is answered with the job exactly when the holder's lease has not run out and the
      node leads its shard under its generation, and then the lease is extended; a lease whose
      shard has moved on is dropped with its mark; no other lease that has not run out changes. */
  method LeaseHeartbeat(n: Node, table: Table, id: Uuid, holder: string, ttl: Millis, now: Millis, later: Millis, at: Millis)
    returns (r: Result<Job, ApiError>)
    modifies table
    ensures table.Value() == Beaten(n, old(table.Value()), id, holder, ttl, now, later, at)
    ensures r.Ok? ==> Serves(n, r.value) && Holds(table.Value(), id, holder) && table.byId[id].job == r.value
    ensures r.Ok? <==> Beats(old(table.Value()), id, holder, now, later) && Serves(n, old(table.byId)[id].job)
    ensures r.Ok? ==> r.value == old(table.byId)[id].job.(expiresAt := later + ttl)
    ensures r == Err(Missing) <==> !Live(old(table.Value()), id, now)
    ensures r.Err? ==> r.error == Missing || r.error == Conflicting
    ensures Beats(old(table.Value()), id, holder, now, later) && !Serves(n, old(table.byId)[id].job) ==>
              id !in table.byId && old(table.byId)[id].job.key !in table.offsets
    ensures forall i :: i != id && i in table.byId ==> i in old(table.byId) && table.byId[i] == old(table.byId)[i]
    ensures forall i :: i != id && Live(old(table.Value()), i, now) && Live(old(table.Value()), i, at) ==> i in table.byId
  {
    BeatenExactly(n, table.Value(), id, holder, ttl, now, later, at);
    PurgedExactly(table.Value(), id, now);
    hide Purged, Beaten;
    var beat := table.Heartbeat(id, holder, ttl, now, later);
    match beat {
      case Err(e) => return Err(if e.NotFound? then Missing else Conflicting);
      case Ok(job) =>
        if job.generation != Generation(n, job.key.partition) || job.key.partition !in n.leads {
          var _ := table.Take(id, holder, at);
          return Err(Conflicting);
        }
        return Ok(job);
    }
  }
}
