// The in-process table of leases: leases by id, and the offsets they hold.
module LeaseTable {
  import opened Basics

  datatype Key = Key(topic: string, partition: nat, offset: nat)

  datatype Job = Job(
    leaseId: Uuid,
    key: Key,
    messageId: Uuid,
    expiresAt: Millis,
    generation: nat,
    committedHwm: nat,
    lane: Uuid)

  datatype Lease = Lease(job: Job, holder: string)

  datatype LeaseError = NotFound(id: Uuid) | Conflict | Expired

  datatype Leases = Leases(byId: map<Uuid, Lease>, offsets: map<Key, Uuid>)

  /** Every lease has its offset marked under its own id. */
  ghost predicate Forward(t: Leases) {
    forall id :: id in t.byId ==> t.byId[id].job.leaseId == id && t.byId[id].job.key in t.offsets && t.offsets[t.byId[id].job.key] == id
  }

  /** The offset map is the inverse of the lease map. */
  ghost predicate Inverse(t: Leases) {
    && Forward(t)
    && (forall k :: k in t.offsets ==> t.offsets[k] in t.byId && t.byId[t.offsets[k]].job.key == k)
  }

  /** The offset is marked, yet no lease holds it. */
  ghost predicate Orphan(t: Leases, k: Key) {
    k in t.offsets && forall id :: id in t.byId ==> t.byId[id].job.key != k
  }

  function Inserted(t: Leases, holder: string, job: Job): Leases {
    if job.key in t.offsets then t
    else Leases(t.byId[job.leaseId := Lease(job, holder)], t.offsets[job.key := job.leaseId])
  }

  predicate IsExpired(lease: Lease, now: Millis) {
    lease.job.expiresAt <= now
  }

  function ExpiredIds(t: Leases, now: Millis): set<Uuid> {
    set id | id in t.byId && IsExpired(t.byId[id], now)
  }

  function Released(t: Leases, ids: set<Uuid>): Leases
    requires ids <= t.byId.Keys
  {
    Leases(t.byId - ids, t.offsets - (set id | id in ids :: t.byId[id].job.key))
  }

  function Purged(t: Leases, now: Millis): Leases {
    Released(t, ExpiredIds(t, now))
  }

  predicate Holds(t: Leases, id: Uuid, holder: string) {
    id in t.byId && t.byId[id].holder == holder
  }

  function Extended(t: Leases, id: Uuid, expiresAt: Millis): Leases
    requires id in t.byId
  {
    t.(byId := t.byId[id := t.byId[id].(job := t.byId[id].job.(expiresAt := expiresAt))])
  }

  datatype Operation =
    | Insert(holder: string, job: Job)
    | Extend(id: Uuid, holder: string, ttl: Millis, now: Millis, later: Millis)
    | Withdraw(id: Uuid, holder: string, now: Millis)
    | Purge(now: Millis)

  function Performed(t: Leases, op: Operation): Leases {
    match op
    case Insert(holder, job) => Inserted(t, holder, job)
    case Extend(id, holder, ttl, now, later) =>
      var p := Purged(t, now);
      if Holds(p, id, holder) && !IsExpired(p.byId[id], later) then Extended(p, id, later + ttl) else p
    case Withdraw(id, holder, now) =>
      var p := Purged(t, now);
      if Holds(p, id, holder) then Released(p, {id}) else p
    case Purge(now) => Purged(t, now)
  }

  lemma ReleaseKeeps(t: Leases, ids: set<Uuid>)
    requires Inverse(t) && ids <= t.byId.Keys
    ensures Inverse(Released(t, ids))
  {
  }

  lemma ExtendKeeps(t: Leases, id: Uuid, expiresAt: Millis)
    requires Inverse(t) && id in t.byId
    ensures Inverse(Extended(t, id, expiresAt))
  {
  }

  /** An insert keeps the maps inverse exactly when the offset is already leased or the lease
      id is not in use; an id in use leaves the old lease's offset marked without a lease. */
  lemma InsertKeepsExactly(t: Leases, holder: string, job: Job)
    requires Inverse(t)
    ensures Inverse(Inserted(t, holder, job)) <==> job.key in t.offsets || job.leaseId !in t.byId
    ensures job.key !in t.offsets && job.leaseId in t.byId ==> Orphan(Inserted(t, holder, job), t.byId[job.leaseId].job.key)
  {
    var t' := Inserted(t, holder, job);
    if job.key !in t.offsets && job.leaseId in t.byId {
      var k := t.byId[job.leaseId].job.key;
      assert k in t'.offsets && t'.offsets[k] == job.leaseId && t'.byId[job.leaseId].job.key != k;
    }
  }

  /** With any ids at all, no operation leaves a lease without its mark. */
  lemma ForwardKept(t: Leases, op: Operation)
    requires Forward(t)
    ensures Forward(Performed(t, op))
  {
    match op
    case Insert(holder, job) =>
    case Purge(now) => ForwardReleased(t, ExpiredIds(t, now));
    case Extend(id, holder, ttl, now, later) => ForwardReleased(t, ExpiredIds(t, now));
    case Withdraw(id, holder, now) =>
      ForwardReleased(t, ExpiredIds(t, now));
      var p := Purged(t, now);
      if Holds(p, id, holder) { ForwardReleased(p, {id}); }
  }

  lemma ForwardReleased(t: Leases, ids: set<Uuid>)
    requires Forward(t) && ids <= t.byId.Keys
    ensures Forward(Released(t, ids))
  {
  }

  ghost predicate FreshId(t: Leases, op: Operation) {
    op.Insert? ==> op.job.leaseId !in t.byId
  }

  lemma OperationKeeps(t: Leases, op: Operation)
    requires Inverse(t) && FreshId(t, op)
    ensures Inverse(Performed(t, op))
  {
    hide Inverse, Released, Extended;
    match op
    case Insert(holder, job) => InsertKeepsExactly(t, holder, job);
    case Extend(id, holder, ttl, now, later) =>
      ReleaseKeeps(t, ExpiredIds(t, now));
      var p := Purged(t, now);
      if Holds(p, id, holder) { ExtendKeeps(p, id, later + ttl); }
    case Withdraw(id, holder, now) =>
      ReleaseKeeps(t, ExpiredIds(t, now));
      var p := Purged(t, now);
      if Holds(p, id, holder) { ReleaseKeeps(p, {id}); }
    case Purge(now) => ReleaseKeeps(t, ExpiredIds(t, now));
  }

  /** An orphaned mark is there for good: nothing unmarks it and no claim can take it. */
  lemma OrphanStays(t: Leases, op: Operation, k: Key)
    requires Orphan(t, k)
    ensures Orphan(Performed(t, op), k)
    ensures op.Insert? && op.job.key == k ==> Performed(t, op) == t
  {
  }

  ghost predicate Run(states: seq<Leases>, ops: seq<Operation>) {
    && |states| == |ops| + 1
    && states[0] == Leases(map[], map[])
    && forall i :: 0 <= i < |ops| ==> states[i + 1] == Performed(states[i], ops[i])
  }

  /** With fresh lease ids, in every run the offset map is the inverse of the lease map. */
  lemma {:induction false} RunKeeps(states: seq<Leases>, ops: seq<Operation>, i: nat)
    requires Run(states, ops) && i <= |ops| && forall j :: 0 <= j < |ops| ==> FreshId(states[j], ops[j])
    ensures Inverse(states[i])
  {
    if i > 0 {
      RunKeeps(states, ops, i - 1);
      OperationKeeps(states[i - 1], ops[i - 1]);
    }
  }

  /** So no offset ever has two leases, and no offset stays marked without one. */
  lemma OneLeasePerOffset(states: seq<Leases>, ops: seq<Operation>, i: nat, k: Key)
    requires Run(states, ops) && i <= |ops| && forall j :: 0 <= j < |ops| ==> FreshId(states[j], ops[j])
    ensures k in states[i].offsets <==> exists id :: id in states[i].byId && states[i].byId[id].job.key == k
    ensures forall id, id' | id in states[i].byId && id' in states[i].byId ::
              states[i].byId[id].job.key == states[i].byId[id'].job.key ==> id == id'
    ensures !Orphan(states[i], k)
  {
    RunKeeps(states, ops, i);
  }

  /** With any ids, an orphan left at some point is still there at every later one. */
  lemma {:induction false} OrphanForever(states: seq<Leases>, ops: seq<Operation>, i: nat, j: nat, k: Key)
    requires Run(states, ops) && i <= j <= |ops| && Orphan(states[i], k)
    ensures Orphan(states[j], k)
  {
    if i < j {
      OrphanForever(states, ops, i, j - 1, k);
      OrphanStays(states[j - 1], ops[j - 1], k);
    }
  }

  class Table {
    var byId: map<Uuid, Lease>
    var offsets: map<Key, Uuid>

    function Value(): Leases
      reads this
    {
      Leases(byId, offsets)
    }

    constructor ()
      ensures Value() == Leases(map[], map[])
    {
      byId, offsets := map[], map[];
    }

    method PurgeExpired(now: Millis)
      modifies this
      ensures Value() == Purged(old(Value()), now)
      ensures Value() == Performed(old(Value()), Purge(now))
    {
      var expired := set id | id in byId && IsExpired(byId[id], now);
      ghost var before := Value();
      ghost var done: set<Uuid> := {};
      var left := expired;
      while left != {}
        invariant left + done == expired && left !! done
        invariant expired <= before.byId.Keys && Value() == Released(before, done)
        decreases left
      {
        var id :| id in left;
        var key := byId[id].job.key;
        byId, offsets := byId - {id}, offsets - {key};
        ReleaseOne(before, done, id);
        left, done := left - {id}, done + {id};
      }
      assert done == expired;
    }

    method Get(id: Uuid, now: Millis) returns (r: Option<Job>)
      modifies this
      ensures Value() == Performed(old(Value()), Purge(now))
      ensures r == if id in byId then Some(byId[id].job) else None
    {
      PurgeExpired(now);
      if id in byId { return Some(byId[id].job); }
      return None;
    }

    method IsOffsetLeased(k: Key, now: Millis) returns (leased: bool)
      modifies this
      ensures Value() == Performed(old(Value()), Purge(now))
      ensures leased <==> k in offsets
    {
      PurgeExpired(now);
      leased := k in offsets;
    }

    method TryInsert(holder: string, job: Job) returns (ok: bool)
      modifies this
      ensures Value() == Performed(old(Value()), Insert(holder, job))
      ensures ok <==> job.key !in old(offsets)
      ensures ok ==> Holds(Value(), job.leaseId, holder) && offsets[job.key] == job.leaseId && byId[job.leaseId].job == job
    {
      if job.key in offsets { return false; }
      offsets := offsets[job.key := job.leaseId];
      byId := byId[job.leaseId := Lease(job, holder)];
      return true;
    }

    method Heartbeat(id: Uuid, holder: string, ttl: Millis, now: Millis, later: Millis) returns (r: Result<Job, LeaseError>)
      modifies this
      ensures Value() == Performed(old(Value()), Extend(id, holder, ttl, now, later))
      ensures r.Ok? ==> Holds(Value(), id, holder) && r.value == byId[id].job && r.value.expiresAt == later + ttl
      ensures var p := Purged(old(Value()), now);
              && (r == Err(NotFound(id)) <==> id !in p.byId)
              && (r == Err(Conflict) <==> id in p.byId && p.byId[id].holder != holder)
              && (r == Err(Expired) <==> Holds(p, id, holder) && IsExpired(p.byId[id], later))
              && (r.Ok? <==> Holds(p, id, holder) && !IsExpired(p.byId[id], later))
    {
      PurgeExpired(now);
      if id !in byId { return Err(NotFound(id)); }
      if byId[id].holder != holder { return Err(Conflict); }
      if byId[id].job.expiresAt <= later { return Err(Expired); }
      byId := byId[id := byId[id].(job := byId[id].job.(expiresAt := later + ttl))];
      return Ok(byId[id].job);
    }

    method Take(id: Uuid, holder: string, now: Millis) returns (r: Result<Job, LeaseError>)
      modifies this
      ensures Value() == Performed(old(Value()), Withdraw(id, holder, now))
      ensures var p := Purged(old(Value()), now);
              && (r == Err(NotFound(id)) <==> id !in p.byId)
              && (r == Err(Conflict) <==> id in p.byId && p.byId[id].holder != holder)
              && (Holds(p, id, holder) ==> r == Ok(p.byId[id].job) && id !in byId)
    {
      PurgeExpired(now);
      if id !in byId { return Err(NotFound(id)); }
      var entry := byId[id];
      byId := byId - {id};
      if entry.holder != holder {
        byId := byId[id := entry];
        return Err(Conflict);
      }
      offsets := offsets - {entry.job.key};
      return Ok(entry.job);
    }
  }

  lemma ReleaseOne(t: Leases, ids: set<Uuid>, id: Uuid)
    requires ids <= t.byId.Keys && id in t.byId && id !in ids
    ensures Released(t, ids + {id}) ==
            Leases(Released(t, ids).byId - {id}, Released(t, ids).offsets - {t.byId[id].job.key})
  {
    var keys := set i | i in ids + {id} :: t.byId[i].job.key;
    assert keys == (set i | i in ids :: t.byId[i].job.key) + {t.byId[id].job.key};
  }
}
