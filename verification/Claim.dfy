// Claiming work: a paged scan of the led partitions that leases every deliverable
// offset it meets until the limit is reached.
module Claim {
  import opened Basics
  import opened Log
  import opened Cursor
  import opened LeaseTable

  const MAX_JOBS: nat := 64
  const MIN_TTL: Millis := 5000

  datatype Shard = Shard(log: Log, end: nat, hwm: nat)

  datatype LaneKey = LaneKey(lane: Uuid, partition: nat)

  /** What a claim reads of the broker; a partition without a shard answers with an error. */
  datatype Broker = Broker(partitions: nat, shards: map<nat, Shard>, cursors: map<LaneKey, nat>, completions: map<LaneKey, set<nat>>)

  ghost predicate WellFormed(b: Broker) {
    forall p :: p in b.shards ==> Ascending(b.shards[p].log) && forall m :: m in b.shards[p].log ==> m.offset < b.shards[p].end
  }

  /** One claim: the request, the node's view of leadership, and the source of lease ids. */
  datatype Request = Request(
    broker: Broker,
    holder: string,
    maxJobs: nat,
    ttl: Millis,
    filter: Option<nat>,
    leads: nat -> bool,
    generation: nat -> nat,
    now: Millis,
    ids: nat -> Uuid)

  function Limit(r: Request): nat {
    if r.maxJobs < 1 then 1 else if r.maxJobs > MAX_JOBS then MAX_JOBS else r.maxJobs
  }

  function Expiry(r: Request): Millis {
    r.now + (if r.ttl < MIN_TTL then MIN_TTL else r.ttl)
  }

  predicate IsDlqTopic(topic: string) {
    |topic| >= 6 && topic[|topic| - 6..] == ".__dlq"
  }

  predicate Finished(b: Broker, m: Message, partition: nat) {
    var k := LaneKey(m.lane, partition);
    Complete(if k in b.cursors then b.cursors[k] else 0, if k in b.completions then b.completions[k] else {}, m.offset)
  }

  /** Below its lane's cursor on the partition, or with a completion key there. */
  lemma FinishedExactly(b: Broker, m: Message, partition: nat)
    ensures var k := LaneKey(m.lane, partition);
            Finished(b, m, partition) <==>
            m.offset < (if k in b.cursors then b.cursors[k] else 0) || (k in b.completions && m.offset in b.completions[k])
  {
  }

  lemma DlqTopicExactly(topic: string)
    ensures IsDlqTopic(topic) <==> exists source :: topic == source + ".__dlq"
  {
    if IsDlqTopic(topic) {
      assert topic == topic[..|topic| - 6] + ".__dlq";
    }
  }

  predicate Scanned(r: Request, partition: nat) {
    partition < r.broker.partitions && (r.filter.Some? ==> r.filter.value == partition) && r.leads(partition) && partition in r.broker.shards
  }

  /** A message a claim may hand out: committed, led, of no dead-letter topic, and not
      finished on its lane. */
  predicate Eligible(r: Request, topic: string, partition: nat, m: Message) {
    && !IsDlqTopic(topic) && Scanned(r, partition)
    && m in r.broker.shards[partition].log && m.topic == topic
    && m.offset < r.broker.shards[partition].hwm && !Finished(r.broker, m, partition)
  }

  function JobFor(r: Request, partition: nat, m: Message, id: Uuid): Job
    requires partition in r.broker.shards
  {
    Job(id, Key(m.topic, partition, m.offset), m.id, Expiry(r), r.generation(partition), r.broker.shards[partition].hwm, m.lane)
  }

  /** The job stands for a message that could be claimed, under the current generation. */
  ghost predicate Justified(r: Request, job: Job) {
    exists m :: Eligible(r, job.key.topic, job.key.partition, m) && job == JobFor(r, job.key.partition, m, job.leaseId)
  }

  /** What a job says: the offset, id and lane of a committed record on a partition the node leads,
      that partition's generation and watermark, and an expiry of at least five seconds. */
  lemma JobSays(r: Request, job: Job)
    requires Justified(r, job)
    ensures var p := job.key.partition;
            && r.leads(p) && p < r.broker.partitions && p in r.broker.shards && (r.filter.Some? ==> p == r.filter.value)
            && Message(job.key.offset, job.key.topic, job.lane, job.messageId) in r.broker.shards[p].log
            && !(exists source :: job.key.topic == source + ".__dlq")
            && job.key.offset < r.broker.shards[p].hwm == job.committedHwm && job.generation == r.generation(p)
            && job.expiresAt == r.now + (if r.ttl < 5000 then 5000 else r.ttl)
    ensures Limit(r) == if r.maxJobs == 0 then 1 else if r.maxJobs > 64 then 64 else r.maxJobs
  {
    var m :| Eligible(r, job.key.topic, job.key.partition, m) && job == JobFor(r, job.key.partition, m, job.leaseId);
    assert m == Message(job.key.offset, job.key.topic, job.lane, job.messageId);
    DlqTopicExactly(job.key.topic);
  }

  ghost predicate FreshIds(r: Request, t: Leases, drawn: nat) {
    && (forall n :: n >= drawn ==> r.ids(n) !in t.byId)
    && (forall n, n' :: r.ids(n) == r.ids(n') ==> n == n')
  }

  predicate Leased(t: Leases, holder: string, job: Job) {
    job.leaseId in t.byId && t.byId[job.leaseId] == Lease(job, holder)
  }

  ghost predicate Distinct(jobs: seq<Job>) {
    forall i, j :: 0 <= i < j < |jobs| ==> jobs[i].key != jobs[j].key
  }

  ghost predicate Among(jobs: seq<Job>, k: Key) {
    exists i :: 0 <= i < |jobs| && jobs[i].key == k
  }

  /** The table `t` is `t0` with exactly these jobs added, all of them justified. */
  ghost predicate Added(r: Request, t0: Leases, t: Leases, jobs: seq<Job>) {
    && |jobs| <= Limit(r) && Distinct(jobs)
    && (forall i :: 0 <= i < |jobs| ==> Justified(r, jobs[i]) && Leased(t, r.holder, jobs[i]) && jobs[i].key !in t0.offsets)
    && (forall k :: k in t.offsets <==> k in t0.offsets || Among(jobs, k))
    && (forall id :: id in t0.byId ==> id in t.byId && t.byId[id] == t0.byId[id])
    && (Inverse(t0) ==> Inverse(t))
  }

  lemma AddOne(r: Request, t0: Leases, t: Leases, jobs: seq<Job>, job: Job)
    requires Added(r, t0, t, jobs) && |jobs| < Limit(r) && Justified(r, job)
    requires job.key !in t.offsets && job.leaseId !in t.byId
    ensures Added(r, t0, Inserted(t, r.holder, job), jobs + [job])
  {
    hide Inverse, Justified;
    InsertFresh(t, r.holder, job);
    var t', jobs' := Inserted(t, r.holder, job), jobs + [job];
    forall i | 0 <= i < |jobs| ensures jobs[i].key != job.key {
      assert Among(jobs, jobs[i].key);
    }
    forall k | k in t'.offsets ensures k in t0.offsets || Among(jobs', k) {
      if k == job.key {
        assert jobs'[|jobs|].key == k;
      } else if k !in t0.offsets {
        var i :| 0 <= i < |jobs| && jobs[i].key == k;
        assert jobs'[i].key == k;
      }
    }
  }

  lemma InsertFresh(t: Leases, holder: string, job: Job)
    requires job.key !in t.offsets && job.leaseId !in t.byId
    ensures Inverse(t) ==> Inverse(Inserted(t, holder, job))
  {
    if Inverse(t) { InsertKeepsExactly(t, holder, job); }
  }

  /** Every claimable message of the topic below `high` is leased to someone. */
  ghost predicate Covered(r: Request, t: Leases, topic: string, partition: nat, high: nat) {
    forall m :: Eligible(r, topic, partition, m) && m.offset < high ==> Key(topic, partition, m.offset) in t.offsets
  }

  /** Nothing of the topic is left to claim on this partition. */
  ghost predicate Exhausted(r: Request, t: Leases, topic: string, partition: nat) {
    forall m :: Eligible(r, topic, partition, m) ==> Key(topic, partition, m.offset) in t.offsets
  }

  ghost predicate PageCovered(r: Request, t: Leases, topic: string, partition: nat, page: Log, n: nat)
    requires n <= |page|
  {
    forall i :: 0 <= i < n && Eligible(r, topic, partition, page[i]) ==> Key(topic, partition, page[i].offset) in t.offsets
  }

  function Later(a: nat, b: nat): nat {
    if a < b then b else a
  }

  /** Where reading goes on: after the page, or past the watermark the page crosses. */
  predicate PageEnd(shard: Shard, page: Log, next: nat)
    requires |page| > 0
  {
    var last := page[|page| - 1].offset;
    next == last + 1 || (last >= shard.hwm && next >= shard.hwm)
  }

  /** One page. `full`: the limit was reached before the page ended. */
  method ClaimPage(
    r: Request, table: Table, topic: string, partition: nat, from: nat, page: Log, jobs0: seq<Job>, drawn0: nat, ghost t0: Leases)
    returns (jobs: seq<Job>, drawn: nat, next: nat, full: bool)
    requires !IsDlqTopic(topic) && Scanned(r, partition) && Ascending(page)
    requires forall m :: m in page ==> m in r.broker.shards[partition].log && m.topic == topic && m.offset >= from
    requires Added(r, t0, table.Value(), jobs0) && FreshIds(r, table.Value(), drawn0)
    modifies table
    ensures Added(r, t0, table.Value(), jobs) && FreshIds(r, table.Value(), drawn)
    ensures old(table.offsets).Keys <= table.offsets.Keys
    ensures full ==> |jobs| == Limit(r)
    ensures !full && |page| > 0 ==> from < next && PageEnd(r.broker.shards[partition], page, next)
    ensures !full ==> PageCovered(r, table.Value(), topic, partition, page, |page|)
  {
    hide Added, Justified, Inverse, Finished;
    jobs, drawn, next, full := jobs0, drawn0, from, false;
    var hwm := r.broker.shards[partition].hwm;
    var i := 0;
    while i < |page|
      invariant 0 <= i <= |page|
      invariant next == if i == 0 then from else page[i - 1].offset + 1
      invariant Added(r, t0, table.Value(), jobs) && FreshIds(r, table.Value(), drawn)
      invariant old(table.offsets).Keys <= table.offsets.Keys
      invariant PageCovered(r, table.Value(), topic, partition, page, i)
    {
      var m := page[i];
      assert m in page;
      next := Later(next, m.offset + 1);
      if |jobs| >= Limit(r) {
        AddedFits(r, t0, table.Value(), jobs);
        return jobs, drawn, next, true;
      }
      if m.offset >= hwm { break; }
      var lane := LaneKey(m.lane, partition);
      var cursor := if lane in r.broker.cursors then r.broker.cursors[lane] else 0;
      var completed := lane in r.broker.completions && m.offset in r.broker.completions[lane];
      assert Finished(r.broker, m, partition) <==> m.offset < cursor || completed by { FinishedExactly(r.broker, m, partition); }
      if !(m.offset < cursor || completed) {
        var job := JobFor(r, partition, m, r.ids(drawn));
        ghost var t := table.Value();
        var ok := table.TryInsert(r.holder, job);
        drawn := drawn + 1;
        if ok {
          assert Justified(r, job) by { MessageJustifies(r, topic, partition, m, job); }
          AddOne(r, t0, t, jobs, job);
          jobs := jobs + [job];
        }
      }
      i := i + 1;
    }
  }

  lemma AddedFits(r: Request, t0: Leases, t: Leases, jobs: seq<Job>)
    requires Added(r, t0, t, jobs)
    ensures |jobs| <= Limit(r)
  {
  }

  lemma MessageJustifies(r: Request, topic: string, partition: nat, m: Message, job: Job)
    requires Eligible(r, topic, partition, m) && job == JobFor(r, partition, m, job.leaseId)
    ensures Justified(r, job)
  {
  }

  /** A page that holds all it reaches settles everything up to its end. */
  lemma PageSettles(r: Request, t: Leases, topic: string, partition: nat, from: nat, page: Log, next: nat)
    requires WellFormed(r.broker) && Scanned(r, partition) && |page| > 0
    requires page == Take(TopicFrom(r.broker.shards[partition].log, topic, from), PAGE)
    requires Covered(r, t, topic, partition, from) && PageCovered(r, t, topic, partition, page, |page|)
    requires PageEnd(r.broker.shards[partition], page, next)
    ensures next < r.broker.shards[partition].hwm ==> Covered(r, t, topic, partition, next)
    ensures |page| < PAGE || next >= r.broker.shards[partition].hwm ==> Exhausted(r, t, topic, partition)
  {
    hide TopicFrom, Take, Finished, IsDlqTopic;
    var shard := r.broker.shards[partition];
    PageOf(shard.log, topic, from, page);
    forall m | Eligible(r, topic, partition, m) && (m.offset < from || Reaches(page, m.offset))
      ensures Key(topic, partition, m.offset) in t.offsets
    {
      if m.offset >= from {
        assert m in page;
        var i :| 0 <= i < |page| && page[i] == m;
      }
    }
  }

  lemma NothingToRead(r: Request, t: Leases, topic: string, partition: nat, from: nat)
    requires WellFormed(r.broker) && Scanned(r, partition) && Covered(r, t, topic, partition, from)
    requires Take(TopicFrom(r.broker.shards[partition].log, topic, from), PAGE) == [] || from >= r.broker.shards[partition].hwm
    ensures Exhausted(r, t, topic, partition)
  {
    hide TopicFrom, Finished, IsDlqTopic;
    TopicFromMembers(r.broker.shards[partition].log, topic, from);
  }

  method ClaimPartition(
    r: Request, table: Table, topic: string, partition: nat, jobs0: seq<Job>, drawn0: nat, ghost t0: Leases)
    returns (jobs: seq<Job>, drawn: nat, full: bool)
    requires WellFormed(r.broker) && !IsDlqTopic(topic) && Scanned(r, partition)
    requires Added(r, t0, table.Value(), jobs0) && FreshIds(r, table.Value(), drawn0)
    modifies table
    ensures Added(r, t0, table.Value(), jobs) && FreshIds(r, table.Value(), drawn)
    ensures old(table.offsets).Keys <= table.offsets.Keys
    ensures full ==> |jobs| == Limit(r)
    ensures !full ==> Exhausted(r, table.Value(), topic, partition)
  {
    hide Added, FreshIds, Eligible, TopicFrom, Take, PageCovered, Ascending;
    jobs, drawn, full := jobs0, drawn0, false;
    var shard := r.broker.shards[partition];
    var from := 0;
    while from < shard.hwm
      invariant Added(r, t0, table.Value(), jobs) && FreshIds(r, table.Value(), drawn)
      invariant old(table.offsets).Keys <= table.offsets.Keys
      invariant Covered(r, table.Value(), topic, partition, from)
      decreases shard.hwm - from
    {
      var page := ListTopicMessagesFrom(shard.log, shard.end, topic, from, PAGE);
      if |page| == 0 {
        NothingToRead(r, table.Value(), topic, partition, from);
        return;
      }
      PageOf(shard.log, topic, from, page);
      var next;
      jobs, drawn, next, full := ClaimPage(r, table, topic, partition, from, page, jobs, drawn, t0);
      if full { return; }
      PageSettles(r, table.Value(), topic, partition, from, page, next);
      if |page| < PAGE || next >= shard.hwm { return; }
      from := next;
    }
    NothingToRead(r, table.Value(), topic, partition, from);
  }

  /** The whole claim: at most the clamped limit of distinct offsets, each justified and now
      leased to the holder; and if fewer, every claimable offset is leased. */
  method ClaimFromBroker(r: Request, table: Table, topics: seq<string>) returns (jobs: seq<Job>)
    requires WellFormed(r.broker) && FreshIds(r, table.Value(), 0)
    modifies table
    ensures Added(r, old(table.Value()), table.Value(), jobs)
    ensures |jobs| < Limit(r) ==>
              forall topic, partition, m | topic in topics && Eligible(r, topic, partition, m) :: Key(topic, partition, m.offset) in table.offsets
  {
    jobs := [];
    ghost var t0 := table.Value();
    assert Added(r, t0, t0, jobs);
    hide Added, FreshIds, Exhausted, WellFormed;
    var drawn, full := 0, false;
    var i := 0;
    while i < |topics|
      invariant 0 <= i <= |topics| && Added(r, t0, table.Value(), jobs) && FreshIds(r, table.Value(), drawn)
      invariant forall k, p: nat :: 0 <= k < i ==> Exhausted(r, table.Value(), topics[k], p)
    {
      ghost var t := table.Value();
      jobs, drawn, full := ClaimTopic(r, table, topics[i], jobs, drawn, t0);
      if full { return; }
      forall k, p: nat | 0 <= k < i ensures Exhausted(r, table.Value(), topics[k], p) {
        ExhaustedStays(r, t, table.Value(), topics[k], p);
      }
      i := i + 1;
    }
    forall topic, partition, m | topic in topics && Eligible(r, topic, partition, m)
      ensures Key(topic, partition, m.offset) in table.offsets
    {
      var k :| 0 <= k < |topics| && topics[k] == topic;
      assert Exhausted(r, table.Value(), topics[k], partition);
      ExhaustedHolds(r, table.Value(), topic, partition, m);
    }
  }

  lemma ExhaustedStays(r: Request, t: Leases, t': Leases, topic: string, partition: nat)
    requires Exhausted(r, t, topic, partition) && t.offsets.Keys <= t'.offsets.Keys
    ensures Exhausted(r, t', topic, partition)
  {
  }

  lemma ExhaustedHolds(r: Request, t: Leases, topic: string, partition: nat, m: Message)
    requires Exhausted(r, t, topic, partition) && Eligible(r, topic, partition, m)
    ensures Key(topic, partition, m.offset) in t.offsets
  {
  }

  lemma NotScanned(r: Request, t: Leases, topic: string, partition: nat)
    requires IsDlqTopic(topic) || !Scanned(r, partition)
    ensures Exhausted(r, t, topic, partition)
  {
  }

  method ClaimTopic(r: Request, table: Table, topic: string, jobs0: seq<Job>, drawn0: nat, ghost t0: Leases)
    returns (jobs: seq<Job>, drawn: nat, full: bool)
    requires WellFormed(r.broker) && Added(r, t0, table.Value(), jobs0) && FreshIds(r, table.Value(), drawn0)
    modifies table
    ensures Added(r, t0, table.Value(), jobs) && FreshIds(r, table.Value(), drawn)
    ensures old(table.offsets).Keys <= table.offsets.Keys
    ensures full ==> |jobs| == Limit(r)
    ensures !full ==> forall p: nat :: Exhausted(r, table.Value(), topic, p)
  {
    hide Added, FreshIds, Exhausted, WellFormed;
    jobs, drawn, full := jobs0, drawn0, false;
    if IsDlqTopic(topic) {
      forall p: nat ensures Exhausted(r, table.Value(), topic, p) {
        NotScanned(r, table.Value(), topic, p);
      }
      return;
    }
    var partition := 0;
    while partition < r.broker.partitions
      invariant 0 <= partition <= r.broker.partitions
      invariant Added(r, t0, table.Value(), jobs) && FreshIds(r, table.Value(), drawn)
      invariant old(table.offsets).Keys <= table.offsets.Keys
      invariant forall p :: 0 <= p < partition ==> Exhausted(r, table.Value(), topic, p)
    {
      var wanted := r.filter.None? || r.filter.value == partition;
      if wanted && r.leads(partition) && partition in r.broker.shards {
        ghost var t := table.Value();
        jobs, drawn, full := ClaimPartition(r, table, topic, partition, jobs, drawn, t0);
        if full { return; }
        forall p | 0 <= p < partition ensures Exhausted(r, table.Value(), topic, p) {
          ExhaustedStays(r, t, table.Value(), topic, p);
        }
      } else {
        NotScanned(r, table.Value(), topic, partition);
      }
      partition := partition + 1;
    }
    forall p: nat ensures Exhausted(r, table.Value(), topic, p) {
      if p >= r.broker.partitions { NotScanned(r, table.Value(), topic, p); }
    }
  }
}
