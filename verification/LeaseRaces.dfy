// Two races between lease requests: one takes what another put under its lease id, one acts
// after its offset has gone to someone else.
module LeaseRaces {
  import opened Basics
  import opened Log
  import opened Claim
  import opened LeaseTable
  import opened LeaseApi
  import opened LeaseRuns

  ghost predicate RunTo(states: seq<World>, actions: seq<Action>, start: Node, w: World) {
    |states| == |actions| + 1 && LeaseRuns.Run(states, actions) && states[0] == World(start, NONE, map[], {}) && states[|actions|] == w
  }

  /** Some run from an empty table ends in `w`. */
  ghost predicate Reachable(start: Node, w: World) {
    exists states, actions :: RunTo(states, actions, start, w)
  }

  const NONE := Leases(map[], map[])

  lemma ReachStart(start: Node)
    requires WellFormed(start.broker)
    ensures Reachable(start, World(start, NONE, map[], {}))
  {
    hide WellFormed, Next, Enabled;
    assert RunTo([World(start, NONE, map[], {})], [], start, World(start, NONE, map[], {}));
  }

  lemma ReachStep(start: Node, w: World, a: Action)
    requires Reachable(start, w) && Enabled(w, a)
    ensures Reachable(start, Next(w, a))
  {
    hide Next, Enabled, Invariant;
    var states, actions :| RunTo(states, actions, start, w);
    assert RunTo(states + [Next(w, a)], actions + [a], start, Next(w, a));
  }

  function TwoRecords(): Node {
    Node(Broker(1, map[0 := Shard([Message(0, "q", 7, 9), Message(1, "q", 7, 8)], 2, 2)], map[], map[]), {0}, map[])
  }

  function RecordKey(o: nat): Key {
    Key("q", 0, o)
  }

  function RecordIdentity(o: nat): Identity
    requires o < 2
  {
    Identity(0, RecordKey(o), 9 - o, 7)
  }

  function RecordJob(o: nat, expiresAt: Millis): Job
    requires o < 2
  {
    Job(5, RecordKey(o), 9 - o, expiresAt, 0, 2, 7)
  }

  /** Worker "a" reports on record `o`, always under lease id 5. */
  function Report(o: nat, verdict: Verdict): Call
    requires o < 2
  {
    Call(5, "a", RecordIdentity(o), verdict)
  }

  function At(o: nat, verdict: Verdict, stage: Stage): Pending
    requires o < 2
  {
    Pending(Report(o, verdict), stage)
  }

  lemma TwoRecordsFit(o: nat)
    requires o < 2
    ensures WellFormed(TwoRecords().broker) && ValidateToken(TwoRecords(), RecordIdentity(o)).Ok?
  {
    var n, x := TwoRecords(), RecordIdentity(o);
    assert Message(0, "q", 7, 9) in n.broker.shards[0].log && Message(1, "q", 7, 8) in n.broker.shards[0].log;
    assert WellFormed(n.broker) && Current(n, x) && Recorded(n.broker, x);
    TokenExactly(n, x);
  }

  lemma Begins(start: Node, w: World, t: nat, request: Call)
    requires Reachable(start, w) && t !in w.pending && ValidateToken(w.node, request.identity).Ok?
    ensures Reachable(start, w.(pending := w.pending[t := Pending(request, Validated)]))
  {
    hide ValidateToken, Reachable;
    ReachStep(start, w, Begin(t, request));
    assert Next(w, Begin(t, request)) == w.(pending := w.pending[t := Pending(request, Validated)]);
  }

  lemma Looks(start: Node, w: World, t: nat, request: Call, found: Finding)
    requires Reachable(start, w) && t in w.pending && w.pending[t] == Pending(request, Validated)
    requires Purged(w.table, 0) == w.table && found == Find(w.table, request.id, request.identity)
    ensures Reachable(start, w.(pending := w.pending[t := Pending(request, LookedUp(found))]))
  {
    hide Reachable, Purged, Find;
    ReachStep(start, w, LookUp(t, 0));
    assert Next(w, LookUp(t, 0)) == w.(pending := w.pending[t := Pending(request, LookedUp(found))]);
  }

  lemma Takes(start: Node, w: World, t: nat, request: Call, found: Finding, table: Leases, job: Job)
    requires Reachable(start, w) && t in w.pending && w.pending[t] == Pending(request, LookedUp(found))
    requires LetGo(w.node, w.table, request.id, request.holder, request.identity, found, 0) == Resolution(table, Ok(job))
    ensures Reachable(start, w.(table := table, pending := w.pending[t := Pending(request, Resolved(job))]))
  {
    hide Reachable, LetGo;
    ReachStep(start, w, TakeOrCheck(t, 0));
    assert Next(w, TakeOrCheck(t, 0)) == w.(table := table, pending := w.pending[t := Pending(request, Resolved(job))]);
  }

  lemma UnknownTables(o: nat)
    requires o < 2
    ensures Purged(NONE, 0) == NONE && Find(NONE, 5, RecordIdentity(o)) == Absent
    ensures LetGo(TwoRecords(), NONE, 5, "a", RecordIdentity(o), Absent, 0) == Resolution(NONE, Ok(RecordJob(o, 0)))
  {
    assert Purged(NONE, 0) == NONE;
  }

  /** With an empty table any lease id is taken at its word. */
  lemma UnknownIdResolves(w: World, t: nat, o: nat, verdict: Verdict)
    requires o < 2 && w.node == TwoRecords() && w.table == NONE && t !in w.pending && Reachable(TwoRecords(), w)
    ensures Reachable(TwoRecords(), w.(pending := w.pending[t := At(o, verdict, Resolved(RecordJob(o, 0)))]))
  {
    hide Reachable, Purged, LetGo, Find, WellFormed, ValidateToken, TwoRecords;
    TwoRecordsFit(o);
    UnknownTables(o);
    var request := Report(o, verdict);
    Begins(TwoRecords(), w, t, request);
    var v := w.(pending := w.pending[t := Pending(request, Validated)]);
    Looks(TwoRecords(), v, t, request, Absent);
    var l := w.(pending := w.pending[t := Pending(request, LookedUp(Absent))]);
    assert l == v.(pending := v.pending[t := Pending(request, LookedUp(Absent))]);
    Takes(TwoRecords(), l, t, request, Absent, NONE, RecordJob(o, 0));
    assert w.(pending := w.pending[t := At(o, verdict, Resolved(RecordJob(o, 0)))])
        == l.(table := NONE, pending := l.pending[t := Pending(request, Resolved(RecordJob(o, 0)))]);
  }

  /** A resolved retry puts its record back under lease id 5. */
  lemma PutsBack(w: World, t: nat, o: nat)
    requires o < 2 && t in w.pending && w.pending[t] == At(o, Retry(0), Resolved(RecordJob(o, 0)))
    requires RecordKey(o) !in w.table.offsets && Reachable(TwoRecords(), w)
    ensures Reachable(TwoRecords(),
              w.(table := Leases(w.table.byId[5 := Lease(RecordJob(o, 250), "a")], w.table.offsets[RecordKey(o) := 5]), pending := w.pending - {t}))
  {
    hide Reachable;
    ReachStep(TwoRecords(), w, Finish(t, true, 0));
    assert Next(w, Finish(t, true, 0)) ==
      w.(table := Leases(w.table.byId[5 := Lease(RecordJob(o, 250), "a")], w.table.offsets[RecordKey(o) := 5]), pending := w.pending - {t});
  }

  function Resolved0(): Pending {
    At(0, Retry(0), Resolved(RecordJob(0, 0)))
  }

  function Resolved1(): Pending {
    At(1, Retry(0), Resolved(RecordJob(1, 0)))
  }

  /** The table with lease id 5 on record 0 only, and after record 1 was put under it too. */
  function OneBack(): Leases {
    Leases(map[5 := Lease(RecordJob(0, 250), "a")], map[RecordKey(0) := 5])
  }

  function BothBack(): Leases {
    Leases(map[5 := Lease(RecordJob(1, 250), "a")], map[RecordKey(0) := 5, RecordKey(1) := 5])
  }

  lemma BothResolved()
    ensures Reachable(TwoRecords(), World(TwoRecords(), NONE, map[0 := Resolved0(), 1 := Resolved1()], {}))
  {
    TwoRecordsFit(0);
    hide WellFormed, ValidateToken, Reachable, TwoRecords;
    ReachStart(TwoRecords());
    var w0 := World(TwoRecords(), NONE, map[], {});
    UnknownIdResolves(w0, 0, 0, Retry(0));
    var w1 := World(TwoRecords(), NONE, map[0 := Resolved0()], {});
    assert w1 == w0.(pending := w0.pending[0 := Resolved0()]);
    UnknownIdResolves(w1, 1, 1, Retry(0));
    assert w1.pending[1 := Resolved1()] == map[0 := Resolved0(), 1 := Resolved1()];
  }

  lemma FirstBack()
    ensures Reachable(TwoRecords(), World(TwoRecords(), OneBack(), map[1 := Resolved1()], {}))
  {
    BothResolved();
    hide Reachable, TwoRecords;
    var w2 := World(TwoRecords(), NONE, map[0 := Resolved0(), 1 := Resolved1()], {});
    PutsBack(w2, 0, 0);
    assert w2.pending - {0} == map[1 := Resolved1()];
    assert OneBack() == Leases(w2.table.byId[5 := Lease(RecordJob(0, 250), "a")], w2.table.offsets[RecordKey(0) := 5]);
  }

  lemma SecondBack(w: World)
    requires w.node == TwoRecords() && w.table == OneBack() && 1 in w.pending && w.pending[1] == Resolved1() && Reachable(TwoRecords(), w)
    ensures Reachable(TwoRecords(), w.(table := BothBack(), pending := w.pending - {1}))
  {
    hide Reachable, TwoRecords;
    PutsBack(w, 1, 1);
    assert BothBack() == Leases(w.table.byId[5 := Lease(RecordJob(1, 250), "a")], w.table.offsets[RecordKey(1) := 5]);
  }

  /** It does happen at the endpoints: after a restart a worker gives back two offsets under one
      lease id at the same time, and the first stays marked with no lease to expire. */
  lemma ReusedIdOrphans() returns (w: World)
    ensures Reachable(TwoRecords(), w) && Orphan(w.table, RecordKey(0))
  {
    FirstBack();
    var w3 := World(TwoRecords(), OneBack(), map[1 := Resolved1()], {});
    assert Orphan(BothBack(), RecordKey(0));
    hide Reachable, TwoRecords, Orphan;
    SecondBack(w3);
    w := w3.(table := BothBack(), pending := w3.pending - {1});
  }

  lemma FoundBack()
    ensures Purged(OneBack(), 0) == OneBack() && Find(OneBack(), 5, RecordIdentity(0)) == Own
  {
    assert Purged(OneBack(), 0) == OneBack();
  }

  /** A completion of record 0 has looked its lease up when record 1 is put under the same id. */
  lemma Overtaken()
    ensures Reachable(TwoRecords(), World(TwoRecords(), BothBack(), map[2 := At(0, Delivered, LookedUp(Own))], {}))
  {
    hide Reachable, Purged, Find, WellFormed, ValidateToken, TwoRecords, OneBack, BothBack;
    FirstBack();
    TwoRecordsFit(0);
    FoundBack();
    var w3 := World(TwoRecords(), OneBack(), map[1 := Resolved1()], {});
    Begins(TwoRecords(), w3, 2, Report(0, Delivered));
    var w4 := w3.(pending := w3.pending[2 := At(0, Delivered, Validated)]);
    Looks(TwoRecords(), w4, 2, Report(0, Delivered), Own);
    var w5 := w4.(pending := w4.pending[2 := At(0, Delivered, LookedUp(Own))]);
    SecondBack(w5);
    assert w5.pending - {1} == map[2 := At(0, Delivered, LookedUp(Own))];
  }

  /** A request can act on a record it does not name: the completion of record 0 takes, and is
      about to complete, record 1, which nobody has reported delivered. */
  lemma HijackedEffect() returns (w: World, t: nat)
    ensures Reachable(TwoRecords(), w) && t in w.pending && w.pending[t].request == Report(0, Delivered)
    ensures w.pending[t].stage.Resolved? && IdentityOf(w.pending[t].stage.job) == RecordIdentity(1)
    ensures Next(w, Finish(t, true, 0)).effects == {RecordIdentity(1)}
  {
    Overtaken();
    assert Purged(BothBack(), 0) == BothBack();
    var left := Leases(map[], map[RecordKey(0) := 5]);
    assert Released(BothBack(), {5}) == left;
    hide Reachable, Purged, Released;
    var w6 := World(TwoRecords(), BothBack(), map[2 := At(0, Delivered, LookedUp(Own))], {});
    Takes(TwoRecords(), w6, 2, Report(0, Delivered), Own, left, RecordJob(1, 250));
    w, t := World(TwoRecords(), left, map[2 := At(0, Delivered, Resolved(RecordJob(1, 250)))], {}), 2;
    assert w == w6.(table := left, pending := w6.pending[2 := At(0, Delivered, Resolved(RecordJob(1, 250)))]);
  }

  function OneRecord(generation: nat): Node {
    Node(Broker(1, map[0 := Shard([Message(0, "q", 7, 9)], 1, 1)], map[], map[]), {0}, map[0 := generation])
  }

  const LATE_KEY := Key("q", 0, 0)

  const LATE_REQUEST := Call(1, "a", Identity(1, LATE_KEY, 9, 7), Delivered)

  function LateJob(id: Uuid): Job {
    Job(id, LATE_KEY, 9, 10, id, 1, 7)
  }

  function LateLease(id: Uuid, holder: string): Leases {
    Leases(map[id := Lease(LateJob(id), holder)], map[LATE_KEY := id])
  }

  lemma OneRecordFits(g: nat, g': nat)
    ensures WellFormed(OneRecord(g).broker) && Grows(OneRecord(g).broker, OneRecord(g').broker)
    ensures Recorded(OneRecord(g).broker, IdentityOf(LateJob(g'))) && Recorded(OneRecord(g).broker, LATE_REQUEST.identity)
  {
    assert Message(0, "q", 7, 9) in OneRecord(g).broker.shards[0].log;
  }

  lemma LateGrant(g: nat, id: Uuid, holder: string, pending: map<nat, Pending>)
    requires Reachable(OneRecord(1), World(OneRecord(g), NONE, pending, {}))
    ensures Reachable(OneRecord(1), World(OneRecord(g), LateLease(id, holder), pending, {}))
  {
    OneRecordFits(g, id);
    var w, a := World(OneRecord(g), NONE, pending, {}), Grant(holder, LateJob(id));
    assert Inserted(NONE, holder, LateJob(id)) == LateLease(id, holder);
    hide WellFormed, Recorded, Reachable, OneRecord, LateLease;
    ReachStep(OneRecord(1), w, a);
    assert Next(w, a) == World(OneRecord(g), LateLease(id, holder), pending, {});
  }

  lemma LateFound()
    ensures Purged(LateLease(1, "a"), 0) == LateLease(1, "a")
    ensures Find(LateLease(1, "a"), 1, LATE_REQUEST.identity) == Own
  {
    assert Purged(LateLease(1, "a"), 0) == LateLease(1, "a");
  }

  lemma LateTaken()
    ensures LetGo(OneRecord(1), LateLease(1, "a"), 1, "a", LATE_REQUEST.identity, Own, 0) == Resolution(NONE, Ok(LateJob(1)))
  {
    LateFound();
    assert Released(LateLease(1, "a"), {1}) == NONE;
    hide Purged, OneRecord;
  }

  lemma LateToken()
    ensures ValidateToken(OneRecord(1), LATE_REQUEST.identity).Ok?
  {
    OneRecordFits(1, 1);
    assert Current(OneRecord(1), LATE_REQUEST.identity);
    hide ValidateToken, WellFormed, Recorded;
    TokenExactly(OneRecord(1), LATE_REQUEST.identity);
  }

  lemma LateResolved()
    ensures Reachable(OneRecord(1), World(OneRecord(1), NONE, map[0 := Pending(LATE_REQUEST, Resolved(LateJob(1)))], {}))
  {
    hide WellFormed, Recorded, ValidateToken, Reachable, Purged, OneRecord, LateLease, Find, LetGo;
    OneRecordFits(1, 1);
    LateFound();
    LateTaken();
    LateToken();
    ReachStart(OneRecord(1));
    LateGrant(1, 1, "a", map[]);
    var w1 := World(OneRecord(1), LateLease(1, "a"), map[], {});
    Begins(OneRecord(1), w1, 0, LATE_REQUEST);
    var w2 := w1.(pending := w1.pending[0 := Pending(LATE_REQUEST, Validated)]);
    Looks(OneRecord(1), w2, 0, LATE_REQUEST, Own);
    var w3 := w2.(pending := w2.pending[0 := Pending(LATE_REQUEST, LookedUp(Own))]);
    Takes(OneRecord(1), w3, 0, LATE_REQUEST, Own, NONE, LateJob(1));
    assert w3.pending[0 := Pending(LATE_REQUEST, Resolved(LateJob(1)))] == map[0 := Pending(LATE_REQUEST, Resolved(LateJob(1)))];
  }

  /** A worker's completion lets go of its lease; before it acts the shard moves to another
      generation and the offset is leased to another worker. */
  lemma LateEffect() returns (w: World, t: nat)
    ensures Reachable(OneRecord(1), w) && t in w.pending && w.pending[t] == Pending(LATE_REQUEST, Resolved(LateJob(1)))
    ensures !Current(w.node, LATE_REQUEST.identity) && w.table == LateLease(2, "b")
  {
    LateResolved();
    OneRecordFits(1, 2);
    OneRecordFits(2, 2);
    assert !Current(OneRecord(2), LATE_REQUEST.identity);
    hide WellFormed, Recorded, Reachable, Grows, OneRecord, Current;
    var pending := map[0 := Pending(LATE_REQUEST, Resolved(LateJob(1)))];
    var w4 := World(OneRecord(1), NONE, pending, {});
    ReachStep(OneRecord(1), w4, Change(OneRecord(2)));
    assert Next(w4, Change(OneRecord(2))) == World(OneRecord(2), NONE, pending, {});
    LateGrant(2, 2, "b", pending);
    w, t := World(OneRecord(2), LateLease(2, "b"), pending, {}), 0;
  }
}
