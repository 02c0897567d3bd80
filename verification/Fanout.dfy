// Durable fan-out acceptance: commands, per-member outcomes, and the store that
// journals them.
module Fanout {
  import opened Basics
  import opened Bytes
  import opened Journal
  import opened Recovery

  const STATE_VERSION: nat := 1
  const COMPACT_OPS: nat := 1024
  const COMPACT_BYTES: nat := 4 * 1024 * 1024

  datatype Member = Member(memberId: Uuid, request: string)

  datatype Outcome = Outcome(
    response: Option<string>,
    error: Option<string>,
    attempts: nat,
    nextAttemptAt: Option<Millis>,
    terminal: bool)

  datatype Command = Command(
    id: Uuid,
    acceptanceHash: string,
    tenant: string,
    groupId: Uuid,
    createdAt: Millis,
    updatedAt: Millis,
    members: seq<Member>,
    outcomes: map<Uuid, Outcome>,
    completed: bool,
    completedAt: Option<Millis>)

  type State = map<Uuid, Command>

  datatype Event =
    | Accept(fanout: Command)
    | RecordResult(fanoutId: Uuid, memberId: Uuid, outcome: Outcome, updatedAt: Millis)
    | Replace(fanout: Command)
    | GarbageCollect(ids: seq<Uuid>)

  predicate OutcomeSettled(o: Outcome) {
    o.response.Some? || o.terminal
  }

  predicate MemberSettled(c: Command, memberId: Uuid) {
    memberId in c.outcomes && OutcomeSettled(c.outcomes[memberId])
  }

  predicate AllSettled(c: Command) {
    forall i :: 0 <= i < |c.members| ==> MemberSettled(c, c.members[i].memberId)
  }

  function Recorded(c: Command, memberId: Uuid, outcome: Outcome, updatedAt: Millis): Command {
    var noted := c.(outcomes := c.outcomes[memberId := outcome], updatedAt := updatedAt);
    var flagged := noted.(completed := AllSettled(noted));
    if flagged.completed && flagged.completedAt.None? then flagged.(completedAt := Some(updatedAt)) else flagged
  }

  function ApplyEvent(state: State, event: Event): State {
    match event
    case Accept(f) => if f.id in state then state else state[f.id := f]
    case RecordResult(fid, mid, o, at) =>
      if fid in state then state[fid := Recorded(state[fid], mid, o, at)] else state
    case Replace(f) => state[f.id := f]
    case GarbageCollect(ids) => map id | id in state && id !in ids :: state[id]
  }

  /** The completed flag says exactly what the outcomes say. */
  predicate Honest(c: Command) {
    && (c.completed ==> AllSettled(c) && c.completedAt.Some?)
    && (|c.members| > 0 && AllSettled(c) ==> c.completed)
  }

  predicate AllHonest(state: State) {
    forall id :: id in state ==> Honest(state[id]) && state[id].id == id
  }

  predicate BringsHonest(event: Event) {
    (event.Accept? || event.Replace?) ==> Honest(event.fanout)
  }

  /** Once a result is recorded, the flag holds exactly when every member has a response
      or is terminal; the completion time is kept once set. */
  lemma RecordedExactly(state: State, fid: Uuid, mid: Uuid, o: Outcome, at: Millis)
    requires fid in state
    ensures var c := ApplyEvent(state, RecordResult(fid, mid, o, at))[fid];
            && (c.completed <==> forall m :: m in state[fid].members ==>
                 if m.memberId == mid then OutcomeSettled(o) else MemberSettled(state[fid], m.memberId))
            && (state[fid].completedAt.Some? ==> c.completedAt == state[fid].completedAt)
            && (c.completed ==> c.completedAt.Some?)
    ensures forall id :: id != fid && id in state ==> ApplyEvent(state, RecordResult(fid, mid, o, at))[id] == state[id]
  {
    var c := ApplyEvent(state, RecordResult(fid, mid, o, at))[fid];
    assert forall m :: m in c.members ==> exists i :: 0 <= i < |c.members| && c.members[i] == m;
    assert forall i :: 0 <= i < |c.members| ==> c.members[i] in c.members;
  }

  lemma HonestyKept(state: State, event: Event)
    requires AllHonest(state) && BringsHonest(event)
    ensures AllHonest(ApplyEvent(state, event))
  {
    if event.RecordResult? && event.fanoutId in state {
      var RecordResult(fid, mid, o, at) := event;
      RecordedExactly(state, fid, mid, o, at);
      var noted := state[fid].(outcomes := state[fid].outcomes[mid := o], updatedAt := at);
      var c := Recorded(state[fid], mid, o, at);
      assert AllSettled(noted) <==> AllSettled(c) by {
        assert forall k :: MemberSettled(noted, k) <==> MemberSettled(c, k);
      }
    }
  }

  /** A command, once accepted, is dropped by collection only. */
  lemma AcceptedStays(state: State, event: Event, id: Uuid)
    requires id in state && !(event.GarbageCollect? && id in event.ids)
    ensures id in ApplyEvent(state, event)
    ensures event.Accept? ==> ApplyEvent(state, event)[id] == state[id]
  {
  }

  /** Collection drops exactly the ids it names. */
  lemma CollectedExactly(state: State, ids: seq<Uuid>, id: Uuid)
    ensures var after := ApplyEvent(state, GarbageCollect(ids));
            && (id in after <==> id in state && id !in ids)
            && (id in after ==> after[id] == state[id])
  {
  }

  /** A replacement is what is found under its id from then on, and touches no other. */
  lemma ReplacedExactly(state: State, f: Command, id: Uuid)
    ensures var after := ApplyEvent(state, Replace(f));
            && (id in after <==> id in state || id == f.id)
            && (id in after ==> after[id] == if id == f.id then f else state[id])
  {
  }

  /** An acceptance counts once per id. */
  lemma AcceptedOnce(state: State, f: Command, g: Command)
    requires f.id == g.id
    ensures var after := ApplyEvent(state, Accept(f));
            f.id in after && after[f.id] == (if f.id in state then state[f.id] else f) && ApplyEvent(after, Accept(g)) == after
  {
  }

  /** The completion time of a command that had none is the time of the result that completes it;
      once set it stays through every later result. */
  lemma CompletionTime(state: State, fid: Uuid, mid: Uuid, o: Outcome, at: Millis)
    requires fid in state
    ensures var c, c' := state[fid], ApplyEvent(state, RecordResult(fid, mid, o, at))[fid];
            && c'.updatedAt == at && c'.members == c.members && c'.outcomes == c.outcomes[mid := o]
            && c'.completedAt == if c.completedAt.Some? then c.completedAt else if AllSettled(c') then Some(at) else None
  {
    var noted := state[fid].(outcomes := state[fid].outcomes[mid := o], updatedAt := at);
    var c' := Recorded(state[fid], mid, o, at);
    assert forall k :: MemberSettled(noted, k) <==> MemberSettled(c', k);
  }

  datatype FanoutError = NotFound(id: Uuid)

  /** The store: a snapshot file and a journal. `world` places it in the run model. */
  class FanoutStore {
    const codec: Codec<Event>
    var snapshot: Snapshot<State>
    var journal: Text
    ghost var world: World<State, Event>

    function Self(): Store<State, Event> {
      Store(codec, STATE_VERSION, ApplyEvent, map[])
    }

    ghost predicate Valid()
      reads this
    {
      && Invariant(Self(), world)
      && world.phase.Idle?
      && world.disk == Disk(snapshot, journal)
    }

    ghost function Contents(): State
      reads this
    {
      Total(Self(), world).state
    }

    constructor (codec: Codec<Event>)
      requires Lawful(codec)
      ensures Valid() && Contents() == map[] && EndsClean(journal)
    {
      this.codec := codec;
      snapshot := Snapshot(map[], 0);
      journal := [];
      world := Start(Store(codec, STATE_VERSION, ApplyEvent, map[]));
      new;
      StartInvariant(Self());
      hide Invariant, Lawful, Total;
    }

    method LoadState() returns (r: Replayed<State>)
      requires Valid()
      ensures Ok(r) == Load(Self(), Disk(snapshot, journal)) && r.state == Contents()
    {
      LoadIsTotal(Self(), world);
      var replayed := Replay(codec, STATE_VERSION, ApplyEvent, journal, Replayed(snapshot.state, snapshot.sequence, 0));
      r := replayed.value;
    }

    /** Journals one event and compacts when the journal has grown. Behind a torn tail the
        journal can no longer be loaded, unless compaction empties it. */
    method Mutate(event: Event)
      requires Valid()
      modifies this
      ensures old(EndsClean(journal)) ==> Valid() && EndsClean(journal) && Contents() == ApplyEvent(old(Contents()), event)
      ensures old(EndsClean(journal)) ==> world.history == old(world.history) + [Entry(event, true)]
      ensures !old(EndsClean(journal)) && journal != [] ==> Load(Self(), Disk(snapshot, journal)).Err?
    {
      ghost var clean, w := EndsClean(journal), world;
      LoadIsTotal(Self(), w);
      AppendSafeExactly(Self(), w, event);
      hide Invariant, Total, Load, Mutated, Line;
      var state := LoadState();
      var record := Record(STATE_VERSION, state.sequence + 1, event);
      journal := journal + Line(codec, record);
      var memory := Snapshot(ApplyEvent(state.state, event), record.sequence);
      var compact := state.operations + 1 >= COMPACT_OPS || |journal| >= COMPACT_BYTES;
      if compact {
        snapshot := memory;
        journal := [];
      }
      if clean {
        MutationLands(Self(), world, event, compact);
        world := Mutated(Self(), world, event, compact);
      }
    }

    /** Idempotent by id: the first command accepted under an id is the one kept. */
    method AcceptCommand(fanout: Command) returns (kept: Command, inserted: bool)
      requires Valid() && EndsClean(journal)
      modifies this
      ensures Valid() && EndsClean(journal)
      ensures inserted == (fanout.id !in old(Contents()))
      ensures Contents() == if inserted then old(Contents())[fanout.id := fanout] else old(Contents())
      ensures fanout.id in Contents() && kept == Contents()[fanout.id]
    {
      var state := LoadState();
      if fanout.id in state.state {
        return state.state[fanout.id], false;
      }
      Mutate(Accept(fanout));
      return fanout, true;
    }

    method RecordOutcome(fanoutId: Uuid, memberId: Uuid, outcome: Outcome, now: Millis) returns (r: Result<Command, FanoutError>)
      requires Valid() && EndsClean(journal)
      modifies this
      ensures Valid() && EndsClean(journal)
      ensures r.Ok? <==> fanoutId in old(Contents())
      ensures r.Err? ==> Contents() == old(Contents())
      ensures r.Ok? ==> Contents() == old(Contents())[fanoutId := r.value]
      ensures r.Ok? ==> r.value == Recorded(old(Contents())[fanoutId], memberId, outcome, now)
    {
      var state := LoadState();
      if fanoutId !in state.state {
        return Err(NotFound(fanoutId));
      }
      Mutate(RecordResult(fanoutId, memberId, outcome, now));
      var after := LoadState();
      return Ok(after.state[fanoutId]);
    }
  }
}
