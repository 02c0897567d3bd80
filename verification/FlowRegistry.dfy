// The flow-profile registry: every operation edits the loaded list, journals the
// difference and leaves a store that reloads to the list the writer had.
module FlowRegistry {
  import opened Basics
  import opened Bytes
  import opened Journal
  import opened Recovery
  import opened Patches

  const CATALOG_VERSION: nat := 1
  const COMPACT_OPS: nat := 1024

  datatype FlowProfile = FlowProfile(
    id: Uuid, tenant: string, key: string, parallelism: nat, rate: nat, periodSecs: nat, updatedAt: Millis)

  datatype FlowError = NotFound(id: Uuid) | Duplicate(id: Uuid)

  function ProfileId(p: FlowProfile): Uuid {
    p.id
  }

  function AtLeastOne(n: nat): nat {
    if n == 0 then 1 else n
  }

  /** Position of the first profile with this tenant and id, or the length. */
  function FindId(profiles: seq<FlowProfile>, tenant: string, id: Uuid): (p: nat)
    ensures p <= |profiles|
    ensures p < |profiles| ==> profiles[p].tenant == tenant && profiles[p].id == id
    ensures forall i :: 0 <= i < p ==> !(profiles[i].tenant == tenant && profiles[i].id == id)
  {
    FirstWhere(profiles, (x: FlowProfile) => x.tenant == tenant && x.id == id)
  }

  function FindKey(profiles: seq<FlowProfile>, tenant: string, key: string): (p: nat)
    ensures p <= |profiles|
    ensures p < |profiles| ==> profiles[p].tenant == tenant && profiles[p].key == key
    ensures forall i :: 0 <= i < p ==> !(profiles[i].tenant == tenant && profiles[i].key == key)
  {
    FirstWhere(profiles, (x: FlowProfile) => x.tenant == tenant && x.key == key)
  }

  function Stamped(p: FlowProfile, now: Millis): FlowProfile {
    if p.updatedAt == 0 then p.(updatedAt := now) else p
  }

  /** Insert or replace by tenant and id; an older profile than the stored one is dropped. */
  function Upserted(profiles: seq<FlowProfile>, profile: FlowProfile, now: Millis): seq<FlowProfile> {
    var p := Stamped(profile, now);
    var pos := FindId(profiles, p.tenant, p.id);
    if pos == |profiles| then profiles + [p]
    else if profiles[pos].updatedAt > p.updatedAt then profiles
    else profiles[pos := p]
  }

  predicate SameLimits(p: FlowProfile, q: FlowProfile) {
    p.tenant == q.tenant && p.key == q.key && p.parallelism == q.parallelism && p.rate == q.rate && p.periodSecs == q.periodSecs
  }

  function Normalized(p: FlowProfile): FlowProfile {
    p.(parallelism := AtLeastOne(p.parallelism), periodSecs := AtLeastOne(p.periodSecs))
  }

  function FindTwin(profiles: seq<FlowProfile>, wanted: FlowProfile): (p: nat)
    ensures p <= |profiles|
    ensures p < |profiles| ==> SameLimits(profiles[p], wanted)
    ensures p == |profiles| ==> forall i :: 0 <= i < |profiles| ==> !SameLimits(profiles[i], wanted)
  {
    FirstWhere(profiles, x => SameLimits(x, wanted))
  }

  function Created(profiles: seq<FlowProfile>, wanted: FlowProfile): Result<seq<FlowProfile>, FlowError> {
    var p := Normalized(wanted);
    var twin := FindTwin(profiles, p);
    if twin < |profiles| then Err(Duplicate(profiles[twin].id)) else Ok(profiles + [p])
  }

  /** Update the first profile with this tenant and key, keeping its id, or add one. */
  function UpsertedByKey(profiles: seq<FlowProfile>, wanted: FlowProfile): seq<FlowProfile> {
    var p := Normalized(wanted);
    var pos := FindKey(profiles, p.tenant, p.key);
    if pos == |profiles| then profiles + [p] else profiles[pos := p.(id := profiles[pos].id)]
  }

  function Deleted(profiles: seq<FlowProfile>, tenant: string, id: Uuid): Result<seq<FlowProfile>, FlowError> {
    var pos := FindId(profiles, tenant, id);
    if pos == |profiles| then Err(NotFound(id)) else Ok(profiles[..pos] + profiles[pos + 1..])
  }

  /** First-match lookup, as every read does it. */
  function Lookup(profiles: seq<FlowProfile>, tenant: string, id: Uuid): Option<FlowProfile> {
    var pos := FindId(profiles, tenant, id);
    if pos < |profiles| then Some(profiles[pos]) else None
  }

  /** After an upsert the newer of the two profiles is found, and every other lookup
      answers as before. */
  lemma UpsertLookup(profiles: seq<FlowProfile>, profile: FlowProfile, now: Millis, tenant: string, id: Uuid)
    ensures var p := Stamped(profile, now);
            Lookup(Upserted(profiles, profile, now), tenant, id) ==
            if (tenant, id) != (p.tenant, p.id) then Lookup(profiles, tenant, id)
            else match Lookup(profiles, tenant, id)
              case Some(stored) => if stored.updatedAt > p.updatedAt then Some(stored) else Some(p)
              case None => Some(p)
  {
    var p := Stamped(profile, now);
    var after := Upserted(profiles, profile, now);
    var pos := FindId(profiles, p.tenant, p.id);
    FoundAt(profiles, tenant, id, FindId(profiles, tenant, id));
    if pos == |profiles| {
      assert forall i :: 0 <= i < |profiles| ==> after[i] == profiles[i];
    }
    var at := if (tenant, id) == (p.tenant, p.id) then pos
              else if FindId(profiles, tenant, id) < |profiles| then FindId(profiles, tenant, id)
              else |after|;
    FoundAt(after, tenant, id, at);
  }

  lemma {:induction false} FoundAt(profiles: seq<FlowProfile>, tenant: string, id: Uuid, at: nat)
    requires at <= |profiles|
    requires at < |profiles| ==> profiles[at].tenant == tenant && profiles[at].id == id
    requires forall i :: 0 <= i < at ==> !(profiles[i].tenant == tenant && profiles[i].id == id)
    ensures FindId(profiles, tenant, id) == at
  {
    var p := FindId(profiles, tenant, id);
    assert !(p < at) && !(at < p);
  }

  /** A known profile is deleted; it is gone and nothing else is, given unique ids. */
  lemma DeleteLookup(profiles: seq<FlowProfile>, tenant: string, id: Uuid, t: string, i: Uuid)
    requires Unique(ProfileId, profiles)
    ensures var r := Deleted(profiles, tenant, id);
            && (r.Ok? <==> Lookup(profiles, tenant, id).Some?)
            && (r.Err? ==> r.error == NotFound(id))
            && (r.Ok? ==> Lookup(r.value, t, i) == if (t, i) == (tenant, id) then None else Lookup(profiles, t, i))
  {
    if Deleted(profiles, tenant, id).Ok? { DeletedLookup(profiles, tenant, id, t, i); }
  }

  lemma DeletedLookup(profiles: seq<FlowProfile>, tenant: string, id: Uuid, t: string, i: Uuid)
    requires Unique(ProfileId, profiles) && Deleted(profiles, tenant, id).Ok?
    ensures Lookup(Deleted(profiles, tenant, id).value, t, i) == if (t, i) == (tenant, id) then None else Lookup(profiles, t, i)
  {
    var pos := FindId(profiles, tenant, id);
    var after := Deleted(profiles, tenant, id).value;
    var found := FindId(profiles, t, i);
    assert forall k :: 0 <= k < |after| ==> after[k] == profiles[if k < pos then k else k + 1];
    assert forall k :: 0 <= k < |profiles| && k != pos ==> ProfileId(profiles[k]) != ProfileId(profiles[pos]);
    FoundAt(after, t, i, if (t, i) == (tenant, id) then |after| else if found < pos then found
                         else if found == |profiles| then |after| else found - 1);
  }

  /** A profile is created, with parallelism and period at least one, exactly when the tenant has
      none with that key and those limits; otherwise the call names one that has. */
  lemma CreateExactly(profiles: seq<FlowProfile>, wanted: FlowProfile, tenant: string, id: Uuid)
    ensures var r := Created(profiles, wanted);
            var p := wanted.(parallelism := if wanted.parallelism < 1 then 1 else wanted.parallelism,
                             periodSecs := if wanted.periodSecs < 1 then 1 else wanted.periodSecs);
            && (r.Err? <==> exists x :: x in profiles && x == p.(id := x.id, updatedAt := x.updatedAt))
            && (r.Err? ==> exists x :: x in profiles && x == p.(id := x.id, updatedAt := x.updatedAt) && r.error == Duplicate(x.id))
            && (r.Ok? ==> Lookup(r.value, tenant, id) ==
                          if Lookup(profiles, tenant, id).None? && tenant == wanted.tenant && id == wanted.id then Some(p)
                          else Lookup(profiles, tenant, id))
  {
    var p := Normalized(wanted);
    var twin := FindTwin(profiles, p);
    var found := FindId(profiles, tenant, id);
    if x :| x in profiles && x == p.(id := x.id, updatedAt := x.updatedAt) {
      var i :| 0 <= i < |profiles| && profiles[i] == x;
      assert SameLimits(profiles[i], p);
    }
    FoundAt(profiles + [p], tenant, id,
            if found < |profiles| || (tenant == p.tenant && id == p.id) then found else |profiles| + 1);
  }

  /** First-match lookup by key. */
  function LookupKey(profiles: seq<FlowProfile>, tenant: string, key: string): Option<FlowProfile> {
    var pos := FindKey(profiles, tenant, key);
    if pos < |profiles| then Some(profiles[pos]) else None
  }

  lemma KeyFoundAt(profiles: seq<FlowProfile>, tenant: string, key: string, at: nat)
    requires at <= |profiles|
    requires at < |profiles| ==> profiles[at].tenant == tenant && profiles[at].key == key
    requires forall i :: 0 <= i < at ==> !(profiles[i].tenant == tenant && profiles[i].key == key)
    ensures FindKey(profiles, tenant, key) == at
  {
    var p := FindKey(profiles, tenant, key);
    assert !(p < at) && !(at < p);
  }

  /** After an upsert by key the given limits are found under that key, with the id that was
      stored there if there was one, and every other key finds what it did. */
  lemma KeyLookup(profiles: seq<FlowProfile>, wanted: FlowProfile, tenant: string, key: string)
    ensures var p := wanted.(parallelism := if wanted.parallelism < 1 then 1 else wanted.parallelism,
                             periodSecs := if wanted.periodSecs < 1 then 1 else wanted.periodSecs);
            LookupKey(UpsertedByKey(profiles, wanted), tenant, key) ==
            if (tenant, key) != (wanted.tenant, wanted.key) then LookupKey(profiles, tenant, key)
            else match LookupKey(profiles, tenant, key)
              case Some(stored) => Some(p.(id := stored.id))
              case None => Some(p)
  {
    var p := Normalized(wanted);
    var pos, found := FindKey(profiles, p.tenant, p.key), FindKey(profiles, tenant, key);
    var after := UpsertedByKey(profiles, wanted);
    KeyFoundAt(after, tenant, key, if found < |profiles| || (tenant, key) == (p.tenant, p.key) then found else |after|);
  }

  predicate HeldByAnotherTenant(profiles: seq<FlowProfile>, tenant: string, id: Uuid) {
    exists i :: 0 <= i < |profiles| && profiles[i].id == id && profiles[i].tenant != tenant
  }

  ghost predicate Journals(before: seq<FlowProfile>, after: seq<FlowProfile>) {
    && Unique(ProfileId, after)
    && OrderedEdit(ProfileId, before, after)
    && |after| <= |Survivors(ProfileId, before, after)| + 1
  }

  lemma UpsertJournals(profiles: seq<FlowProfile>, profile: FlowProfile, now: Millis)
    requires Unique(ProfileId, profiles) && !HeldByAnotherTenant(profiles, profile.tenant, profile.id)
    ensures Journals(profiles, Upserted(profiles, profile, now))
  {
    hide Survivors, OrderedEdit;
    var p := Stamped(profile, now);
    var pos := FindId(profiles, p.tenant, p.id);
    if pos == |profiles| {
      assert !Holds(ProfileId, profiles, p.id) by {
        assert forall i :: 0 <= i < |profiles| ==> ProfileId(profiles[i]) == profiles[i].id;
      }
      EditAppend(ProfileId, profiles, p);
    } else {
      EditReplace(ProfileId, profiles, pos, p);
      EditReplace(ProfileId, profiles, pos, profiles[pos]);
      assert profiles[pos := profiles[pos]] == profiles;
    }
  }

  lemma KeyJournals(profiles: seq<FlowProfile>, wanted: FlowProfile)
    requires Unique(ProfileId, profiles) && !Holds(ProfileId, profiles, wanted.id)
    ensures Journals(profiles, UpsertedByKey(profiles, wanted))
    ensures Created(profiles, wanted).Ok? ==> Journals(profiles, Created(profiles, wanted).value)
  {
    hide Survivors, OrderedEdit;
    var p := Normalized(wanted);
    EditAppend(ProfileId, profiles, p);
    var pos := FindKey(profiles, p.tenant, p.key);
    if pos < |profiles| {
      EditReplace(ProfileId, profiles, pos, p.(id := profiles[pos].id));
    }
  }

  lemma DeleteJournals(profiles: seq<FlowProfile>, tenant: string, id: Uuid)
    requires Unique(ProfileId, profiles)
    ensures Deleted(profiles, tenant, id).Ok? ==> Journals(profiles, Deleted(profiles, tenant, id).value)
  {
    hide Survivors, OrderedEdit;
    var pos := FindId(profiles, tenant, id);
    if pos < |profiles| {
      EditRemove(ProfileId, profiles, pos);
    }
  }

  /** The diff is keyed by id alone while lookups also match the tenant: replaying an
      upsert rebuilds the written list exactly when no other tenant holds the id. */
  lemma UpsertReplaysExactly(profiles: seq<FlowProfile>, profile: FlowProfile, now: Millis, patch: Patch<FlowProfile>)
    requires Unique(ProfileId, profiles)
    requires IsDiff(ProfileId, profiles, Upserted(profiles, profile, now), patch)
    ensures ApplyPatch(ProfileId, profiles, patch) == Upserted(profiles, profile, now) <==>
            !HeldByAnotherTenant(profiles, profile.tenant, profile.id)
  {
    var after := Upserted(profiles, profile, now);
    if HeldByAnotherTenant(profiles, profile.tenant, profile.id) {
      SharedIdShrinks(profiles, profile, now, patch);
    } else {
      UpsertJournals(profiles, profile, now);
      DiffReplays(ProfileId, profiles, after, patch);
    }
  }

  lemma SharedIdShrinks(profiles: seq<FlowProfile>, profile: FlowProfile, now: Millis, patch: Patch<FlowProfile>)
    requires Unique(ProfileId, profiles)
    requires IsDiff(ProfileId, profiles, Upserted(profiles, profile, now), patch)
    requires HeldByAnotherTenant(profiles, profile.tenant, profile.id)
    ensures |Upserted(profiles, profile, now)| == |profiles| + 1
    ensures |ApplyPatch(ProfileId, profiles, patch)| == |profiles|
  {
    hide UpsertAll, Retain;
    var p := Stamped(profile, now);
    var held :| 0 <= held < |profiles| && profiles[held].id == p.id && profiles[held].tenant != p.tenant;
    assert ProfileId(profiles[held]) == p.id;
    var pos := FindId(profiles, p.tenant, p.id);
    assert forall i :: 0 <= i < |profiles| && ProfileId(profiles[i]) == p.id ==> i == held;
    if pos < |profiles| {
      assert false;
    }
    assert Upserted(profiles, profile, now) == profiles + [p];
    AppendHeldShrinks(ProfileId, profiles, p, patch);
  }

  function ApplyFlow(profiles: seq<FlowProfile>, patch: Patch<FlowProfile>): seq<FlowProfile> {
    ApplyPatch(ProfileId, profiles, patch)
  }

  class Registry {
    const codec: Codec<Patch<FlowProfile>>
    var snapshot: Snapshot<seq<FlowProfile>>
    var journal: Text
    ghost var world: World<seq<FlowProfile>, Patch<FlowProfile>>

    function Self(): Store<seq<FlowProfile>, Patch<FlowProfile>> {
      Store(codec, CATALOG_VERSION, ApplyFlow, [])
    }

    ghost predicate Valid()
      reads this
    {
      && Invariant(Self(), world)
      && world.phase.Idle?
      && world.disk == Disk(snapshot, journal)
      && Unique(ProfileId, Contents())
    }

    ghost function Contents(): seq<FlowProfile>
      reads this
    {
      Total(Self(), world).state
    }

    constructor (codec: Codec<Patch<FlowProfile>>)
      requires Lawful(codec)
      ensures Valid() && Contents() == [] && EndsClean(journal)
    {
      this.codec := codec;
      snapshot := Snapshot([], 0);
      journal := [];
      world := Start(Store(codec, CATALOG_VERSION, ApplyFlow, []));
      new;
      StartInvariant(Self());
      hide Invariant, Lawful, Total;
    }

    method LoadState() returns (r: Replayed<seq<FlowProfile>>)
      requires Valid()
      ensures Ok(r) == Load(Self(), Disk(snapshot, journal)) && r.state == Contents()
    {
      LoadIsTotal(Self(), world);
      var replayed := Replay(codec, CATALOG_VERSION, ApplyFlow, journal, Replayed(snapshot.state, snapshot.sequence, 0));
      r := replayed.value;
    }

    /** The tail of `mutate`: journal the diff, compact when due, or write nothing at all
        when the diff is empty. Either way the store reloads to `after`, order included. */
    method Commit(loaded: Replayed<seq<FlowProfile>>, after: seq<FlowProfile>)
      requires Valid() && EndsClean(journal) && Ok(loaded) == Load(Self(), Disk(snapshot, journal)) && loaded.state == Contents()
      requires Journals(loaded.state, after)
      modifies this
      ensures Valid() && EndsClean(journal) && Contents() == after
    {
      hide Invariant, Total, Load, Mutated, ApplyPatch, Survivors, OrderedEdit, IsDiff;
      var patch := Diff(ProfileId, loaded.state, after);
      DiffReplays(ProfileId, loaded.state, after, patch);
      if |patch.upserts| == 0 && patch.deletes == {} {
        EmptyPatch(loaded.state);
        return;
      }
      journal := journal + Line(codec, Record(CATALOG_VERSION, loaded.sequence + 1, patch));
      var compact := loaded.operations + 1 >= COMPACT_OPS;
      if compact {
        snapshot := Snapshot(after, loaded.sequence + 1);
        journal := [];
      }
      MutationLands(Self(), world, patch, compact);
      world := Mutated(Self(), world, patch, compact);
    }

    method Upsert(profile: FlowProfile, now: Millis)
      requires Valid() && EndsClean(journal)
      requires !HeldByAnotherTenant(Contents(), profile.tenant, profile.id)
      modifies this
      ensures Valid() && EndsClean(journal) && Contents() == Upserted(old(Contents()), profile, now)
    {
      hide Upserted;
      var loaded := LoadState();
      UpsertJournals(loaded.state, profile, now);
      Commit(loaded, Upserted(loaded.state, profile, now));
    }

    method Create(wanted: FlowProfile) returns (r: Result<FlowProfile, FlowError>)
      requires Valid() && EndsClean(journal) && !Holds(ProfileId, Contents(), wanted.id)
      modifies this
      ensures Valid() && EndsClean(journal)
      ensures r.Ok? <==> Created(old(Contents()), wanted).Ok?
      ensures Contents() == if r.Ok? then old(Contents()) + [r.value] else old(Contents())
      ensures r.Ok? ==> r.value == wanted.(parallelism := if wanted.parallelism < 1 then 1 else wanted.parallelism,
                                           periodSecs := if wanted.periodSecs < 1 then 1 else wanted.periodSecs)
      ensures r.Err? ==> exists p :: p in Contents() && SameLimits(p, Normalized(wanted)) && r.error == Duplicate(p.id)
    {
      var loaded := LoadState();
      KeyJournals(loaded.state, wanted);
      match Created(loaded.state, wanted)
      case Err(e) =>
        return Err(e);
      case Ok(after) =>
        Commit(loaded, after);
        return Ok(Normalized(wanted));
    }

    method UpsertByKey(wanted: FlowProfile)
      requires Valid() && EndsClean(journal) && !Holds(ProfileId, Contents(), wanted.id)
      modifies this
      ensures Valid() && EndsClean(journal) && Contents() == UpsertedByKey(old(Contents()), wanted)
    {
      hide UpsertedByKey, Created;
      var loaded := LoadState();
      KeyJournals(loaded.state, wanted);
      Commit(loaded, UpsertedByKey(loaded.state, wanted));
    }

    method Delete(tenant: string, id: Uuid) returns (r: Result<(), FlowError>)
      requires Valid() && EndsClean(journal)
      modifies this
      ensures Valid() && EndsClean(journal)
      ensures r.Ok? <==> Deleted(old(Contents()), tenant, id).Ok?
      ensures Contents() == if r.Ok? then Deleted(old(Contents()), tenant, id).value else old(Contents())
    {
      hide Deleted;
      var loaded := LoadState();
      DeleteJournals(loaded.state, tenant, id);
      match Deleted(loaded.state, tenant, id)
      case Err(e) =>
        return Err(e);
      case Ok(after) =>
        Commit(loaded, after);
        return Ok(());
    }
  }

  lemma EmptyPatch(profiles: seq<FlowProfile>)
    ensures ApplyPatch(ProfileId, profiles, Patch([], {})) == profiles
  {
    RetainNone(ProfileId, profiles, {});
  }
}
