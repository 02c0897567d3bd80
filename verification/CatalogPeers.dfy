// The merge as it is carried out: maps of the newest versions seen so far, filled peer by
// peer, and the tombstone file behind it.
module CatalogPeers {
  import opened Basics
  import opened CatalogMerge
  import opened Patches

  type Newest = map<Slot, Item>

  /** A version as new as the one held replaces it. */
  function MergeItem(target: Newest, x: Item): Newest {
    if SlotOf(x) in target && x.updatedAt < target[SlotOf(x)].updatedAt then target else target[SlotOf(x) := x]
  }

  /** The map holds, for each slot of the pool, a version no other beats. */
  ghost predicate HoldsNewest(target: Newest, pool: set<Item>) {
    && (forall k :: k in target ==> target[k] in pool && SlotOf(target[k]) == k)
    && (forall x :: x in pool ==> SlotOf(x) in target && x.updatedAt <= target[SlotOf(x)].updatedAt)
  }

  lemma MergeItemHolds(target: Newest, pool: set<Item>, x: Item)
    requires HoldsNewest(target, pool)
    ensures HoldsNewest(MergeItem(target, x), pool + {x})
  {
  }

  /** Two versions can be merged in either order exactly when they do not tie for the slot. */
  lemma MergeCommutesExactly(target: Newest, a: Item, b: Item)
    ensures MergeItem(MergeItem(target, a), b) == MergeItem(MergeItem(target, b), a) <==>
            SlotOf(a) != SlotOf(b) || a.updatedAt != b.updatedAt || a == b || (SlotOf(a) in target && a.updatedAt < target[SlotOf(a)].updatedAt)
  {
    var k := SlotOf(a);
    if k == SlotOf(b) && a.updatedAt == b.updatedAt && a != b && !(k in target && a.updatedAt < target[k].updatedAt) {
      assert MergeItem(MergeItem(target, a), b)[k] == b;
      assert MergeItem(MergeItem(target, b), a)[k] == a;
    }
  }

  function MergeAll(target: Newest, items: seq<Item>): Newest {
    if items == [] then target else MergeItem(MergeAll(target, items[..|items| - 1]), items[|items| - 1])
  }

  /** What the maps hold after these catalogs, in this order. */
  function NewestAfter(inputs: seq<Snapshot>): Newest {
    if inputs == [] then map[] else MergeAll(NewestAfter(inputs[..|inputs| - 1]), inputs[|inputs| - 1].items)
  }

  method MergeItems(target: Newest, items: seq<Item>, ghost pool: set<Item>) returns (r: Newest)
    requires HoldsNewest(target, pool)
    ensures r == MergeAll(target, items)
    ensures HoldsNewest(r, pool + (set x | x in items))
  {
    hide HoldsNewest, MergeItem;
    r := target;
    var i := 0;
    ghost var seen: set<Item> := {};
    assert pool + seen == pool;
    while i < |items|
      invariant 0 <= i <= |items| && seen == (set x | x in items[..i]) && HoldsNewest(r, pool + seen) && r == MergeAll(target, items[..i])
    {
      MergeItemHolds(r, pool + seen, items[i]);
      r := MergeItem(r, items[i]);
      assert items[..i + 1] == items[..i] + [items[i]] && items[..i + 1][..i] == items[..i];
      assert pool + seen + {items[i]} == pool + (seen + {items[i]});
      seen := seen + {items[i]};
      i := i + 1;
    }
    assert items[..i] == items;
  }

  function Later(a: Tombstones, b: Tombstones, id: Uuid): Millis
    requires id in a || id in b
  {
    if id !in a then b[id] else if id in b && b[id] > a[id] then b[id] else a[id]
  }

  /** Per id, the later of two deletions. */
  function MaxMerge(a: Tombstones, b: Tombstones): Tombstones {
    map id | id in a.Keys + b.Keys :: Later(a, b, id)
  }

  method MergeTombstones(target: Tombstones, remote: Tombstones) returns (r: Tombstones)
    ensures r == MaxMerge(target, remote)
  {
    r := target;
    var left := remote.Keys;
    while left != {}
      invariant left <= remote.Keys && r.Keys == target.Keys + (remote.Keys - left)
      invariant forall id :: id in r ==> r[id] == if id in left then target[id] else Later(target, remote, id)
      decreases left
    {
      var id :| id in left;
      if id in r {
        if remote[id] > r[id] { r := r[id := remote[id]]; }
      } else {
        r := r[id := remote[id]];
      }
      left := left - {id};
    }
  }

  lemma DeathsGrow(inputs: seq<Snapshot>, t: Tombstones, s: Snapshot)
    requires Deaths(inputs, t)
    ensures Deaths(inputs + [s], MaxMerge(t, s.tombstones))
  {
    var all, u := inputs + [s], MaxMerge(t, s.tombstones);
    assert all[|inputs|] == s;
    forall id | id in u ensures exists x :: x in all && id in x.tombstones && x.tombstones[id] == u[id] {
      if id in t && u[id] == t[id] {
        var x := DeathFrom(inputs, t, id);
        assert x in all;
      } else {
        assert s in all;
      }
    }
    forall x, id | x in all && id in x.tombstones ensures id in u && x.tombstones[id] <= u[id] {
      if x in inputs { DeathKnown(inputs, t, x, id); }
    }
  }

  /** The live ones among the newest versions; map iteration gives them in any order. */
  method Finalize(target: Newest, tombstones: Tombstones) returns (items: seq<Item>)
    requires forall k :: k in target ==> SlotOf(target[k]) == k
    ensures forall x :: x in items <==> SlotOf(x) in target && target[SlotOf(x)] == x && Alive(x, tombstones)
  {
    items := [];
    var left := target.Keys;
    while left != {}
      invariant left <= target.Keys
      invariant forall x :: x in items <==> SlotOf(x) in target.Keys - left && target[SlotOf(x)] == x && Alive(x, tombstones)
      decreases left
    {
      var k :| k in left;
      if Alive(target[k], tombstones) { items := items + [target[k]]; }
      left := left - {k};
    }
  }

  /** Equal id and timestamp mean equal content. */
  ghost predicate Coherent(inputs: seq<Snapshot>) {
    forall x, y :: x in Pool(inputs) && y in Pool(inputs) && SlotOf(x) == SlotOf(y) && x.updatedAt == y.updatedAt ==> x == y
  }

  lemma CoherentHasNoTies(inputs: seq<Snapshot>, t: Tombstones)
    requires Coherent(inputs)
    ensures NoTies(inputs, t)
  {
  }

  lemma PoolGrows(inputs: seq<Snapshot>, s: Snapshot)
    ensures Pool(inputs + [s]) == Pool(inputs) + (set x | x in s.items)
  {
    var all := inputs + [s];
    assert all[|inputs|] == s;
    forall x | x in Pool(inputs) ensures x in Pool(all) {
      var y :| y in inputs && x in y.items;
      assert y in all;
    }
  }

  /** One catalog more. */
  method AddSnapshot(newest: Newest, tombstones: Tombstones, s: Snapshot, ghost inputs: seq<Snapshot>)
    returns (newest': Newest, tombstones': Tombstones)
    requires HoldsNewest(newest, Pool(inputs)) && newest == NewestAfter(inputs) && Deaths(inputs, tombstones)
    ensures HoldsNewest(newest', Pool(inputs + [s])) && newest' == NewestAfter(inputs + [s]) && Deaths(inputs + [s], tombstones')
  {
    hide HoldsNewest, Pool, Deaths, MaxMerge;
    tombstones' := MergeTombstones(tombstones, s.tombstones);
    newest' := MergeItems(newest, s.items, Pool(inputs));
    assert (inputs + [s])[..|inputs|] == inputs;
    PoolGrows(inputs, s);
    DeathsGrow(inputs, tombstones, s);
  }

  /** The output lists what is held and alive. */
  ghost predicate Finalized(newest: Newest, out: Snapshot) {
    forall x :: x in out.items <==> SlotOf(x) in newest && newest[SlotOf(x)] == x && Alive(x, out.tombstones)
  }

  /** The live newest versions are the merge, up to ties. */
  lemma FinalIsMerged(inputs: seq<Snapshot>, newest: Newest, out: Snapshot)
    requires HoldsNewest(newest, Pool(inputs)) && Deaths(inputs, out.tombstones) && Finalized(newest, out)
    ensures MergedUpToTies(inputs, out)
  {
    hide Deaths, Pool;
    forall x | Wins(Pool(inputs), x) && Alive(x, out.tombstones) ensures exists y :: y in out.items && SlotOf(y) == SlotOf(x) {
      var y := newest[SlotOf(x)];
      assert y.updatedAt == x.updatedAt && y in out.items;
    }
  }

  lemma {:induction false} NewestOf(pool: set<Item>) returns (newest: Newest)
    ensures HoldsNewest(newest, pool)
  {
    if pool == {} {
      newest := map[];
    } else {
      var y :| y in pool;
      newest := NewestOf(pool - {y});
      MergeItemHolds(newest, pool - {y}, y);
      newest := MergeItem(newest, y);
      assert pool - {y} + {y} == pool;
    }
  }

  lemma {:induction false} Listed(pool: set<Item>) returns (items: seq<Item>)
    ensures forall x :: x in items <==> x in pool
  {
    if pool == {} {
      items := [];
    } else {
      var y :| y in pool;
      items := Listed(pool - {y});
      items := items + [y];
    }
  }

  /** Any live winner is in some output the code may give. */
  lemma SomeOutput(inputs: seq<Snapshot>, t: Tombstones, x: Item) returns (out: Snapshot)
    requires Deaths(inputs, t) && Wins(Pool(inputs), x) && Alive(x, t)
    ensures MergedUpToTies(inputs, out) && out.tombstones == t && x in out.items
  {
    var pool := Pool(inputs);
    var newest := NewestOf(pool);
    MergeItemHolds(newest, pool, x);
    newest := MergeItem(newest, x);
    assert pool + {x} == pool && newest[SlotOf(x)] == x;
    hide Deaths, Pool, Wins, MergedUpToTies;
    var live := set k | k in newest && Alive(newest[k], t) :: newest[k];
    var items := Listed(live);
    out := Snapshot(items, t);
    assert forall y :: y in items <==> SlotOf(y) in newest && newest[SlotOf(y)] == y && Alive(y, t);
    FinalIsMerged(inputs, newest, out);
  }

  /** Where versions tie, some output has the one that another leaves out. */
  lemma TieDisagrees(inputs: seq<Snapshot>, out: Snapshot, x: Item, y: Item) returns (other: Snapshot)
    requires Deaths(inputs, out.tombstones) && Tied(inputs, out.tombstones, x, y)
    requires forall v, w :: v in out.items && w in out.items && SlotOf(v) == SlotOf(w) ==> v == w
    ensures MergedUpToTies(inputs, other) && !Agree(out, other)
  {
    hide Deaths, Pool, Wins, MergedUpToTies, Alive;
    other := SomeOutput(inputs, out.tombstones, if x in out.items then y else x);
  }

  lemma SamePool(a: seq<Snapshot>, b: seq<Snapshot>, t: Tombstones)
    requires forall s :: s in a <==> s in b
    ensures Pool(a) == Pool(b) && (Deaths(a, t) <==> Deaths(b, t))
  {
  }

  lemma OutputFacts(inputs: seq<Snapshot>, out: Snapshot)
    requires MergedUpToTies(inputs, out)
    ensures Deaths(inputs, out.tombstones)
    ensures forall v, w :: v in out.items && w in out.items && SlotOf(v) == SlotOf(w) ==> v == w
  {
    hide Deaths, Pool, Wins, Alive;
  }

  /** An output over inputs without ties agrees with whatever else meets the reference there. */
  lemma TielessAgrees(inputs: seq<Snapshot>, a: Snapshot, b: Snapshot)
    requires Merged(inputs, a) && MergedUpToTies(inputs, b) && NoTies(inputs, a.tombstones)
    ensures Agree(a, b)
  {
    hide Pool, Wins, Alive, NoTies;
    OutputFacts(inputs, b);
    DeathsAgree(inputs, inputs, a.tombstones, b.tombstones);
    DeathsAgree(inputs, inputs, b.tombstones, a.tombstones);
    assert a.tombstones == b.tombstones;
    hide Deaths, MergedUpToTies;
    ReferenceMetExactly(inputs, b);
  }

  lemma SameOutputs(a: seq<Snapshot>, b: seq<Snapshot>, out: Snapshot)
    requires forall s :: s in a <==> s in b
    ensures MergedUpToTies(a, out) <==> MergedUpToTies(b, out)
  {
    SamePool(a, b, out.tombstones);
    hide Deaths, Pool, Wins, Alive;
  }

  /** Whatever the order of the same catalogs and however often each comes, every output the
      reference allows is the same, exactly when no two live newest versions tie. */
  lemma OrderAgreesExactly(a: seq<Snapshot>, b: seq<Snapshot>, out: Snapshot)
    requires MergedUpToTies(a, out) && forall s :: s in a <==> s in b
    ensures (forall other | MergedUpToTies(b, other) :: Agree(out, other)) <==> NoTies(a, out.tombstones)
  {
    hide MergedUpToTies, Deaths, Tied, Agree;
    OutputFacts(a, out);
    if x, y :| Tied(a, out.tombstones, x, y) {
      var other := TieDisagrees(a, out, x, y);
      SameOutputs(a, b, other);
    } else {
      ReferenceMetExactly(a, out);
      hide NoTies;
      forall other | MergedUpToTies(b, other) ensures Agree(out, other) {
        SameOutputs(a, b, other);
        TielessAgrees(a, out, other);
      }
    }
  }

  /** Merging catalogs that were already merged in groups, in any order, gives every output that
      the reference allows for all of them at once, exactly when no two live newest versions
      among all tie. */
  lemma GroupingAgreesExactly(groups: seq<seq<Snapshot>>, parts: seq<Snapshot>, all: seq<Snapshot>, nested: Snapshot)
    requires Parts(groups, parts) && Together(groups, all) && MergedUpToTies(parts, nested)
    ensures (forall flat | MergedUpToTies(all, flat) :: Agree(nested, flat)) <==> NoTies(all, nested.tombstones)
  {
    hide MergedUpToTies, Deaths, Tied, Agree, Parts, Together, Merged;
    OutputFacts(parts, nested);
    PartDeaths(groups, parts, all, nested.tombstones);
    if x, y :| Tied(all, nested.tombstones, x, y) {
      var flat := TieDisagrees(all, nested, x, y);
    } else {
      NestedMeetsReference(groups, parts, all, nested);
      hide NoTies;
      forall flat | MergedUpToTies(all, flat) ensures Agree(nested, flat) {
        TielessAgrees(all, nested, flat);
      }
    }
  }

  /** The snapshots of the peers that answered, in order. */
  function Fetched(peers: seq<Option<Snapshot>>): seq<Snapshot> {
    if peers == [] then []
    else Fetched(peers[..|peers| - 1]) + (if peers[|peers| - 1].Some? then [peers[|peers| - 1].value] else [])
  }

  datatype MergeError = NoCatalog

  /** Whether anything but group members is there. */
  predicate HasContent(items: seq<Item>) {
    exists i :: 0 <= i < |items| && !items[i].kind.Member?
  }

  /** Merges the local catalog with those of the peers that answered; fails only when no peer did
      and there is nothing to show. */
  method MergeFromPeers(local: Snapshot, peers: seq<Option<Snapshot>>) returns (r: Result<Snapshot, MergeError>)
    ensures r.Ok? ==> MergedUpToTies([local] + Fetched(peers), r.value) && Finalized(NewestAfter([local] + Fetched(peers)), r.value)
    ensures r.Err? ==> Fetched(peers) == [] && forall x :: Wins(Pool([local]), x) && Alive(x, local.tombstones) ==> x.kind.Member?
    ensures r.Ok? && Fetched(peers) == [] ==> HasContent(r.value.items)
  {
    hide Deaths, Pool, Wins;
    ghost var inputs: seq<Snapshot> := [];
    assert Deaths([], map[]) && Pool([]) == {} by { NoInputs(); }
    var newest, tombstones := AddSnapshot(map[], map[], local, []);
    inputs := [] + [local];
    var fetched, i := 0, 0;
    assert inputs == [local] + Fetched(peers[..0]);
    while i < |peers|
      invariant 0 <= i <= |peers| && inputs == [local] + Fetched(peers[..i]) && fetched == |Fetched(peers[..i])|
      invariant HoldsNewest(newest, Pool(inputs)) && newest == NewestAfter(inputs) && Deaths(inputs, tombstones)
    {
      hide HoldsNewest, Alive;
      assert peers[..i + 1][..i] == peers[..i];
      if peers[i].Some? {
        newest, tombstones := AddSnapshot(newest, tombstones, peers[i].value, inputs);
        inputs := inputs + [peers[i].value];
        fetched := fetched + 1;
      }
      i := i + 1;
    }
    assert peers[..i] == peers;
    var items := Finalize(newest, tombstones);
    var out := Snapshot(items, tombstones);
    FinalIsMerged(inputs, newest, out);
    if fetched == 0 && !HasContent(items) {
      OnlyMembers(local, inputs, out);
      return Err(NoCatalog);
    }
    return Ok(out);
  }

  lemma NoInputs()
    ensures Deaths([], map[]) && Pool([]) == {}
  {
  }

  lemma OnlyMembers(local: Snapshot, inputs: seq<Snapshot>, out: Snapshot)
    requires inputs == [local] && MergedUpToTies(inputs, out) && !HasContent(out.items)
    ensures forall x :: Wins(Pool([local]), x) && Alive(x, local.tombstones) ==> x.kind.Member?
  {
    assert out.tombstones == local.tombstones by {
      assert local in inputs;
    }
    hide Deaths, Pool, Wins;
    forall x | Wins(Pool([local]), x) && Alive(x, local.tombstones) ensures x.kind.Member? {
      var y :| y in out.items && SlotOf(y) == SlotOf(x);
      var i :| 0 <= i < |out.items| && out.items[i] == y;
      assert out.items[i].kind.Member?;
    }
  }

  datatype Tombstone = Tombstone(id: Uuid, kind: Kind, deletedAt: Millis)

  function TombstoneId(e: Tombstone): Uuid {
    e.id
  }

  function Times(entries: seq<Tombstone>): Tombstones {
    if entries == [] then map[]
    else Times(entries[..|entries| - 1])[entries[|entries| - 1].id := entries[|entries| - 1].deletedAt]
  }

  lemma {:induction false} TimesHas(entries: seq<Tombstone>, id: Uuid)
    requires Unique(TombstoneId, entries)
    ensures id in Times(entries) <==> Position(TombstoneId, entries, id) < |entries|
    ensures id in Times(entries) ==> Times(entries)[id] == entries[Position(TombstoneId, entries, id)].deletedAt
  {
    if entries != [] {
      var n := |entries| - 1;
      TimesHas(entries[..n], id);
      var k := Position(TombstoneId, entries[..n], id);
      assert k < n ==> entries[..n][k] == entries[k];
      assert forall i :: 0 <= i < n ==> entries[..n][i] == entries[i];
    }
  }

  class TombstoneFile {
    var entries: seq<Tombstone>

    constructor ()
      ensures Valid() && Times(entries) == map[]
    {
      entries := [];
    }

    ghost predicate Valid()
      reads this
    {
      Unique(TombstoneId, entries)
    }

    /** A deletion is stamped with the clock, even when a later one is already known. */
    method Record(id: Uuid, kind: Kind, now: Millis)
      requires Valid()
      modifies this
      ensures Valid() && Times(entries) == Times(old(entries))[id := now]
    {
      TimesUpdated(entries, Tombstone(id, kind, now));
      var k := Position(TombstoneId, entries, id);
      if k < |entries| {
        entries := entries[k := Tombstone(id, kind, now)];
      } else {
        entries := entries + [Tombstone(id, kind, now)];
      }
    }

    /** Deletions from elsewhere only ever raise the known ones. */
    method MergeRemote(remote: Tombstones)
      requires Valid()
      modifies this
      ensures Valid() && Times(entries) == MaxMerge(Times(old(entries)), remote)
    {
      hide Unique, Times;
      var left := remote.Keys;
      ghost var before := Times(entries);
      while left != {}
        invariant Valid() && left <= remote.Keys && Times(entries).Keys == before.Keys + (remote.Keys - left)
        invariant forall id :: id in Times(entries) ==> Times(entries)[id] == if id in left then before[id] else Later(before, remote, id)
        decreases left
      {
        var id :| id in left;
        var k := Position(TombstoneId, entries, id);
        TimesHas(entries, id);
        if k < |entries| {
          if remote[id] > entries[k].deletedAt {
            var raised := entries[k].(deletedAt := remote[id]);
            TimesUpdated(entries, raised);
            entries := entries[k := raised];
          }
        } else {
          TimesUpdated(entries, Tombstone(id, Queue, remote[id]));
          entries := entries + [Tombstone(id, Queue, remote[id])];
        }
        left := left - {id};
      }
    }
  }

  lemma TimesUpdated(entries: seq<Tombstone>, e: Tombstone)
    requires Unique(TombstoneId, entries)
    ensures Unique(TombstoneId, UpsertOne(TombstoneId, entries, e))
    ensures Times(UpsertOne(TombstoneId, entries, e)) == Times(entries)[e.id := e.deletedAt]
  {
    var put := UpsertOne(TombstoneId, entries, e);
    forall id ensures id in Times(put) <==> id in Times(entries) || id == e.id
              ensures id in Times(put) ==> Times(put)[id] == if id == e.id then e.deletedAt else Times(entries)[id]
    {
      TimesHas(entries, id);
      TimesHas(put, id);
      PositionAfterPut(entries, e, id);
    }
    hide Times;
  }

  lemma PositionAfterPut(entries: seq<Tombstone>, e: Tombstone, id: Uuid)
    requires Unique(TombstoneId, entries)
    ensures Unique(TombstoneId, UpsertOne(TombstoneId, entries, e))
    ensures var k := Position(TombstoneId, UpsertOne(TombstoneId, entries, e), id);
            if id == e.id then k < |UpsertOne(TombstoneId, entries, e)| && UpsertOne(TombstoneId, entries, e)[k] == e
            else (k < |UpsertOne(TombstoneId, entries, e)| <==> Position(TombstoneId, entries, id) < |entries|) &&
                 (k < |UpsertOne(TombstoneId, entries, e)| ==> UpsertOne(TombstoneId, entries, e)[k] == entries[Position(TombstoneId, entries, id)])
  {
    hide Position;
    var put := UpsertOne(TombstoneId, entries, e);
    var at, p := Position(TombstoneId, entries, e.id), Position(TombstoneId, entries, id);
    var k := Position(TombstoneId, put, id);
    assert put[at] == e;
    assert forall i :: 0 <= i < |entries| && i != at ==> put[i] == entries[i];
    assert id != e.id && p < |entries| ==> put[p] == entries[p];
  }

  /** A local delete never weakens an earlier one exactly when the clock is not behind it. */
  lemma RecordKeepsDeadExactly(t: Tombstones, id: Uuid, now: Millis)
    ensures (forall x: Item :: Alive(x, t[id := now]) ==> Alive(x, t)) <==> (id in t ==> t[id] <= now)
  {
    if id in t && t[id] > now {
      var x := Item(Flow, id, t[id], "");
      assert Alive(x, t[id := now]) && !Alive(x, t);
    }
  }
}
