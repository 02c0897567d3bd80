// Merging catalogs from several nodes: the newest version of each item wins, and deletions
// are remembered as tombstones that newer versions outlive.
module CatalogMerge {
  import opened Basics

  datatype Kind = Flow | Queue | Group | Member | Cron

  datatype Item = Item(kind: Kind, id: Uuid, updatedAt: Millis, body: string)

  datatype Slot = Slot(kind: Kind, id: Uuid)

  type Tombstones = map<Uuid, Millis>

  datatype Snapshot = Snapshot(items: seq<Item>, tombstones: Tombstones)

  function SlotOf(x: Item): Slot {
    Slot(x.kind, x.id)
  }

  predicate Alive(x: Item, tombstones: Tombstones) {
    x.id in tombstones ==> x.updatedAt > tombstones[x.id]
  }

  // The reference: what a merge should give, whatever the order.

  function Pool(inputs: seq<Snapshot>): set<Item> {
    set s, x | s in inputs && x in s.items :: x
  }

  /** No other version of the item is newer. */
  ghost predicate Wins(pool: set<Item>, x: Item) {
    x in pool && forall y :: y in pool && SlotOf(y) == SlotOf(x) ==> y.updatedAt <= x.updatedAt
  }

  /** The latest deletion of each id, and no other. */
  ghost predicate Deaths(inputs: seq<Snapshot>, t: Tombstones) {
    && (forall id :: id in t ==> exists s :: s in inputs && id in s.tombstones && s.tombstones[id] == t[id])
    && (forall s, id :: s in inputs && id in s.tombstones ==> id in t && s.tombstones[id] <= t[id])
  }

  /** The reference: all live versions that nothing beats. */
  ghost predicate Merged(inputs: seq<Snapshot>, out: Snapshot) {
    && Deaths(inputs, out.tombstones)
    && forall x :: x in out.items <==> Wins(Pool(inputs), x) && Alive(x, out.tombstones)
  }

  /** What the code may give: at most one version per slot, each a live winner, and one for every
      slot that has a live winner. */
  ghost predicate MergedUpToTies(inputs: seq<Snapshot>, out: Snapshot) {
    && Deaths(inputs, out.tombstones)
    && (forall x :: x in out.items ==> Wins(Pool(inputs), x) && Alive(x, out.tombstones))
    && (forall x, y :: x in out.items && y in out.items && SlotOf(x) == SlotOf(y) ==> x == y)
    && (forall x :: Wins(Pool(inputs), x) && Alive(x, out.tombstones) ==> exists y :: y in out.items && SlotOf(y) == SlotOf(x))
  }

  /** Two different versions of an item, both newest and alive. */
  ghost predicate Tied(inputs: seq<Snapshot>, t: Tombstones, x: Item, y: Item) {
    x != y && SlotOf(x) == SlotOf(y) && Wins(Pool(inputs), x) && Wins(Pool(inputs), y) && Alive(x, t) && Alive(y, t)
  }

  ghost predicate NoTies(inputs: seq<Snapshot>, t: Tombstones) {
    forall x, y :: !Tied(inputs, t, x, y)
  }

  ghost predicate Agree(a: Snapshot, b: Snapshot) {
    a.tombstones == b.tombstones && forall x :: x in a.items <==> x in b.items
  }

  /** The code meets the reference exactly when no two live newest versions tie. */
  lemma ReferenceMetExactly(inputs: seq<Snapshot>, out: Snapshot)
    requires MergedUpToTies(inputs, out)
    ensures Merged(inputs, out) <==> NoTies(inputs, out.tombstones)
  {
    hide Deaths, Pool, Alive;
    if Merged(inputs, out) {
      forall x, y ensures !Tied(inputs, out.tombstones, x, y) {
      }
    }
    if NoTies(inputs, out.tombstones) {
      forall x | Wins(Pool(inputs), x) && Alive(x, out.tombstones) ensures x in out.items {
        var y :| y in out.items && SlotOf(y) == SlotOf(x);
        assert !Tied(inputs, out.tombstones, x, y);
      }
    }
  }

  /** No output of a merge brings back an item that is not strictly newer than every known
      deletion of it, ties or not. */
  lemma NoResurrection(inputs: seq<Snapshot>, out: Snapshot, x: Item, s: Snapshot)
    requires MergedUpToTies(inputs, out) && x in out.items && s in inputs && x.id in s.tombstones
    ensures x.updatedAt > s.tombstones[x.id]
  {
    hide Wins, Pool;
    DeathKnown(inputs, out.tombstones, s, x.id);
    assert Alive(x, out.tombstones);
  }

  lemma DeathsAgree(a: seq<Snapshot>, b: seq<Snapshot>, t: Tombstones, u: Tombstones)
    requires Deaths(a, t) && Deaths(b, u)
    requires forall s :: s in a ==> s in b
    ensures forall id :: id in t ==> id in u && t[id] <= u[id]
  {
  }

  /** Merges of groups, one output of the code per group. */
  ghost predicate Parts(groups: seq<seq<Snapshot>>, parts: seq<Snapshot>) {
    |parts| == |groups| && forall i :: 0 <= i < |groups| ==> MergedUpToTies(groups[i], parts[i])
  }

  ghost predicate Together(groups: seq<seq<Snapshot>>, all: seq<Snapshot>) {
    forall s :: s in all <==> exists i :: 0 <= i < |groups| && s in groups[i]
  }

  lemma DeathFrom(inputs: seq<Snapshot>, t: Tombstones, id: Uuid) returns (s: Snapshot)
    requires Deaths(inputs, t) && id in t
    ensures s in inputs && id in s.tombstones && s.tombstones[id] == t[id]
  {
    s :| s in inputs && id in s.tombstones && s.tombstones[id] == t[id];
  }

  lemma DeathKnown(inputs: seq<Snapshot>, t: Tombstones, s: Snapshot, id: Uuid)
    requires Deaths(inputs, t) && s in inputs && id in s.tombstones
    ensures id in t && s.tombstones[id] <= t[id]
  {
  }

  lemma PartMerged(groups: seq<seq<Snapshot>>, parts: seq<Snapshot>, i: nat)
    requires Parts(groups, parts) && i < |groups|
    ensures i < |parts| && parts[i] in parts && MergedUpToTies(groups[i], parts[i]) && Deaths(groups[i], parts[i].tombstones)
  {
  }

  lemma PartDeaths(groups: seq<seq<Snapshot>>, parts: seq<Snapshot>, all: seq<Snapshot>, t: Tombstones)
    requires Parts(groups, parts) && Together(groups, all) && Deaths(parts, t)
    ensures Deaths(all, t)
  {
    assert |parts| == |groups|;
    hide Deaths, Parts, Together, MergedUpToTies;
    forall id | id in t ensures exists s :: s in all && id in s.tombstones && s.tombstones[id] == t[id] {
      var p := DeathFrom(parts, t, id);
      var i :| 0 <= i < |parts| && parts[i] == p;
      PartMerged(groups, parts, i);
      var s := DeathFrom(groups[i], p.tombstones, id);
      InGroup(groups, all, i);
    }
    forall s, id | s in all && id in s.tombstones ensures id in t && s.tombstones[id] <= t[id] {
      PartDeathKnown(groups, parts, all, t, s, id);
    }
    DeathsBy(all, t);
  }

  lemma DeathsBy(inputs: seq<Snapshot>, t: Tombstones)
    requires forall id :: id in t ==> exists s :: s in inputs && id in s.tombstones && s.tombstones[id] == t[id]
    requires forall s, id :: s in inputs && id in s.tombstones ==> id in t && s.tombstones[id] <= t[id]
    ensures Deaths(inputs, t)
  {
  }

  lemma PartDeathKnown(groups: seq<seq<Snapshot>>, parts: seq<Snapshot>, all: seq<Snapshot>, t: Tombstones, s: Snapshot, id: Uuid)
    requires Parts(groups, parts) && Together(groups, all) && Deaths(parts, t) && s in all && id in s.tombstones
    ensures id in t && s.tombstones[id] <= t[id]
  {
    hide Deaths, MergedUpToTies;
    var i :| 0 <= i < |groups| && s in groups[i];
    PartMerged(groups, parts, i);
    DeathKnown(groups[i], parts[i].tombstones, s, id);
    DeathKnown(parts, t, parts[i], id);
  }

  lemma InGroup(groups: seq<seq<Snapshot>>, all: seq<Snapshot>, i: nat)
    requires Together(groups, all) && i < |groups|
    ensures forall s :: s in groups[i] ==> s in all
    ensures forall y :: y in Pool(groups[i]) ==> y in Pool(all)
  {
  }

  /** What a part gives out came in. */
  lemma PartItem(groups: seq<seq<Snapshot>>, parts: seq<Snapshot>, all: seq<Snapshot>, x: Item)
    requires Parts(groups, parts) && Together(groups, all) && x in Pool(parts)
    ensures x in Pool(all)
  {
    var p :| p in parts && x in p.items;
    var i :| 0 <= i < |parts| && parts[i] == p;
    assert MergedUpToTies(groups[i], parts[i]);
    hide Together;
    InGroup(groups, all, i);
  }

  /** A live winner over everything, tied with none, is given out by every group that has it. */
  lemma GroupWinner(group: seq<Snapshot>, part: Snapshot, all: seq<Snapshot>, t: Tombstones, x: Item)
    requires MergedUpToTies(group, part) && (forall s :: s in group ==> s in all) && Deaths(all, t)
    requires Wins(Pool(all), x) && Alive(x, t) && x in Pool(group) && NoTies(all, t)
    ensures x in part.items
  {
    assert Deaths(group, part.tombstones) && forall y :: y in Pool(group) ==> y in Pool(all);
    hide MergedUpToTies;
    DeathsAgree(group, all, part.tombstones, t);
    hide Deaths, Pool;
    assert Wins(Pool(group), x) && Alive(x, part.tombstones);
    var y := GivenOut(group, part, x);
    assert !Tied(all, t, x, y);
  }

  lemma GivenOut(inputs: seq<Snapshot>, out: Snapshot, x: Item) returns (y: Item)
    requires MergedUpToTies(inputs, out) && Wins(Pool(inputs), x) && Alive(x, out.tombstones)
    ensures y in out.items && y in Pool(inputs) && SlotOf(y) == SlotOf(x) && y.updatedAt == x.updatedAt
  {
    hide Deaths, Pool;
    y :| y in out.items && SlotOf(y) == SlotOf(x);
  }

  /** The newest version a group has of an item is given out, or an equally new one, or it was
      deleted there. */
  lemma GroupBest(groups: seq<seq<Snapshot>>, parts: seq<Snapshot>, i: nat, y: Item) returns (w: Item)
    requires Parts(groups, parts) && i < |groups| && y in Pool(groups[i])
    ensures i < |parts| && SlotOf(w) == SlotOf(y) && w.updatedAt >= y.updatedAt
    ensures w in parts[i].items || (w.id in parts[i].tombstones && w.updatedAt <= parts[i].tombstones[w.id])
  {
    w := Best(Pool(groups[i]), y);
    PartMerged(groups, parts, i);
    hide Parts, Pool, Deaths;
    if Alive(w, parts[i].tombstones) {
      var best := w;
      w :| w in parts[i].items && SlotOf(w) == SlotOf(best);
    }
  }

  lemma {:induction false} Best(pool: set<Item>, y: Item) returns (w: Item)
    requires y in pool
    ensures Wins(pool, w) && SlotOf(w) == SlotOf(y) && w.updatedAt >= y.updatedAt
    decreases pool
  {
    if z :| z in pool && SlotOf(z) == SlotOf(y) && z.updatedAt > y.updatedAt {
      w := Best(pool - {y}, z);
    } else {
      w := y;
    }
  }

  /** A winner among what the parts gave out, still alive, wins over everything. */
  lemma PartWinner(groups: seq<seq<Snapshot>>, parts: seq<Snapshot>, all: seq<Snapshot>, t: Tombstones, x: Item)
    requires Parts(groups, parts) && Together(groups, all) && Deaths(parts, t)
    requires Wins(Pool(parts), x) && Alive(x, t)
    ensures Wins(Pool(all), x)
  {
    PartItem(groups, parts, all, x);
    forall y | y in Pool(all) && SlotOf(y) == SlotOf(x) ensures y.updatedAt <= x.updatedAt {
      var s :| s in all && y in s.items;
      var i :| 0 <= i < |groups| && s in groups[i];
      hide Parts, Together, Deaths;
      PartMerged(groups, parts, i);
      hide MergedUpToTies;
      var w := GroupBest(groups, parts, i, y);
      if w in parts[i].items {
        assert w in Pool(parts);
      } else {
        DeathKnown(parts, t, parts[i], w.id);
      }
    }
  }

  /** Without ties among everything, what the parts give out has the same live winners. */
  lemma SameWinners(groups: seq<seq<Snapshot>>, parts: seq<Snapshot>, all: seq<Snapshot>, t: Tombstones, x: Item)
    requires Parts(groups, parts) && Together(groups, all) && Deaths(parts, t) && NoTies(all, t)
    ensures Wins(Pool(parts), x) && Alive(x, t) <==> Wins(Pool(all), x) && Alive(x, t)
  {
    if Wins(Pool(parts), x) && Alive(x, t) { PartWinner(groups, parts, all, t, x); }
    if Wins(Pool(all), x) && Alive(x, t) {
      PartDeaths(groups, parts, all, t);
      var s :| s in all && x in s.items;
      var i :| 0 <= i < |groups| && s in groups[i];
      hide Parts, Together, Deaths, Alive, NoTies, MergedUpToTies;
      PartMerged(groups, parts, i);
      InGroup(groups, all, i);
      GroupWinner(groups[i], parts[i], all, t, x);
      assert x in Pool(parts);
      forall y | y in Pool(parts) && SlotOf(y) == SlotOf(x) ensures y.updatedAt <= x.updatedAt {
        PartItem(groups, parts, all, y);
      }
    }
  }

  /** So it has no ties either, and a merge of it meets the reference over everything. */
  lemma NestedMeetsReference(groups: seq<seq<Snapshot>>, parts: seq<Snapshot>, all: seq<Snapshot>, nested: Snapshot)
    requires Parts(groups, parts) && Together(groups, all) && MergedUpToTies(parts, nested) && NoTies(all, nested.tombstones)
    ensures Merged(all, nested)
  {
    var t := nested.tombstones;
    PartDeaths(groups, parts, all, t);
    forall x, y ensures !Tied(parts, t, x, y) {
      hide Parts, Together, Deaths, Wins, Alive, MergedUpToTies;
      SameWinners(groups, parts, all, t, x);
      SameWinners(groups, parts, all, t, y);
      assert !Tied(all, t, x, y);
    }
    ReferenceMetExactly(parts, nested);
    forall x ensures x in nested.items <==> Wins(Pool(all), x) && Alive(x, t) {
      hide Parts, Together, Deaths, Wins, Alive, MergedUpToTies, NoTies;
      SameWinners(groups, parts, all, t, x);
    }
  }
}
