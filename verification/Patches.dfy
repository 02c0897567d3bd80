// The diff a registry journals, and what applying it does to an ordered list of
// items with unique ids. The diff is collected from hash maps, so its upserts come
// in any order.
module Patches {
  import opened Basics

  type IdOf<!T> = T -> Uuid

  predicate Unique<T>(id: IdOf<T>, items: seq<T>) {
    forall i, j :: 0 <= i < j < |items| ==> id(items[i]) != id(items[j])
  }

  predicate Holds<T>(id: IdOf<T>, items: seq<T>, key: Uuid) {
    exists i :: 0 <= i < |items| && id(items[i]) == key
  }

  /** Position of the first item with this id, or the length. */
  function Position<T>(id: IdOf<T>, items: seq<T>, key: Uuid): (p: nat)
    ensures p <= |items|
    ensures p < |items| ==> id(items[p]) == key
    ensures forall i :: 0 <= i < p ==> id(items[i]) != key
  {
    FirstWhere(items, x => id(x) == key)
  }

  /** Last item wins, as collecting into a map does. */
  function ById<T>(id: IdOf<T>, items: seq<T>): map<Uuid, T> {
    if |items| == 0 then map[] else ById(id, items[..|items| - 1])[id(items[|items| - 1]) := items[|items| - 1]]
  }

  lemma {:induction false} ByIdFinds<T>(id: IdOf<T>, items: seq<T>)
    requires Unique(id, items)
    ensures forall i :: 0 <= i < |items| ==> id(items[i]) in ById(id, items) && ById(id, items)[id(items[i])] == items[i]
    ensures forall k :: k in ById(id, items) ==> Holds(id, items, k)
    ensures forall k :: k in ById(id, items) ==> id(ById(id, items)[k]) == k && ById(id, items)[k] in items
  {
    if |items| > 0 {
      var front := items[..|items| - 1];
      ByIdFinds(id, front);
      forall k | k in ById(id, items)
        ensures Holds(id, items, k) && id(ById(id, items)[k]) == k && ById(id, items)[k] in items
      {
        if k == id(items[|items| - 1]) {
        } else {
          var i :| 0 <= i < |front| && id(front[i]) == k;
          assert items[i] == front[i];
        }
      }
    }
  }

  function Retain<T>(id: IdOf<T>, items: seq<T>, deletes: set<Uuid>): seq<T> {
    if |items| == 0 then []
    else (if id(items[0]) in deletes then [] else [items[0]]) + Retain(id, items[1..], deletes)
  }

  function UpsertOne<T>(id: IdOf<T>, items: seq<T>, x: T): seq<T> {
    var p := Position(id, items, id(x));
    if p < |items| then items[p := x] else items + [x]
  }

  function UpsertAll<T>(id: IdOf<T>, items: seq<T>, upserts: seq<T>): seq<T>
    decreases |upserts|
  {
    if |upserts| == 0 then items else UpsertAll(id, UpsertOne(id, items, upserts[0]), upserts[1..])
  }

  datatype Patch<+T> = Patch(upserts: seq<T>, deletes: set<Uuid>)

  function ApplyPatch<T>(id: IdOf<T>, items: seq<T>, patch: Patch<T>): seq<T> {
    UpsertAll(id, Retain(id, items, patch.deletes), patch.upserts)
  }

  /** The in-place form: the upsert loop of `apply_command`. */
  method ApplyUpserts<T>(id: IdOf<T>, items: seq<T>, upserts: seq<T>) returns (r: seq<T>)
    ensures r == UpsertAll(id, items, upserts)
  {
    r := items;
    var i := 0;
    while i < |upserts|
      invariant 0 <= i <= |upserts|
      invariant UpsertAll(id, r, upserts[i..]) == UpsertAll(id, items, upserts)
    {
      var p := Position(id, r, id(upserts[i]));
      assert upserts[i..][1..] == upserts[i + 1..];
      r := if p < |r| then r[p := upserts[i]] else r + [upserts[i]];
      i := i + 1;
    }
  }

  function Changed<T(==)>(before: map<Uuid, T>, after: map<Uuid, T>): set<Uuid> {
    set k | k in after && !(k in before && before[k] == after[k])
  }

  /** An order in which the map iterator may yield the changed entries. */
  ghost predicate Enumerates<T>(id: IdOf<T>, upserts: seq<T>, keys: set<Uuid>, items: map<Uuid, T>) {
    && Unique(id, upserts)
    && (forall i :: 0 <= i < |upserts| ==> id(upserts[i]) in keys && id(upserts[i]) in items && upserts[i] == items[id(upserts[i])])
    && (forall k :: k in keys ==> Holds(id, upserts, k))
  }

  ghost predicate IsDiff<T>(id: IdOf<T>, before: seq<T>, after: seq<T>, patch: Patch<T>) {
    && Enumerates(id, patch.upserts, Changed(ById(id, before), ById(id, after)), ById(id, after))
    && patch.deletes == ById(id, before).Keys - ById(id, after).Keys
  }

  /** The items of `before` whose ids are still there in `after`. */
  function Survivors<T>(id: IdOf<T>, before: seq<T>, after: seq<T>): seq<T> {
    Retain(id, before, ById(id, before).Keys - ById(id, after).Keys)
  }

  /** `after` keeps the surviving items of `before` in place and appends the rest. */
  ghost predicate OrderedEdit<T>(id: IdOf<T>, before: seq<T>, after: seq<T>) {
    var kept := Survivors(id, before, after);
    && |kept| <= |after|
    && (forall i :: 0 <= i < |kept| ==> id(after[i]) == id(kept[i]))
    && (forall i :: |kept| <= i < |after| ==> !Holds(id, before, id(after[i])))
  }

  lemma {:induction false} RetainSubset<T>(id: IdOf<T>, items: seq<T>, deletes: set<Uuid>)
    ensures forall x :: x in Retain(id, items, deletes) ==> x in items && id(x) !in deletes
    ensures forall i :: 0 <= i < |items| && id(items[i]) !in deletes ==> items[i] in Retain(id, items, deletes)
    ensures |Retain(id, items, deletes)| <= |items|
  {
    if |items| > 0 {
      RetainSubset(id, items[1..], deletes);
    }
  }

  /** Halfway through the upserts: every position is either final or still to come. */
  ghost predicate Near<T>(id: IdOf<T>, items: seq<T>, after: seq<T>, left: seq<T>) {
    && |items| <= |after| <= |items| + 1
    && (forall i :: 0 <= i < |items| ==> id(items[i]) == id(after[i]) && (items[i] == after[i] || after[i] in left))
    && (forall i :: |items| <= i < |after| ==> after[i] in left)
    && (forall x :: x in left ==> x in after)
  }

  lemma {:induction false} NearFinishes<T>(id: IdOf<T>, items: seq<T>, after: seq<T>, left: seq<T>)
    requires Unique(id, after) && Near(id, items, after, left)
    ensures UpsertAll(id, items, left) == after
    decreases |left|
  {
    assert |items| < |after| ==> after[|items|] in left;
    if |left| == 0 {
      assert items == after;
    } else {
      var x := left[0];
      NearStep(id, items, after, left);
      NearFinishes(id, UpsertOne(id, items, x), after, left[1..]);
    }
  }

  lemma NearStep<T>(id: IdOf<T>, items: seq<T>, after: seq<T>, left: seq<T>)
    requires Unique(id, after) && Near(id, items, after, left) && |left| > 0
    ensures Near(id, UpsertOne(id, items, left[0]), after, left[1..])
  {
    var x, rest := left[0], left[1..];
    assert left == [x] + rest;
    assert x in left;
    assert x in after;
    var j :| 0 <= j < |after| && after[j] == x;
    var p := Position(id, items, id(x));
    assert forall q :: 0 <= q < |items| ==> id(items[q]) == id(after[q]);
    assert p == if j < |items| then j else |items|;
    var next := UpsertOne(id, items, x);
    forall i | 0 <= i < |next|
      ensures id(next[i]) == id(after[i]) && (next[i] == after[i] || after[i] in rest)
    {
      if i != j {
        assert next[i] == items[i];
        if items[i] != after[i] { assert after[i] in left && after[i] != x; }
      }
    }
    forall i | |next| <= i < |after| ensures after[i] in rest {
      assert after[i] in left && i != j;
      assert after[i] != x;
    }
  }

  /** Replaying the journaled diff, in any upsert order, rebuilds the list the writer
      had, order included, when at most one item is new. */
  lemma DiffReplays<T>(id: IdOf<T>, before: seq<T>, after: seq<T>, patch: Patch<T>)
    requires Unique(id, before) && Unique(id, after) && OrderedEdit(id, before, after)
    requires IsDiff(id, before, after, patch)
    requires |after| <= |Survivors(id, before, after)| + 1
    ensures ApplyPatch(id, before, patch) == after
  {
    hide UpsertAll, Retain, Position;
    var kept := Survivors(id, before, after);
    ByIdFinds(id, before);
    ByIdFinds(id, after);
    RetainSubset(id, before, patch.deletes);
    forall i | 0 <= i < |after| && (i >= |kept| || kept[i] != after[i])
      ensures after[i] in patch.upserts
    {
      DiffMentions(id, before, after, patch, kept, i);
    }
    forall x | x in patch.upserts ensures x in after {
    }
    NearFinishes(id, kept, after, patch.upserts);
  }

  lemma DiffMentions<T>(id: IdOf<T>, before: seq<T>, after: seq<T>, patch: Patch<T>, kept: seq<T>, i: nat)
    requires Unique(id, before) && Unique(id, after) && OrderedEdit(id, before, after)
    requires IsDiff(id, before, after, patch) && kept == Survivors(id, before, after)
    requires i < |after| && (i >= |kept| || kept[i] != after[i])
    ensures after[i] in patch.upserts
  {
    hide Retain;
    ByIdFinds(id, before);
    ByIdFinds(id, after);
    RetainSubset(id, before, patch.deletes);
    var k := id(after[i]);
    var b, a := ById(id, before), ById(id, after);
    assert k in a && a[k] == after[i];
    if i >= |kept| {
      assert k !in b;
    } else {
      assert kept[i] in before;
      var j :| 0 <= j < |before| && before[j] == kept[i];
      assert b[k] == kept[i];
    }
    assert k in Changed(b, a);
    assert Holds(id, patch.upserts, k);
  }

  /** Later upserts never change which id sits at a position. */
  lemma {:induction false} UpsertKeepsIds<T>(id: IdOf<T>, items: seq<T>, upserts: seq<T>, i: nat)
    requires i < |items|
    ensures |UpsertAll(id, items, upserts)| >= |items|
    ensures id(UpsertAll(id, items, upserts)[i]) == id(items[i])
    decreases |upserts|
  {
    if |upserts| > 0 {
      UpsertKeepsIds(id, UpsertOne(id, items, upserts[0]), upserts[1..], i);
    }
  }

  lemma {:induction false} OrderStartingWith<T>(id: IdOf<T>, keys: set<Uuid>, items: map<Uuid, T>, first: Uuid) returns (order: seq<T>)
    requires first in keys && keys <= items.Keys
    requires forall k :: k in items ==> id(items[k]) == k
    ensures Enumerates(id, order, keys, items) && |order| > 0 && order[0] == items[first]
    decreases keys
  {
    var rest := keys - {first};
    if rest == {} {
      order := [items[first]];
      assert keys == {first};
      assert id(order[0]) == first;
    } else {
      var k :| k in rest;
      var tail := OrderStartingWith(id, rest, items, k);
      order := [items[first]] + tail;
      forall key | key in keys ensures Holds(id, order, key) {
        if key == first {
          assert id(order[0]) == key;
        } else {
          assert Holds(id, tail, key);
          var i :| 0 <= i < |tail| && id(tail[i]) == key;
          assert order[i + 1] == tail[i];
        }
      }
    }
  }

  /** With two or more new items some upsert order rebuilds another list, so an edit may
      add one item at most: no registry operation adds more. */
  lemma TwoNewItemsReorder<T>(id: IdOf<T>, before: seq<T>, after: seq<T>) returns (patch: Patch<T>)
    requires Unique(id, before) && Unique(id, after) && OrderedEdit(id, before, after)
    requires |after| >= |Survivors(id, before, after)| + 2
    ensures IsDiff(id, before, after, patch) && ApplyPatch(id, before, patch) != after
  {
    hide Retain, UpsertAll;
    var b, a := ById(id, before), ById(id, after);
    var kept := Survivors(id, before, after);
    var m := |kept|;
    ByIdFinds(id, before);
    ByIdFinds(id, after);
    RetainSubset(id, before, b.Keys - a.Keys);
    var x := after[m + 1];
    assert id(x) !in b;
    var order := OrderStartingWith(id, Changed(b, a), a, id(x));
    patch := Patch(order, b.Keys - a.Keys);
    FirstUpsertAppends(id, kept, order);
    UpsertKeepsIds(id, kept + [x], order[1..], m) by {
      assert forall i :: 0 <= i < m ==> kept[i] in before;
    }
  }

  lemma FirstUpsertAppends<T>(id: IdOf<T>, items: seq<T>, upserts: seq<T>)
    requires |upserts| > 0 && !Holds(id, items, id(upserts[0]))
    ensures UpsertAll(id, items, upserts) == UpsertAll(id, items + [upserts[0]], upserts[1..])
  {
  }

  lemma {:induction false} RetainAgrees<T>(id: IdOf<T>, items: seq<T>, d: set<Uuid>, e: set<Uuid>)
    requires forall i :: 0 <= i < |items| ==> (id(items[i]) in d <==> id(items[i]) in e)
    ensures Retain(id, items, d) == Retain(id, items, e)
  {
    if |items| > 0 {
      RetainAgrees(id, items[1..], d, e);
    }
  }

  lemma {:induction false} RetainNone<T>(id: IdOf<T>, items: seq<T>, d: set<Uuid>)
    requires forall i :: 0 <= i < |items| ==> id(items[i]) !in d
    ensures Retain(id, items, d) == items
  {
    if |items| > 0 {
      RetainNone(id, items[1..], d);
    }
  }

  lemma {:induction false} RetainRemoves<T>(id: IdOf<T>, items: seq<T>, i: nat)
    requires Unique(id, items) && i < |items|
    ensures Retain(id, items, {id(items[i])}) == items[..i] + items[i + 1..]
  {
    if i == 0 {
      RetainNone(id, items[1..], {id(items[0])});
      assert items[..0] + items[1..] == items[1..];
    } else {
      RetainRemoves(id, items[1..], i - 1);
      assert items[..i] + items[i + 1..] == [items[0]] + (items[1..][..i - 1] + items[1..][i..]);
    }
  }

  /** The ids that go are the deleted ones. */
  lemma DeletedAreGone<T>(id: IdOf<T>, before: seq<T>, deletes: set<Uuid>, kept: seq<T>, added: seq<T>, i: nat)
    requires |kept| == |Retain(id, before, deletes)| && i < |before|
    requires forall j :: 0 <= j < |kept| ==> id(kept[j]) == id(Retain(id, before, deletes)[j])
    requires forall j :: 0 <= j < |added| ==> !Holds(id, before, id(added[j]))
    ensures id(before[i]) in deletes <==> !Holds(id, kept + added, id(before[i]))
  {
    hide Retain;
    var after := kept + added;
    var retained := Retain(id, before, deletes);
    RetainSubset(id, before, deletes);
    var k := id(before[i]);
    assert Holds(id, before, k);
    assert forall j :: 0 <= j < |kept| ==> retained[j] in retained && id(after[j]) !in deletes;
    assert forall j :: |kept| <= j < |after| ==> after[j] == added[j - |kept|] && id(after[j]) != k;
    if k !in deletes {
      assert before[i] in retained;
      var j :| 0 <= j < |retained| && retained[j] == before[i];
      assert id(after[j]) == k;
    }
  }

  /** Deleting some ids, rewriting survivors under their own ids and appending at most
      one new item is an ordered edit: the shape of every registry operation. */
  lemma EditShape<T>(id: IdOf<T>, before: seq<T>, deletes: set<Uuid>, kept: seq<T>, added: seq<T>)
    requires Unique(id, before) && Unique(id, kept + added) && |added| <= 1
    requires |kept| == |Retain(id, before, deletes)|
    requires forall i :: 0 <= i < |kept| ==> id(kept[i]) == id(Retain(id, before, deletes)[i])
    requires forall i :: 0 <= i < |added| ==> !Holds(id, before, id(added[i]))
    ensures OrderedEdit(id, before, kept + added)
    ensures |kept + added| <= |Survivors(id, before, kept + added)| + 1
  {
    hide ById, Retain;
    var after := kept + added;
    ByIdFinds(id, before);
    ByIdFinds(id, after);
    var gone := ById(id, before).Keys - ById(id, after).Keys;
    forall i | 0 <= i < |before|
      ensures id(before[i]) in deletes <==> id(before[i]) in gone
    {
      DeletedAreGone(id, before, deletes, kept, added, i);
      assert Holds(id, before, id(before[i]));
    }
    RetainAgrees(id, before, deletes, gone);
    assert forall i :: |kept| <= i < |after| ==> after[i] == added[i - |kept|];
  }

  lemma EditReplace<T>(id: IdOf<T>, before: seq<T>, i: nat, x: T)
    requires Unique(id, before) && i < |before| && id(x) == id(before[i])
    ensures Unique(id, before[i := x]) && OrderedEdit(id, before, before[i := x])
    ensures |before[i := x]| <= |Survivors(id, before, before[i := x])| + 1
  {
    RetainNone(id, before, {});
    EditShape(id, before, {}, before[i := x], []);
    assert before[i := x] + [] == before[i := x];
  }

  lemma EditAppend<T>(id: IdOf<T>, before: seq<T>, x: T)
    requires Unique(id, before) && !Holds(id, before, id(x))
    ensures Unique(id, before + [x]) && OrderedEdit(id, before, before + [x])
    ensures |before + [x]| <= |Survivors(id, before, before + [x])| + 1
  {
    RetainNone(id, before, {});
    EditShape(id, before, {}, before, [x]);
  }

  lemma EditRemove<T>(id: IdOf<T>, before: seq<T>, i: nat)
    requires Unique(id, before) && i < |before|
    ensures var after := before[..i] + before[i + 1..];
            Unique(id, after) && OrderedEdit(id, before, after) && |after| <= |Survivors(id, before, after)| + 1
  {
    var after := before[..i] + before[i + 1..];
    RetainRemoves(id, before, i);
    assert after + [] == after;
    EditShape(id, before, {id(before[i])}, after, []);
  }

  lemma {:induction false} RetainUnique<T>(id: IdOf<T>, items: seq<T>, d: set<Uuid>)
    requires Unique(id, items)
    ensures Unique(id, Retain(id, items, d))
  {
    if |items| > 0 {
      RetainUnique(id, items[1..], d);
      RetainSubset(id, items[1..], d);
    }
  }

  lemma EditRetain<T>(id: IdOf<T>, before: seq<T>, d: set<Uuid>)
    requires Unique(id, before)
    ensures var after := Retain(id, before, d);
            Unique(id, after) && OrderedEdit(id, before, after) && |after| <= |Survivors(id, before, after)| + 1
  {
    var after := Retain(id, before, d);
    RetainUnique(id, before, d);
    assert after + [] == after;
    EditShape(id, before, d, after, []);
  }

  /** Collects the changed entries in whatever order the map yields them. */
  method CollectUpserts<T>(id: IdOf<T>, keys: set<Uuid>, items: map<Uuid, T>) returns (order: seq<T>)
    requires keys <= items.Keys && forall k :: k in items ==> id(items[k]) == k
    ensures Enumerates(id, order, keys, items)
  {
    order := [];
    var left := keys;
    while left != {}
      invariant left <= keys && Enumerates(id, order, keys - left, items)
      decreases left
    {
      var k :| k in left;
      ghost var was := order;
      order := order + [items[k]];
      left := left - {k};
      assert order[|was|] == items[k];
      forall key | key in keys - left ensures Holds(id, order, key) {
        if key != k {
          assert Holds(id, was, key);
          var i :| 0 <= i < |was| && id(was[i]) == key;
          assert order[i] == was[i];
        } else {
          assert id(order[|was|]) == key;
        }
      }
    }
    assert keys - left == keys;
  }

  /** The diff that `mutate` journals. */
  method Diff<T(==)>(id: IdOf<T>, before: seq<T>, after: seq<T>) returns (patch: Patch<T>)
    requires Unique(id, before) && Unique(id, after)
    ensures IsDiff(id, before, after, patch)
  {
    var b, a := ById(id, before), ById(id, after);
    ByIdFinds(id, before);
    ByIdFinds(id, after);
    var upserts := CollectUpserts(id, Changed(b, a), a);
    patch := Patch(upserts, b.Keys - a.Keys);
  }

  /** Upserts of ids already there change no length. */
  lemma {:induction false} UpsertHeldKeepsLength<T>(id: IdOf<T>, items: seq<T>, upserts: seq<T>)
    requires forall i :: 0 <= i < |upserts| ==> Holds(id, items, id(upserts[i]))
    ensures |UpsertAll(id, items, upserts)| == |items|
    decreases |upserts|
  {
    if |upserts| > 0 {
      var next := UpsertOne(id, items, upserts[0]);
      assert Holds(id, items, id(upserts[0]));
      forall i | 0 <= i < |upserts[1..]| ensures Holds(id, next, id(upserts[1..][i])) {
        var key := id(upserts[i + 1]);
        assert Holds(id, items, key);
        var j :| 0 <= j < |items| && id(items[j]) == key;
        assert id(next[j]) == key;
      }
      UpsertHeldKeepsLength(id, next, upserts[1..]);
    }
  }

  /** Appending an item under an id that is taken is not what its diff replays to. */
  lemma AppendHeldShrinks<T>(id: IdOf<T>, items: seq<T>, x: T, patch: Patch<T>)
    requires Unique(id, items) && Holds(id, items, id(x)) && IsDiff(id, items, items + [x], patch)
    ensures |ApplyPatch(id, items, patch)| == |items|
  {
    hide UpsertAll, Retain;
    var after := items + [x];
    assert after[..|items|] == items;
    var b, a := ById(id, items), ById(id, after);
    assert a == b[id(x) := x];
    ByIdFinds(id, items);
    assert a.Keys == b.Keys;
    assert patch.deletes == {};
    RetainNone(id, items, {});
    UpsertHeldKeepsLength(id, items, patch.upserts) by {
      forall i | 0 <= i < |patch.upserts| ensures Holds(id, items, id(patch.upserts[i])) {
        assert id(patch.upserts[i]) in b;
      }
    }
  }
}
