// Whether the order and the grouping in which catalogs are merged can be told from the result
// of the loop itself.
module CatalogOrder {
  import opened Basics
  import opened CatalogMerge
  import opened CatalogPeers

  predicate Beats(a: Newest, b: Newest, k: Slot) {
    k in b && (k !in a || a[k].updatedAt <= b[k].updatedAt)
  }

  /** Slot by slot, the version of `b` unless the one of `a` is newer. */
  function Combine(a: Newest, b: Newest): Newest {
    map k | k in a.Keys + b.Keys :: if Beats(a, b, k) then b[k] else a[k]
  }

  /** What a catalog on its own puts in each slot. */
  function Picks(s: Snapshot): Newest {
    MergeAll(map[], s.items)
  }

  lemma CombineItem(a: Newest, b: Newest, x: Item)
    ensures MergeItem(Combine(a, b), x) == Combine(a, MergeItem(b, x))
  {
  }

  lemma CombineAssociates(a: Newest, b: Newest, c: Newest)
    ensures Combine(Combine(a, b), c) == Combine(a, Combine(b, c))
  {
  }

  lemma {:induction false} AllCombine(target: Newest, items: seq<Item>)
    ensures MergeAll(target, items) == Combine(target, MergeAll(map[], items))
  {
    if items == [] {
      assert Combine(target, map[]) == target;
    } else {
      AllCombine(target, items[..|items| - 1]);
      hide Combine, MergeItem;
      CombineItem(target, MergeAll(map[], items[..|items| - 1]), items[|items| - 1]);
    }
  }

  lemma AfterSnoc(inputs: seq<Snapshot>, s: Snapshot)
    ensures NewestAfter(inputs + [s]) == Combine(NewestAfter(inputs), Picks(s))
  {
    assert (inputs + [s])[..|inputs|] == inputs;
    AllCombine(NewestAfter(inputs), s.items);
    hide Combine, MergeAll;
  }

  /** Merging one run of catalogs after another combines what each gives. */
  lemma {:induction false} AfterConcat(a: seq<Snapshot>, b: seq<Snapshot>)
    ensures NewestAfter(a + b) == Combine(NewestAfter(a), NewestAfter(b))
    decreases |b|
  {
    if b == [] {
      assert a + b == a;
      assert Combine(NewestAfter(a), map[]) == NewestAfter(a);
    } else {
      var init, s := b[..|b| - 1], b[|b| - 1];
      AfterConcat(a, init);
      assert a + b == (a + init) + [s] && b == init + [s];
      hide NewestAfter, Combine;
      AfterSnoc(a + init, s);
      AfterSnoc(init, s);
      CombineAssociates(NewestAfter(a), NewestAfter(init), Picks(s));
    }
  }

  lemma {:induction false} AllHold(items: seq<Item>)
    ensures HoldsNewest(MergeAll(map[], items), (set x | x in items))
  {
    if items != [] {
      var init := items[..|items| - 1];
      AllHold(init);
      MergeItemHolds(MergeAll(map[], init), (set x | x in init), items[|items| - 1]);
      assert items == init + [items[|items| - 1]];
      assert (set x | x in items) == (set x | x in init) + {items[|items| - 1]};
      hide HoldsNewest;
    }
  }

  lemma {:induction false} AfterHolds(inputs: seq<Snapshot>)
    ensures HoldsNewest(NewestAfter(inputs), Pool(inputs))
  {
    if inputs == [] {
    } else {
      var init, s := inputs[..|inputs| - 1], inputs[|inputs| - 1];
      AfterHolds(init);
      AllHold(s.items);
      assert inputs == init + [s];
      PoolGrows(init, s);
      AfterSnoc(init, s);
      hide NewestAfter, Pool, Picks;
      assert HoldsNewest(Picks(s), (set x | x in s.items)) by { PicksHold(s); }
      CombineHolds(NewestAfter(init), Pool(init), Picks(s), (set x | x in s.items));
    }
  }

  lemma PicksHold(s: Snapshot)
    ensures HoldsNewest(Picks(s), (set x | x in s.items))
  {
    AllHold(s.items);
  }

  lemma CombineHolds(a: Newest, pool: set<Item>, b: Newest, more: set<Item>)
    requires HoldsNewest(a, pool) && HoldsNewest(b, more)
    ensures HoldsNewest(Combine(a, b), pool + more)
  {
  }

  /** What is held for a slot is what one of the catalogs picked. */
  lemma {:induction false} HeldIsPicked(inputs: seq<Snapshot>, k: Slot) returns (s: Snapshot)
    requires k in NewestAfter(inputs)
    ensures s in inputs && k in Picks(s) && Picks(s)[k] == NewestAfter(inputs)[k]
  {
    var init, last := inputs[..|inputs| - 1], inputs[|inputs| - 1];
    assert inputs == init + [last];
    AfterSnoc(init, last);
    hide NewestAfter, Picks;
    if Beats(NewestAfter(init), Picks(last), k) {
      s := last;
    } else {
      s := HeldIsPicked(init, k);
    }
  }

  /** Two of the catalogs pick different versions for a slot, both newest of all and alive. */
  ghost predicate Rivals(inputs: seq<Snapshot>, t: Tombstones, s: Snapshot, s': Snapshot, k: Slot) {
    s in inputs && s' in inputs && k in Picks(s) && k in Picks(s') && Tied(inputs, t, Picks(s)[k], Picks(s')[k])
  }

  /** The loop shows the same versions for both orders. */
  ghost predicate ShowsSame(a: seq<Snapshot>, b: seq<Snapshot>, t: Tombstones) {
    forall k :: Shown(NewestAfter(a), t, k) == Shown(NewestAfter(b), t, k)
  }

  function Shown(newest: Newest, t: Tombstones, k: Slot): Option<Item> {
    if k in newest && Alive(newest[k], t) then Some(newest[k]) else None
  }

  lemma ReorderedPool(a: seq<Snapshot>, b: seq<Snapshot>)
    requires multiset(a) == multiset(b)
    ensures Pool(a) == Pool(b)
  {
    forall s ensures s in a <==> s in b {
      assert s in a <==> s in multiset(a);
      assert s in b <==> s in multiset(b);
    }
    SamePool(a, b, map[]);
  }

  /** Without rivals every order shows the same. */
  lemma RivalsOrSame(a: seq<Snapshot>, b: seq<Snapshot>, t: Tombstones, k: Slot)
    requires multiset(a) == multiset(b) && forall s, s' :: !Rivals(a, t, s, s', k)
    ensures Shown(NewestAfter(a), t, k) == Shown(NewestAfter(b), t, k)
  {
    ReorderedPool(a, b);
    AfterHolds(a);
    AfterHolds(b);
    assert k in NewestAfter(a) <==> k in NewestAfter(b);
    hide NewestAfter, Pool, Picks;
    if k in NewestAfter(a) && k in NewestAfter(b) {
      var s := HeldIsPicked(a, k);
      var s' := HeldIsPicked(b, k);
      assert s' in multiset(b) && s' in a;
      assert Wins(Pool(a), NewestAfter(a)[k]) && Wins(Pool(a), NewestAfter(b)[k]);
      assert !Rivals(a, t, s, s', k);
    }
  }

  /** A catalog merged last has its pick shown if no version is newer. */
  lemma LastShows(inputs: seq<Snapshot>, t: Tombstones, i: nat, k: Slot) returns (b: seq<Snapshot>)
    requires i < |inputs| && k in Picks(inputs[i]) && Wins(Pool(inputs), Picks(inputs[i])[k]) && Alive(Picks(inputs[i])[k], t)
    requires SlotOf(Picks(inputs[i])[k]) == k
    ensures multiset(b) == multiset(inputs) && Shown(NewestAfter(b), t, k) == Some(Picks(inputs[i])[k])
  {
    var s, rest := inputs[i], inputs[..i] + inputs[i + 1..];
    b := rest + [s];
    assert inputs == inputs[..i] + [s] + inputs[i + 1..];
    assert multiset(b) == multiset(inputs);
    AfterSnoc(rest, s);
    AfterHolds(rest);
    hide NewestAfter, Picks;
    assert forall x :: x in Pool(rest) ==> x in Pool(inputs);
  }

  /** Whatever the order of the catalogs, the loop shows the same versions exactly when no two
      catalogs pick different ones that tie as newest and alive. */
  lemma OrderShowsExactly(inputs: seq<Snapshot>, t: Tombstones)
    ensures (forall b | multiset(b) == multiset(inputs) :: ShowsSame(inputs, b, t)) <==>
            (forall s, s', k :: !Rivals(inputs, t, s, s', k))
  {
    hide Picks, NewestAfter, Tied, Shown;
    if s, s', k :| Rivals(inputs, t, s, s', k) {
      var b := RivalShows(inputs, t, s, s', k);
      var b' := RivalShows(inputs, t, s', s, k);
      hide Rivals;
      assert !(ShowsSame(inputs, b, t) && ShowsSame(inputs, b', t));
    } else {
      forall b, k | multiset(b) == multiset(inputs) ensures Shown(NewestAfter(inputs), t, k) == Shown(NewestAfter(b), t, k) {
        RivalsOrSame(inputs, b, t, k);
      }
    }
  }

  lemma RivalShows(inputs: seq<Snapshot>, t: Tombstones, s: Snapshot, s': Snapshot, k: Slot) returns (b: seq<Snapshot>)
    requires Rivals(inputs, t, s, s', k) || Rivals(inputs, t, s', s, k)
    ensures multiset(b) == multiset(inputs) && k in Picks(s) && Shown(NewestAfter(b), t, k) == Some(Picks(s)[k])
    ensures k in Picks(s') && Picks(s)[k] != Picks(s')[k]
  {
    PicksHold(s);
    var i :| 0 <= i < |inputs| && inputs[i] == s;
    hide Picks, NewestAfter, Shown, Pool;
    b := LastShows(inputs, t, i, k);
  }

  /** Each part is the loop's output for its group. */
  ghost predicate LoopParts(groups: seq<seq<Snapshot>>, parts: seq<Snapshot>) {
    |parts| == |groups| &&
    forall i :: 0 <= i < |groups| ==> Deaths(groups[i], parts[i].tombstones) && Finalized(NewestAfter(groups[i]), parts[i])
  }

  function Flat(groups: seq<seq<Snapshot>>): seq<Snapshot> {
    if groups == [] then [] else Flat(groups[..|groups| - 1]) + groups[|groups| - 1]
  }

  /** The nested map lags behind the flat one only where nothing is alive. */
  ghost predicate Follows(nested: Newest, flat: Newest, t: Tombstones) {
    && (forall k :: k in nested ==> k in flat && SlotOf(nested[k]) == k && nested[k].updatedAt <= flat[k].updatedAt)
    && (forall k :: k in flat ==> SlotOf(flat[k]) == k)
    && (forall k :: k in flat && Alive(flat[k], t) ==> k in nested && nested[k] == flat[k])
  }

  /** A part's own picks are the live versions of its group. */
  lemma PartPicks(newest: Newest, part: Snapshot)
    requires Finalized(newest, part) && forall k :: k in newest ==> SlotOf(newest[k]) == k
    ensures Follows(Picks(part), newest, part.tombstones)
  {
    PicksHold(part);
    hide Picks;
  }

  lemma FollowsCombined(nested: Newest, flat: Newest, n: Newest, f: Newest, t: Tombstones)
    requires Follows(nested, flat, t) && Follows(n, f, t)
    ensures Follows(Combine(nested, n), Combine(flat, f), t)
  {
  }

  lemma FollowsLater(nested: Newest, flat: Newest, t: Tombstones, later: Tombstones)
    requires Follows(nested, flat, t) && forall id :: id in t ==> id in later && t[id] <= later[id]
    ensures Follows(nested, flat, later)
  {
  }

  ghost predicate Within(t: Tombstones, later: Tombstones) {
    forall id :: id in t ==> id in later && t[id] <= later[id]
  }

  lemma PartFollows(nested: Newest, flat: Newest, g: seq<Snapshot>, part: Snapshot, t: Tombstones)
    requires Follows(nested, flat, t) && Finalized(NewestAfter(g), part) && Within(part.tombstones, t)
    ensures Follows(Combine(nested, Picks(part)), Combine(flat, NewestAfter(g)), t)
  {
    AfterHolds(g);
    hide NewestAfter, Combine, Picks, Pool;
    PartPicks(NewestAfter(g), part);
    FollowsLater(Picks(part), NewestAfter(g), part.tombstones, t);
    hide HoldsNewest, Finalized, Follows;
    FollowsCombined(nested, flat, Picks(part), NewestAfter(g), t);
  }

  ghost predicate AllWithin(parts: seq<Snapshot>, t: Tombstones) {
    forall i :: 0 <= i < |parts| ==> Within(parts[i].tombstones, t)
  }

  lemma PartAt(groups: seq<seq<Snapshot>>, parts: seq<Snapshot>, i: nat, t: Tombstones)
    requires LoopParts(groups, parts) && AllWithin(parts, t) && i < |groups|
    ensures i < |parts| && Finalized(NewestAfter(groups[i]), parts[i]) && Within(parts[i].tombstones, t)
  {
    hide Finalized, Within, Deaths, NewestAfter;
  }

  lemma SnocAt(groups: seq<seq<Snapshot>>, parts: seq<Snapshot>, n: nat)
    requires n < |groups| == |parts|
    ensures NewestAfter(parts[..n + 1]) == Combine(NewestAfter(parts[..n]), Picks(parts[n]))
    ensures NewestAfter(Flat(groups[..n + 1])) == Combine(NewestAfter(Flat(groups[..n])), NewestAfter(groups[n]))
  {
    assert parts[..n + 1] == parts[..n] + [parts[n]] && groups[..n + 1][..n] == groups[..n];
    assert Flat(groups[..n + 1]) == Flat(groups[..n]) + groups[n];
    hide NewestAfter, Combine, Picks, Flat;
    AfterConcat(Flat(groups[..n]), groups[n]);
    AfterSnoc(parts[..n], parts[n]);
  }

  lemma {:induction false} PartsFollow(groups: seq<seq<Snapshot>>, parts: seq<Snapshot>, n: nat, t: Tombstones)
    requires n <= |groups| == |parts| && LoopParts(groups, parts) && AllWithin(parts, t)
    ensures Follows(NewestAfter(parts[..n]), NewestAfter(Flat(groups[..n])), t)
  {
    if n > 0 {
      hide LoopParts, AllWithin, NewestAfter, Combine, Finalized, Picks, Follows, Within, Flat;
      PartsFollow(groups, parts, n - 1, t);
      PartAt(groups, parts, n - 1, t);
      SnocAt(groups, parts, n - 1);
      PartFollows(NewestAfter(parts[..n - 1]), NewestAfter(Flat(groups[..n - 1])), groups[n - 1], parts[n - 1], t);
    }
  }

  lemma PartsWithin(parts: seq<Snapshot>, t: Tombstones)
    requires Deaths(parts, t)
    ensures AllWithin(parts, t)
  {
    assert forall i :: 0 <= i < |parts| ==> parts[i] in parts;
  }

  lemma {:induction false} FlatHasAll(groups: seq<seq<Snapshot>>, n: nat)
    requires n <= |groups|
    ensures Together(groups[..n], Flat(groups[..n]))
  {
    if n > 0 {
      FlatHasAll(groups, n - 1);
      assert groups[..n][..n - 1] == groups[..n - 1];
      assert Flat(groups[..n]) == Flat(groups[..n - 1]) + groups[n - 1];
      var short, long := groups[..n - 1], groups[..n];
      assert forall i :: 0 <= i < n - 1 ==> short[i] == long[i];
      hide Flat;
    }
  }

  lemma PartMeets(groups: seq<seq<Snapshot>>, parts: seq<Snapshot>, i: nat)
    requires LoopParts(groups, parts) && i < |groups|
    ensures MergedUpToTies(groups[i], parts[i])
  {
    assert Deaths(groups[i], parts[i].tombstones) && Finalized(NewestAfter(groups[i]), parts[i]);
    hide LoopParts, MergedUpToTies, Deaths, Finalized, NewestAfter, Pool;
    AfterHolds(groups[i]);
    FinalIsMerged(groups[i], NewestAfter(groups[i]), parts[i]);
  }

  lemma PartsMeet(groups: seq<seq<Snapshot>>, parts: seq<Snapshot>)
    requires |parts| == |groups| && LoopParts(groups, parts)
    ensures Parts(groups, parts)
  {
    hide LoopParts, MergedUpToTies;
    forall i | 0 <= i < |groups| ensures MergedUpToTies(groups[i], parts[i]) { PartMeets(groups, parts, i); }
  }

  lemma OneDeaths(inputs: seq<Snapshot>, t: Tombstones, u: Tombstones)
    requires Deaths(inputs, t) && Deaths(inputs, u)
    ensures t == u
  {
    hide Deaths;
    DeathsAgree(inputs, inputs, t, u);
    DeathsAgree(inputs, inputs, u, t);
  }

  /** The tombstones of both ways are the same. */
  lemma SameDeaths(groups: seq<seq<Snapshot>>, parts: seq<Snapshot>, t: Tombstones, u: Tombstones)
    requires |parts| == |groups| && LoopParts(groups, parts) && Deaths(parts, t) && Deaths(Flat(groups), u)
    ensures t == u
  {
    hide Parts, LoopParts, Deaths, Together, Flat;
    PartsMeet(groups, parts);
    FlatHasAll(groups, |groups|);
    assert groups[..|groups|] == groups;
    PartDeaths(groups, parts, Flat(groups), t);
    OneDeaths(Flat(groups), t, u);
  }

  lemma FollowersAgree(n: Newest, f: Newest, nested: Snapshot, flat: Snapshot)
    requires flat.tombstones == nested.tombstones && Follows(n, f, nested.tombstones)
    requires Finalized(n, nested) && Finalized(f, flat)
    ensures Agree(nested, flat)
  {
  }

  /** Merging in groups, order kept, never shows: ties or not, the loop over the groups' own
      outputs lists the versions that one loop over all catalogs lists. */
  lemma GroupingNeverShows(groups: seq<seq<Snapshot>>, parts: seq<Snapshot>, nested: Snapshot, flat: Snapshot)
    requires |parts| == |groups| && LoopParts(groups, parts)
    requires Deaths(parts, nested.tombstones) && Finalized(NewestAfter(parts), nested)
    requires Deaths(Flat(groups), flat.tombstones) && Finalized(NewestAfter(Flat(groups)), flat)
    ensures Agree(nested, flat)
  {
    assert parts[..|groups|] == parts && groups[..|groups|] == groups;
    hide NewestAfter, Flat, LoopParts, Deaths, Finalized, AllWithin, Follows, Agree;
    PartsWithin(parts, nested.tombstones);
    SameDeaths(groups, parts, nested.tombstones, flat.tombstones);
    PartsFollow(groups, parts, |groups|, nested.tombstones);
    FollowersAgree(NewestAfter(parts), NewestAfter(Flat(groups)), nested, flat);
  }
}
