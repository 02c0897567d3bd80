// The append-only log behind one shard: what it stores, and how far it is synced.
module Partition {
  import opened Basics

  datatype Mode = Always | Group | Os

  datatype Item = Item(id: Uuid, topic: string, bytes: nat)

  datatype Stored = Stored(offset: nat, item: Item)

  /** A sealed segment holds the offsets [first, last). */
  datatype Segment = Segment(first: nat, last: nat)

  /** The contents: readable records, the active file's first offset, the next offset. */
  datatype Store = Store(
    records: map<nat, Item>,
    sealed: seq<Segment>,
    base: nat,
    next: nat,
    purged: set<nat>,
    gcWatermark: nat,
    generation: nat,
    walBytes: nat)

  /** How much of it is committed. `synced`: the offsets below it are on disk for good. */
  datatype Sync = Sync(committed: nat, synced: nat, dirty: bool, failNext: bool, flushes: nat)

  datatype PartitionLog = PartitionLog(mode: Mode, maxBytes: nat, store: Store, sync: Sync)

  /** How the file system answers during one command. */
  datatype Io = Io(dataSyncs: bool, metaSaves: bool, segmentSyncs: bool, flushDue: bool)

  datatype LogError = StaleFence(ours: nat, stored: nat) | OffsetMismatch(have: nat, want: nat) | BadFrame | BadWatermark | SyncFailed

  datatype Outcome<T> = Outcome(log: PartitionLog, result: Result<T, LogError>)

  const CHECKPOINT_EVERY: nat := 32

  /** Syncs the file if anything is unflushed. A failed checkpoint reports an error although the
      watermark has moved. */
  function Flush(l: PartitionLog, io: Io): Outcome<()> {
    var s := l.sync;
    if !s.dirty then Outcome(l, Ok(()))
    else if s.failNext then Outcome(l.(sync := s.(failNext := false)), Err(SyncFailed))
    else if !l.mode.Os? && !io.dataSyncs then Outcome(l, Err(SyncFailed))
    else
      var n := l.store.next;
      var done := Sync(n, if l.mode.Os? then s.synced else n, true, false, s.flushes + 1);
      if (l.mode.Always? || done.flushes % CHECKPOINT_EVERY == 0) && !io.metaSaves then Outcome(l.(sync := done), Err(SyncFailed))
      else Outcome(l.(sync := done.(dirty := false)), Ok(()))
  }

  function FlushIfDue(l: PartitionLog, io: Io): Outcome<()> {
    if !l.mode.Group? || !l.sync.dirty || !io.flushDue then Outcome(l, Ok(())) else Flush(l, io)
  }

  function Fenced(l: PartitionLog, fence: Option<nat>): PartitionLog {
    if fence.Some? && fence.value > l.store.generation
    then l.(store := l.store.(generation := fence.value), sync := l.sync.(dirty := true)) else l
  }

  function Numbered(items: seq<Item>, from: nat): seq<Stored> {
    if items == [] then [] else [Stored(from, items[0])] + Numbered(items[1..], from + 1)
  }

  function Bytes(items: seq<Item>): nat {
    if items == [] then 0 else items[0].bytes + Bytes(items[1..])
  }

  function WithAll(records: map<nat, Item>, items: seq<Item>, from: nat): map<nat, Item>
    decreases |items|
  {
    if items == [] then records else WithAll(records[from := items[0]], items[1..], from + 1)
  }

  function Filed(s: Store, items: seq<Item>, overhead: nat): Store {
    s.(records := WithAll(s.records, items, s.next), next := s.next + |items|, walBytes := s.walBytes + overhead + Bytes(items))
  }

  /** Closes the active file once it is full; closing syncs it unless the mode leaves that to
      the operating system. */
  function Rolled(l: PartitionLog, io: Io): Outcome<()> {
    var s := l.store;
    if s.walBytes < l.maxBytes || s.walBytes == 0 then Outcome(l, Ok(()))
    else if !l.mode.Os? && !io.segmentSyncs then Outcome(l, Err(SyncFailed))
    else
      var sealed := if s.next > s.base then s.sealed + [Segment(s.base, s.next)] else s.sealed;
      Outcome(l.(store := s.(sealed := sealed, base := s.next, walBytes := 0),
                 sync := l.sync.(committed := s.next, dirty := false, synced := if l.mode.Os? then l.sync.synced else s.next)),
              Ok(()))
  }

  /** Appends a batch as one epoch. An error after the records are filed leaves them in place. */
  function Append(l: PartitionLog, items: seq<Item>, overhead: nat, fence: Option<nat>, io: Io): Outcome<seq<Stored>> {
    if items == [] then Outcome(l, Ok([]))
    else if fence.Some? && fence.value < l.store.generation then Outcome(l, Err(StaleFence(fence.value, l.store.generation)))
    else
      var f := Fenced(l, fence);
      var filed := f.(store := Filed(f.store, items, overhead), sync := f.sync.(dirty := true));
      var flushed := if l.mode.Always? then Flush(filed, io) else Outcome(filed, Ok(()));
      if flushed.result.Err? then Outcome(flushed.log, Err(flushed.result.error)) else
        var rolled := Rolled(flushed.log, io);
        Outcome(rolled.log, if rolled.result.Err? then Err(rolled.result.error) else Ok(Numbered(items, f.store.next)))
  }

  function Range(records: map<nat, Item>, from: nat, end: nat, max: nat): seq<Stored>
    decreases end - from
  {
    if from >= end || max == 0 then []
    else if from in records then [Stored(from, records[from])] + Range(records, from + 1, end, max - 1)
    else Range(records, from + 1, end, max)
  }

  function ReadRange(l: PartitionLog, from: nat, max: nat): seq<Stored> {
    Range(l.store.records, from, l.store.next, max)
  }

  /** A frame from a leader, possibly sent again. */
  function AppendRaw(l: PartitionLog, frame: Option<Item>, overhead: nat, expected: Option<nat>, io: Io): Outcome<Stored> {
    if frame.None? then Outcome(l, Err(BadFrame))
    else if expected.Some? && l.store.next > expected.value then
      var found := ReadRange(l, expected.value, 1);
      Outcome(l, if |found| > 0 && found[0].offset == expected.value && found[0].item.id == frame.value.id
                 then Ok(found[0]) else Err(OffsetMismatch(l.store.next, expected.value)))
    else if expected.Some? && l.store.next < expected.value then Outcome(l, Err(OffsetMismatch(l.store.next, expected.value)))
    else
      var r := Append(l, [frame.value], overhead, None, io);
      Outcome(r.log, if r.result.Err? then Err(r.result.error) else Ok(Stored(l.store.next, frame.value)))
  }

  predicate Purgeable(s: Store, offset: nat) {
    && offset !in s.purged && offset < s.next
    && ((offset in s.records && offset >= s.base) || exists i :: 0 <= i < |s.sealed| && s.sealed[i].first <= offset < s.sealed[i].last)
  }

  function Purge(l: PartitionLog, offset: nat, io: Io): Outcome<bool> {
    if !Purgeable(l.store, offset) then Outcome(l, Ok(false))
    else
      var s := l.store;
      var p := l.(store := s.(purged := s.purged + {offset}, records := s.records - {offset}), sync := l.sync.(dirty := true));
      Outcome(if l.mode.Always? then Flush(p, io).log else p, Ok(true))
  }

  function Kept(sealed: seq<Segment>, watermark: nat): seq<Segment> {
    if sealed == [] then []
    else (if sealed[0].last <= watermark && sealed[0].last > 0 then [] else [sealed[0]]) + Kept(sealed[1..], watermark)
  }

  predicate Held(sealed: seq<Segment>, base: nat, offset: nat) {
    offset >= base || exists i :: 0 <= i < |sealed| && sealed[i].first <= offset < sealed[i].last
  }

  function GcSealed(l: PartitionLog, watermark: nat): Outcome<nat> {
    if watermark < l.store.gcWatermark then Outcome(l, Err(BadWatermark))
    else
      var kept := Kept(l.store.sealed, watermark);
      var records := map o | o in l.store.records && Held(kept, l.store.base, o) :: l.store.records[o];
      Outcome(l.(store := l.store.(sealed := kept, gcWatermark := watermark, records := records)),
              Ok(if |l.store.sealed| < |kept| then 0 else |l.store.sealed| - |kept|))
  }

  // What readers see.

  /** A range read gives records of the log in ascending order. */
  lemma {:induction false} RangeIsOrdered(records: map<nat, Item>, from: nat, end: nat, max: nat)
    ensures var r := Range(records, from, end, max);
            && |r| <= max
            && (forall i :: 0 <= i < |r| ==> from <= r[i].offset < end && r[i].offset in records && records[r[i].offset] == r[i].item)
            && (forall i, j :: 0 <= i < j < |r| ==> r[i].offset < r[j].offset)
    decreases end - from
  {
    if from < end && max > 0 {
      RangeIsOrdered(records, from + 1, end, if from in records then max - 1 else max);
    }
  }

  /** And when it is short, all of them. */
  lemma {:induction false} RangeIsComplete(records: map<nat, Item>, from: nat, end: nat, max: nat, o: nat)
    requires |Range(records, from, end, max)| < max && from <= o < end && o in records
    ensures Stored(o, records[o]) in Range(records, from, end, max)
    decreases end - from
  {
    if from < o {
      RangeIsComplete(records, from + 1, end, if from in records then max - 1 else max, o);
    }
  }

  lemma {:induction false} WithAllAt(records: map<nat, Item>, items: seq<Item>, from: nat, o: nat)
    ensures o in WithAll(records, items, from) <==> o in records || from <= o < from + |items|
    ensures o in WithAll(records, items, from) ==>
              WithAll(records, items, from)[o] == if from <= o < from + |items| then items[o - from] else records[o]
    decreases |items|
  {
    if items != [] { WithAllAt(records[from := items[0]], items[1..], from + 1, o); }
  }

  lemma {:induction false} RangeNumbers(records: map<nat, Item>, items: seq<Item>, from: nat)
    requires forall o :: from <= o < from + |items| ==> o in records && records[o] == items[o - from]
    ensures Range(records, from, from + |items|, |items|) == Numbered(items, from)
    decreases |items|
  {
    if items != [] {
      assert forall i :: 0 <= i < |items| - 1 ==> items[1..][i] == items[i + 1];
      RangeNumbers(records, items[1..], from + 1);
    }
  }

  /** The log after a batch is filed, whatever syncing and rolling then do. */
  lemma AppendFiles(l: PartitionLog, items: seq<Item>, overhead: nat, fence: Option<nat>, io: Io)
    requires items != [] && !(fence.Some? && fence.value < l.store.generation)
    ensures var l' := Append(l, items, overhead, fence, io).log;
            l'.store.records == WithAll(l.store.records, items, l.store.next) && l'.store.next == l.store.next + |items|
  {
    hide WithAll, Bytes, Numbered;
  }

  /** An append that is answered leaves the active file below its size limit: a file that the batch
      fills is closed as one segment with everything since the last, and a new one begun. */
  lemma RollsExactly(l: PartitionLog, items: seq<Item>, overhead: nat, fence: Option<nat>, io: Io)
    requires items != [] && l.store.base <= l.store.next && Append(l, items, overhead, fence, io).result.Ok?
    ensures var s, s' := l.store, Append(l, items, overhead, fence, io).log.store;
            var size := s.walBytes + overhead + Bytes(items);
            && (size < l.maxBytes || size == 0 ==> s'.walBytes == size && s'.sealed == s.sealed && s'.base == s.base)
            && (!(size < l.maxBytes || size == 0) ==>
                  s'.walBytes == 0 && s'.sealed == s.sealed + [Segment(s.base, s.next + |items|)] && s'.base == s.next + |items|)
  {
    hide Append, Rolled, Bytes;
    var flushed := AppendRolls(l, items, overhead, fence, io);
    RolledExactly(flushed, io);
  }

  /** An append that is answered ends by rolling the log with its batch filed. */
  lemma AppendRolls(l: PartitionLog, items: seq<Item>, overhead: nat, fence: Option<nat>, io: Io) returns (flushed: PartitionLog)
    requires items != [] && Append(l, items, overhead, fence, io).result.Ok?
    ensures Append(l, items, overhead, fence, io).log == Rolled(flushed, io).log && Rolled(flushed, io).result.Ok?
    ensures var s, s' := l.store, flushed.store;
            && flushed.maxBytes == l.maxBytes && s'.sealed == s.sealed && s'.base == s.base && s'.next == s.next + |items|
            && s'.walBytes == s.walBytes + overhead + Bytes(items)
  {
    hide WithAll, Bytes, Numbered, Rolled, Flush;
    var f := Fenced(l, fence);
    var filed := f.(store := Filed(f.store, items, overhead), sync := f.sync.(dirty := true));
    FlushStore(filed, io);
    flushed := if l.mode.Always? then Flush(filed, io).log else filed;
  }

  lemma FlushStore(l: PartitionLog, io: Io)
    ensures Flush(l, io).log.store == l.store && Flush(l, io).log.maxBytes == l.maxBytes
  {
  }

  lemma RolledExactly(l: PartitionLog, io: Io)
    requires l.store.base < l.store.next && Rolled(l, io).result.Ok?
    ensures var s, s' := l.store, Rolled(l, io).log.store;
            if s.walBytes < l.maxBytes || s.walBytes == 0 then s' == s
            else s'.walBytes == 0 && s'.sealed == s.sealed + [Segment(s.base, s.next)] && s'.base == s.next
  {
  }

  ghost predicate Extends(records: map<nat, Item>, records': map<nat, Item>, items: seq<Item>, from: nat) {
    && (forall o :: o in records' <==> o in records || from <= o < from + |items|)
    && (forall o :: o in records' ==> records'[o] == if from <= o < from + |items| then items[o - from] else records[o])
  }

  lemma WithAllExtends(records: map<nat, Item>, items: seq<Item>, from: nat)
    ensures Extends(records, WithAll(records, items, from), items, from)
  {
    forall o: nat
      ensures o in WithAll(records, items, from) <==> o in records || from <= o < from + |items|
      ensures o in WithAll(records, items, from) ==>
                WithAll(records, items, from)[o] == if from <= o < from + |items| then items[o - from] else records[o]
    {
      WithAllAt(records, items, from, o);
    }
  }

  /** A batch that is not refused by its fence reads back in full under consecutive offsets, even
      if the call then fails; every other record reads as it did. */
  lemma AppendReadsBack(l: PartitionLog, items: seq<Item>, overhead: nat, fence: Option<nat>, io: Io)
    requires items != [] && !(fence.Some? && fence.value < l.store.generation)
    ensures var r := Append(l, items, overhead, fence, io);
            && ReadRange(r.log, l.store.next, |items|) == Numbered(items, l.store.next)
            && (r.result.Ok? ==> r.result.value == Numbered(items, l.store.next))
            && Extends(l.store.records, r.log.store.records, items, l.store.next)
  {
    hide Append, WithAll, Numbered, Range, Extends;
    var r := Append(l, items, overhead, fence, io);
    AppendFiles(l, items, overhead, fence, io);
    if r.result.Ok? { AppendResult(l, items, overhead, fence, io); }
    WithAllExtends(l.store.records, items, l.store.next);
    ExtendsReads(l.store.records, r.log.store.records, items, l.store.next);
  }

  lemma ExtendsReads(records: map<nat, Item>, records': map<nat, Item>, items: seq<Item>, from: nat)
    requires Extends(records, records', items, from)
    ensures Range(records', from, from + |items|, |items|) == Numbered(items, from)
  {
    hide Range, Numbered;
    RangeNumbers(records', items, from);
  }

  lemma AppendResult(l: PartitionLog, items: seq<Item>, overhead: nat, fence: Option<nat>, io: Io)
    requires items != [] && Append(l, items, overhead, fence, io).result.Ok?
    ensures Append(l, items, overhead, fence, io).result.value == Numbered(items, l.store.next)
  {
    hide WithAll, Bytes, Numbered, Range;
  }

  /** A frame sent twice for the same offset is filed once, and both calls name that record. */
  lemma FrameIsIdempotent(l: PartitionLog, item: Item, overhead: nat, io: Io, again: Io)
    ensures var first := AppendRaw(l, Some(item), overhead, Some(l.store.next), io);
            AppendRaw(first.log, Some(item), overhead, Some(l.store.next), again) == Outcome(first.log, Ok(Stored(l.store.next, item)))
  {
    var n := l.store.next;
    AppendFiles(l, [item], overhead, None, io);
    WithAllExtends(l.store.records, [item], n);
    hide Append, WithAll;
    var first := AppendRaw(l, Some(item), overhead, Some(n), io);
    assert n in first.log.store.records && first.log.store.records[n] == [item][0] && first.log.store.next == n + 1;
  }

  /** A purged record is never read again, no other is touched, and a second purge does nothing. */
  lemma PurgeHides(l: PartitionLog, offset: nat, io: Io, again: Io)
    requires Purge(l, offset, io).result == Ok(true)
    ensures var p := Purge(l, offset, io).log;
            && p.store.records == l.store.records - {offset} && p.store.next == l.store.next
            && Purge(p, offset, again) == Outcome(p, Ok(false))
  {
    hide Range, WithAll;
  }

  lemma {:induction false} KeptMembers(sealed: seq<Segment>, watermark: nat, s: Segment)
    ensures s in Kept(sealed, watermark) <==> s in sealed && !(s.last <= watermark && s.last > 0)
  {
    if sealed != [] {
      KeptMembers(sealed[1..], watermark, s);
      assert sealed == [sealed[0]] + sealed[1..];
    }
  }

  /** Collecting segments loses no record at or past the watermark. */
  lemma GcKeepsAbove(l: PartitionLog, watermark: nat, o: nat)
    requires o in l.store.records && Held(l.store.sealed, l.store.base, o) && o >= watermark
    ensures var l' := GcSealed(l, watermark).log; o in l'.store.records && l'.store.records[o] == l.store.records[o]
  {
    hide Kept;
    if o < l.store.base {
      var i :| 0 <= i < |l.store.sealed| && l.store.sealed[i].first <= o < l.store.sealed[i].last;
      var s := l.store.sealed[i];
      KeptMembers(l.store.sealed, watermark, s);
      var kept := Kept(l.store.sealed, watermark);
      var j :| 0 <= j < |kept| && kept[j] == s;
    }
  }
}
