// The gap-aware dispatch cursor of one lane: completions are durable keys, the cursor
// is rebuilt from them by scanning the log.
module Cursor {
  import opened Basics
  import opened Log

  const PAGE: nat := 256

  predicate OnLane(m: Message, topic: string, lane: Uuid) {
    m.topic == topic && m.lane == lane
  }

  /** Whether the store calls an offset complete. */
  predicate Complete(cursor: nat, keys: set<nat>, offset: nat) {
    offset < cursor || offset in keys
  }

  /** No message of the lane in [low, high) is incomplete. */
  ghost predicate Settled(log: Log, topic: string, lane: Uuid, cursor: nat, keys: set<nat>, low: nat, high: nat) {
    forall m :: m in log && OnLane(m, topic, lane) && low <= m.offset < high ==> Complete(cursor, keys, m.offset)
  }

  /** What a commit's scan may end with: past settled messages only, and short of the
      watermark only at an incomplete message. */
  ghost predicate ScanResult(
    log: Log, topic: string, lane: Uuid, cursor: nat, keys: set<nat>, hwm: nat, next: nat)
  {
    && cursor <= next
    && Settled(log, topic, lane, cursor, keys, cursor, next)
    && (next < hwm ==> exists m :: m in log && OnLane(m, topic, lane) && m.offset == next && !Complete(cursor, keys, next))
  }

  /** One page of the scan: the first incomplete message on it, or its end. */
  method ScanPage(page: Log, topic: string, lane: Uuid, cursor: nat, keys: set<nat>, start: nat)
    returns (next: nat, stopped: bool)
    requires Ascending(page) && forall m :: m in page ==> m.topic == topic && m.offset >= start
    ensures start <= next
    ensures forall m :: m in page && m.lane == lane && m.offset < next ==> Complete(cursor, keys, m.offset)
    ensures stopped ==> exists m :: m in page && m.lane == lane && m.offset == next && !Complete(cursor, keys, next)
    ensures !stopped && |page| > 0 ==> next == page[|page| - 1].offset + 1
    ensures !stopped && |page| == 0 ==> next == start
  {
    next := start;
    stopped := false;
    var i := 0;
    while i < |page|
      invariant 0 <= i <= |page| && start <= next
      invariant i > 0 ==> next == page[i - 1].offset + 1
      invariant i == 0 ==> next == start
      invariant forall j :: 0 <= j < i && page[j].lane == lane ==> Complete(cursor, keys, page[j].offset)
    {
      var m := page[i];
      if m.lane == lane && !Complete(cursor, keys, m.offset) {
        return m.offset, true;
      }
      next := m.offset + 1;
      i := i + 1;
    }
  }

  /** The paged scan of `commit_dispatch_offset`. */
  method Scan(log: Log, end: nat, topic: string, lane: Uuid, cursor: nat, keys: set<nat>, hwm: nat) returns (next: nat)
    requires Ascending(log) && (forall m :: m in log ==> m.offset < end)
    ensures ScanResult(log, topic, lane, cursor, keys, hwm, next)
    ensures next <= cursor || next <= hwm || next <= end
  {
    hide TopicFrom, Take, Ascending;
    next := cursor;
    while next < hwm
      invariant cursor <= next && (next <= cursor || next <= hwm || next <= end)
      invariant Settled(log, topic, lane, cursor, keys, cursor, next)
      decreases hwm - next
    {
      var page := ListTopicMessagesFrom(log, end, topic, next, PAGE);
      PageOf(log, topic, next, page);
      if |page| == 0 {
        return hwm;
      }
      var from := next;
      var stopped;
      next, stopped := ScanPage(page, topic, lane, cursor, keys, from);
      PageCovers(log, topic, lane, cursor, keys, from, page, next, stopped);
      if stopped {
        return;
      }
      if |page| < PAGE {
        return hwm;
      }
    }
  }

  predicate Reaches(page: Log, offset: nat) {
    |page| < PAGE || offset <= page[|page| - 1].offset
  }

  /** A page holds exactly the topic's records up to its last one, or all that is left. */
  lemma PageOf(log: Log, topic: string, from: nat, page: Log)
    requires Ascending(log) && page == Take(TopicFrom(log, topic, from), PAGE)
    ensures Ascending(page)
    ensures forall m :: m in page ==> m in log && m.topic == topic && m.offset >= from
    ensures forall m :: m in log && m.topic == topic && m.offset >= from && Reaches(page, m.offset) ==> m in page
  {
    hide TopicFrom;
    TopicFromMembers(log, topic, from);
    var all := TopicFrom(log, topic, from);
    assert forall i :: 0 <= i < |page| ==> page[i] == all[i];
    forall m | m in log && m.topic == topic && m.offset >= from && Reaches(page, m.offset)
      ensures m in page
    {
      assert m in all;
      var i :| 0 <= i < |all| && all[i] == m;
      if i >= |page| {
        assert false;
      }
      assert page[i] == m;
    }
  }

  lemma PageCovers(
    log: Log, topic: string, lane: Uuid, cursor: nat, keys: set<nat>, from: nat, page: Log, next: nat, stopped: bool)
    requires |page| > 0 && cursor <= from <= next && Settled(log, topic, lane, cursor, keys, cursor, from)
    requires Ascending(page)
    requires forall m :: m in page ==> m in log && m.topic == topic && m.offset >= from
    requires forall m :: m in log && m.topic == topic && m.offset >= from && Reaches(page, m.offset) ==> m in page
    requires forall m :: m in page && m.lane == lane && m.offset < next ==> Complete(cursor, keys, m.offset)
    requires stopped ==> exists m :: m in page && m.lane == lane && m.offset == next && !Complete(cursor, keys, next)
    requires !stopped ==> next == page[|page| - 1].offset + 1
    ensures from < next || stopped
    ensures exists m :: m in log && (next == m.offset || next == m.offset + 1)
    ensures Settled(log, topic, lane, cursor, keys, cursor, next)
    ensures !stopped && |page| < PAGE ==> forall high :: Settled(log, topic, lane, cursor, keys, cursor, high)
    ensures stopped ==> exists m :: m in log && OnLane(m, topic, lane) && m.offset == next && !Complete(cursor, keys, next)
  {
    var last := page[|page| - 1];
    assert last in page;
    if stopped {
      var s :| s in page && s.lane == lane && s.offset == next && !Complete(cursor, keys, next);
      assert s.offset <= last.offset by {
        var i :| 0 <= i < |page| && page[i] == s;
      }
    }
    forall m | m in log && OnLane(m, topic, lane) && cursor <= m.offset && (m.offset < next || (!stopped && |page| < PAGE))
      ensures Complete(cursor, keys, m.offset)
    {
      if m.offset >= from {
        assert m in page;
        assert m.offset <= last.offset by {
          var i :| 0 <= i < |page| && page[i] == m;
        }
      }
    }
  }

  /** The metadata of one lane on one partition. */
  class LaneCursor {
    var cursor: nat
    var keys: set<nat>

    constructor ()
      ensures cursor == 0 && keys == {}
    {
      cursor := 0;
      keys := {};
    }

    /** Moves the cursor and drops the completion keys it covers: the local store those in
        [current, next), the shared one all below `next`. */
    method SetDispatchOffset(next: nat, sharedStore: bool)
      modifies this
      ensures cursor == next
      ensures forall o :: o in keys <==> o in old(keys) && !(o < next && (sharedStore || o >= old(cursor)))
    {
      if sharedStore {
        keys := set o | o in keys && o >= next;
      } else {
        var current := cursor;
        keys := set o | o in keys && !(current <= o < next);
      }
      cursor := next;
    }

    /** A commit on its own: the offset becomes complete and stays so, the cursor never moves
        back, no completion is lost, and the cursor ends at the first incomplete message of
        the lane or, if none is left below it, at the watermark or beyond. */
    method CommitDispatchOffset(
      log: Log, end: nat, hwm: nat, topic: string, lane: Uuid, offset: nat, sharedStore: bool)
      requires Ascending(log) && (forall m :: m in log ==> m.offset < end)
      modifies this
      ensures old(cursor) <= cursor
      ensures Complete(cursor, keys, offset)
      ensures forall o :: Complete(old(cursor), old(keys), o) ==> Complete(cursor, keys, o)
      ensures offset < old(cursor) ==> cursor == old(cursor) && keys == old(keys)
      ensures offset >= old(cursor) ==>
                ScanResult(log, topic, lane, old(cursor), old(keys) + {offset}, hwm, cursor)
      ensures forall m :: m in log && OnLane(m, topic, lane) && Complete(cursor, keys, m.offset) ==>
                Complete(old(cursor), old(keys), m.offset) || m.offset == offset
    {
      if offset < cursor {
        return;
      }
      keys := keys + {offset};
      var next := Scan(log, end, topic, lane, cursor, keys, hwm);
      if next != cursor {
        SetDispatchOffset(next, sharedStore);
      }
    }
  }

  /** A commit scans one topic while the cursor belongs to the lane: it never passes an
      incomplete message of the lane, whatever is complete, exactly when the lane's
      committed messages all lie on that topic. */
  lemma OneTopicExactly(log: Log, topic: string, lane: Uuid, hwm: nat)
    requires Ascending(log)
    ensures (forall cursor: nat, keys: set<nat>, next: nat, m |
               ScanResult(log, topic, lane, cursor, keys, hwm, next) && next <= hwm &&
               m in log && m.lane == lane && cursor <= m.offset < next :: Complete(cursor, keys, m.offset))
            <==> (forall m :: m in log && m.lane == lane && m.offset < hwm ==> m.topic == topic)
  {
    if m :| m in log && m.lane == lane && m.offset < hwm && m.topic != topic {
      var keys := set x | x in log && OnLane(x, topic, lane) :: x.offset;
      assert m.offset !in keys by {
        if m.offset in keys {
          var x :| x in log && OnLane(x, topic, lane) && x.offset == m.offset;
          SameOffset(log, x, m);
          assert false;
        }
      }
      assert ScanResult(log, topic, lane, 0, keys, hwm, hwm);
      assert !Complete(0, keys, m.offset);
    }
  }
}
