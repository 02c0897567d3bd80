// A cursor commit whose steps are not interrupted: it comes to an end, page after page, and
// leaves what the scan on its own would.
module CommitAlone {
  import opened Basics
  import opened Log
  import opened Cursor
  import Commits

  /** A step of the commit `t` itself. */
  predicate Own(a: Commits.Action, t: nat) {
    (a.ReadCursor? || a.Mark? || a.ReadHwm? || a.Fetch? || a.Check? || a.EndPage? || a.Write?) && a.t == t
  }

  /** The steps, all of the commit `t`, can be taken one after the other and lead from `s` to `s'`. */
  ghost predicate Leads(lane: Commits.Lane, s: Commits.State, t: nat, steps: seq<Commits.Action>, s': Commits.State)
    decreases |steps|
  {
    if steps == [] then s' == s
    else Own(steps[0], t) && Commits.Enabled(lane, s, steps[0]) && Leads(lane, Commits.Next(lane, s, steps[0]), t, steps[1..], s')
  }

  lemma LeadsFirst(lane: Commits.Lane, s: Commits.State, t: nat, a: Commits.Action, rest: seq<Commits.Action>, s': Commits.State)
    requires Own(a, t) && Commits.Enabled(lane, s, a) && Leads(lane, Commits.Next(lane, s, a), t, rest, s')
    ensures Leads(lane, s, t, [a] + rest, s')
  {
    assert ([a] + rest)[1..] == rest;
  }

  lemma {:induction false} LeadsOn(
    lane: Commits.Lane, s: Commits.State, t: nat, a: seq<Commits.Action>, m: Commits.State, b: seq<Commits.Action>, s': Commits.State)
    requires Leads(lane, s, t, a, m) && Leads(lane, m, t, b, s')
    ensures Leads(lane, s, t, a + b, s')
    decreases |a|
  {
    hide Commits.Next, Commits.Enabled;
    if a == [] {
      assert a + b == b;
    } else {
      assert (a + b)[1..] == a[1..] + b;
      LeadsOn(lane, Commits.Next(lane, s, a[0]), t, a[1..], m, b, s');
    }
  }

  function At(s: Commits.State, t: nat, th: Commits.Thread): Commits.State {
    s.(threads := s.threads[t := th])
  }

  /** The lane as the commit scans it. */
  function Scans(lane: Commits.Lane, topic: string): Commits.Lane {
    Commits.Lane(topic, lane.owner)
  }

  ghost predicate Past(lane: Commits.Lane, s: Commits.State, topic: string, next: nat) {
    s.cursor <= next && Settled(s.log, topic, lane.owner, s.cursor, s.keys, s.cursor, next)
  }

  ghost predicate Ends(lane: Commits.Lane, s: Commits.State, topic: string, h: nat, next: nat) {
    ScanResult(s.log, topic, lane.owner, s.cursor, s.keys, h, next)
  }

  /** A scan passes the first message of its page if that is complete or of another lane. */
  lemma FirstPassed(lane: Commits.Lane, s: Commits.State, topic: string, h: nat, next: nat, page: Log, count: nat)
    requires Ascending(s.log) && Past(lane, s, topic, next) && |page| > 0
    requires Commits.PageOk(Scans(lane, topic), s, h, next, page, count)
    requires page[0].lane != lane.owner || Complete(s.cursor, s.keys, page[0].offset)
    ensures Past(lane, s, topic, page[0].offset + 1) && page[0].offset >= next
    ensures Commits.PageOk(Scans(lane, topic), s, h, page[0].offset + 1, page[1..], count)
  {
    var m := page[0];
    assert m in page;
    Commits.RestOfPage(Scans(lane, topic), s, h, next, page, count);
    forall x | x in s.log && OnLane(x, topic, lane.owner) && s.cursor <= x.offset < m.offset + 1
      ensures Complete(s.cursor, s.keys, x.offset)
    {
      if x.offset >= next {
        assert m.offset <= page[|page| - 1].offset;
        assert x in page;
        var i :| 0 <= i < |page| && page[i] == x;
        assert i == 0;
      }
    }
  }

  /** And stops at it otherwise. */
  lemma StopsAtFirst(lane: Commits.Lane, s: Commits.State, topic: string, h: nat, next: nat, page: Log, count: nat)
    requires Past(lane, s, topic, next) && |page| > 0
    requires Commits.PageOk(Scans(lane, topic), s, h, next, page, count)
    requires page[0].lane == lane.owner && !Complete(s.cursor, s.keys, page[0].offset)
    ensures Ends(lane, s, topic, h, page[0].offset)
  {
    var m := page[0];
    assert m in page;
    assert forall x :: x in page ==> m.offset <= x.offset <= page[|page| - 1].offset;
    assert forall x :: x in s.log && OnLane(x, topic, lane.owner) && x.offset < m.offset ==> x.offset < next;
  }

  /** The thread's next own step with the rest of the state unchanged. */
  lemma Checks(lane: Commits.Lane, s: Commits.State, t: nat, th: Commits.Thread) returns (steps: seq<Commits.Action>)
    requires th.Paging? && |th.page| > 0 && !th.ahead
    ensures var m := th.page[0];
            Leads(lane, At(s, t, th), t, steps,
                  At(s, t, if m.lane == lane.owner && !Complete(s.cursor, s.keys, m.offset) then Commits.Writing(th.seen, m.offset)
                           else th.(next := m.offset + 1, page := th.page[1..])))
  {
    hide TopicFrom, Take;
    var m, s0 := th.page[0], At(s, t, th);
    var s1 := Commits.Next(lane, s0, Commits.Check(t));
    if m.lane == lane.owner && m.offset >= s.cursor {
      assert s1 == At(s, t, th.(ahead := true));
      var s2 := Commits.Next(lane, s1, Commits.Check(t));
      steps := [Commits.Check(t), Commits.Check(t)];
      assert steps[1..] == [Commits.Check(t)] && steps[1..][1..] == [];
      assert Leads(lane, s2, t, [], s2);
      assert Leads(lane, s1, t, [Commits.Check(t)], s2);
      assert s2 == At(s, t, if m.offset !in s.keys then Commits.Writing(th.seen, m.offset) else th.(next := m.offset + 1, page := th.page[1..]));
    } else {
      steps := [Commits.Check(t)];
      assert steps[1..] == [];
      assert Leads(lane, s1, t, [], s1);
    }
  }

  /** What a page leads to: the end of the commit, or a further scan from behind it. */
  ghost predicate Leaves(lane: Commits.Lane, s: Commits.State, th: Commits.Thread, th': Commits.Thread)
    requires th.Paging?
  {
    match th'
    case Writing(seen, next) => seen == th.seen && Ends(lane, s, th.topic, th.hwm, next)
    case Scanning(topic, seen, h, next) =>
      && topic == th.topic && seen == th.seen && h == th.hwm && Past(lane, s, topic, next)
      && next >= th.next && (|th.page| > 0 ==> next > th.next)
    case _ => false
  }

  lemma EndsPage(lane: Commits.Lane, s: Commits.State, t: nat, th: Commits.Thread)
    returns (steps: seq<Commits.Action>, th': Commits.Thread)
    requires th.Paging? && |th.page| == 0 && Past(lane, s, th.topic, th.next) && s.cursor <= th.hwm
    requires Commits.PageOk(Scans(lane, th.topic), s, th.hwm, th.next, th.page, th.count)
    ensures Leads(lane, At(s, t, th), t, steps, At(s, t, th')) && Leaves(lane, s, th, th')
  {
    hide TopicFrom, Take, Ascending;
    steps := [Commits.EndPage(t)];
    var s1 := Commits.Next(lane, At(s, t, th), Commits.EndPage(t));
    th' := s1.threads[t];
    assert s1 == At(s, t, th') && steps[1..] == [];
    assert Leads(lane, s1, t, [], s1);
  }

  /** One page: the commit ends at its first incomplete message, or goes on behind it. */
  lemma {:induction false} PageRuns(lane: Commits.Lane, s: Commits.State, t: nat, th: Commits.Thread)
    returns (steps: seq<Commits.Action>, th': Commits.Thread)
    requires Ascending(s.log) && th.Paging? && !th.ahead && Past(lane, s, th.topic, th.next) && s.cursor <= th.hwm
    requires Commits.PageOk(Scans(lane, th.topic), s, th.hwm, th.next, th.page, th.count)
    ensures Leads(lane, At(s, t, th), t, steps, At(s, t, th')) && Leaves(lane, s, th, th')
    decreases |th.page|
  {
    hide TopicFrom, Take, Ascending, Leads, Commits.PageOk, Past, Ends, At;
    if |th.page| == 0 {
      steps, th' := EndsPage(lane, s, t, th);
    } else {
      var first := Checks(lane, s, t, th);
      var m := th.page[0];
      if m.lane == lane.owner && !Complete(s.cursor, s.keys, m.offset) {
        StopsAtFirst(lane, s, th.topic, th.hwm, th.next, th.page, th.count);
        steps, th' := first, Commits.Writing(th.seen, m.offset);
      } else {
        FirstPassed(lane, s, th.topic, th.hwm, th.next, th.page, th.count);
        hide Complete;
        var th1 := th.(next := m.offset + 1, page := th.page[1..]);
        var rest;
        rest, th' := PageRuns(lane, s, t, th1);
        LeadsOn(lane, At(s, t, th), t, first, At(s, t, th1), rest, At(s, t, th'));
        steps := first + rest;
      }
    }
  }

  /** A fetch ends the scan at the watermark or brings a page. */
  lemma Fetches(lane: Commits.Lane, s: Commits.State, t: nat, th: Commits.Thread) returns (th': Commits.Thread)
    requires Ascending(s.log) && th.Scanning? && Past(lane, s, th.topic, th.next)
    ensures Leads(lane, At(s, t, th), t, [Commits.Fetch(t)], At(s, t, th'))
    ensures th'.Writing? ==> th'.seen == th.seen && Ends(lane, s, th.topic, th.hwm, th'.next)
    ensures !th'.Writing? ==>
              && th'.Paging? && th' == Commits.Paging(th.topic, th.seen, th.hwm, th.next, th'.page, th'.count, false)
              && s.cursor <= th.next < th.hwm && |th'.page| > 0 && Commits.PageOk(Scans(lane, th.topic), s, th.hwm, th.next, th'.page, th'.count)
  {
    hide TopicFrom, Take;
    var s1 := Commits.Next(lane, At(s, t, th), Commits.Fetch(t));
    th' := s1.threads[t];
    assert s1 == At(s, t, th') && [Commits.Fetch(t)][1..] == [];
    assert Leads(lane, s1, t, [], s1);
    if th.next < th.hwm {
      var page := Take(TopicFrom(s.log, th.topic, th.next), PAGE);
      PageOf(s.log, th.topic, th.next, page);
      assert |page| > 0 ==> page[|page| - 1] in page;
    }
  }

  /** The whole scan, however many pages it takes. */
  lemma {:induction false} ScanRuns(lane: Commits.Lane, s: Commits.State, t: nat, th: Commits.Thread)
    returns (steps: seq<Commits.Action>, next: nat)
    requires Ascending(s.log) && th.Scanning? && Past(lane, s, th.topic, th.next)
    ensures Leads(lane, At(s, t, th), t, steps, At(s, t, Commits.Writing(th.seen, next))) && Ends(lane, s, th.topic, th.hwm, next)
    decreases if th.next < th.hwm then th.hwm - th.next else 0
  {
    hide TopicFrom, Take, Ascending, Leads, Commits.PageOk, Past, Ends, At;
    var th1 := Fetches(lane, s, t, th);
    if th1.Writing? {
      steps, next := [Commits.Fetch(t)], th1.next;
    } else {
      var page, th2 := PageRuns(lane, s, t, th1);
      LeadsOn(lane, At(s, t, th), t, [Commits.Fetch(t)], At(s, t, th1), page, At(s, t, th2));
      steps := [Commits.Fetch(t)] + page;
      if th2.Writing? {
        next := th2.next;
      } else {
        var rest;
        rest, next := ScanRuns(lane, s, t, th2);
        LeadsOn(lane, At(s, t, th), t, steps, At(s, t, th2), rest, At(s, t, Commits.Writing(th.seen, next)));
        steps := steps + rest;
      }
    }
  }

  /** The keys the store drops with the write: all it moves past, or those from the cursor on. */
  function Dropped(s: Commits.State, next: nat, sharedStore: bool): set<nat> {
    set o | o in s.keys && o < next && (sharedStore || s.cursor <= o)
  }

  /** What a commit of `o` that ran alone leaves. */
  ghost predicate Committed(
    lane: Commits.Lane, s: Commits.State, t: nat, topic: string, o: nat, sharedStore: bool, s': Commits.State)
  {
    if o < s.cursor then s' == s.(threads := s.threads - {t})
    else
      var keyed := s.(keys := s.keys + {o});
      && ScanResult(s.log, topic, lane.owner, s.cursor, s.keys + {o}, s.hwm, s'.cursor)
      && s' == s.(cursor := s'.cursor, marked := s.marked + {o}, threads := s.threads - {t},
                  keys := if s'.cursor == s.cursor then s.keys + {o} else s.keys + {o} - Dropped(keyed, s'.cursor, sharedStore))
  }

  lemma MarkedState(lane: Commits.Lane, s: Commits.State, t: nat, topic: string, o: nat)
    requires o >= s.cursor
    ensures var k := s.(keys := s.keys + {o}, marked := s.marked + {o});
            Leads(lane, At(s, t, Commits.Entered(topic, o)), t, [Commits.ReadCursor(t), Commits.Mark(t), Commits.ReadHwm(t)],
                  At(k, t, Commits.Scanning(topic, s.cursor, s.hwm, s.cursor)))
  {
    hide TopicFrom, Take;
    var s0 := At(s, t, Commits.Entered(topic, o));
    var s1 := Commits.Next(lane, s0, Commits.ReadCursor(t));
    assert s1 == At(s, t, Commits.Unmarked(topic, o, s.cursor));
    var k := s.(keys := s.keys + {o}, marked := s.marked + {o});
    var s2 := Commits.Next(lane, s1, Commits.Mark(t));
    assert s2 == At(k, t, Commits.Marked(topic, s.cursor));
    var s3 := Commits.Next(lane, s2, Commits.ReadHwm(t));
    assert s3 == At(k, t, Commits.Scanning(topic, s.cursor, s.hwm, s.cursor));
    hide Commits.Next, At;
    assert Leads(lane, s3, t, [], s3);
    LeadsFirst(lane, s2, t, Commits.ReadHwm(t), [], s3);
    LeadsFirst(lane, s1, t, Commits.Mark(t), [Commits.ReadHwm(t)], s3);
    LeadsFirst(lane, s0, t, Commits.ReadCursor(t), [Commits.Mark(t), Commits.ReadHwm(t)], s3);
    assert [Commits.ReadHwm(t)] + [] == [Commits.ReadHwm(t)];
    assert [Commits.Mark(t)] + [Commits.ReadHwm(t)] == [Commits.Mark(t), Commits.ReadHwm(t)];
    assert [Commits.ReadCursor(t)] + [Commits.Mark(t), Commits.ReadHwm(t)] == [Commits.ReadCursor(t), Commits.Mark(t), Commits.ReadHwm(t)];
  }

  lemma Writes(lane: Commits.Lane, s: Commits.State, t: nat, next: nat, dropped: set<nat>)
    requires forall o :: o in dropped ==> o < next
    ensures Leads(lane, At(s, t, Commits.Writing(s.cursor, next)), t, [Commits.Write(t, dropped)],
                  if next == s.cursor then s.(threads := s.threads - {t})
                  else s.(cursor := next, keys := s.keys - dropped, threads := s.threads - {t}))
  {
    var s0 := At(s, t, Commits.Writing(s.cursor, next));
    var s1 := Commits.Next(lane, s0, Commits.Write(t, dropped));
    assert s0.threads - {t} == s.threads - {t};
    assert [Commits.Write(t, dropped)][1..] == [];
    assert Leads(lane, s1, t, [], s1);
  }

  /** From any state, a commit whose steps follow one another comes to an end and leaves the cursor
      where the scan of the state with the new completion ends. */
  lemma CommitRuns(lane: Commits.Lane, s: Commits.State, t: nat, topic: string, o: nat, sharedStore: bool)
    returns (steps: seq<Commits.Action>, s': Commits.State)
    requires Ascending(s.log)
    ensures Leads(lane, At(s, t, Commits.Entered(topic, o)), t, steps, s') && Committed(lane, s, t, topic, o, sharedStore, s')
  {
    if o < s.cursor {
      var s0 := At(s, t, Commits.Entered(topic, o));
      steps, s' := [Commits.ReadCursor(t)], Commits.Next(lane, s0, Commits.ReadCursor(t));
      assert s0.threads - {t} == s.threads - {t} && steps[1..] == [];
      assert Leads(lane, s', t, [], s');
    } else {
      var k := s.(keys := s.keys + {o}, marked := s.marked + {o});
      var begin := [Commits.ReadCursor(t), Commits.Mark(t), Commits.ReadHwm(t)];
      MarkedState(lane, s, t, topic, o);
      var scanning := Commits.Scanning(topic, s.cursor, s.hwm, s.cursor);
      assert Past(lane, k, topic, s.cursor);
      var scan, next := ScanRuns(lane, k, t, scanning);
      var dropped := Dropped(k, next, sharedStore);
      Writes(lane, k, t, next, dropped);
      s' := if next == s.cursor then k.(threads := k.threads - {t}) else k.(cursor := next, keys := k.keys - dropped, threads := k.threads - {t});
      assert Dropped(s.(keys := s.keys + {o}), next, sharedStore) == dropped;
      hide Leads, At, ScanResult;
      LeadsOn(lane, At(s, t, Commits.Entered(topic, o)), t, begin, At(k, t, scanning), scan, At(k, t, Commits.Writing(s.cursor, next)));
      LeadsOn(lane, At(s, t, Commits.Entered(topic, o)), t, begin + scan, At(k, t, Commits.Writing(s.cursor, next)), [Commits.Write(t, dropped)], s');
      steps := begin + scan + [Commits.Write(t, dropped)];
    }
  }

  /** Then the offset is complete, nothing that was complete is forgotten, and of the messages the
      commit scanned only that one has become complete. */
  lemma CommittedMeans(lane: Commits.Lane, s: Commits.State, t: nat, topic: string, o: nat, sharedStore: bool, s': Commits.State)
    requires Committed(lane, s, t, topic, o, sharedStore, s')
    ensures s.cursor <= s'.cursor && Complete(s'.cursor, s'.keys, o)
    ensures forall x :: Complete(s.cursor, s.keys, x) ==> Complete(s'.cursor, s'.keys, x)
    ensures forall m :: m in s.log && OnLane(m, topic, lane.owner) && Complete(s'.cursor, s'.keys, m.offset) ==>
              Complete(s.cursor, s.keys, m.offset) || m.offset == o
    ensures s'.log == s.log && s'.end == s.end && s'.hwm == s.hwm && s'.entitled == s.entitled && s'.threads == s.threads - {t}
  {
  }
}
