// The fixed-window rate limit of a flow lane.
module RateWindow {
  import opened Basics

  datatype Window = Window(max: nat, periodSecs: nat, start: Millis, count: nat)

  function Period(w: Window): nat {
    w.periodSecs * 1000
  }

  predicate Elapsed(w: Window, now: Millis) {
    now - w.start >= Period(w)
  }

  function Rewound(w: Window, now: Millis): Window {
    if w.max > 0 && Elapsed(w, now) then w.(start := now, count := 0) else w
  }

  predicate Grants(w: Window, now: Millis) {
    w.max == 0 || Rewound(w, now).count < w.max
  }

  function After(w: Window, now: Millis): Window {
    var r := Rewound(w, now);
    if w.max > 0 && r.count < w.max then r.(count := r.count + 1) else r
  }

  function Cleared(w: Window, now: Millis): Window {
    w.(start := now, count := 0)
  }

  /** A limit of zero is no limit: whatever happens, every request is granted. */
  lemma {:induction false} NoLimitGrantsAll(w: Window, events: seq<Event>, i: nat)
    requires w.max == 0 && i < |events| && events[i].Ask?
    ensures Granted(WindowAt(w, events, i), events[i])
  {
    MaxStays(w, events, i);
  }

  /** With a limit, a request is granted exactly when the window's period is over or the window has
      given less than the limit. */
  lemma GrantedExactly(w: Window, now: Millis)
    requires w.max > 0
    ensures Grants(w, now) <==> now - w.start >= w.periodSecs * 1000 || w.count < w.max
    ensures Grants(w, now) ==>
              After(w, now) == if now - w.start >= w.periodSecs * 1000 then w.(start := now, count := 1) else w.(count := w.count + 1)
    ensures !Grants(w, now) ==> After(w, now) == w
  {
  }

  /** The window after the first `i` events. */
  function WindowAt(w: Window, events: seq<Event>, i: nat): Window
    requires i <= |events|
  {
    if i == 0 then w else Handled(WindowAt(w, events, i - 1), events[i - 1])
  }

  lemma {:induction false} MaxStays(w: Window, events: seq<Event>, i: nat)
    requires i <= |events|
    ensures WindowAt(w, events, i).max == w.max && WindowAt(w, events, i).periodSecs == w.periodSecs
  {
    if i > 0 { MaxStays(w, events, i - 1); }
  }

  /** What happens to a limiter: a permit is asked for, or an operator resets it. */
  datatype Event = Ask(at: Millis) | Reset(at: Millis)

  function Handled(w: Window, e: Event): Window {
    if e.Ask? then After(w, e.at) else Cleared(w, e.at)
  }

  predicate Granted(w: Window, e: Event) {
    e.Ask? && Grants(w, e.at)
  }

  /** The clock does not go back. */
  predicate Rising(from: Millis, events: seq<Event>) {
    (|events| > 0 ==> from <= events[0].at) && forall i :: 0 < i < |events| ==> events[i - 1].at <= events[i].at
  }

  /** Permits granted at times in [low, high). */
  function GrantedIn(w: Window, events: seq<Event>, low: Millis, high: Millis): nat
    decreases |events|
  {
    if events == [] then 0 else
      (if Granted(w, events[0]) && low <= events[0].at < high then 1 else 0) + GrantedIn(Handled(w, events[0]), events[1..], low, high)
  }

  /** Permits granted in windows that began at `start`. */
  function GrantedDuring(w: Window, events: seq<Event>, start: Millis): nat
    decreases |events|
  {
    if events == [] then 0 else
      (if Granted(w, events[0]) && Handled(w, events[0]).start == start then 1 else 0) + GrantedDuring(Handled(w, events[0]), events[1..], start)
  }

  /** Resets at times in [low, high). */
  function ResetsIn(events: seq<Event>, low: Millis, high: Millis): nat
    decreases |events|
  {
    if events == [] then 0 else (if events[0].Reset? && low <= events[0].at < high then 1 else 0) + ResetsIn(events[1..], low, high)
  }

  function Budget(windows: nat, max: nat): nat {
    if windows == 0 then 0 else max + Budget(windows - 1, max)
  }

  ghost predicate Limited(w: Window) {
    w.max > 0 && w.periodSecs > 0 && w.count <= w.max
  }

  /** What may still be granted in [low, low + period), a window's worth for each reset on top:
      two windows' worth, less what the open window has given once the interval is reached; the
      rest of the open window if it began inside; nothing if it began after. */
  lemma {:induction false} AtMostLeft(w: Window, events: seq<Event>, low: Millis)
    requires Limited(w) && Rising(w.start, events)
    ensures var granted, resets := GrantedIn(w, events, low, low + Period(w)), ResetsIn(events, low, low + Period(w));
            && granted <= Budget(resets + 2, w.max)
            && (events != [] && events[0].at >= low ==> granted <= Budget(resets + 2, w.max) - w.count)
            && (w.start >= low ==> granted <= Budget(resets + 1, w.max) - w.count)
            && (w.start >= low + Period(w) ==> granted == 0)
    decreases |events|
  {
    if events != [] {
      AtMostLeft(Handled(w, events[0]), events[1..], low);
    }
  }

  lemma {:induction false} AtMostMax(w: Window, events: seq<Event>, start: Millis)
    requires Limited(w) && Rising(w.start, events)
    ensures var granted, resets := GrantedDuring(w, events, start), ResetsIn(events, start, start + 1);
            && granted <= Budget(resets + 1, w.max) - (if w.start == start then w.count else 0)
            && (w.start > start ==> granted == 0)
    decreases |events|
  {
    if events != [] {
      AtMostMax(Handled(w, events[0]), events[1..], start);
    }
  }

  /** For every clock that does not go back: at most `max` permits per window and twice that in any
      half-open interval one period long, plus `max` for each reset in it. */
  lemma RateIsBounded(w: Window, events: seq<Event>, low: Millis, start: Millis)
    requires Limited(w) && Rising(w.start, events)
    ensures GrantedDuring(w, events, start) <= Budget(1 + ResetsIn(events, start, start + 1), w.max)
    ensures GrantedIn(w, events, low, low + Period(w)) <= Budget(2 + ResetsIn(events, low, low + Period(w)), w.max)
    ensures ResetsIn(events, low, low + Period(w)) == 0 ==> GrantedIn(w, events, low, low + Period(w)) <= 2 * w.max
  {
    AtMostMax(w, events, start);
    AtMostLeft(w, events, low);
    assert Budget(2, w.max) == w.max + (w.max + 0);
  }

  function Asks(t: Millis, n: nat): seq<Event> {
    if n == 0 then [] else [Ask(t)] + Asks(t, n - 1)
  }

  lemma {:induction false} AllGranted(w: Window, t: Millis, n: nat, rest: seq<Event>, low: Millis, high: Millis)
    requires Limited(w) && !Elapsed(w, t) && w.count + n <= w.max && low <= t < high
    ensures GrantedIn(w, Asks(t, n) + rest, low, high) == n + GrantedIn(w.(count := w.count + n), rest, low, high)
    decreases n
  {
    if n == 0 {
      assert Asks(t, n) + rest == rest;
    } else {
      var all, w' := Asks(t, n) + rest, w.(count := w.count + 1);
      assert all[0] == Ask(t) && all[1..] == Asks(t, n - 1) + rest;
      assert Grants(w, t) && After(w, t) == w';
      hide Grants, After;
      AllGranted(w', t, n - 1, rest, low, high);
    }
  }

  /** Twice the limit is reached without a reset: a full window at its very end, then another at
      once. */
  lemma TwiceIsReached(max: nat, periodSecs: nat) returns (events: seq<Event>, low: Millis)
    requires max > 0 && periodSecs > 0
    ensures var w := Window(max, periodSecs, 0, 0);
            && GrantedIn(w, events, low, low + Period(w)) == 2 * max && Rising(w.start, events)
            && forall i :: 0 <= i < |events| ==> events[i].Ask?
  {
    var w := Window(max, periodSecs, 0, 0);
    var p := Period(w);
    low := p - 1;
    events := Asks(low, max) + ([Ask(p)] + Asks(p, max - 1));
    FullAtEnd(w, p, low);
    AsksAre(low, max);
    AsksAre(p, max - 1);
    hide GrantedIn, Asks;
  }

  lemma FullAtEnd(w: Window, p: nat, low: nat)
    requires w == Window(w.max, w.periodSecs, 0, 0) && w.max > 0 && w.periodSecs > 0 && p == Period(w) && low == p - 1
    ensures GrantedIn(w, Asks(low, w.max) + ([Ask(p)] + Asks(p, w.max - 1)), low, low + p) == 2 * w.max
  {
    hide Asks, GrantedIn;
    AllGranted(w, low, w.max, [Ask(p)] + Asks(p, w.max - 1), low, low + p);
    FullAgain(w.(count := w.max), p, low);
  }

  lemma FullAgain(full: Window, p: nat, low: nat)
    requires full == Window(full.max, full.periodSecs, 0, full.max) && full.max > 0 && full.periodSecs > 0 && p == Period(full) && low == p - 1
    ensures GrantedIn(full, [Ask(p)] + Asks(p, full.max - 1), low, low + p) == full.max
  {
    var rest, next := Asks(p, full.max - 1), Window(full.max, full.periodSecs, p, 1);
    assert Granted(full, Ask(p)) && Handled(full, Ask(p)) == next;
    hide Asks, Handled, Granted;
    FirstGranted(full, p, rest, next, low, low + p);
    hide GrantedIn;
    AllGranted(next, p, full.max - 1, [], low, low + p);
    assert rest + [] == rest;
    NothingGranted(next.(count := next.count + (full.max - 1)), low, low + p);
  }

  lemma FirstGranted(w: Window, t: Millis, rest: seq<Event>, next: Window, low: Millis, high: Millis)
    requires Granted(w, Ask(t)) && Handled(w, Ask(t)) == next && low <= t < high
    ensures GrantedIn(w, [Ask(t)] + rest, low, high) == 1 + GrantedIn(next, rest, low, high)
  {
    hide Granted, Handled;
    assert ([Ask(t)] + rest)[1..] == rest;
  }

  lemma NothingGranted(w: Window, low: Millis, high: Millis)
    ensures GrantedIn(w, [], low, high) == 0
  {
  }

  lemma {:induction false} AsksAre(t: Millis, n: nat)
    ensures |Asks(t, n)| == n && forall i :: 0 <= i < n ==> Asks(t, n)[i] == Ask(t)
  {
    if n > 0 { AsksAre(t, n - 1); }
  }

  class Limiter {
    var max: nat
    var periodSecs: nat
    var start: Millis
    var count: nat

    function Value(): Window
      reads this
    {
      Window(max, periodSecs, start, count)
    }

    constructor (max: nat, periodSecs: nat, now: Millis)
      ensures Value() == Window(max, periodSecs, now, 0)
    {
      this.max, this.periodSecs, start, count := max, periodSecs, now, 0;
    }

    method TryAcquire(now: Millis) returns (granted: bool)
      modifies this
      ensures Value() == Handled(old(Value()), Ask(now)) && granted == Granted(old(Value()), Ask(now))
      ensures granted <==> old(max) == 0 || now - old(start) >= old(periodSecs) * 1000 || old(count) < old(max)
    {
      if max == 0 { return true; }
      if now - start >= periodSecs * 1000 {
        start, count := now, 0;
      }
      if count < max {
        count := count + 1;
        return true;
      }
      return false;
    }

    /** Opens a new window: each reset lets through up to `max` more (`RateIsBounded`). */
    method ResetWindow(now: Millis)
      modifies this
      ensures Value() == Handled(old(Value()), Reset(now))
    {
      start, count := now, 0;
    }
  }
}
