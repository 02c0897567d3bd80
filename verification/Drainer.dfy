// Lane drainers that share a global limit: each checks its lane, then the shared count,
// then counts itself in, all in separate steps.
module Drainer {
  import opened Basics
  import opened Sums

  datatype Stage = Looking | LaneChecked | GlobalChecked | LaneCounted

  /** `running`: deliveries under way; `leaving`: those that have left the lane's count but not
      yet the shared one. */
  datatype Lane = Lane(active: int, stage: Stage, running: nat, leaving: nat)

  datatype State = State(lanes: seq<Lane>, global: int)

  datatype Limits = Limits(parallelism: seq<nat>, globalMax: Option<nat>)

  datatype Action =
    | CheckLane(l: nat)
    | CheckGlobal(l: nat)
    | GiveUp(l: nat)
    | CountLane(l: nat)
    | CountGlobal(l: nat)
    | Leave(l: nat)
    | LeaveGlobal(l: nat)

  predicate Enabled(limits: Limits, s: State, a: Action) {
    a.l < |s.lanes| && |limits.parallelism| == |s.lanes| &&
    var lane := s.lanes[a.l];
    match a
    case CheckLane(l) => lane.stage.Looking? && lane.active < limits.parallelism[l]
    case CheckGlobal(_) => lane.stage.LaneChecked? && (limits.globalMax.Some? ==> s.global < limits.globalMax.value)
    case GiveUp(_) => lane.stage.LaneChecked? || lane.stage.GlobalChecked?
    case CountLane(_) => lane.stage.GlobalChecked?
    case CountGlobal(_) => lane.stage.LaneCounted?
    case Leave(_) => lane.running > 0
    case LeaveGlobal(_) => lane.leaving > 0
  }

  function Moved(lane: Lane, a: Action): Lane
    requires a.Leave? ==> lane.running > 0
    requires a.LeaveGlobal? ==> lane.leaving > 0
  {
    match a
    case CheckLane(_) => lane.(stage := LaneChecked)
    case CheckGlobal(_) => lane.(stage := GlobalChecked)
    case GiveUp(_) => lane.(stage := Looking)
    case CountLane(_) => lane.(active := lane.active + 1, stage := LaneCounted)
    case CountGlobal(_) => lane.(running := lane.running + 1, stage := Looking)
    case Leave(_) => lane.(active := lane.active - 1, running := lane.running - 1, leaving := lane.leaving + 1)
    case LeaveGlobal(_) => lane.(leaving := lane.leaving - 1)
  }

  function Next(limits: Limits, s: State, a: Action): State
    requires Enabled(limits, s, a)
  {
    State(s.lanes[a.l := Moved(s.lanes[a.l], a)], s.global + (if a.CountGlobal? then 1 else if a.LeaveGlobal? then -1 else 0))
  }

  predicate IsIdle(lane: Lane) {
    lane.stage.Looking? && lane.active == 0 && lane.running == 0 && lane.leaving == 0
  }

  predicate AllIdle(lanes: seq<Lane>) {
    forall l :: 0 <= l < |lanes| ==> IsIdle(lanes[l])
  }

  /** Deliveries of a lane in the shared count. */
  function InFlight(lane: Lane): nat {
    lane.running + lane.leaving
  }

  /** Whether a drainer is past the shared check and not yet counted there. */
  function Passed(lane: Lane): nat {
    if lane.stage.GlobalChecked? || lane.stage.LaneCounted? then 1 else 0
  }

  function Openness(parallelism: nat): nat {
    if parallelism > 0 then 1 else 0
  }

  /** Lanes that may run anything, among the first `k`. */
  function OpenLanes(limits: Limits, k: nat): nat
    requires k <= |limits.parallelism|
  {
    Sum(limits.parallelism[..k], Openness)
  }

  /** The most the shared count can reach under a limit of `g`. */
  function Cap(limits: Limits, g: nat): nat {
    var open := OpenLanes(limits, |limits.parallelism|);
    if g == 0 || open == 0 then 0 else g + open - 1
  }

  predicate LaneOk(lane: Lane, parallelism: nat) {
    && lane.active == lane.running + (if lane.stage.LaneCounted? then 1 else 0)
    && lane.active <= parallelism
    && (lane.stage.LaneChecked? || lane.stage.GlobalChecked? ==> lane.active < parallelism)
  }

  ghost predicate Invariant(limits: Limits, s: State) {
    && |limits.parallelism| == |s.lanes|
    && (forall l :: 0 <= l < |s.lanes| ==> LaneOk(s.lanes[l], limits.parallelism[l]))
    && s.global == Sum(s.lanes, InFlight)
    && (limits.globalMax.Some? ==> s.global + Sum(s.lanes, Passed) <= Cap(limits, limits.globalMax.value))
  }

  lemma {:induction false} PassedAreOpen(limits: Limits, lanes: seq<Lane>)
    requires |lanes| <= |limits.parallelism| && forall l :: 0 <= l < |lanes| ==> LaneOk(lanes[l], limits.parallelism[l])
    ensures Sum(lanes, Passed) <= OpenLanes(limits, |lanes|)
  {
    if lanes != [] {
      var n := |lanes| - 1;
      PassedAreOpen(limits, lanes[..n]);
      assert limits.parallelism[..n + 1][..n] == limits.parallelism[..n];
      assert LaneOk(lanes[n], limits.parallelism[n]);
    }
  }

  lemma StepKeeps(limits: Limits, s: State, a: Action)
    requires Invariant(limits, s) && Enabled(limits, s, a)
    ensures Invariant(limits, Next(limits, s, a))
  {
    var s', lane := Next(limits, s, a), Moved(s.lanes[a.l], a);
    SumUpdate(s.lanes, InFlight, a.l, lane);
    SumUpdate(s.lanes, Passed, a.l, lane);
    hide Sum, OpenLanes;
    forall l | 0 <= l < |s'.lanes| ensures LaneOk(s'.lanes[l], limits.parallelism[l]) {
      assert LaneOk(s.lanes[l], limits.parallelism[l]);
    }
    PassedAreOpen(limits, s'.lanes);
    SumAtLeast(s'.lanes, Passed, a.l);
  }

  lemma IdleOk(lane: Lane, parallelism: nat)
    requires IsIdle(lane)
    ensures LaneOk(lane, parallelism) && InFlight(lane) == 0 && Passed(lane) == 0
  {
  }

  lemma StartOk(limits: Limits, s: State)
    requires |limits.parallelism| == |s.lanes| && s.global == 0 && AllIdle(s.lanes)
    ensures Invariant(limits, s)
  {
    hide Sum, LaneOk, IsIdle, InFlight, Passed, Cap;
    forall l | 0 <= l < |s.lanes|
      ensures LaneOk(s.lanes[l], limits.parallelism[l]) && InFlight(s.lanes[l]) == 0 && Passed(s.lanes[l]) == 0
    {
      IdleOk(s.lanes[l], limits.parallelism[l]);
    }
    SumOfNone(s.lanes, InFlight);
    SumOfNone(s.lanes, Passed);
  }

  ghost predicate Run(limits: Limits, states: seq<State>, actions: seq<Action>) {
    && |states| == |actions| + 1
    && |states[0].lanes| == |limits.parallelism| && AllIdle(states[0].lanes) && states[0].global == 0
    && forall i :: 0 <= i < |actions| ==> Enabled(limits, states[i], actions[i]) && states[i + 1] == Next(limits, states[i], actions[i])
  }

  lemma {:induction false} RunKeeps(limits: Limits, states: seq<State>, actions: seq<Action>, i: nat)
    requires Run(limits, states, actions) && i <= |actions|
    ensures Invariant(limits, states[i])
  {
    if i == 0 {
      StartOk(limits, states[0]);
    } else {
      RunKeeps(limits, states, actions, i - 1);
      hide Invariant, Next, Enabled;
      StepKeeps(limits, states[i - 1], actions[i - 1]);
    }
  }

  /** In every interleaving: no lane runs more than its parallelism, no count goes below zero, and
      the shared count exceeds its limit by less than the number of lanes that may run. */
  lemma CountsAreBounded(limits: Limits, states: seq<State>, actions: seq<Action>, i: nat)
    requires Run(limits, states, actions) && i <= |actions|
    ensures var s := states[i];
            && |s.lanes| == |limits.parallelism|
            && (forall l :: 0 <= l < |s.lanes| ==> 0 <= s.lanes[l].running <= s.lanes[l].active <= limits.parallelism[l])
            && 0 <= s.global == Sum(s.lanes, InFlight)
            && (limits.globalMax.Some? ==> s.global <= Cap(limits, limits.globalMax.value))
  {
    RunKeeps(limits, states, actions, i);
    hide Sum, Cap;
    forall l | 0 <= l < |states[i].lanes| ensures states[i].lanes[l].active <= limits.parallelism[l] {
      assert LaneOk(states[i].lanes[l], limits.parallelism[l]);
    }
  }

  ghost predicate Reachable(limits: Limits, s: State) {
    exists states, actions :: Run(limits, states, actions) && states[|actions|] == s
  }

  lemma ReachStep(limits: Limits, s: State, a: Action)
    requires Reachable(limits, s) && Enabled(limits, s, a)
    ensures Reachable(limits, Next(limits, s, a))
  {
    hide Next, Enabled;
    var states, actions :| Run(limits, states, actions) && states[|actions|] == s;
    var states', actions' := states + [Next(limits, s, a)], actions + [a];
    forall i | 0 <= i < |actions'|
      ensures Enabled(limits, states'[i], actions'[i]) && states'[i + 1] == Next(limits, states'[i], actions'[i])
    {
      if i < |actions| { assert states'[i] == states[i] && states'[i + 1] == states[i + 1] && actions'[i] == actions[i]; }
    }
    assert Run(limits, states', actions');
  }

  /** `base` deliveries have left lane `f` but not the shared count; of the open lanes in order,
      those below `counted` have one delivery each and those below `checked` are past the shared
      check. */
  function LaneAt(limits: Limits, f: nat, base: nat, checked: nat, counted: nat, l: nat): Lane
    requires l < |limits.parallelism|
  {
    var leaving := if l == f then base else 0;
    if limits.parallelism[l] == 0 then Lane(0, Looking, 0, leaving)
    else if l < counted then Lane(1, Looking, 1, leaving)
    else if l < checked then Lane(0, GlobalChecked, 0, leaving)
    else Lane(0, Looking, 0, leaving)
  }

  function Crowd(limits: Limits, f: nat, base: nat, checked: nat, counted: nat): State
    requires counted <= |limits.parallelism|
  {
    var n := |limits.parallelism|;
    State(seq(n, l requires 0 <= l < n => LaneAt(limits, f, base, checked, counted, l)), base + OpenLanes(limits, counted))
  }

  lemma OpenMore(limits: Limits, k: nat)
    requires k < |limits.parallelism|
    ensures OpenLanes(limits, k + 1) == OpenLanes(limits, k) + Openness(limits.parallelism[k])
  {
    assert limits.parallelism[..k + 1][..k] == limits.parallelism[..k];
  }

  lemma CheckBoth(limits: Limits, s: State, l: nat)
    requires Reachable(limits, s) && |limits.parallelism| == |s.lanes| && l < |s.lanes|
    requires s.lanes[l].stage.Looking? && s.lanes[l].active < limits.parallelism[l]
    requires limits.globalMax.Some? ==> s.global < limits.globalMax.value
    ensures Reachable(limits, s.(lanes := s.lanes[l := s.lanes[l].(stage := GlobalChecked)]))
  {
    hide Reachable;
    var s1 := Next(limits, s, CheckLane(l));
    ReachStep(limits, s, CheckLane(l));
    ReachStep(limits, s1, CheckGlobal(l));
    assert Next(limits, s1, CheckGlobal(l)).lanes == s.lanes[l := s.lanes[l].(stage := GlobalChecked)];
  }

  lemma CountBoth(limits: Limits, s: State, l: nat)
    requires Reachable(limits, s) && |limits.parallelism| == |s.lanes| && l < |s.lanes| && s.lanes[l].stage.GlobalChecked?
    ensures var lane := s.lanes[l];
            Reachable(limits, State(s.lanes[l := Lane(lane.active + 1, Looking, lane.running + 1, lane.leaving)], s.global + 1))
  {
    hide Reachable;
    var s1, lane := Next(limits, s, CountLane(l)), s.lanes[l];
    ReachStep(limits, s, CountLane(l));
    ReachStep(limits, s1, CountGlobal(l));
    assert Next(limits, s1, CountGlobal(l)).lanes == s.lanes[l := Lane(lane.active + 1, Looking, lane.running + 1, lane.leaving)];
  }

  lemma {:induction false} Fill(limits: Limits, g: nat, f: nat, base: nat)
    requires limits.globalMax == Some(g) && base < g && f < |limits.parallelism| && limits.parallelism[f] > 0
    ensures Reachable(limits, Crowd(limits, f, base, 0, 0))
  {
    if base == 0 {
      assert Run(limits, [Crowd(limits, f, 0, 0, 0)], []);
    } else {
      hide Reachable;
      Fill(limits, g, f, base - 1);
      var s := Crowd(limits, f, base - 1, 0, 0);
      CheckBoth(limits, s, f);
      var s1 := s.(lanes := s.lanes[f := s.lanes[f].(stage := GlobalChecked)]);
      CountBoth(limits, s1, f);
      var s2 := State(s1.lanes[f := Lane(1, Looking, 1, base - 1)], base);
      ReachStep(limits, s2, Leave(f));
      assert Crowd(limits, f, base, 0, 0).lanes == s2.lanes[f := Lane(0, Looking, 0, base)];
    }
  }

  lemma {:induction false} AllCheck(limits: Limits, g: nat, f: nat, checked: nat)
    requires limits.globalMax == Some(g) && g > 0 && f < |limits.parallelism| && limits.parallelism[f] > 0
    requires checked <= |limits.parallelism|
    ensures Reachable(limits, Crowd(limits, f, g - 1, checked, 0))
  {
    hide Reachable;
    if checked == 0 {
      Fill(limits, g, f, g - 1);
    } else {
      AllCheck(limits, g, f, checked - 1);
      var s, l := Crowd(limits, f, g - 1, checked - 1, 0), checked - 1;
      if limits.parallelism[l] > 0 {
        CheckBoth(limits, s, l);
        assert Crowd(limits, f, g - 1, checked, 0).lanes == s.lanes[l := s.lanes[l].(stage := GlobalChecked)];
      } else {
        assert Crowd(limits, f, g - 1, checked, 0).lanes == s.lanes;
      }
    }
  }

  lemma {:induction false} AllCount(limits: Limits, g: nat, f: nat, counted: nat)
    requires limits.globalMax == Some(g) && g > 0 && f < |limits.parallelism| && limits.parallelism[f] > 0
    requires counted <= |limits.parallelism|
    ensures Reachable(limits, Crowd(limits, f, g - 1, |limits.parallelism|, counted))
  {
    hide Reachable;
    var n := |limits.parallelism|;
    if counted == 0 {
      AllCheck(limits, g, f, n);
    } else {
      AllCount(limits, g, f, counted - 1);
      hide OpenLanes;
      var s, l := Crowd(limits, f, g - 1, n, counted - 1), counted - 1;
      OpenMore(limits, l);
      if limits.parallelism[l] > 0 {
        CountBoth(limits, s, l);
        assert Crowd(limits, f, g - 1, n, counted).lanes == s.lanes[l := Lane(1, Looking, 1, s.lanes[l].leaving)];
      } else {
        assert Crowd(limits, f, g - 1, n, counted).lanes == s.lanes;
      }
    }
  }

  lemma {:induction false} FirstOpen(limits: Limits, k: nat) returns (f: nat)
    requires k <= |limits.parallelism| && OpenLanes(limits, k) > 0
    ensures f < k && limits.parallelism[f] > 0
  {
    OpenMore(limits, k - 1);
    if limits.parallelism[k - 1] > 0 {
      f := k - 1;
    } else {
      f := FirstOpen(limits, k - 1);
    }
  }

  /** The bound is reached, whatever the lanes' parallelism: deliveries leave their lane before they
      leave the shared count, so one lane can bring it to just below the limit, and then every
      open lane passes the check at once. */
  lemma BoundIsReached(limits: Limits, g: nat) returns (s: State)
    requires limits.globalMax == Some(g)
    ensures Reachable(limits, s) && s.global == Cap(limits, g)
  {
    var n := |limits.parallelism|;
    if g == 0 || OpenLanes(limits, n) == 0 {
      s := State(seq(n, _ => Lane(0, Looking, 0, 0)), 0);
      assert Run(limits, [s], []);
    } else {
      var f := FirstOpen(limits, n);
      AllCount(limits, g, f, n);
      s := Crowd(limits, f, g - 1, n, n);
    }
  }

  /** So the shared limit is exceeded in some run exactly when it is not zero and at least two lanes
      may run anything. */
  lemma LimitExceededExactly(limits: Limits, g: nat)
    requires limits.globalMax == Some(g)
    ensures (exists s :: Reachable(limits, s) && s.global > g) <==> g > 0 && OpenLanes(limits, |limits.parallelism|) >= 2
  {
    if s :| Reachable(limits, s) && s.global > g {
      var states, actions :| Run(limits, states, actions) && states[|actions|] == s;
      CountsAreBounded(limits, states, actions, |actions|);
    }
    var s := BoundIsReached(limits, g);
  }

  function FullLane(parallelism: nat, l: nat, k: nat, j: nat): Lane {
    var n := if l < k then parallelism else if l == k then j else 0;
    Lane(n, Looking, n, 0)
  }

  /** The lanes below `k` run all they may, lane `k` runs `j`, and the others nothing. */
  function Full(limits: Limits, k: nat, j: nat, global: int): State {
    var n := |limits.parallelism|;
    State(seq(n, l requires 0 <= l < n => FullLane(limits.parallelism[l], l, k, j)), global)
  }

  lemma {:induction false} Fills(limits: Limits, k: nat, j: nat) returns (global: int)
    requires limits.globalMax.None? && k <= |limits.parallelism| && (if k < |limits.parallelism| then j <= limits.parallelism[k] else j == 0)
    ensures Reachable(limits, Full(limits, k, j, global))
    decreases k, j
  {
    hide Reachable;
    if j > 0 {
      var g := Fills(limits, k, j - 1);
      var s := Full(limits, k, j - 1, g);
      CheckBoth(limits, s, k);
      var s1 := s.(lanes := s.lanes[k := s.lanes[k].(stage := GlobalChecked)]);
      CountBoth(limits, s1, k);
      global := g + 1;
      assert Full(limits, k, j, global).lanes == s1.lanes[k := Lane(j, Looking, j, 0)];
    } else if k > 0 {
      global := Fills(limits, k - 1, limits.parallelism[k - 1]);
      assert Full(limits, k, 0, global) == Full(limits, k - 1, limits.parallelism[k - 1], global);
    } else {
      global := 0;
      assert Reachable(limits, Full(limits, 0, 0, 0)) by { FullStart(limits); }
    }
  }

  lemma FullStart(limits: Limits)
    ensures Reachable(limits, Full(limits, 0, 0, 0))
  {
    assert Run(limits, [Full(limits, 0, 0, 0)], []);
  }

  /** Without a shared limit nothing but its own parallelism holds a lane back: all lanes can be
      full at once. */
  lemma UnlimitedFillsAll(limits: Limits) returns (s: State)
    requires limits.globalMax.None?
    ensures Reachable(limits, s) && |s.lanes| == |limits.parallelism|
    ensures forall l :: 0 <= l < |s.lanes| ==> s.lanes[l].running == limits.parallelism[l]
  {
    var global := Fills(limits, |limits.parallelism|, 0);
    s := Full(limits, |limits.parallelism|, 0, global);
  }
}
