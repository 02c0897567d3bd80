// Ingest admission: shared counters and a tenant table, changed by requests in separate
// atomic steps and given back when a request is refused or done.
module Admission {
  import opened Basics
  import opened Sums

  datatype Limits = Limits(records: nat, bytes: nat, tenantRecords: nat, tenantBytes: nat)

  datatype Entry = Entry(records: nat, bytes: nat)

  /** A request's progress; `Granted` is a live guard. */
  datatype Task =
    | Absent
    | Entered(tenant: Uuid, size: nat, seenRecords: int)
    | Counted(tenant: Uuid, size: nat, seenRecords: int, seenBytes: int)
    | Refused(tenant: Uuid, size: nat)
    | RefusedBytes(tenant: Uuid, size: nat)
    | Granted(tenant: Uuid, size: nat)
    | Leaving(tenant: Uuid, size: nat)
    | LeavingTenant(tenant: Uuid, size: nat)

  type Tenants = map<Uuid, Entry>

  datatype State = State(records: int, bytes: int, tenants: Tenants, tasks: seq<Task>)

  datatype Action =
    | Enter(i: nat, tenant: Uuid, size: nat)
    | AddBytes(i: nat)
    | Decide(i: nat)
    | Undo(i: nat)
    | UndoBytes(i: nat)
    | Drop(i: nat)
    | DropBytes(i: nat)
    | DropTenant(i: nat)

  function EntryOf(tenants: Tenants, t: Uuid): Entry {
    if t in tenants then tenants[t] else Entry(0, 0)
  }

  predicate TenantFits(limits: Limits, tenants: Tenants, t: Uuid, size: nat) {
    EntryOf(tenants, t).records + 1 <= limits.tenantRecords && EntryOf(tenants, t).bytes + size <= limits.tenantBytes
  }

  /** The section under the tenant lock: one more request, or an entry left as it was. */
  function Admit(limits: Limits, tenants: Tenants, t: Uuid, size: nat): Tenants {
    var e := EntryOf(tenants, t);
    if TenantFits(limits, tenants, t, size) then tenants[t := Entry(e.records + 1, e.bytes + size)]
    else if e.records == 0 then tenants - {t} else tenants
  }

  function Minus(a: nat, b: nat): nat {
    if a < b then 0 else a - b
  }

  function Release(tenants: Tenants, t: Uuid, size: nat): Tenants {
    if t !in tenants then tenants else
      var e := Entry(Minus(tenants[t].records, 1), Minus(tenants[t].bytes, size));
      if e.records == 0 then tenants - {t} else tenants[t := e]
  }

  predicate Enabled(s: State, a: Action) {
    a.i < |s.tasks| &&
    match a
    case Enter(i, _, _) => s.tasks[i].Absent?
    case AddBytes(i) => s.tasks[i].Entered?
    case Decide(i) => s.tasks[i].Counted?
    case Undo(i) => s.tasks[i].Refused?
    case UndoBytes(i) => s.tasks[i].RefusedBytes?
    case Drop(i) => s.tasks[i].Granted?
    case DropBytes(i) => s.tasks[i].Leaving?
    case DropTenant(i) => s.tasks[i].LeavingTenant?
  }

  predicate Clears(limits: Limits, task: Task)
    requires task.Counted?
  {
    task.seenRecords <= limits.records && task.seenBytes <= limits.bytes
  }

  function Moved(limits: Limits, s: State, a: Action): Task
    requires Enabled(s, a)
  {
    var task := s.tasks[a.i];
    match a
    case Enter(_, t, size) => Entered(t, size, s.records + 1)
    case AddBytes(_) => Counted(task.tenant, task.size, task.seenRecords, s.bytes + task.size)
    case Decide(_) =>
      if Clears(limits, task) && TenantFits(limits, s.tenants, task.tenant, task.size)
      then Granted(task.tenant, task.size) else Refused(task.tenant, task.size)
    case Undo(_) => RefusedBytes(task.tenant, task.size)
    case UndoBytes(_) => Absent
    case Drop(_) => Leaving(task.tenant, task.size)
    case DropBytes(_) => LeavingTenant(task.tenant, task.size)
    case DropTenant(_) => Absent
  }

  function Next(limits: Limits, s: State, a: Action): State
    requires Enabled(s, a)
  {
    var task, tasks := s.tasks[a.i], s.tasks[a.i := Moved(limits, s, a)];
    match a
    case Enter(_, _, _) => s.(records := s.records + 1, tasks := tasks)
    case AddBytes(_) => s.(bytes := s.bytes + task.size, tasks := tasks)
    case Decide(_) =>
      if Clears(limits, task) then s.(tenants := Admit(limits, s.tenants, task.tenant, task.size), tasks := tasks) else s.(tasks := tasks)
    case Undo(_) => s.(records := s.records - 1, tasks := tasks)
    case UndoBytes(_) => s.(bytes := s.bytes - task.size, tasks := tasks)
    case Drop(_) => s.(records := s.records - 1, tasks := tasks)
    case DropBytes(_) => s.(bytes := s.bytes - task.size, tasks := tasks)
    case DropTenant(_) => s.(tenants := Release(s.tenants, task.tenant, task.size), tasks := tasks)
  }

  /** Requests in the shared record count, and the bytes in the shared byte count. */
  function InRecords(t: Task): nat {
    if t.Entered? || t.Counted? || t.Refused? || t.Granted? then 1 else 0
  }

  function InBytes(t: Task): nat {
    if t.Counted? || t.Refused? || t.RefusedBytes? || t.Granted? || t.Leaving? then t.size else 0
  }

  predicate InTenant(t: Task, tenant: Uuid) {
    (t.Granted? || t.Leaving? || t.LeavingTenant?) && t.tenant == tenant
  }

  function TenantRecords(tenant: Uuid): Task -> nat {
    (t: Task) => if InTenant(t, tenant) then 1 else 0
  }

  function TenantBytes(tenant: Uuid): Task -> nat {
    (t: Task) => if InTenant(t, tenant) then t.size else 0
  }

  /** Requests that saw room, whatever becomes of them. */
  function RoomRecords(limits: Limits): Task -> nat {
    (t: Task) => if t.Granted? || ((t.Entered? || t.Counted?) && t.seenRecords <= limits.records) then 1 else 0
  }

  function RoomBytes(limits: Limits): Task -> nat {
    (t: Task) => if t.Granted? || (t.Counted? && t.seenBytes <= limits.bytes) then t.size else 0
  }

  ghost predicate CountsOk(s: State) {
    s.records == Sum(s.tasks, InRecords) && s.bytes == Sum(s.tasks, InBytes)
  }

  ghost predicate RoomOk(limits: Limits, s: State) {
    Sum(s.tasks, RoomRecords(limits)) <= limits.records && Sum(s.tasks, RoomBytes(limits)) <= limits.bytes
  }

  ghost predicate TenantOk(limits: Limits, s: State, t: Uuid) {
    && EntryOf(s.tenants, t) == Entry(Sum(s.tasks, TenantRecords(t)), Sum(s.tasks, TenantBytes(t)))
    && (t in s.tenants ==> s.tenants[t].records > 0)
    && EntryOf(s.tenants, t).records <= limits.tenantRecords && EntryOf(s.tenants, t).bytes <= limits.tenantBytes
  }

  ghost predicate Invariant(limits: Limits, s: State) {
    CountsOk(s) && RoomOk(limits, s) && forall t :: TenantOk(limits, s, t)
  }

  lemma CountsKept(limits: Limits, s: State, a: Action)
    requires CountsOk(s) && Enabled(s, a)
    ensures CountsOk(Next(limits, s, a))
  {
    var x := Moved(limits, s, a);
    SumUpdate(s.tasks, InRecords, a.i, x);
    SumUpdate(s.tasks, InBytes, a.i, x);
    hide Sum, Admit, Release, TenantFits;
  }

  lemma RoomKept(limits: Limits, s: State, a: Action)
    requires CountsOk(s) && RoomOk(limits, s) && Enabled(s, a)
    ensures RoomOk(limits, Next(limits, s, a))
  {
    CountsKept(limits, s, a);
    var s' := Next(limits, s, a);
    SumUpdate(s.tasks, RoomRecords(limits), a.i, s'.tasks[a.i]);
    SumUpdate(s.tasks, RoomBytes(limits), a.i, s'.tasks[a.i]);
    SumLe(s'.tasks, RoomRecords(limits), InRecords);
    SumLe(s'.tasks, RoomBytes(limits), InBytes);
    hide Sum, Admit, Release, TenantFits;
  }

  /** The tenant's sums change only as the acting request enters or leaves its tenant. */
  lemma TenantSums(s: State, i: nat, x: Task, t: Uuid)
    requires i < |s.tasks|
    ensures var task, tasks := s.tasks[i], s.tasks[i := x];
            && Sum(tasks, TenantRecords(t)) ==
               Sum(s.tasks, TenantRecords(t)) - (if InTenant(task, t) then 1 else 0) + (if InTenant(x, t) then 1 else 0)
            && Sum(tasks, TenantBytes(t)) ==
               Sum(s.tasks, TenantBytes(t)) - (if InTenant(task, t) then task.size else 0) + (if InTenant(x, t) then x.size else 0)
            && (InTenant(task, t) ==> Sum(s.tasks, TenantRecords(t)) >= 1 && Sum(s.tasks, TenantBytes(t)) >= task.size)
            && (Sum(tasks, TenantRecords(t)) == 0 ==> Sum(tasks, TenantBytes(t)) == 0)
  {
    hide Sum;
    SumUpdate(s.tasks, TenantRecords(t), i, x);
    SumUpdate(s.tasks, TenantBytes(t), i, x);
    SumAtLeast(s.tasks, TenantRecords(t), i);
    SumAtLeast(s.tasks, TenantBytes(t), i);
    NoRecordsNoBytes(s.tasks[i := x], t);
  }

  lemma TenantKept(limits: Limits, s: State, a: Action, t: Uuid)
    requires TenantOk(limits, s, t) && Enabled(s, a)
    ensures TenantOk(limits, Next(limits, s, a), t)
  {
    TenantSums(s, a.i, Moved(limits, s, a), t);
    hide Sum, TenantRecords, TenantBytes;
  }

  lemma {:induction false} NoRecordsNoBytes(tasks: seq<Task>, t: Uuid)
    ensures Sum(tasks, TenantRecords(t)) == 0 ==> Sum(tasks, TenantBytes(t)) == 0
  {
    if tasks != [] { NoRecordsNoBytes(tasks[..|tasks| - 1], t); }
  }

  ghost predicate Run(limits: Limits, states: seq<State>, actions: seq<Action>) {
    && |states| == |actions| + 1
    && states[0].records == 0 && states[0].bytes == 0 && states[0].tenants == map[] && Quiet(states[0])
    && forall i :: 0 <= i < |actions| ==> Enabled(states[i], actions[i]) && states[i + 1] == Next(limits, states[i], actions[i])
  }

  /** Nothing is in flight. */
  ghost predicate Quiet(s: State) {
    forall i :: 0 <= i < |s.tasks| ==> s.tasks[i].Absent?
  }

  lemma QuietSums(limits: Limits, s: State, t: Uuid)
    requires Quiet(s)
    ensures Sum(s.tasks, InRecords) == 0 && Sum(s.tasks, InBytes) == 0
    ensures Sum(s.tasks, TenantRecords(t)) == 0 && Sum(s.tasks, TenantBytes(t)) == 0
    ensures Sum(s.tasks, RoomRecords(limits)) == 0 && Sum(s.tasks, RoomBytes(limits)) == 0
  {
    hide Sum;
    SumOfNone(s.tasks, InRecords);
    SumOfNone(s.tasks, InBytes);
    SumOfNone(s.tasks, TenantRecords(t));
    SumOfNone(s.tasks, TenantBytes(t));
    SumOfNone(s.tasks, RoomRecords(limits));
    SumOfNone(s.tasks, RoomBytes(limits));
  }

  lemma StartOk(limits: Limits, s: State)
    requires s.records == 0 && s.bytes == 0 && s.tenants == map[] && Quiet(s)
    ensures Invariant(limits, s)
  {
    hide Sum, TenantRecords, TenantBytes, RoomRecords, RoomBytes, Quiet;
    QuietSums(limits, s, 0);
    forall t ensures TenantOk(limits, s, t) {
      QuietSums(limits, s, t);
    }
  }

  lemma StepKeeps(limits: Limits, s: State, a: Action)
    requires Invariant(limits, s) && Enabled(s, a)
    ensures Invariant(limits, Next(limits, s, a))
  {
    hide CountsOk, RoomOk, TenantOk, Next, Enabled;
    CountsKept(limits, s, a);
    RoomKept(limits, s, a);
    forall t ensures TenantOk(limits, Next(limits, s, a), t) {
      TenantKept(limits, s, a, t);
    }
  }

  lemma {:induction false} RunKeeps(limits: Limits, states: seq<State>, actions: seq<Action>, i: nat)
    requires Run(limits, states, actions) && i <= |actions|
    ensures Invariant(limits, states[i])
  {
    hide Invariant, Next, Enabled, Quiet;
    if i == 0 {
      StartOk(limits, states[0]);
    } else {
      RunKeeps(limits, states, actions, i - 1);
      StepKeeps(limits, states[i - 1], actions[i - 1]);
    }
  }

  /** Live guards, of one tenant or of all. */
  function Live(t: Task): nat {
    if t.Granted? then 1 else 0
  }

  function LiveBytes(t: Task): nat {
    if t.Granted? then t.size else 0
  }

  /** Under any interleaving: the guards granted never exceed the limits, globally or for a
      tenant; each tenant entry is the sum over the guards not yet given back; and when nothing
      is in flight every counter is zero and no entry is left. */
  lemma GuardsStayWithinLimits(limits: Limits, states: seq<State>, actions: seq<Action>, i: nat, t: Uuid)
    requires Run(limits, states, actions) && i <= |actions|
    ensures var s := states[i];
            && Sum(s.tasks, Live) <= limits.records && Sum(s.tasks, LiveBytes) <= limits.bytes
            && EntryOf(s.tenants, t) == Entry(Sum(s.tasks, TenantRecords(t)), Sum(s.tasks, TenantBytes(t)))
            && (t in s.tenants <==> Sum(s.tasks, TenantRecords(t)) > 0)
            && Sum(s.tasks, TenantRecords(t)) <= limits.tenantRecords && Sum(s.tasks, TenantBytes(t)) <= limits.tenantBytes
            && (Quiet(s) ==> s.records == 0 && s.bytes == 0 && s.tenants == map[])
  {
    RunKeeps(limits, states, actions, i);
    hide Run, Sum;
    var s := states[i];
    assert TenantOk(limits, s, t);
    SumLe(s.tasks, Live, RoomRecords(limits));
    SumLe(s.tasks, LiveBytes, RoomBytes(limits));
    if Quiet(s) { QuietIsEmpty(limits, s); }
  }

  lemma QuietIsEmpty(limits: Limits, s: State)
    requires Invariant(limits, s) && Quiet(s)
    ensures s.records == 0 && s.bytes == 0 && s.tenants == map[]
  {
    QuietSums(limits, s, 0);
    hide Sum, Quiet, TenantRecords, TenantBytes, RoomOk;
    forall t ensures t !in s.tenants {
      QuietSums(limits, s, t);
      assert TenantOk(limits, s, t);
    }
  }

  /** The counters as one request sees them when no other runs. */
  class Gate {
    const limits: Limits
    var records: nat
    var bytes: nat
    var tenants: Tenants

    constructor (limits: Limits)
      ensures records == 0 && bytes == 0 && tenants == map[] && this.limits == limits
    {
      this.limits, records, bytes, tenants := limits, 0, 0, map[];
    }

    /** No entry is kept for a tenant without requests. */
    predicate Tidy()
      reads this
    {
      forall t :: t in tenants ==> tenants[t].records > 0
    }

    /** Admits exactly what fits; a refusal leaves no trace. */
    method Reserve(t: Uuid, size: nat) returns (ok: bool)
      requires Tidy()
      modifies this
      ensures Tidy()
      ensures ok <==> old(records) + 1 <= limits.records && old(bytes) + size <= limits.bytes && TenantFits(limits, old(tenants), t, size)
      ensures ok ==> records == old(records) + 1 && bytes == old(bytes) + size && tenants == Admit(limits, old(tenants), t, size)
      ensures !ok ==> records == old(records) && bytes == old(bytes) && tenants == old(tenants)
    {
      records := records + 1;
      bytes := bytes + size;
      if records > limits.records || bytes > limits.bytes {
        records, bytes := records - 1, bytes - size;
        return false;
      }
      var e := EntryOf(tenants, t);
      if e.records + 1 > limits.tenantRecords || e.bytes + size > limits.tenantBytes {
        if e.records == 0 { tenants := tenants - {t}; }
        records, bytes := records - 1, bytes - size;
        return false;
      }
      tenants := tenants[t := Entry(e.records + 1, e.bytes + size)];
      return true;
    }

    method Drop(t: Uuid, size: nat)
      requires Tidy() && records >= 1 && bytes >= size
      modifies this
      ensures Tidy() && records == old(records) - 1 && bytes == old(bytes) - size
      ensures tenants == Release(old(tenants), t, size)
    {
      records := records - 1;
      bytes := bytes - size;
      if t in tenants {
        var e := Entry(Minus(tenants[t].records, 1), Minus(tenants[t].bytes, size));
        tenants := if e.records == 0 then tenants - {t} else tenants[t := e];
      }
    }
  }

  /** A request whose three steps are not interrupted gets its guard exactly when it fits in the
      shared and in its tenant's limits; if refused, its two further steps leave the counters as
      they were. */
  lemma AloneExactly(limits: Limits, s: State, i: nat, t: Uuid, size: nat) returns (entered: State, counted: State, decided: State)
    requires i < |s.tasks| && s.tasks[i].Absent? && (t in s.tenants ==> s.tenants[t].records > 0)
    ensures Enabled(s, Enter(i, t, size)) && entered == Next(limits, s, Enter(i, t, size))
    ensures Enabled(entered, AddBytes(i)) && counted == Next(limits, entered, AddBytes(i))
    ensures Enabled(counted, Decide(i)) && decided == Next(limits, counted, Decide(i))
    ensures var records, bytes := if t in s.tenants then s.tenants[t].records else 0, if t in s.tenants then s.tenants[t].bytes else 0;
            && (decided.tasks[i] == Granted(t, size) <==>
                  s.records + 1 <= limits.records && s.bytes + size <= limits.bytes &&
                  records + 1 <= limits.tenantRecords && bytes + size <= limits.tenantBytes)
            && (decided.tasks[i] == Granted(t, size) ==>
                  decided == State(s.records + 1, s.bytes + size, s.tenants[t := Entry(records + 1, bytes + size)], s.tasks[i := Granted(t, size)]))
            && (decided.tasks[i] != Granted(t, size) ==>
                  && Enabled(decided, Undo(i)) && Enabled(Next(limits, decided, Undo(i)), UndoBytes(i))
                  && Next(limits, Next(limits, decided, Undo(i)), UndoBytes(i)) == s)
  {
    entered := Next(limits, s, Enter(i, t, size));
    counted := Next(limits, entered, AddBytes(i));
    decided := Next(limits, counted, Decide(i));
    assert decided.tasks == s.tasks[i := decided.tasks[i]];
    if decided.tasks[i] != Granted(t, size) {
      var undone := Next(limits, decided, Undo(i));
      assert Next(limits, undone, UndoBytes(i)).tasks == s.tasks[i := Absent] == s.tasks;
    }
  }

  /** Giving a guard back undoes admitting it. */
  lemma ReleaseUndoesAdmit(limits: Limits, tenants: Tenants, t: Uuid, size: nat)
    requires TenantFits(limits, tenants, t, size) && (t in tenants ==> tenants[t].records > 0)
    ensures Release(Admit(limits, tenants, t, size), t, size) == tenants
  {
  }
}
