// The fan-out group registry: groups and members in one file, one journaled patch
// per operation over both lists.
module GroupRegistry {
  import opened Basics
  import opened Bytes
  import opened Journal
  import opened Recovery
  import opened Patches

  const CATALOG_VERSION: nat := 1
  const COMPACT_OPS: nat := 1024

  datatype Group = Group(id: Uuid, tenant: string, name: string, paused: bool, updatedAt: Millis)

  datatype GroupMember = GroupMember(
    id: Uuid, groupId: Uuid, tenant: string, name: string, url: string, secret: string, paused: bool,
    parallelism: nat, rate: nat, periodSecs: nat, flowKey: Option<string>, updatedAt: Millis)

  datatype GroupFile = GroupFile(groups: seq<Group>, members: seq<GroupMember>)

  datatype GroupError = GroupNotFound(id: Uuid) | MemberNotFound(id: Uuid) | DuplicateName(name: string)

  datatype FilePatch = FilePatch(groups: Patch<Group>, members: Patch<GroupMember>)

  function GroupId(g: Group): Uuid {
    g.id
  }

  function MemberId(m: GroupMember): Uuid {
    m.id
  }

  function ApplyFile(file: GroupFile, patch: FilePatch): GroupFile {
    GroupFile(ApplyPatch(GroupId, file.groups, patch.groups), ApplyPatch(MemberId, file.members, patch.members))
  }

  predicate UniqueIds(file: GroupFile) {
    Unique(GroupId, file.groups) && Unique(MemberId, file.members)
  }

  function FindGroup(groups: seq<Group>, tenant: string, id: Uuid): (p: nat)
    ensures p <= |groups|
    ensures p < |groups| ==> groups[p].tenant == tenant && groups[p].id == id
    ensures forall i :: 0 <= i < p ==> !(groups[i].tenant == tenant && groups[i].id == id)
  {
    FirstWhere(groups, (x: Group) => x.tenant == tenant && x.id == id)
  }

  function FindMember(members: seq<GroupMember>, tenant: string, id: Uuid): (p: nat)
    ensures p <= |members|
    ensures p < |members| ==> members[p].tenant == tenant && members[p].id == id
    ensures forall i :: 0 <= i < p ==> !(members[i].tenant == tenant && members[i].id == id)
  {
    FirstWhere(members, (x: GroupMember) => x.tenant == tenant && x.id == id)
  }

  predicate NameTaken(groups: seq<Group>, tenant: string, name: string) {
    exists i :: 0 <= i < |groups| && groups[i].tenant == tenant && groups[i].name == name
  }

  function WithoutGroup(members: seq<GroupMember>, groupId: Uuid): seq<GroupMember> {
    if |members| == 0 then []
    else (if members[0].groupId == groupId then [] else [members[0]]) + WithoutGroup(members[1..], groupId)
  }

  function AtLeastOne(n: nat): nat {
    if n == 0 then 1 else n
  }

  /** The records carry their time: an upsert without one has been given the clock's before. */
  datatype Operation =
    | CreateGroup(group: Group)
    | UpsertGroup(group: Group)
    | DeleteGroup(tenant: string, id: Uuid)
    | AddMember(member: GroupMember)
    | UpsertMember(member: GroupMember)
    | DeleteMember(tenant: string, id: Uuid)

  /** What each operation does to the loaded file. */
  function Perform(file: GroupFile, op: Operation): Result<GroupFile, GroupError> {
    match op
    case CreateGroup(g) =>
      if NameTaken(file.groups, g.tenant, g.name) then Err(DuplicateName(g.name))
      else Ok(file.(groups := file.groups + [g]))
    case UpsertGroup(g) =>
      var pos := FindGroup(file.groups, g.tenant, g.id);
      Ok(if pos == |file.groups| then file.(groups := file.groups + [g])
         else if file.groups[pos].updatedAt > g.updatedAt then file
         else file.(groups := file.groups[pos := g]))
    case DeleteGroup(tenant, id) =>
      var pos := FindGroup(file.groups, tenant, id);
      if pos == |file.groups| then Err(GroupNotFound(id))
      else Ok(GroupFile(file.groups[..pos] + file.groups[pos + 1..], WithoutGroup(file.members, id)))
    case AddMember(m) =>
      if FindGroup(file.groups, m.tenant, m.groupId) == |file.groups| then Err(GroupNotFound(m.groupId))
      else Ok(file.(members := file.members +
                    [m.(parallelism := AtLeastOne(m.parallelism), periodSecs := AtLeastOne(m.periodSecs))]))
    case UpsertMember(m) =>
      var pos := FindMember(file.members, m.tenant, m.id);
      Ok(if pos == |file.members| then file.(members := file.members + [m])
         else if file.members[pos].updatedAt > m.updatedAt then file
         else file.(members := file.members[pos := m]))
    case DeleteMember(tenant, id) =>
      var pos := FindMember(file.members, tenant, id);
      if pos == |file.members| then Err(MemberNotFound(id))
      else Ok(file.(members := file.members[..pos] + file.members[pos + 1..]))
  }

  /** New records carry new ids; an upsert does not reuse another tenant's id. */
  predicate IdsFit(file: GroupFile, op: Operation) {
    match op
    case CreateGroup(g) => !Holds(GroupId, file.groups, g.id)
    case AddMember(m) => !Holds(MemberId, file.members, m.id)
    case UpsertGroup(g) => forall i :: 0 <= i < |file.groups| && file.groups[i].id == g.id ==> file.groups[i].tenant == g.tenant
    case UpsertMember(m) => forall i :: 0 <= i < |file.members| && file.members[i].id == m.id ==> file.members[i].tenant == m.tenant
    case _ => true
  }

  ghost predicate Fits<T>(id: IdOf<T>, before: seq<T>, after: seq<T>) {
    Unique(id, after) && OrderedEdit(id, before, after) && |after| <= |Survivors(id, before, after)| + 1
  }

  lemma FitsSame<T>(id: IdOf<T>, items: seq<T>)
    requires Unique(id, items)
    ensures Fits(id, items, items)
  {
    RetainNone(id, items, {});
    EditRetain(id, items, {});
  }

  /** Deleting a group takes its members with it, and only them. */
  lemma {:induction false} CascadeExactly(members: seq<GroupMember>, groupId: Uuid)
    ensures forall m :: m in WithoutGroup(members, groupId) <==> m in members && m.groupId != groupId
  {
    if |members| > 0 {
      CascadeExactly(members[1..], groupId);
      assert forall m :: m in members <==> m == members[0] || m in members[1..];
      var rest := WithoutGroup(members[1..], groupId);
      assert forall m :: m in [members[0]] + rest <==> m == members[0] || m in rest;
      assert [] + rest == rest;
    }
  }

  lemma {:induction false} CascadeIsRetain(members: seq<GroupMember>, groupId: Uuid, ids: set<Uuid>)
    requires forall i :: 0 <= i < |members| ==> (members[i].groupId == groupId <==> members[i].id in ids)
    ensures WithoutGroup(members, groupId) == Retain(MemberId, members, ids)
  {
    if |members| > 0 {
      CascadeIsRetain(members[1..], groupId, ids);
    }
  }

  lemma CascadeFits(members: seq<GroupMember>, groupId: Uuid)
    requires Unique(MemberId, members)
    ensures Fits(MemberId, members, WithoutGroup(members, groupId))
  {
    hide Survivors, OrderedEdit;
    var ids := set i | 0 <= i < |members| && members[i].groupId == groupId :: members[i].id;
    forall i | 0 <= i < |members|
      ensures members[i].groupId == groupId <==> members[i].id in ids
    {
      if members[i].id in ids {
        var j :| 0 <= j < |members| && members[j].groupId == groupId && members[j].id == members[i].id;
        assert MemberId(members[i]) == MemberId(members[j]);
      }
    }
    CascadeIsRetain(members, groupId, ids);
    EditRetain(MemberId, members, ids);
  }

  lemma GroupOperationFits(file: GroupFile, op: Operation)
    requires UniqueIds(file) && IdsFit(file, op) && Perform(file, op).Ok?
    requires op.CreateGroup? || op.UpsertGroup? || op.DeleteGroup?
    ensures Fits(GroupId, file.groups, Perform(file, op).value.groups)
    ensures Fits(MemberId, file.members, Perform(file, op).value.members)
  {
    hide Survivors, OrderedEdit;
    FitsSame(GroupId, file.groups);
    FitsSame(MemberId, file.members);
    match op
    case CreateGroup(g) => EditAppend(GroupId, file.groups, g);
    case UpsertGroup(g) =>
      var pos := FindGroup(file.groups, g.tenant, g.id);
      if pos == |file.groups| {
        assert forall i :: 0 <= i < |file.groups| ==> GroupId(file.groups[i]) == file.groups[i].id;
        EditAppend(GroupId, file.groups, g);
      } else {
        EditReplace(GroupId, file.groups, pos, g);
      }
    case DeleteGroup(tenant, id) =>
      EditRemove(GroupId, file.groups, FindGroup(file.groups, tenant, id));
      CascadeFits(file.members, id);
  }

  lemma MemberOperationFits(file: GroupFile, op: Operation)
    requires UniqueIds(file) && IdsFit(file, op) && Perform(file, op).Ok?
    requires op.AddMember? || op.UpsertMember? || op.DeleteMember?
    ensures Fits(GroupId, file.groups, Perform(file, op).value.groups)
    ensures Fits(MemberId, file.members, Perform(file, op).value.members)
  {
    hide Survivors, OrderedEdit;
    FitsSame(GroupId, file.groups);
    FitsSame(MemberId, file.members);
    match op
    case AddMember(m) =>
      EditAppend(MemberId, file.members, m.(parallelism := AtLeastOne(m.parallelism), periodSecs := AtLeastOne(m.periodSecs)));
    case UpsertMember(m) =>
      var pos := FindMember(file.members, m.tenant, m.id);
      if pos == |file.members| {
        assert forall i :: 0 <= i < |file.members| ==> MemberId(file.members[i]) == file.members[i].id;
        EditAppend(MemberId, file.members, m);
      } else {
        EditReplace(MemberId, file.members, pos, m);
      }
    case DeleteMember(tenant, id) =>
      EditRemove(MemberId, file.members, FindMember(file.members, tenant, id));
  }

  lemma OperationFits(file: GroupFile, op: Operation)
    requires UniqueIds(file) && IdsFit(file, op) && Perform(file, op).Ok?
    ensures Fits(GroupId, file.groups, Perform(file, op).value.groups)
    ensures Fits(MemberId, file.members, Perform(file, op).value.members)
  {
    if op.CreateGroup? || op.UpsertGroup? || op.DeleteGroup? {
      GroupOperationFits(file, op);
    } else {
      MemberOperationFits(file, op);
    }
  }

  /** Every operation, replayed from its journaled diff in any order over both lists,
      rebuilds the file the writer had in memory. */
  lemma OperationReplays(file: GroupFile, op: Operation, patch: FilePatch)
    requires UniqueIds(file) && IdsFit(file, op) && Perform(file, op).Ok?
    requires IsDiff(GroupId, file.groups, Perform(file, op).value.groups, patch.groups)
    requires IsDiff(MemberId, file.members, Perform(file, op).value.members, patch.members)
    ensures ApplyFile(file, patch) == Perform(file, op).value && UniqueIds(Perform(file, op).value)
  {
    hide Perform, OrderedEdit, Survivors, IsDiff, ApplyPatch;
    OperationFits(file, op);
    DiffReplays(GroupId, file.groups, Perform(file, op).value.groups, patch.groups);
    DiffReplays(MemberId, file.members, Perform(file, op).value.members, patch.members);
  }

  /** And it does so exactly when new records carry new ids and an upsert does not reuse another
      tenant's id. */
  lemma OperationReplaysExactly(file: GroupFile, op: Operation, patch: FilePatch)
    requires UniqueIds(file) && Perform(file, op).Ok?
    requires IsDiff(GroupId, file.groups, Perform(file, op).value.groups, patch.groups)
    requires IsDiff(MemberId, file.members, Perform(file, op).value.members, patch.members)
    ensures ApplyFile(file, patch) == Perform(file, op).value <==> IdsFit(file, op)
  {
    if IdsFit(file, op) {
      OperationReplays(file, op, patch);
    } else if op.CreateGroup? || op.UpsertGroup? {
      TakenGroupId(file, op);
      hide Perform, IsDiff, ApplyPatch;
      AppendHeldShrinks(GroupId, file.groups, op.group, patch.groups);
    } else {
      TakenMemberId(file, op);
      hide Perform, IsDiff, ApplyPatch;
      AppendHeldShrinks(MemberId, file.members, Added(op), patch.members);
    }
  }

  /** The member an operation would append. */
  function Added(op: Operation): GroupMember
    requires op.AddMember? || op.UpsertMember?
  {
    var m := op.member;
    if op.AddMember? then m.(parallelism := AtLeastOne(m.parallelism), periodSecs := AtLeastOne(m.periodSecs)) else m
  }

  lemma TakenGroupId(file: GroupFile, op: Operation)
    requires UniqueIds(file) && Perform(file, op).Ok? && !IdsFit(file, op) && (op.CreateGroup? || op.UpsertGroup?)
    ensures Holds(GroupId, file.groups, op.group.id) && Perform(file, op).value.groups == file.groups + [op.group]
  {
    if op.UpsertGroup? {
      var i :| 0 <= i < |file.groups| && file.groups[i].id == op.group.id && file.groups[i].tenant != op.group.tenant;
      assert GroupId(file.groups[i]) == op.group.id;
      assert forall j :: 0 <= j < |file.groups| && GroupId(file.groups[j]) == op.group.id ==> j == i;
    }
  }

  lemma TakenMemberId(file: GroupFile, op: Operation)
    requires UniqueIds(file) && Perform(file, op).Ok? && !IdsFit(file, op) && (op.AddMember? || op.UpsertMember?)
    ensures Holds(MemberId, file.members, MemberId(Added(op))) && Perform(file, op).value.members == file.members + [Added(op)]
  {
    if op.UpsertMember? {
      var i :| 0 <= i < |file.members| && file.members[i].id == op.member.id && file.members[i].tenant != op.member.tenant;
      assert MemberId(file.members[i]) == op.member.id;
      assert forall j :: 0 <= j < |file.members| && MemberId(file.members[j]) == op.member.id ==> j == i;
    }
  }

  lemma EmptyFilePatch(file: GroupFile)
    ensures ApplyFile(file, FilePatch(Patch([], {}), Patch([], {}))) == file
  {
    RetainNone(GroupId, file.groups, {});
    RetainNone(MemberId, file.members, {});
  }

  class Registry {
    const codec: Codec<FilePatch>
    var snapshot: Snapshot<GroupFile>
    var journal: Text
    ghost var world: World<GroupFile, FilePatch>

    function Self(): Store<GroupFile, FilePatch> {
      Store(codec, CATALOG_VERSION, ApplyFile, GroupFile([], []))
    }

    ghost predicate Valid()
      reads this
    {
      && Invariant(Self(), world)
      && world.phase.Idle?
      && world.disk == Disk(snapshot, journal)
      && UniqueIds(Contents())
    }

    ghost function Contents(): GroupFile
      reads this
    {
      Total(Self(), world).state
    }

    constructor (codec: Codec<FilePatch>)
      requires Lawful(codec)
      ensures Valid() && Contents() == GroupFile([], []) && EndsClean(journal)
    {
      this.codec := codec;
      snapshot := Snapshot(GroupFile([], []), 0);
      journal := [];
      world := Start(Store(codec, CATALOG_VERSION, ApplyFile, GroupFile([], [])));
      new;
      StartInvariant(Self());
      hide Invariant, Lawful, Total;
    }

    method LoadState() returns (r: Replayed<GroupFile>)
      requires Valid()
      ensures Ok(r) == Load(Self(), Disk(snapshot, journal)) && r.state == Contents()
    {
      LoadIsTotal(Self(), world);
      var replayed := Replay(codec, CATALOG_VERSION, ApplyFile, journal, Replayed(snapshot.state, snapshot.sequence, 0));
      r := replayed.value;
    }

    /** The tail of `mutate`: journal the patch, compact when due, or write nothing when
        it is empty. */
    method Commit(loaded: Replayed<GroupFile>, after: GroupFile, patch: FilePatch)
      requires Valid() && EndsClean(journal) && Ok(loaded) == Load(Self(), Disk(snapshot, journal)) && loaded.state == Contents()
      requires ApplyFile(loaded.state, patch) == after && UniqueIds(after)
      modifies this
      ensures Valid() && EndsClean(journal) && Contents() == after
    {
      hide Invariant, Total, Load, Mutated, ApplyFile;
      if patch == FilePatch(Patch([], {}), Patch([], {})) {
        EmptyFilePatch(loaded.state);
        return;
      }
      journal := journal + Line(codec, Record(CATALOG_VERSION, loaded.sequence + 1, patch));
      var compact := loaded.operations + 1 >= COMPACT_OPS;
      if compact {
        snapshot := Snapshot(after, loaded.sequence + 1);
        journal := [];
      }
      MutationLands(Self(), world, patch, compact);
      world := Mutated(Self(), world, patch, compact);
    }

    /** Load, perform, diff, journal: afterwards the store reloads to exactly what the
        operation left in memory, and to the old file when it failed. */
    method Mutate(op: Operation) returns (r: Result<GroupFile, GroupError>)
      requires Valid() && EndsClean(journal) && IdsFit(Contents(), op)
      modifies this
      ensures Valid() && EndsClean(journal)
      ensures r == Perform(old(Contents()), op)
      ensures Contents() == if r.Ok? then r.value else old(Contents())
    {
      var loaded := LoadState();
      hide Total, Load, ApplyFile, Perform;
      r := Perform(loaded.state, op);
      if r.Ok? {
        var patch := DiffFile(loaded.state, op);
        Commit(loaded, r.value, patch);
      }
    }
  }

  method DiffFile(file: GroupFile, op: Operation) returns (patch: FilePatch)
    requires UniqueIds(file) && IdsFit(file, op) && Perform(file, op).Ok?
    ensures ApplyFile(file, patch) == Perform(file, op).value && UniqueIds(Perform(file, op).value)
  {
    hide Perform, OrderedEdit, Survivors, IsDiff, ApplyFile;
    var after := Perform(file, op).value;
    OperationFits(file, op);
    var groups := Diff(GroupId, file.groups, after.groups);
    var members := Diff(MemberId, file.members, after.members);
    patch := FilePatch(groups, members);
    OperationReplays(file, op, patch);
  }
}
