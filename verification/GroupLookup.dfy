// What readers of the group registry find after each of its operations.
module GroupLookup {
  import opened Basics
  import opened Patches
  import opened GroupRegistry

  /** First-match lookups, as every read does them. */
  function GroupOf(file: GroupFile, tenant: string, id: Uuid): Option<Group> {
    var pos := FindGroup(file.groups, tenant, id);
    if pos < |file.groups| then Some(file.groups[pos]) else None
  }

  function MemberOf(file: GroupFile, tenant: string, id: Uuid): Option<GroupMember> {
    var pos := FindMember(file.members, tenant, id);
    if pos < |file.members| then Some(file.members[pos]) else None
  }

  predicate IsGroup(g: Group, tenant: string, id: Uuid) {
    g.tenant == tenant && g.id == id
  }

  predicate IsMember(m: GroupMember, tenant: string, id: Uuid) {
    m.tenant == tenant && m.id == id
  }

  lemma GroupAt(groups: seq<Group>, tenant: string, id: Uuid, at: nat)
    requires at <= |groups| && (at < |groups| ==> IsGroup(groups[at], tenant, id))
    requires forall i :: 0 <= i < at ==> !IsGroup(groups[i], tenant, id)
    ensures FindGroup(groups, tenant, id) == at
  {
    var p := FindGroup(groups, tenant, id);
    assert !(p < at) && !(at < p);
  }

  lemma MemberAt(members: seq<GroupMember>, tenant: string, id: Uuid, at: nat)
    requires at <= |members| && (at < |members| ==> IsMember(members[at], tenant, id))
    requires forall i :: 0 <= i < at ==> !IsMember(members[i], tenant, id)
    ensures FindMember(members, tenant, id) == at
  {
    var p := FindMember(members, tenant, id);
    assert !(p < at) && !(at < p);
  }

  lemma GroupAppended(groups: seq<Group>, g: Group, tenant: string, id: Uuid)
    ensures FindGroup(groups + [g], tenant, id) ==
            (var p := FindGroup(groups, tenant, id); if p < |groups| || IsGroup(g, tenant, id) then p else |groups| + 1)
  {
    var p := FindGroup(groups, tenant, id);
    GroupAt(groups + [g], tenant, id, if p < |groups| || IsGroup(g, tenant, id) then p else |groups| + 1);
  }

  lemma MemberAppended(members: seq<GroupMember>, m: GroupMember, tenant: string, id: Uuid)
    ensures FindMember(members + [m], tenant, id) ==
            (var p := FindMember(members, tenant, id); if p < |members| || IsMember(m, tenant, id) then p else |members| + 1)
  {
    var p := FindMember(members, tenant, id);
    MemberAt(members + [m], tenant, id, if p < |members| || IsMember(m, tenant, id) then p else |members| + 1);
  }

  /** A group is created exactly when its name is free in the tenant, and then found; nothing
      that was found before is found otherwise. */
  lemma CreateExactly(file: GroupFile, g: Group, tenant: string, id: Uuid)
    ensures var r := Perform(file, CreateGroup(g));
            && (r.Ok? <==> forall x :: x in file.groups ==> !(x.tenant == g.tenant && x.name == g.name))
            && (r.Err? ==> r.error == DuplicateName(g.name))
            && (r.Ok? ==>
                  && r.value.members == file.members
                  && GroupOf(r.value, tenant, id) ==
                     if GroupOf(file, tenant, id).None? && tenant == g.tenant && id == g.id then Some(g) else GroupOf(file, tenant, id))
  {
    GroupAppended(file.groups, g, tenant, id);
    assert NameTaken(file.groups, g.tenant, g.name) <==> exists x :: x in file.groups && x.tenant == g.tenant && x.name == g.name by {
      if x :| x in file.groups && x.tenant == g.tenant && x.name == g.name {
        var i :| 0 <= i < |file.groups| && file.groups[i] == x;
      }
    }
    hide NameTaken;
  }

  /** After an upsert the newer of stored and given group is found, and every other lookup
      answers as before. */
  lemma UpsertGroupFinds(file: GroupFile, g: Group, tenant: string, id: Uuid)
    ensures var r := Perform(file, UpsertGroup(g));
            && r.Ok? && r.value.members == file.members
            && GroupOf(r.value, tenant, id) ==
               (if tenant != g.tenant || id != g.id then GroupOf(file, tenant, id)
                else match GroupOf(file, tenant, id)
                  case Some(stored) => if stored.updatedAt > g.updatedAt then Some(stored) else Some(g)
                  case None => Some(g))
  {
    var pos, p := FindGroup(file.groups, g.tenant, g.id), FindGroup(file.groups, tenant, id);
    GroupAppended(file.groups, g, tenant, id);
    if pos < |file.groups| { GroupAt(file.groups[pos := g], tenant, id, p); }
  }

  lemma GroupRemoved(groups: seq<Group>, pos: nat, tenant: string, id: Uuid)
    requires Unique(GroupId, groups) && pos < |groups|
    ensures var after, p := groups[..pos] + groups[pos + 1..], FindGroup(groups, tenant, id);
            FindGroup(after, tenant, id) == if p < pos then p else if p == pos then |after| else p - 1
  {
    var after, p := groups[..pos] + groups[pos + 1..], FindGroup(groups, tenant, id);
    assert forall k :: 0 <= k < |after| ==> after[k] == groups[if k < pos then k else k + 1];
    assert forall k :: 0 <= k < |groups| && k != p && p < |groups| ==> GroupId(groups[k]) != GroupId(groups[p]);
    GroupAt(after, tenant, id, if p < pos then p else if p == pos then |after| else p - 1);
  }

  lemma MemberRemoved(members: seq<GroupMember>, pos: nat, tenant: string, id: Uuid)
    requires Unique(MemberId, members) && pos < |members|
    ensures var after, p := members[..pos] + members[pos + 1..], FindMember(members, tenant, id);
            FindMember(after, tenant, id) == if p < pos then p else if p == pos then |after| else p - 1
  {
    var after, p := members[..pos] + members[pos + 1..], FindMember(members, tenant, id);
    assert forall k :: 0 <= k < |after| ==> after[k] == members[if k < pos then k else k + 1];
    assert forall k :: 0 <= k < |members| && k != p && p < |members| ==> MemberId(members[k]) != MemberId(members[p]);
    MemberAt(after, tenant, id, if p < pos then p else if p == pos then |after| else p - 1);
  }

  /** What a lookup finds is a member of the list with that tenant and id; with unique ids the
      only one. */
  lemma MemberFound(file: GroupFile, tenant: string, id: Uuid, m: GroupMember)
    requires Unique(MemberId, file.members)
    ensures MemberOf(file, tenant, id) == Some(m) <==> m in file.members && m.tenant == tenant && m.id == id
    ensures MemberOf(file, tenant, id).None? <==> forall x :: x in file.members ==> !(x.tenant == tenant && x.id == id)
  {
    var p := FindMember(file.members, tenant, id);
    if m in file.members && m.tenant == tenant && m.id == id {
      var i :| 0 <= i < |file.members| && file.members[i] == m;
      assert MemberId(file.members[i]) == id && p <= i;
      assert MemberId(file.members[p]) == id;
    }
  }

  lemma CascadeUnique(members: seq<GroupMember>, groupId: Uuid)
    requires Unique(MemberId, members)
    ensures Unique(MemberId, WithoutGroup(members, groupId))
  {
    CascadeFits(members, groupId);
  }

  lemma GroupGone(groups: seq<Group>, pos: nat, tenant: string, id: Uuid)
    requires Unique(GroupId, groups) && pos < |groups|
    ensures var after, p := groups[..pos] + groups[pos + 1..], FindGroup(groups, tenant, id);
            GroupOf(GroupFile(after, []), tenant, id) ==
            if IsGroup(groups[pos], tenant, id) then None else if p < |groups| then Some(groups[p]) else None
  {
    GroupRemoved(groups, pos, tenant, id);
    var p := FindGroup(groups, tenant, id);
    assert forall k :: 0 <= k < |groups| && k != pos ==> GroupId(groups[k]) != GroupId(groups[pos]);
    assert IsGroup(groups[pos], tenant, id) ==> p == pos;
  }

  /** A known group is deleted, and it alone is missed afterwards; a member is missed exactly when
      it was one of its members. */
  lemma DeleteGroupFinds(file: GroupFile, gone: Uuid, owner: string, tenant: string, id: Uuid)
    requires UniqueIds(file)
    ensures var r := Perform(file, DeleteGroup(owner, gone));
            && (r.Ok? <==> GroupOf(file, owner, gone).Some?)
            && (r.Err? ==> r.error == GroupNotFound(gone))
            && (r.Ok? ==>
                  && GroupOf(r.value, tenant, id) == (if tenant == owner && id == gone then None else GroupOf(file, tenant, id))
                  && MemberOf(r.value, tenant, id) ==
                     (match MemberOf(file, tenant, id)
                      case Some(m) => if m.groupId == gone then None else Some(m)
                      case None => None))
  {
    var pos := FindGroup(file.groups, owner, gone);
    if pos < |file.groups| {
      GroupGone(file.groups, pos, tenant, id);
      CascadeExactly(file.members, gone);
      CascadeUnique(file.members, gone);
      hide WithoutGroup, MemberOf, Unique;
      CascadeFinds(file, Perform(file, DeleteGroup(owner, gone)).value, gone, tenant, id);
    }
  }

  lemma CascadeFinds(file: GroupFile, after: GroupFile, gone: Uuid, tenant: string, id: Uuid)
    requires Unique(MemberId, file.members) && Unique(MemberId, after.members)
    requires forall m :: m in after.members <==> m in file.members && m.groupId != gone
    ensures MemberOf(after, tenant, id) ==
            (match MemberOf(file, tenant, id)
             case Some(m) => if m.groupId == gone then None else Some(m)
             case None => None)
  {
    hide MemberOf;
    match MemberOf(file, tenant, id)
    case Some(m) =>
      MemberFound(file, tenant, id, m);
      MemberFound(after, tenant, id, m);
      forall x | x in after.members && x.tenant == tenant && x.id == id ensures x == m {
        MemberFound(file, tenant, id, x);
      }
    case None =>
      if after.members != [] { MemberFound(after, tenant, id, after.members[0]); }
      if file.members != [] { MemberFound(file, tenant, id, file.members[0]); }
      NothingFound(file, tenant, id);
      NothingFound(after, tenant, id);
  }

  lemma NothingFound(file: GroupFile, tenant: string, id: Uuid)
    ensures MemberOf(file, tenant, id).None? <==> forall x :: x in file.members ==> !(x.tenant == tenant && x.id == id)
  {
    var p := FindMember(file.members, tenant, id);
    if p < |file.members| { assert file.members[p] in file.members; }
  }

  /** A member is added exactly when its group is known, with parallelism and period at least one,
      and then found; nothing that was found before is found otherwise. */
  lemma AddExactly(file: GroupFile, m: GroupMember, tenant: string, id: Uuid)
    ensures var r := Perform(file, AddMember(m));
            && (r.Ok? <==> GroupOf(file, m.tenant, m.groupId).Some?)
            && (r.Err? ==> r.error == GroupNotFound(m.groupId))
            && (r.Ok? ==>
                  && r.value.groups == file.groups
                  && (MemberOf(file, tenant, id).Some? || tenant != m.tenant || id != m.id ==>
                        MemberOf(r.value, tenant, id) == MemberOf(file, tenant, id))
                  && (MemberOf(file, m.tenant, m.id).None? ==>
                        MemberOf(r.value, m.tenant, m.id) ==
                        Some(m.(parallelism := if m.parallelism < 1 then 1 else m.parallelism,
                                periodSecs := if m.periodSecs < 1 then 1 else m.periodSecs))))
  {
    var added := m.(parallelism := AtLeastOne(m.parallelism), periodSecs := AtLeastOne(m.periodSecs));
    MemberAppended(file.members, added, tenant, id);
    MemberAppended(file.members, added, m.tenant, m.id);
  }

  /** After an upsert the newer of stored and given member is found, and every other lookup
      answers as before. */
  lemma UpsertMemberFinds(file: GroupFile, m: GroupMember, tenant: string, id: Uuid)
    ensures var r := Perform(file, UpsertMember(m));
            && r.Ok? && r.value.groups == file.groups
            && MemberOf(r.value, tenant, id) ==
               (if tenant != m.tenant || id != m.id then MemberOf(file, tenant, id)
                else match MemberOf(file, tenant, id)
                  case Some(stored) => if stored.updatedAt > m.updatedAt then Some(stored) else Some(m)
                  case None => Some(m))
  {
    var pos, p := FindMember(file.members, m.tenant, m.id), FindMember(file.members, tenant, id);
    MemberAppended(file.members, m, tenant, id);
    if pos < |file.members| { MemberAt(file.members[pos := m], tenant, id, p); }
  }

  lemma MemberGone(members: seq<GroupMember>, pos: nat, tenant: string, id: Uuid)
    requires Unique(MemberId, members) && pos < |members|
    ensures var after, p := members[..pos] + members[pos + 1..], FindMember(members, tenant, id);
            MemberOf(GroupFile([], after), tenant, id) ==
            if IsMember(members[pos], tenant, id) then None else if p < |members| then Some(members[p]) else None
  {
    MemberRemoved(members, pos, tenant, id);
    var p := FindMember(members, tenant, id);
    assert forall k :: 0 <= k < |members| && k != pos ==> MemberId(members[k]) != MemberId(members[pos]);
    assert IsMember(members[pos], tenant, id) ==> p == pos;
  }

  /** A known member is deleted, and it alone is missed afterwards. */
  lemma DeleteMemberFinds(file: GroupFile, gone: Uuid, owner: string, tenant: string, id: Uuid)
    requires UniqueIds(file)
    ensures var r := Perform(file, DeleteMember(owner, gone));
            && (r.Ok? <==> MemberOf(file, owner, gone).Some?)
            && (r.Err? ==> r.error == MemberNotFound(gone))
            && (r.Ok? ==>
                  && r.value.groups == file.groups
                  && MemberOf(r.value, tenant, id) == (if tenant == owner && id == gone then None else MemberOf(file, tenant, id)))
  {
    var pos := FindMember(file.members, owner, gone);
    if pos < |file.members| { MemberGone(file.members, pos, tenant, id); }
  }
}
