/**
 Joining a course's groups to its group sets through an index from set id to position.
 The lists are those the paging loops have fetched.
 */
module CourseGroups {
  import opened Wrappers

  /** An id in the platform's JSON: a number, a text, null, or not there at all. */
  datatype Id = Absent | Null | Number(n: int) | Text(s: string)

  predicate Truthy(id: Id) {
    match id case Absent => false case Null => false case Number(n) => n != 0 case Text(s) => s != ""
  }

  /** Asking for an id that is not there gives null. */
  function Got(id: Id): Id {
    if id == Absent then Null else id
  }

  datatype Group = Group(id: Id, name: string, setId: Id)

  datatype GroupSet = GroupSet(id: Id, name: string, groups: Option<seq<Group>>)

  // ---- What the join means. ----

  /** The last position at which a set with this id is listed. */
  function LastIndex(sets: seq<GroupSet>, id: Id): Option<nat> {
    if sets == [] then None
    else if sets[|sets| - 1].id == id then Some(|sets| - 1)
    else LastIndex(sets[..|sets| - 1], id)
  }

  /** The set a group belongs to, if its set id is truthy and listed. */
  function HomeOf(sets: seq<GroupSet>, g: Group): Option<nat> {
    if Truthy(g.setId) then LastIndex(sets, g.setId) else None
  }

  /** The groups at home in set `i`, in the order in which they were fetched. */
  function AtHome(sets: seq<GroupSet>, groups: seq<Group>, i: nat): seq<Group> {
    if groups == [] then []
    else
      var earlier, g := AtHome(sets, groups[..|groups| - 1], i), groups[|groups| - 1];
      if HomeOf(sets, g) == Some(i) then earlier + [g] else earlier
  }

  /** The nested-loop join: the groups that name this set id. */
  function WithSetId(groups: seq<Group>, id: Id): seq<Group> {
    if groups == [] then []
    else
      var earlier, g := WithSetId(groups[..|groups| - 1], id), groups[|groups| - 1];
      if Got(g.setId) == id then earlier + [g] else earlier
  }

  ghost predicate Joined(sets: seq<GroupSet>, groups: seq<Group>, r: seq<GroupSet>) {
    && |r| == |sets|
    && forall i :: 0 <= i < |sets| ==> r[i] == sets[i].(groups := Some(AtHome(sets, groups, i)))
  }

  ghost predicate HaveIds(sets: seq<GroupSet>) {
    forall i :: 0 <= i < |sets| ==> sets[i].id != Absent
  }

  lemma {:induction false} LastIndexIs(sets: seq<GroupSet>, id: Id)
    ensures LastIndex(sets, id).None? <==> forall i :: 0 <= i < |sets| ==> sets[i].id != id
    ensures var at := LastIndex(sets, id);
            at.Some? ==> at.value < |sets| && sets[at.value].id == id && forall j :: at.value < j < |sets| ==>
              sets[j].id != id
  {
    if sets != [] { LastIndexIs(sets[..|sets| - 1], id); }
  }

  // ---- The join as the service performs it. ----

  /**
   The sets, with their groups when asked for. The groups are fetched only when there are sets to fill;
   None for `groups` stands for a fetch that raises, and None for the result for an exception.
   */
  method GetSets(fetched: seq<GroupSet>, includeGroups: bool, groups: Option<seq<Group>>)
    returns (r: Option<seq<GroupSet>>)
    ensures !includeGroups || fetched == [] ==> r == Some(fetched)
    ensures includeGroups && fetched != [] ==>
              && (r.Some? <==> (forall i :: 0 <= i < |fetched| ==> fetched[i].id != Absent) && groups.Some?)
              && (r.Some? ==> Joined(fetched, groups.value, r.value))
  {
    var sets := fetched;
    if includeGroups && sets != [] {
      var setIdToIndex: map<Id, nat> := map[];
      for i := 0 to |sets|
        invariant |sets| == |fetched| && HaveIds(fetched[..i])
        invariant forall j :: 0 <= j < |sets| ==> sets[j] == if j < i then fetched[j].(groups := Some([]))
                    else fetched[j]
        invariant forall id :: id in setIdToIndex <==> LastIndex(fetched[..i], id).Some?
        invariant forall id :: id in setIdToIndex ==> LastIndex(fetched[..i], id) == Some(setIdToIndex[id])
      {
        assert fetched[..i + 1][..i] == fetched[..i];
        if sets[i].id == Absent { return None; }
        setIdToIndex := setIdToIndex[sets[i].id := i];
        sets := sets[i := sets[i].(groups := Some([]))];
      }
      assert fetched[..|sets|] == fetched;
      if groups.None? { return None; }
      for k := 0 to |groups.value|
        invariant Joined(fetched, groups.value[..k], sets)
      {
        var g := groups.value[k];
        assert groups.value[..k + 1][..k] == groups.value[..k];
        if Truthy(g.setId) && g.setId in setIdToIndex {
          var at := setIdToIndex[g.setId];
          LastIndexIs(fetched, g.setId);
          sets := sets[at := sets[at].(groups := Some(sets[at].groups.value + [g]))];
        }
      }
      assert groups.value[..|groups.value|] == groups.value;
    }
    return Some(sets);
  }

  // ---- What the join promises. ----

  /** An id that names nothing: not there, null, zero, or the empty text. */
  ghost predicate NamesNothing(id: Id) {
    id == Absent || id == Null || id == Number(0) || id == Text("")
  }

  /** Every group occurs in its home set as often as it was fetched, and in no other set. */
  lemma {:induction false} EachGroupGoesHome(sets: seq<GroupSet>, groups: seq<Group>, i: nat, g: Group)
    ensures multiset(AtHome(sets, groups, i))[g] == if HomeOf(sets, g) == Some(i) then multiset(groups)[g] else 0
  {
    if groups != [] {
      EachGroupGoesHome(sets, groups[..|groups| - 1], i, g);
      assert groups == groups[..|groups| - 1] + [groups[|groups| - 1]];
    }
  }

  /** The home of a group is the last set with the group's set id, whenever that is truthy and listed. */
  lemma HomeIsLastNamed(sets: seq<GroupSet>, g: Group)
    ensures HomeOf(sets, g).Some? <==> !NamesNothing(g.setId) && exists i :: 0 <= i < |sets| && sets[i].id == g.setId
    ensures forall i: nat :: HomeOf(sets, g) == Some(i) ==>
              i < |sets| && sets[i].id == g.setId && forall j :: i < j < |sets| ==> sets[j].id != g.setId
  {
    LastIndexIs(sets, g.setId);
  }

  function Sizes(sets: seq<GroupSet>, groups: seq<Group>, n: nat): nat {
    if n == 0 then 0 else Sizes(sets, groups, n - 1) + |AtHome(sets, groups, n - 1)|
  }

  function Housed(sets: seq<GroupSet>, groups: seq<Group>): nat {
    if groups == [] then 0
    else Housed(sets, groups[..|groups| - 1]) + (if HomeOf(sets, groups[|groups| - 1]).Some? then 1 else 0)
  }

  lemma {:induction false} SizesOfNone(sets: seq<GroupSet>, n: nat)
    ensures Sizes(sets, [], n) == 0
  {
    if n > 0 { SizesOfNone(sets, n - 1); }
  }

  lemma {:induction false} SizesGrow(sets: seq<GroupSet>, groups: seq<Group>, g: Group, n: nat)
    ensures Sizes(sets, groups + [g], n) ==
            Sizes(sets, groups, n) + (if HomeOf(sets, g).Some? && HomeOf(sets, g).value < n then 1 else 0)
  {
    if n > 0 {
      SizesGrow(sets, groups, g, n - 1);
      assert (groups + [g])[..|groups + [g]| - 1] == groups;
    }
  }

  /** Nothing is lost or doubled: the sets together hold as many groups as have a home. */
  lemma {:induction false} GroupsAreConserved(sets: seq<GroupSet>, groups: seq<Group>)
    ensures Sizes(sets, groups, |sets|) == Housed(sets, groups)
  {
    if groups == [] {
      SizesOfNone(sets, |sets|);
    } else {
      var front, g := groups[..|groups| - 1], groups[|groups| - 1];
      GroupsAreConserved(sets, front);
      assert groups == front + [g];
      SizesGrow(sets, front, g, |sets|);
      HomeIsLastNamed(sets, g);
    }
  }

  /** A group names this id; a group without a set id names null. */
  ghost predicate Named(groups: seq<Group>, id: Id) {
    exists k :: 0 <= k < |groups| && groups[k].setId in (if id == Null then {Null, Absent} else {id} - {Absent})
  }

  /** No later set has the id of set `i`, as when all ids are distinct. */
  ghost predicate LastOfItsId(sets: seq<GroupSet>, i: nat) {
    i < |sets| && forall j :: i < j < |sets| ==> sets[j].id != sets[i].id
  }

  /**
   The groups of a set that is the last of its id are those that name its id, in order, exactly when its id names
   something or no group names it: a set whose id is 0, null or the empty text gets no groups at all.
   */
  lemma {:induction false} IndexJoinIsNestedLoopJoin(sets: seq<GroupSet>, groups: seq<Group>, i: nat)
    requires LastOfItsId(sets, i)
    ensures AtHome(sets, groups, i) == WithSetId(groups, sets[i].id) <==>
            !NamesNothing(sets[i].id) || !Named(groups, sets[i].id)
    ensures NamesNothing(sets[i].id) ==> AtHome(sets, groups, i) == []
  {
    if groups != [] {
      var front, g := groups[..|groups| - 1], groups[|groups| - 1];
      IndexJoinIsNestedLoopJoin(sets, front, i);
      assert groups == front + [g];
      HomeIsLastNamed(sets, g);
      if g.setId == sets[i].id && !NamesNothing(g.setId) {
        assert HomeOf(sets, g) == Some(i);
      }
      if NamesNothing(sets[i].id) { FalsyNames(groups, sets[i].id); }
    }
  }

  /** A set whose id a later set has as well gets no groups. */
  lemma {:induction false} EarlierNamesakesGetNothing(sets: seq<GroupSet>, groups: seq<Group>, i: nat)
    requires i < |sets| && !LastOfItsId(sets, i)
    ensures AtHome(sets, groups, i) == []
  {
    if groups != [] {
      EarlierNamesakesGetNothing(sets, groups[..|groups| - 1], i);
      HomeIsLastNamed(sets, groups[|groups| - 1]);
    }
  }

  lemma {:induction false} FalsyNames(groups: seq<Group>, id: Id)
    ensures WithSetId(groups, id) == [] <==> !Named(groups, id)
  {
    if groups != [] {
      FalsyNames(groups[..|groups| - 1], id);
    }
  }
}
