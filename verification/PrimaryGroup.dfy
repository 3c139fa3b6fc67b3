/** Group priorities and the primary group of a device. */
module PrimaryGroup {
  import opened Common

  /** One item of the group file; a field is None when its key is missing. */
  datatype Group = Group(name: Option<string>, priority: Option<int>, regex: Option<string>)

  type Matcher = (string, string) -> bool

  const DEFAULT := "DEFAULT"

  /** A named group with a priority other than zero. */
  predicate Prioritized(g: Group) { g.name.Some? && g.priority.Some? && g.priority.value != 0 }

  predicate Matching(g: Group, host: string, matches: Matcher) { g.regex.Some? && matches(g.regex.value, host) }

  // --------------------------------------------------------------------- priorities

  datatype PriorityError = PriorityError(first: string, second: string, priority: int)

  ghost predicate Collide(groups: seq<Group>, i: int, j: int) {
    && 0 <= i < j < |groups|
    && Prioritized(groups[i]) && Prioritized(groups[j]) && groups[i].priority == groups[j].priority
  }

  ghost predicate NoCollisions(groups: seq<Group>) { forall i, j :: !Collide(groups, i, j) }

  lemma OneMore(groups: seq<Group>, k: nat)
    requires k < |groups| && NoCollisions(groups[..k]) && forall i :: !Collide(groups, i, k)
    ensures NoCollisions(groups[..k + 1])
  {
    var next := groups[..k + 1];
    forall i, j ensures !Collide(next, i, j) {
      assert !Collide(groups[..k], i, j) && !Collide(groups, i, k);
    }
  }

  method CheckGroupPriorityCollisions(groups: seq<Group>) returns (r: Result<(), PriorityError>)
    ensures r.Ok? <==>
            forall i, j :: 0 <= i < j < |groups| && groups[i].name.Some? && groups[j].name.Some?
                           && groups[i].priority.Some? && groups[i].priority == groups[j].priority
                           ==> groups[i].priority == Some(0)
    ensures r.Ok? <==> NoCollisions(groups)
    ensures r.Err? ==> exists i, j :: Collide(groups, i, j) && NoCollisions(groups[..j])
                         && r.error == PriorityError(groups[i].name.value, groups[j].name.value,
                                                     groups[j].priority.value)
  {
    var priorities: map<int, string> := map[];
    for k := 0 to |groups|
      invariant NoCollisions(groups[..k])
      invariant forall i :: 0 <= i < k && Prioritized(groups[i]) ==> groups[i].priority.value in priorities
      invariant forall p :: p in priorities ==>
                  exists i :: && 0 <= i < k && Prioritized(groups[i])
                              && groups[i].priority.value == p && groups[i].name.value == priorities[p]
    {
      var g := groups[k];
      if g.name.None? || g.priority.None? || g.priority.value == 0 {
        OneMore(groups, k);
        continue;
      }
      if g.priority.value in priorities {
        ghost var i :| 0 <= i < k && Prioritized(groups[i]) && groups[i].priority == g.priority
                       && groups[i].name.value == priorities[g.priority.value];
        assert Collide(groups, i, k);
        CollisionsIff(groups);
        return Err(PriorityError(priorities[g.priority.value], g.name.value, g.priority.value));
      }
      OneMore(groups, k);
      priorities := priorities[g.priority.value := g.name.value];
    }
    assert groups[..|groups|] == groups;
    CollisionsIff(groups);
    return Ok(());
  }

  /** No two named groups share a priority other than zero. */
  lemma CollisionsIff(groups: seq<Group>)
    ensures NoCollisions(groups) <==>
            forall i, j :: 0 <= i < j < |groups| && groups[i].name.Some? && groups[j].name.Some?
                           && groups[i].priority.Some? && groups[i].priority == groups[j].priority
                           ==> groups[i].priority == Some(0)
  {
    if i, j :| && 0 <= i < j < |groups| && groups[i].name.Some? && groups[j].name.Some?
               && groups[i].priority.Some? && groups[i].priority == groups[j].priority
               && groups[i].priority != Some(0)
    {
      assert Collide(groups, i, j);
    }
  }

  predicate Chosen(g: Group, host: Option<string>, matches: Matcher) {
    Prioritized(g) && (host in {None, Some("")} || Matching(g, host.value, matches))
  }

  /** Each name has the priority of the last chosen group of that name. */
  ghost predicate IsPriorities(r: map<string, int>, groups: seq<Group>, host: Option<string>, matches: Matcher) {
    && (forall i :: 0 <= i < |groups| && Chosen(groups[i], host, matches) ==> groups[i].name.value in r)
    && (forall n :: n in r ==> exists i :: IsLast(groups, i, n, r[n], host, matches))
  }

  ghost predicate IsLast(groups: seq<Group>, i: int, n: string, p: int, host: Option<string>, matches: Matcher) {
    && 0 <= i < |groups| && Chosen(groups[i], host, matches)
    && groups[i].name.value == n && groups[i].priority.value == p
    && forall j :: i < j < |groups| && Chosen(groups[j], host, matches) ==> groups[j].name.value != n
  }

  /** A named group with a priority other than zero, whose regex matches the host if one is given. */
  predicate Counts(g: Group, host: Option<string>, matches: Matcher) {
    && g.name.Some? && g.priority.Some? && g.priority.value != 0
    && (host == None || host == Some("") || (g.regex.Some? && matches(g.regex.value, host.value)))
  }

  method GetGroupsPriorities(groups: seq<Group>, host: Option<string>, matches: Matcher) returns (r: map<string, int>)
    ensures IsPriorities(r, groups, host, matches)
    ensures forall i :: 0 <= i < |groups| && Counts(groups[i], host, matches)
                        && (forall j :: i < j < |groups| && Counts(groups[j], host, matches) ==>
                              groups[j].name != groups[i].name)
                        ==> groups[i].name.value in r && r[groups[i].name.value] == groups[i].priority.value
    ensures forall n :: n in r ==> exists i :: 0 <= i < |groups| && Counts(groups[i], host, matches)
                                               && groups[i].name == Some(n) && groups[i].priority == Some(r[n])
  {
    r := map[];
    for k := 0 to |groups|
      invariant IsPriorities(r, groups[..k], host, matches)
    {
      var g := groups[k];
      ghost var was := r;
      var skip := true;
      if g.name.None? {
      } else if g.priority.None? || g.priority.value == 0 {
      } else if host.Some? && host.value != "" && g.regex.None? {
      } else if host.Some? && host.value != "" && !matches(g.regex.value, host.value) {
      } else {
        r := r[g.name.value := g.priority.value];
        skip := false;
      }
      assert skip <==> !Chosen(g, host, matches);
      NextPriority(was, groups, k, host, matches);
    }
    assert groups[..|groups|] == groups;
  }

  lemma NextPriority(r: map<string, int>, groups: seq<Group>, k: nat, host: Option<string>, matches: Matcher)
    requires k < |groups| && IsPriorities(r, groups[..k], host, matches)
    ensures var g := groups[k];
            IsPriorities(if Chosen(g, host, matches) then r[g.name.value := g.priority.value] else r,
                         groups[..k + 1], host, matches)
  {
    var g, front, all := groups[k], groups[..k], groups[..k + 1];
    var next := if Chosen(g, host, matches) then r[g.name.value := g.priority.value] else r;
    assert all == front + [g];
    forall i | 0 <= i < |all| && Chosen(all[i], host, matches) ensures all[i].name.value in next {
      if i < k { assert front[i].name.value in r; }
    }
    forall n | n in next ensures exists i :: IsLast(all, i, n, next[n], host, matches) {
      if Chosen(g, host, matches) && n == g.name.value {
        assert IsLast(all, k, n, next[n], host, matches);
      } else {
        StillLast(front, g, host, matches, r, n);
      }
    }
  }

  /** A name that is not that of the next group keeps the group it has its priority from. */
  lemma StillLast(front: seq<Group>, g: Group, host: Option<string>, matches: Matcher, r: map<string, int>, n: string)
    requires IsPriorities(r, front, host, matches) && n in r
    requires Chosen(g, host, matches) ==> g.name.value != n
    ensures exists i :: IsLast(front + [g], i, n, r[n], host, matches)
  {
    var i :| IsLast(front, i, n, r[n], host, matches);
    assert forall j :: 0 <= j < |front| ==> (front + [g])[j] == front[j];
    assert IsLast(front + [g], i, n, r[n], host, matches);
  }

  /** The names of the groups whose regex matches, in file order. */
  function MemberNames(groups: seq<Group>, host: string, matches: Matcher): seq<string> {
    if groups == [] then []
    else
      var g := groups[|groups| - 1];
      MemberNames(groups[..|groups| - 1], host, matches)
      + (if g.name.Some? && (host == "" || Matching(g, host, matches)) then [g.name.value] else [])
  }

  method GetGroups(groups: seq<Group>, host: string, matches: Matcher) returns (r: seq<string>)
    ensures r == MemberNames(groups, host, matches)
  {
    r := [];
    for k := 0 to |groups|
      invariant r == MemberNames(groups[..k], host, matches)
    {
      assert groups[..k + 1][..k] == groups[..k];
      if groups[k].name.None? { continue; }
      if host != "" {
        if groups[k].regex.None? || !matches(groups[k].regex.value, host) { continue; }
      }
      r := r + [groups[k].name.value];
    }
    assert groups[..|groups|] == groups;
  }

  /** A group with a name and, where a host is given, a regex that matches it. */
  predicate Has(g: Group, host: string, matches: Matcher) {
    g.name.Some? && (host == "" || (g.regex.Some? && matches(g.regex.value, host)))
  }

  /** at lists, in order, exactly the positions of the groups that have the host. */
  ghost predicate ListsMembers(groups: seq<Group>, host: string, matches: Matcher, names: seq<string>, at: seq<nat>) {
    && |names| == |at|
    && (forall i, j :: 0 <= i < j < |at| ==> at[i] < at[j])
    && (forall i :: 0 <= i < |at| ==> at[i] < |groups| && groups[at[i]].name == Some(names[i]))
    && (forall k: nat :: k in at <==> k < |groups| && Has(groups[k], host, matches))
  }

  lemma NextMember(groups: seq<Group>, g: Group, host: string, matches: Matcher, names: seq<string>, at: seq<nat>)
    requires ListsMembers(groups, host, matches, names, at)
    ensures if Has(g, host, matches)
            then ListsMembers(groups + [g], host, matches, names + [g.name.value], at + [|groups|])
            else ListsMembers(groups + [g], host, matches, names, at)
  {
    assert forall i :: 0 <= i < |at| ==> at[i] in at;
    assert forall k: nat :: k in at + [|groups|] <==> k in at || k == |groups|;
  }

  /** The groups of a host come in the order of the file; without a host all that have a name do. */
  lemma {:induction false} MembersInOrder(groups: seq<Group>, host: string, matches: Matcher) returns (at: seq<nat>)
    ensures ListsMembers(groups, host, matches, MemberNames(groups, host, matches), at)
  {
    at := [];
    if groups != [] {
      var front, g := groups[..|groups| - 1], groups[|groups| - 1];
      at := MembersInOrder(front, host, matches);
      NextMember(front, g, host, matches, MemberNames(front, host, matches), at);
      assert groups == front + [g];
      if Has(g, host, matches) { at := at + [|front|]; }
    }
  }

  lemma MemberIff(groups: seq<Group>, host: string, matches: Matcher, n: string)
    requires host != ""
    ensures n in MemberNames(groups, host, matches)
            <==> exists i :: 0 <= i < |groups| && groups[i].name == Some(n) && Matching(groups[i], host, matches)
  {
    var at := MembersInOrder(groups, host, matches);
    var names := MemberNames(groups, host, matches);
    if n in names {
      var i :| 0 <= i < |names| && names[i] == n;
      assert at[i] in at;
    }
    if k: nat :| k < |groups| && groups[k].name == Some(n) && Matching(groups[k], host, matches) {
      var i :| 0 <= i < |at| && at[i] == k;
      assert names[i] == n;
    }
  }

  // ------------------------------------------------------------------- primary group

  /** What sorting the priorities from highest to lowest can return. */
  ghost predicate IsSorted(order: seq<string>, priorities: map<string, int>) {
    && (forall n :: n in order <==> n in priorities)
    && (forall i, j :: 0 <= i < j < |order| ==> order[i] != order[j] && priorities[order[i]] >= priorities[order[j]])
  }

  method FindPrimaryGroup(secondary: seq<string>, order: seq<string>) returns (r: string)
    ensures (exists i :: 0 <= i < |order| && order[i] in secondary) ==>
              exists i :: 0 <= i < |order| && r == order[i] && r in secondary
                          && forall j :: 0 <= j < i ==> order[j] !in secondary
    ensures (forall i :: 0 <= i < |order| ==> order[i] !in secondary) ==> r == "DEFAULT"
  {
    for i := 0 to |order|
      invariant forall k :: 0 <= k < i ==> order[k] !in secondary
    {
      for j := 0 to |secondary|
        invariant order[i] !in secondary[..j]
      {
        if order[i] == secondary[j] { return order[i]; }
        assert secondary[..j + 1] == secondary[..j] + [secondary[j]];
      }
      assert secondary[..|secondary|] == secondary;
    }
    return DEFAULT;
  }

  ghost predicate UniqueNames(groups: seq<Group>) {
    forall i, j :: 0 <= i < j < |groups| && groups[i].name.Some? ==> groups[i].name != groups[j].name
  }

  ghost function AsSet(groups: seq<Group>): set<Group> { set g | g in groups }

  /** The group the host belongs to with the greatest priority, or DEFAULT if none of them has one. */
  ghost predicate IsPrimary(r: string, groups: set<Group>, host: string, matches: Matcher) {
    if exists g :: Candidate(g, groups, host, matches)
    then exists g :: Candidate(g, groups, host, matches) && r == g.name.value
                     && forall f :: Candidate(f, groups, host, matches) && f != g ==>
                                      f.priority.value < g.priority.value
    else r == "DEFAULT"
  }

  ghost predicate Candidate(g: Group, groups: set<Group>, host: string, matches: Matcher) {
    && g in groups && g.name.Some? && g.priority.Some? && g.priority.value != 0
    && g.regex.Some? && matches(g.regex.value, host)
  }

  method PrimaryGroupOf(groups: seq<Group>, order: seq<string>, priorities: map<string, int>, host: string,
                        matches: Matcher)
    returns (r: string)
    requires host != "" && UniqueNames(groups) && NoCollisions(groups)
    requires IsPriorities(priorities, groups, None, matches) && IsSorted(order, priorities)
    ensures IsPrimary(r, AsSet(groups), host, matches)
  {
    var secondary := GetGroups(groups, host, matches);
    r := FindPrimaryGroup(secondary, order);
    FirstIsPrimary(groups, order, priorities, host, matches, r);
  }

  ghost predicate FirstMember(r: string, order: seq<string>, secondary: seq<string>) {
    if exists i :: 0 <= i < |order| && order[i] in secondary
    then exists i :: && 0 <= i < |order| && r == order[i] && r in secondary
                     && forall j :: 0 <= j < i ==> order[j] !in secondary
    else r == DEFAULT
  }

  lemma SameName(groups: seq<Group>, i: nat, j: nat)
    requires UniqueNames(groups) && i < |groups| && j < |groups|
    requires groups[i].name.Some? && groups[i].name == groups[j].name
    ensures i == j
  {
  }

  /** Unique names make a prioritized group the one its name stands for. */
  lemma PriorityOf(groups: seq<Group>, priorities: map<string, int>, matches: Matcher, g: Group)
    requires UniqueNames(groups) && IsPriorities(priorities, groups, None, matches)
    requires g in groups && Prioritized(g)
    ensures g.name.value in priorities && priorities[g.name.value] == g.priority.value
  {
    var i :| 0 <= i < |groups| && groups[i] == g;
    assert Chosen(groups[i], None, matches);
    var n := g.name.value;
    var j :| IsLast(groups, j, n, priorities[n], None, matches);
    SameName(groups, i, j);
  }

  lemma GroupOf(groups: seq<Group>, priorities: map<string, int>, host: string, matches: Matcher, n: string)
    returns (g: Group)
    requires host != "" && UniqueNames(groups) && IsPriorities(priorities, groups, None, matches)
    requires n in priorities && n in MemberNames(groups, host, matches)
    ensures Candidate(g, AsSet(groups), host, matches) && g.name.value == n
  {
    var j :| IsLast(groups, j, n, priorities[n], None, matches);
    MemberIff(groups, host, matches, n);
    var i :| 0 <= i < |groups| && groups[i].name == Some(n) && Matching(groups[i], host, matches);
    SameName(groups, i, j);
    g := groups[i];
  }

  lemma FirstIsPrimary(groups: seq<Group>, order: seq<string>, priorities: map<string, int>, host: string,
                       matches: Matcher, r: string)
    requires host != "" && UniqueNames(groups) && NoCollisions(groups)
    requires IsPriorities(priorities, groups, None, matches) && IsSorted(order, priorities)
    requires FirstMember(r, order, MemberNames(groups, host, matches))
    ensures IsPrimary(r, AsSet(groups), host, matches)
  {
    var all, secondary := AsSet(groups), MemberNames(groups, host, matches);
    forall f | Candidate(f, all, host, matches)
      ensures f.name.value in order && f.name.value in secondary && priorities[f.name.value] == f.priority.value
    {
      PriorityOf(groups, priorities, matches, f);
      MemberIff(groups, host, matches, f.name.value);
    }
    if i :| 0 <= i < |order| && r == order[i] && r in secondary && forall j :: 0 <= j < i ==> order[j] !in secondary {
      FirstIsGreatest(groups, order, priorities, host, matches, i);
    }
  }

  lemma FirstIsGreatest(groups: seq<Group>, order: seq<string>, priorities: map<string, int>, host: string,
                        matches: Matcher, i: nat)
    requires host != "" && UniqueNames(groups) && NoCollisions(groups)
    requires IsPriorities(priorities, groups, None, matches) && IsSorted(order, priorities)
    requires i < |order| && order[i] in MemberNames(groups, host, matches)
    requires forall j :: 0 <= j < i ==> order[j] !in MemberNames(groups, host, matches)
    requires forall f :: Candidate(f, AsSet(groups), host, matches) ==>
                           && f.name.value in order && f.name.value in MemberNames(groups, host, matches)
                           && priorities[f.name.value] == f.priority.value
    ensures IsPrimary(order[i], AsSet(groups), host, matches)
  {
    var g := GroupOf(groups, priorities, host, matches, order[i]);
    PriorityOf(groups, priorities, matches, g);
    forall f | Candidate(f, AsSet(groups), host, matches) && f != g ensures f.priority.value < g.priority.value {
      OtherIsLess(groups, order, priorities, MemberNames(groups, host, matches), i, f, g);
    }
  }

  lemma OtherIsLess(groups: seq<Group>, order: seq<string>, priorities: map<string, int>, secondary: seq<string>,
                    i: nat, f: Group, g: Group)
    requires NoCollisions(groups) && IsSorted(order, priorities) && i < |order|
    requires forall j :: 0 <= j < i ==> order[j] !in secondary
    requires f in groups && g in groups && f != g && Prioritized(f) && Prioritized(g)
    requires f.name.value in order && f.name.value in secondary && order[i] == g.name.value
    requires priorities[f.name.value] == f.priority.value && priorities[g.name.value] == g.priority.value
    ensures f.priority.value < g.priority.value
  {
    DistinctPriorities(groups, f, g);
    LaterIsNotGreater(order, priorities, i, f.name.value, secondary);
  }

  lemma LaterIsNotGreater(order: seq<string>, priorities: map<string, int>, i: nat, n: string, secondary: seq<string>)
    requires IsSorted(order, priorities) && i < |order| && n in order && n in secondary
    requires forall j :: 0 <= j < i ==> order[j] !in secondary
    ensures priorities[n] <= priorities[order[i]]
  {
    var k :| 0 <= k < |order| && order[k] == n;
  }

  lemma DistinctPriorities(groups: seq<Group>, f: Group, g: Group)
    requires NoCollisions(groups) && f in groups && g in groups && f != g && Prioritized(f) && Prioritized(g)
    ensures f.priority != g.priority
  {
    var i :| 0 <= i < |groups| && groups[i] == f;
    var j :| 0 <= j < |groups| && groups[j] == g;
    assert !Collide(groups, i, j) && !Collide(groups, j, i);
  }

  /** The order of the group file does not matter, and there is only one answer. */
  lemma PrimaryIgnoresOrder(a: seq<Group>, b: seq<Group>, host: string, matches: Matcher, r: string, s: string)
    requires AsSet(a) == AsSet(b)
    requires IsPrimary(r, AsSet(a), host, matches) && IsPrimary(s, AsSet(b), host, matches)
    ensures r == s
  {
  }
}
