/**
 * Action-group expansion (ActionGroupHolder): a group table maps a group
 * name to its member list; a member is either the name of another group,
 * expanded recursively, or an action pattern, kept verbatim.
 *
 * The expansion carries the set of group names currently being expanded
 * (`path`). A member naming a group already on the path contributes
 * nothing, so the expansion terminates on every table; on an acyclic table
 * the guard never fires and the expansion satisfies the source's recursive
 * equation (GroupUnfolds).
 */
module ActionGroups {
  import opened Wrappers
  import Strings
  import opened Settings

  /** The action-group configuration section: group name -> its member setting. */
  type GroupTable = map<string, Setting>

  /** `actionGroups.getAsArray(entry)`: an unknown name has no members. */
  function Members(t: GroupTable, name: string): seq<string> {
    if name in t then AsArray(t[name]) else []
  }

  /** Union of the expansions of the members `ms`, folded from the left as the source's loop does. */
  function ExpandList(t: GroupTable, ms: seq<string>, path: set<string>): (r: set<string>)
    ensures forall x :: x in r ==> x !in t
    decreases t.Keys - path, |ms|, 1
  {
    if ms == [] then {}
    else ExpandList(t, ms[..|ms| - 1], path) + ExpandMember(t, ms[|ms| - 1], path)
  }

  /** One member: a group name is expanded (unless already on the path), anything else is kept. */
  function ExpandMember(t: GroupTable, m: string, path: set<string>): (r: set<string>)
    ensures forall x :: x in r ==> x !in t
    decreases t.Keys - path, 0, 0
  {
    if m !in t then {m}
    else if m in path then {}
    else ExpandList(t, Members(t, m), path + {m})
  }

  /** `getGroupMembers(name)`: a missing configuration yields the empty set. */
  function GroupMembers(config: Option<GroupTable>, name: string): (r: set<string>)
    ensures config.None? ==> r == {}
    ensures config.Some? && name !in config.value ==> r == {}
    ensures config.Some? ==> forall x :: x in r ==> x !in config.value
  {
    match config
    case None => {}
    case Some(t) => ExpandList(t, Members(t, name), {name})
  }

  /** `getGroupMembers`: the null guard, then the recursive `resolve`. */
  method GetGroupMembers(config: Option<GroupTable>, name: string) returns (r: set<string>)
    ensures r == GroupMembers(config, name)
    ensures config.None? ==> r == {}
    ensures config.Some? && name !in config.value ==> r == {}
    ensures config.Some? ==> forall x :: x in r ==> x !in config.value
  {
    if config.None? {
      return {};
    }
    r := Resolve(config.value, name, {name});
  }

  /** `resolve(actionGroups, entry)`: accumulate the members' expansions into a fresh set. */
  method Resolve(t: GroupTable, entry: string, path: set<string>) returns (ret: set<string>)
    ensures ret == ExpandList(t, Members(t, entry), path)
    decreases t.Keys - path
  {
    ret := {};
    var en := Members(t, entry);
    for i := 0 to |en|
      invariant ret == ExpandList(t, en[..i], path)
    {
      var member := en[i];
      ExpandListStep(t, en, i, path);
      if member in t {
        if member !in path {
          var sub := Resolve(t, member, path + {member});
          ret := ret + sub;
        }
      } else {
        ret := ret + {member};
      }
    }
    assert en[..|en|] == en;
  }

  /** One more member of the list adds that member's expansion. */
  lemma ExpandListStep(t: GroupTable, ms: seq<string>, i: nat, path: set<string>)
    requires i < |ms|
    ensures ExpandList(t, ms[..i + 1], path) == ExpandList(t, ms[..i], path) + ExpandMember(t, ms[i], path)
  {
    assert ms[..i + 1][..i] == ms[..i];
  }

  /** A value is in the expansion of a list iff it is in the expansion of one of its members. */
  lemma {:induction false} ExpandListMembership(t: GroupTable, ms: seq<string>, path: set<string>, x: string)
    ensures x in ExpandList(t, ms, path) <==> exists i :: 0 <= i < |ms| && x in ExpandMember(t, ms[i], path)
    decreases |ms|
  {
    if ms != [] {
      var init := ms[..|ms| - 1];
      ExpandListMembership(t, init, path, x);
      assert forall i :: 0 <= i < |init| ==> init[i] == ms[i];
    }
  }

  /** The expansion depends only on which members are listed, not on their order or repetitions. */
  lemma ExpandListIgnoresOrder(t: GroupTable, ms1: seq<string>, ms2: seq<string>, path: set<string>)
    requires forall m :: m in ms1 <==> m in ms2
    ensures ExpandList(t, ms1, path) == ExpandList(t, ms2, path)
  {
    forall x ensures x in ExpandList(t, ms1, path) <==> x in ExpandList(t, ms2, path) {
      ExpandListMembership(t, ms1, path, x);
      ExpandListMembership(t, ms2, path, x);
      if x in ExpandList(t, ms1, path) {
        var i :| 0 <= i < |ms1| && x in ExpandMember(t, ms1[i], path);
        assert ms1[i] in ms2;
        var j :| 0 <= j < |ms2| && ms2[j] == ms1[i];
      }
      if x in ExpandList(t, ms2, path) {
        var j :| 0 <= j < |ms2| && x in ExpandMember(t, ms2[j], path);
        assert ms2[j] in ms1;
        var i :| 0 <= i < |ms1| && ms1[i] == ms2[j];
      }
    }
  }

  /** A member that is not a group name is added to the group's expansion verbatim. */
  lemma LeafMemberKept(t: GroupTable, name: string, m: string)
    requires m in Members(t, name) && m !in t
    ensures m in GroupMembers(Some(t), name)
  {
    var i :| 0 <= i < |Members(t, name)| && Members(t, name)[i] == m;
    ExpandListMembership(t, Members(t, name), {name}, m);
  }

  /**
   * A rank that strictly decreases from every group to each of its members
   * that is itself a group: a witness that the table has no cycle.
   */
  ghost predicate Ranked(t: GroupTable, rank: map<string, nat>) {
    && t.Keys <= rank.Keys
    && forall g, i :: g in t && 0 <= i < |Members(t, g)| && Members(t, g)[i] in t ==> rank[Members(t, g)[i]] < rank[g]
  }

  /** On a ranked table, any two paths made of names ranked at least `bound` give the same expansion. */
  lemma {:induction false} PathIrrelevant(t: GroupTable, rank: map<string, nat>, ms: seq<string>, bound: nat,
                                          p1: set<string>, p2: set<string>)
    requires Ranked(t, rank)
    requires forall i :: 0 <= i < |ms| && ms[i] in t ==> rank[ms[i]] < bound
    requires forall q :: q in p1 && q in t ==> rank[q] >= bound
    requires forall q :: q in p2 && q in t ==> rank[q] >= bound
    ensures ExpandList(t, ms, p1) == ExpandList(t, ms, p2)
    decreases bound, |ms|
  {
    if ms != [] {
      var init, m := ms[..|ms| - 1], ms[|ms| - 1];
      assert forall i :: 0 <= i < |init| ==> init[i] == ms[i];
      PathIrrelevant(t, rank, init, bound, p1, p2);
      if m in t {
        assert m !in p1 && m !in p2;
        var r := rank[m];
        assert forall i :: 0 <= i < |Members(t, m)| && Members(t, m)[i] in t ==> rank[Members(t, m)[i]] < r;
        PathIrrelevant(t, rank, Members(t, m), r, p1 + {m}, p2 + {m});
      }
    }
  }

  /**
   * On an acyclic table the expansion of a group is exactly what the
   * source's recursion computes: the union, over its members, of the
   * member's own expansion when it names a group and of the member itself
   * otherwise.
   */
  lemma GroupUnfolds(t: GroupTable, rank: map<string, nat>, name: string, x: string)
    requires Ranked(t, rank)
    ensures x in GroupMembers(Some(t), name)
        <==> exists m :: m in Members(t, name) && (if m in t then x in GroupMembers(Some(t), m) else x == m)
  {
    var ms := Members(t, name);
    ExpandListMembership(t, ms, {name}, x);
    if name in t {
      forall i | 0 <= i < |ms| && ms[i] in t
        ensures ExpandMember(t, ms[i], {name}) == GroupMembers(Some(t), ms[i])
      {
        var m := ms[i];
        assert rank[m] < rank[name];
        assert forall j :: 0 <= j < |Members(t, m)| && Members(t, m)[j] in t ==> rank[Members(t, m)[j]] < rank[m];
        PathIrrelevant(t, rank, Members(t, m), rank[m], {name} + {m}, {m});
      }
      if x in GroupMembers(Some(t), name) {
        var i :| 0 <= i < |ms| && x in ExpandMember(t, ms[i], {name});
        assert ms[i] in ms;
      }
      if exists m :: m in ms && (if m in t then x in GroupMembers(Some(t), m) else x == m) {
        var m :| m in ms && (if m in t then x in GroupMembers(Some(t), m) else x == m);
        var i :| 0 <= i < |ms| && ms[i] == m;
      }
    }
  }

  /**
   * The source's `resolve` as written: no guard against revisiting a group.
   * `fuel` stands for the available stack depth; None is the stack overflow
   * that an exhausted depth produces.
   */
  function ResolveAsWritten(t: GroupTable, entry: string, fuel: nat): (r: Option<set<string>>)
    ensures r.Some? ==> forall x :: x in r.value ==> x !in t
    decreases fuel, 1, 0
  {
    if fuel == 0 then None else ResolveListAsWritten(t, Members(t, entry), fuel - 1)
  }

  /** The loop of the unguarded `resolve` over a member list; whatever it returns names no group. */
  function ResolveListAsWritten(t: GroupTable, ms: seq<string>, fuel: nat): (r: Option<set<string>>)
    ensures r.Some? ==> forall x :: x in r.value ==> x !in t
    decreases fuel + 1, 0, |ms|
  {
    if ms == [] then Some({})
    else
      match ResolveListAsWritten(t, ms[..|ms| - 1], fuel)
      case None => None
      case Some(acc) =>
        var m := ms[|ms| - 1];
        if m in t then
          match ResolveAsWritten(t, m, fuel)
          case None => None
          case Some(sub) => Some(acc + sub)
        else Some(acc + {m})
  }

  /** A group that lists itself exhausts any stack depth under the unguarded recursion. */
  lemma {:induction false} SelfMemberOverflows(fuel: nat)
    ensures ResolveAsWritten(map["A" := Array(["A"])], "A", fuel) == None
    decreases fuel
  {
    var t := map["A" := Array(["A"])];
    if fuel > 0 {
      TrimmedArrayKept(["A"]);
      assert Members(t, "A") == ["A"];
      assert ["A"][..0] == [];
      SelfMemberOverflows(fuel - 1);
    }
  }

  /** A table whose one group `A` lists itself and one action. */
  const SELF_LISTING: GroupTable := map["A" := Array(["A", "indices:data/read*"])]

  /** The members of `A` in that table, as stored. */
  lemma SelfListingMembers()
    ensures Members(SELF_LISTING, "A") == ["A", "indices:data/read*"]
  {
    var ms := ["A", "indices:data/read*"];
    assert Strings.Trimmed(ms[0]);
    assert Strings.Trimmed(ms[1]) by {
      assert ms[1][0] == 'i' && ms[1][|ms[1]| - 1] == '*';
    }
    TrimmedArrayKept(ms);
  }

  /** The guarded expansion of the same table terminates; the self-reference contributes nothing. */
  lemma SelfMemberGuarded()
    ensures GroupMembers(Some(SELF_LISTING), "A") == {"indices:data/read*"}
  {
    var t := SELF_LISTING;
    var ms := ["A", "indices:data/read*"];
    SelfListingMembers();
    assert ms[..1] == ["A"] && ms[..1][..0] == [];
    assert ExpandMember(t, "A", {"A"}) == {};
    assert "indices:data/read*" !in t;
    assert ExpandMember(t, "indices:data/read*", {"A"}) == {"indices:data/read*"};
    assert ExpandList(t, ms[..1], {"A"}) == {};
    assert ExpandList(t, ms, {"A"}) == ExpandList(t, ms[..1], {"A"}) + ExpandMember(t, ms[1], {"A"});
  }
}
