/**
 * Index-level matching of one role: for each permitted index pattern,
 * fresh copies of the requested indices and types are whittled down by the
 * pattern's type grants; the pattern satisfies the request when both copies
 * end up empty.
 */
module IndexMatching {
  import opened Wrappers
  import opened Wildcard
  import opened ActionGroups
  import opened Configuration
  import opened Actions
  import opened RequestResolution

  /** The reserved keys of an index entry, never treated as types. */
  const DLSFLS: set<string> := {"_dls_", "_fls_"}

  /** The type keys of an index entry. */
  function PermittedTypes(entry: IndexEntry): set<string> {
    entry.Keys - DLSFLS
  }

  /** Type key `k` grants the action for some of the requested types. */
  predicate TypeGrants(groups: Option<GroupTable>, entry: IndexEntry, k: string, action: string, requestedTypes: set<string>) {
    && GetMatchAny(k, requestedTypes) != {}
    && MatchAnyIn(ResolvedActions(groups, GetAsArray(entry, k)), action)
  }

  /** The keys among `keys` that grant the action. */
  function GrantingAmong(groups: Option<GroupTable>, entry: IndexEntry, action: string, requestedTypes: set<string>,
                         keys: set<string>): set<string> {
    set k | k in keys && TypeGrants(groups, entry, k, action, requestedTypes)
  }

  /** The requested types that some granting key matches. */
  function CoveredBy(granting: set<string>, requestedTypes: set<string>): set<string> {
    set x | x in requestedTypes && exists k :: k in granting && Match(k, x)
  }

  /** A non-wildcard pattern's indices: its concrete indices, or the literal name when the cluster does not know it. */
  function PermittedIndices(topo: Topology, pattern: string): set<string> {
    match topo.concrete(pattern)
    case None => {pattern}
    case Some(concrete) => concrete
  }

  /** The requested indices a pattern speaks for. */
  function PatternIndices(topo: Topology, pattern: string, requestedIndices: set<string>): set<string> {
    if ContainsWildcard(pattern) then GetMatchAny(pattern, requestedIndices)
    else requestedIndices * PermittedIndices(topo, pattern)
  }

  /**
   * What one pattern removes from fresh copies of the requested sets: some
   * of the requested indices and types, never the null entry, and nothing
   * at all unless some type key grants the action.
   */
  function Removed(groups: Option<GroupTable>, topo: Topology, pattern: string, entry: IndexEntry, action: string,
                   requested: Requested): (r: Requested)
    ensures !r.nullIndex && r.indices <= requested.indices && r.types <= requested.types
    ensures GrantingAmong(groups, entry, action, requested.types, PermittedTypes(entry)) == {}
            ==> r.indices == {} && r.types == {}
  {
    var granting := GrantingAmong(groups, entry, action, requested.types, PermittedTypes(entry));
    if (ContainsWildcard(pattern) && GetMatchAny(pattern, requested.indices) == {}) || granting == {} then
      Requested({}, {}, false)
    else
      Requested(PatternIndices(topo, pattern, requested.indices), CoveredBy(granting, requested.types), false)
  }

  /**
   * A pattern removes only requested names: with a wildcard, only indices it
   * matches; without one, only its own concrete indices; and only types
   * matched by a type key (never `_dls_` or `_fls_`) that grants the action.
   */
  lemma RemovedWithinRequest(groups: Option<GroupTable>, topo: Topology, pattern: string, entry: IndexEntry,
                             action: string, requested: Requested)
    ensures var r := Removed(groups, topo, pattern, entry, action, requested);
            && (ContainsWildcard(pattern) ==> forall i :: i in r.indices ==> Match(pattern, i))
            && (!ContainsWildcard(pattern) ==> r.indices <= PermittedIndices(topo, pattern))
            && (forall x :: x in r.types ==>
                  exists k :: k in entry && k !in DLSFLS && TypeGrants(groups, entry, k, action, requested.types)
                              && Match(k, x))
  {
  }

  /** An index entry with a single type key that grants the action has exactly that key granting. */
  lemma SingleKeyGranting(groups: Option<GroupTable>, entry: IndexEntry, k: string, action: string,
                          requestedTypes: set<string>)
    requires entry.Keys == {k} && k !in DLSFLS
    requires TypeGrants(groups, entry, k, action, requestedTypes)
    ensures GrantingAmong(groups, entry, action, requestedTypes, PermittedTypes(entry)) == {k}
  {
    assert PermittedTypes(entry) == {k};
  }

  /** A wildcard-free pattern with granting keys removes the requested indices it resolves to and the types they cover. */
  lemma LiteralRemoved(groups: Option<GroupTable>, topo: Topology, pattern: string, entry: IndexEntry, action: string,
                       requested: Requested, granting: set<string>)
    requires !ContainsWildcard(pattern) && granting != {}
    requires GrantingAmong(groups, entry, action, requested.types, PermittedTypes(entry)) == granting
    ensures Removed(groups, topo, pattern, entry, action, requested)
         == Requested(requested.indices * PermittedIndices(topo, pattern), CoveredBy(granting, requested.types), false)
  {
  }

  /**
   * A wildcard-free pattern covers a request without a null entry when its
   * granting keys cover every requested type and its resolved indices
   * include every requested index.
   */
  lemma LiteralCoversRequest(groups: Option<GroupTable>, topo: Topology, pattern: string, entry: IndexEntry,
                             action: string, requested: Requested, granting: set<string>)
    requires !ContainsWildcard(pattern) && granting != {} && !requested.nullIndex
    requires GrantingAmong(groups, entry, action, requested.types, PermittedTypes(entry)) == granting
    requires requested.indices <= PermittedIndices(topo, pattern)
    requires CoveredBy(granting, requested.types) == requested.types
    ensures Removed(groups, topo, pattern, entry, action, requested) == requested
  {
    LiteralRemoved(groups, topo, pattern, entry, action, requested, granting);
    assert requested.indices * PermittedIndices(topo, pattern) == requested.indices;
  }

  /**
   * The pattern alone removes every requested index and every requested
   * type. A null entry stays in the working copy whatever the pattern, so a
   * request holding one is never satisfied; otherwise only a pattern with a
   * granting type key can satisfy it.
   */
  predicate Satisfies(groups: Option<GroupTable>, topo: Topology, pattern: string, entry: IndexEntry, action: string,
                      requested: Requested): (b: bool)
    ensures b ==> !requested.nullIndex
    ensures b && (requested.indices != {} || requested.types != {})
            ==> GrantingAmong(groups, entry, action, requested.types, PermittedTypes(entry)) != {}
  {
    var removed := Removed(groups, topo, pattern, entry, action, requested);
    requested.indices - removed.indices == {} && !requested.nullIndex && requested.types - removed.types == {}
  }

  /** The role's index patterns that satisfy the request. */
  function SatisfyingPatterns(groups: Option<GroupTable>, topo: Topology, permitted: map<string, IndexEntry>,
                              action: string, requested: Requested): (r: set<string>)
    ensures r <= permitted.Keys
  {
    set p | p in permitted && Satisfies(groups, topo, p, permitted[p], action, requested)
  }

  /** Processing one more key adds it to the granting keys exactly when it grants. */
  lemma GrantingStep(groups: Option<GroupTable>, entry: IndexEntry, action: string, requestedTypes: set<string>,
                     done: set<string>, k: string)
    ensures GrantingAmong(groups, entry, action, requestedTypes, done + {k})
         == GrantingAmong(groups, entry, action, requestedTypes, done)
            + (if TypeGrants(groups, entry, k, action, requestedTypes) then {k} else {})
  {
  }

  /** One more granting key covers the requested types it matches. */
  lemma CoveredByAdd(granting: set<string>, k: string, requestedTypes: set<string>)
    ensures CoveredBy(granting + {k}, requestedTypes) == CoveredBy(granting, requestedTypes) + GetMatchAny(k, requestedTypes)
  {
  }

  /**
   * The type loop's invariant: after the keys in `done`, the working copies
   * have lost `indicesToRemove` (once some key granted) and the requested
   * types the granting keys match.
   */
  predicate TypeLoopInvariant(groups: Option<GroupTable>, entry: IndexEntry, action: string,
                              requestedTypes: set<string>, indicesToRemove: set<string>,
                              workIndices: set<string>, workTypes: set<string>,
                              done: set<string>, outIndices: set<string>, outTypes: set<string>)
  {
    var granting := GrantingAmong(groups, entry, action, requestedTypes, done);
    && outIndices == workIndices - (if granting == {} then {} else indicesToRemove)
    && outTypes == workTypes - CoveredBy(granting, requestedTypes)
  }

  /** The test on one type key: it matches some requested type and its expanded actions match the action. */
  method TypeKeyGrants(groups: Option<GroupTable>, entry: IndexEntry, k: string, action: string,
                       requestedTypes: set<string>) returns (grants: bool)
    ensures grants == TypeGrants(groups, entry, k, action, requestedTypes)
  {
    var typeMatches := GetMatchAny(k, requestedTypes);
    if typeMatches == {} {
      return false;
    }
    var resolvedActions := ResolveActions(groups, GetAsArray(entry, k));
    grants := MatchAnyIn(resolvedActions, action);
  }

  /** One iteration of the type loop: a granting key removes the indices and the types it matches. */
  method VisitTypeKey(groups: Option<GroupTable>, action: string, entry: IndexEntry,
                      requestedTypes: set<string>, indicesToRemove: set<string>,
                      workIndices: set<string>, workTypes: set<string>,
                      ghost done: set<string>, outIndices: set<string>, outTypes: set<string>, t: string)
    returns (nextIndices: set<string>, nextTypes: set<string>)
    requires TypeLoopInvariant(groups, entry, action, requestedTypes, indicesToRemove, workIndices, workTypes,
                               done, outIndices, outTypes)
    ensures TypeLoopInvariant(groups, entry, action, requestedTypes, indicesToRemove, workIndices, workTypes,
                              done + {t}, nextIndices, nextTypes)
  {
    ghost var granting := GrantingAmong(groups, entry, action, requestedTypes, done);
    ghost var covered := CoveredBy(granting, requestedTypes);
    assert outIndices == workIndices - (if granting == {} then {} else indicesToRemove);
    assert outTypes == workTypes - covered;
    GrantingStep(groups, entry, action, requestedTypes, done, t);
    var typeMatches := GetMatchAny(t, requestedTypes);
    var grants := TypeKeyGrants(groups, entry, t, action, requestedTypes);
    if grants {
      ghost var granting' := granting + {t};
      assert GrantingAmong(groups, entry, action, requestedTypes, done + {t}) == granting';
      CoveredByAdd(granting, t, requestedTypes);
      RemoveTwice(workIndices, if granting == {} then {} else indicesToRemove, indicesToRemove);
      DifferenceOfUnion(workTypes, covered, typeMatches);
      nextIndices := outIndices - indicesToRemove;
      nextTypes := outTypes - typeMatches;
      assert nextIndices == workIndices - (if granting' == {} then {} else indicesToRemove);
      assert nextTypes == workTypes - CoveredBy(granting', requestedTypes);
    } else {
      nextIndices, nextTypes := outIndices, outTypes;
    }
  }

  /**
   * The type loop shared by both handlers: for each type key that grants the
   * action, remove `indicesToRemove` and the requested types the key
   * matches from the working copies.
   */
  method RemoveGrantedTypes(groups: Option<GroupTable>, action: string, entry: IndexEntry,
                            requestedTypes: set<string>, indicesToRemove: set<string>,
                            workIndices: set<string>, workTypes: set<string>)
    returns (outIndices: set<string>, outTypes: set<string>)
    ensures var granting := GrantingAmong(groups, entry, action, requestedTypes, PermittedTypes(entry));
            && outIndices == workIndices - (if granting == {} then {} else indicesToRemove)
            && outTypes == workTypes - CoveredBy(granting, requestedTypes)
  {
    var permittedTypes := PermittedTypes(entry);
    outIndices, outTypes := workIndices, workTypes;
    var todo := permittedTypes;
    ghost var done: set<string> := {};
    while todo != {}
      invariant todo <= permittedTypes && done == permittedTypes - todo
      invariant TypeLoopInvariant(groups, entry, action, requestedTypes, indicesToRemove, workIndices, workTypes,
                                  done, outIndices, outTypes)
      decreases todo
    {
      var t :| t in todo;
      outIndices, outTypes := VisitTypeKey(groups, action, entry, requestedTypes, indicesToRemove,
                                           workIndices, workTypes, done, outIndices, outTypes, t);
      todo, done := todo - {t}, done + {t};
    }
    assert done == permittedTypes;
  }

  /** `handleIndicesWithWildcard`: only the requested indices the pattern matches can be removed. */
  method HandleIndicesWithWildcard(groups: Option<GroupTable>, action: string, pattern: string, entry: IndexEntry,
                                   requested: Requested, workIndices: set<string>, workTypes: set<string>)
    returns (outIndices: set<string>, outTypes: set<string>)
    requires ContainsWildcard(pattern)
    ensures forall i :: i in workIndices && i !in outIndices ==> i in requested.indices && Match(pattern, i)
    ensures forall topo: Topology ::
              && outIndices == workIndices - Removed(groups, topo, pattern, entry, action, requested).indices
              && outTypes == workTypes - Removed(groups, topo, pattern, entry, action, requested).types
  {
    var wi := GetMatchAny(pattern, requested.indices);
    if wi == {} {
      return workIndices, workTypes;
    }
    outIndices, outTypes := RemoveGrantedTypes(groups, action, entry, requested.types, wi, workIndices, workTypes);
  }

  /** `handleIndicesWithoutWildcard`: only the intersection with the pattern's resolved indices can be removed. */
  method HandleIndicesWithoutWildcard(groups: Option<GroupTable>, topo: Topology, action: string, pattern: string,
                                      entry: IndexEntry, requested: Requested,
                                      workIndices: set<string>, workTypes: set<string>)
    returns (outIndices: set<string>, outTypes: set<string>)
    requires !ContainsWildcard(pattern)
    ensures forall i :: i in workIndices && i !in outIndices ==> i in requested.indices && i in PermittedIndices(topo, pattern)
    ensures var removed := Removed(groups, topo, pattern, entry, action, requested);
            outIndices == workIndices - removed.indices && outTypes == workTypes - removed.types
  {
    var resolvedPermitted: set<string>;
    var concrete := topo.concrete(pattern);
    if concrete.None? {
      resolvedPermitted := {pattern};
    } else {
      resolvedPermitted := concrete.value;
    }
    var inters := requested.indices * resolvedPermitted;
    outIndices, outTypes := RemoveGrantedTypes(groups, action, entry, requested.types, inters, workIndices, workTypes);
  }

  /**
   * The loop over a role's permitted index patterns: each pattern works on
   * fresh copies of the requested sets and is recorded when it empties both.
   */
  method EvaluatePatterns(groups: Option<GroupTable>, topo: Topology, permitted: map<string, IndexEntry>,
                          action: string, requested: Requested)
    returns (satisfying: set<string>)
    ensures satisfying == SatisfyingPatterns(groups, topo, permitted, action, requested)
  {
    satisfying := {};
    var todo := permitted.Keys;
    while todo != {}
      invariant todo <= permitted.Keys
      invariant forall p :: p in satisfying <==>
        p in permitted && p !in todo && Satisfies(groups, topo, p, permitted[p], action, requested)
      decreases todo
    {
      var permittedIndex :| permittedIndex in todo;
      todo := todo - {permittedIndex};
      var workIndices, workNull, workTypes := requested.indices, requested.nullIndex, requested.types;
      if ContainsWildcard(permittedIndex) {
        workIndices, workTypes := HandleIndicesWithWildcard(groups, action, permittedIndex, permitted[permittedIndex],
                                                            requested, workIndices, workTypes);
      } else {
        workIndices, workTypes := HandleIndicesWithoutWildcard(groups, topo, action, permittedIndex,
                                                               permitted[permittedIndex], requested,
                                                               workIndices, workTypes);
      }
      if workIndices == {} && !workNull && workTypes == {} {
        satisfying := satisfying + {permittedIndex};
      }
    }
  }

  /**
   * Coverage is per pattern: a pattern satisfies the request only if it
   * removes every requested index and every requested type on its own.
   */
  lemma SatisfiesIffCoversAlone(groups: Option<GroupTable>, topo: Topology, pattern: string, entry: IndexEntry,
                                action: string, requested: Requested)
    ensures Satisfies(groups, topo, pattern, entry, action, requested)
        <==> var removed := Removed(groups, topo, pattern, entry, action, requested);
             removed == requested
  {
    var removed := Removed(groups, topo, pattern, entry, action, requested);
    RemovedWithinRequest(groups, topo, pattern, entry, action, requested);
    SubsetDifferenceEmpty(requested.indices, removed.indices);
    SubsetDifferenceEmpty(requested.types, removed.types);
  }

  lemma DifferenceOfUnion(whole: set<string>, a: set<string>, b: set<string>)
    ensures whole - a - b == whole - (a + b)
  {
  }

  lemma RemoveTwice(whole: set<string>, first: set<string>, part: set<string>)
    requires first == {} || first == part
    ensures whole - first - part == whole - part
  {
  }

  lemma SubsetDifferenceEmpty(whole: set<string>, part: set<string>)
    requires part <= whole
    ensures whole - part == {} <==> part == whole
  {
    if whole - part == {} {
      assert forall x :: x in whole ==> x in part by {
        forall x | x in whole ensures x in part {
          assert x !in whole - part;
        }
      }
    }
  }

  /**
   * What several patterns remove together does not add up: unless a single
   * pattern covers the whole request, the role has no satisfying pattern.
   */
  lemma NoCumulativeCoverage(groups: Option<GroupTable>, topo: Topology, permitted: map<string, IndexEntry>,
                             action: string, requested: Requested)
    requires forall p :: p in permitted ==> Removed(groups, topo, p, permitted[p], action, requested) != requested
    ensures SatisfyingPatterns(groups, topo, permitted, action, requested) == {}
  {
    forall p | p in permitted ensures !Satisfies(groups, topo, p, permitted[p], action, requested) {
      SatisfiesIffCoversAlone(groups, topo, p, permitted[p], action, requested);
    }
  }
}
