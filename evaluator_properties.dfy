/**
 * What `evaluate` promises, stated over `Evaluation` and `RolesDecision`
 * for all inputs: the order of the early refusals, the protection of the
 * configuration index, the cluster-action short cut, per-pattern coverage,
 * the absence of access without mapped roles, monotonicity in the mapped
 * roles, and where the row filters and field names come from.
 */
module EvaluatorProperties {
  import opened Wrappers
  import opened Strings
  import opened Wildcard
  import opened Settings
  import opened Configuration
  import opened Actions
  import opened RoleMapper
  import opened RequestResolution
  import opened IndexMatching
  import opened Evaluator

  /** Restoring a snapshot is refused and audited before the request is even looked at. */
  lemma RestoreRefusedFirst(configIndex: string, snap: Snapshot, topo: Topology, user: Option<User>, action: string,
                            shape: RequestShape, caller: Option<TransportAddress>)
    requires StartsWith(action, SNAPSHOT_RESTORE)
    ensures Evaluation(configIndex, snap, topo, user, action, shape, caller)
         == Outcome(Success(false), Some(MissingPrivileges(action)), false, NO_DECISION)
  {
  }

  /** No action on the deny-list starts like a snapshot restore. */
  lemma DeniedIsNotRestore(action: string)
    requires MatchAny(DENIED_ACTION_PATTERNS, action)
    ensures !StartsWith(action, SNAPSHOT_RESTORE)
  {
    DeniedActionIff(action);
    if StartsWith(action, "indices:data/write") {
      assert action[0] == 'i';
    } else {
      assert action[0] == 'i';
    }
  }

  /**
   * Writing to, closing or deleting the configuration index or `_all` is
   * refused and audited whatever the roles grant and whoever asks.
   */
  lemma ConfigIndexProtected(configIndex: string, snap: Snapshot, topo: Topology, user: Option<User>, action: string,
                             shape: RequestShape, caller: Option<TransportAddress>)
    requires caller.Some?
    requires configIndex in Resolved(topo, shape).indices || ALL in Resolved(topo, shape).indices
    requires StartsWith(action, "indices:data/write") || action == "indices:admin/close" || action == "indices:admin/delete"
    ensures Evaluation(configIndex, snap, topo, user, action, shape, caller)
         == Outcome(Success(false), Some(SgIndexAttempt(action)), false, NO_DECISION)
  {
    DeniedActionIff(action);
    DeniedIsNotRestore(action);
  }

  /** Past the early refusals, the role loop decides, and the flags follow the protected targets. */
  lemma RoleLoopDecides(configIndex: string, snap: Snapshot, topo: Topology, user: Option<User>, action: string,
                        shape: RequestShape, caller: Option<TransportAddress>)
    requires caller.Some? && !StartsWith(action, SNAPSHOT_RESTORE) && !MatchAny(DENIED_ACTION_PATTERNS, action)
    ensures var o := Evaluation(configIndex, snap, topo, user, action, shape, caller);
            var requested := Resolved(topo, shape);
            && o.audit == None
            && o.decision == RolesDecision(snap, topo, UserName(user), action,
                                           MappedRoles(snap.rolesMapping, user, caller), requested)
            && o.result == Success(o.decision.allow)
            && o.neutralise == (configIndex in requested.indices || ALL in requested.indices)
  {
  }

  /** Updating settings and upgrading are left to the roles even on the configuration index. */
  lemma SettingsUpdateAndUpgradeLeftToRoles(configIndex: string, snap: Snapshot, topo: Topology, user: Option<User>,
                                            action: string, shape: RequestShape, caller: Option<TransportAddress>)
    requires caller.Some?
    requires action == "indices:admin/settings/update" || action == "indices:admin/upgrade"
    ensures Evaluation(configIndex, snap, topo, user, action, shape, caller).audit == None
    ensures Evaluation(configIndex, snap, topo, user, action, shape, caller).result
         == Success(RolesDecision(snap, topo, UserName(user), action, MappedRoles(snap.rolesMapping, user, caller),
                                  Resolved(topo, shape)).allow)
  {
    SettingsUpdateAndUpgradeNotDenied();
    assert !StartsWith(action, SNAPSHOT_RESTORE) by {
      assert action[0] != SNAPSHOT_RESTORE[0];
    }
  }

  /**
   * The request cache and realtime flags are switched off exactly for a
   * request that reaches the role loop and addresses the configuration
   * index or `_all`.
   */
  lemma NeutralisedIffProtectedAndReached(configIndex: string, snap: Snapshot, topo: Topology, user: Option<User>,
                                          action: string, shape: RequestShape, caller: Option<TransportAddress>)
    ensures var o := Evaluation(configIndex, snap, topo, user, action, shape, caller);
            o.neutralise <==>
              && o.result.Success? && o.audit.None?
              && (configIndex in Resolved(topo, shape).indices || ALL in Resolved(topo, shape).indices)
  {
  }

  /** A request without a remote address is an error, unless it is a snapshot restore. */
  lemma MissingAddressIsError(configIndex: string, snap: Snapshot, topo: Topology, user: Option<User>, action: string,
                              shape: RequestShape)
    ensures Evaluation(configIndex, snap, topo, user, action, shape, None).result
         == if StartsWith(action, SNAPSHOT_RESTORE) then Success(false) else Failure(MissingRemoteAddress)
  {
  }

  /** An empty role grants nothing, so skipping it changes nothing. */
  lemma EmptyRoleGrantsNothing(snap: Snapshot, topo: Topology, r: string, action: string, requested: Requested)
    requires r in snap.roles && snap.roles[r].IsEmpty()
    ensures !ClusterGrants(snap, r, action)
    ensures RoleGrant(snap, topo, r, action, requested) == {}
  {
    assert ResolvedActions(snap.actionGroups, ArrayOf(snap.roles[r].cluster)) == {};
  }

  /**
   * A cluster-scoped action is allowed exactly when one mapped, defined role
   * has a `.cluster` pattern that matches it, and it never carries row
   * filters or field names.
   */
  lemma ClusterActionAllowedIff(configIndex: string, snap: Snapshot, topo: Topology, user: Option<User>,
                                action: string, shape: RequestShape, caller: Option<TransportAddress>)
    requires IsClusterAction(action) && !StartsWith(action, SNAPSHOT_RESTORE) && caller.Some?
    ensures var o := Evaluation(configIndex, snap, topo, user, action, shape, caller);
      && o.audit == None
      && o.decision.dls == {} && o.decision.fls == {}
      && (o.result == Success(true) <==>
            exists r :: r in MappedRoles(snap.rolesMapping, user, caller) && r in snap.roles
                        && MatchAnyIn(ResolvedActions(snap.actionGroups, ArrayOf(snap.roles[r].cluster)), action))
  {
    ClusterActionsNotDenied(action);
    var roles := MappedRoles(snap.rolesMapping, user, caller);
    var d := RolesDecision(snap, topo, UserName(user), action, roles, Resolved(topo, shape));
    assert d == Decision(ClusterGranting(snap, action, roles) != {}, {}, {});
    ClusterGrantingIff(snap, topo, action, roles);
  }

  /** Some active role grants a cluster action exactly when some defined role does. */
  lemma ClusterGrantingIff(snap: Snapshot, topo: Topology, action: string, roles: set<string>)
    ensures ClusterGranting(snap, action, roles) != {} <==>
      exists r :: r in roles && r in snap.roles
                  && MatchAnyIn(ResolvedActions(snap.actionGroups, ArrayOf(snap.roles[r].cluster)), action)
  {
    if ClusterGranting(snap, action, roles) != {} {
      var r :| r in ClusterGranting(snap, action, roles);
    }
    if exists r :: r in roles && r in snap.roles
                   && MatchAnyIn(ResolvedActions(snap.actionGroups, ArrayOf(snap.roles[r].cluster)), action) {
      var r :| r in roles && r in snap.roles
               && MatchAnyIn(ResolvedActions(snap.actionGroups, ArrayOf(snap.roles[r].cluster)), action);
      if snap.roles[r].IsEmpty() {
        EmptyRoleGrantsNothing(snap, topo, r, action, Requested({}, {}, false));
      }
      assert r in ClusterGranting(snap, action, roles);
    }
  }

  /**
   * For cluster-scoped actions the index grants are never consulted: two
   * snapshots that agree on the mapping, the action groups and every role's
   * `.cluster` patterns give the same outcome.
   */
  lemma ClusterDecisionIgnoresIndexGrants(configIndex: string, snap1: Snapshot, snap2: Snapshot, topo: Topology,
                                          user: Option<User>, action: string, shape: RequestShape,
                                          caller: Option<TransportAddress>)
    requires IsClusterAction(action)
    requires snap1.rolesMapping == snap2.rolesMapping && snap1.actionGroups == snap2.actionGroups
    requires snap1.roles.Keys == snap2.roles.Keys
    requires forall r :: r in snap1.roles ==> snap1.roles[r].cluster == snap2.roles[r].cluster
    ensures Evaluation(configIndex, snap1, topo, user, action, shape, caller)
         == Evaluation(configIndex, snap2, topo, user, action, shape, caller)
  {
    var roles := MappedRoles(snap1.rolesMapping, user, caller);
    forall r | r in roles
      ensures r in ClusterGranting(snap1, action, roles) <==> r in ClusterGranting(snap2, action, roles)
    {
      if r in snap1.roles {
        if snap1.roles[r].IsEmpty() {
          EmptyRoleGrantsNothing(snap1, topo, r, action, Resolved(topo, shape));
        }
        if snap2.roles[r].IsEmpty() {
          EmptyRoleGrantsNothing(snap2, topo, r, action, Resolved(topo, shape));
        }
      }
    }
    assert ClusterGranting(snap1, action, roles) == ClusterGranting(snap2, action, roles);
  }

  /**
   * Any other action passes the role loop exactly when one mapped role has
   * a single permitted index pattern that on its own removes every
   * requested index and every requested type.
   */
  lemma IndexActionAllowedIff(snap: Snapshot, topo: Topology, userName: string, action: string,
                              sgRoles: set<string>, requested: Requested)
    requires !IsClusterAction(action)
    ensures RolesDecision(snap, topo, userName, action, sgRoles, requested).allow <==>
      exists r, p :: r in sgRoles && r in snap.roles && p in snap.roles[r].indices
                     && Removed(snap.actionGroups, topo, p, snap.roles[r].indices[p], action, requested) == requested
  {
    var d := RolesDecision(snap, topo, userName, action, sgRoles, requested);
    if d.allow {
      var r :| r in IndexGranting(snap, topo, action, requested, sgRoles);
      var p :| p in RoleGrant(snap, topo, r, action, requested);
      SatisfiesIffCoversAlone(snap.actionGroups, topo, p, snap.roles[r].indices[p], action, requested);
    }
    if exists r, p :: r in sgRoles && r in snap.roles && p in snap.roles[r].indices
                      && Removed(snap.actionGroups, topo, p, snap.roles[r].indices[p], action, requested) == requested {
      var r, p :| r in sgRoles && r in snap.roles && p in snap.roles[r].indices
                  && Removed(snap.actionGroups, topo, p, snap.roles[r].indices[p], action, requested) == requested;
      CoveringPatternGrants(snap, topo, action, sgRoles, requested, r, p);
    }
  }

  /** A pattern of a mapped role that covers the request alone makes that role a granting one. */
  lemma CoveringPatternGrants(snap: Snapshot, topo: Topology, action: string, sgRoles: set<string>,
                              requested: Requested, r: string, p: string)
    requires r in sgRoles && r in snap.roles && p in snap.roles[r].indices
    requires Removed(snap.actionGroups, topo, p, snap.roles[r].indices[p], action, requested) == requested
    ensures r in IndexGranting(snap, topo, action, requested, sgRoles)
  {
    SatisfiesIffCoversAlone(snap.actionGroups, topo, p, snap.roles[r].indices[p], action, requested);
    assert p in RoleGrant(snap, topo, r, action, requested);
    assert !snap.roles[r].IsEmpty();
  }

  /** Without mapped roles nothing is allowed and nothing is attached. */
  lemma NoRolesNoAccess(snap: Snapshot, topo: Topology, userName: string, action: string, requested: Requested)
    ensures RolesDecision(snap, topo, userName, action, {}, requested) == NO_DECISION
  {
    if !IsClusterAction(action) {
      assert IndexGranting(snap, topo, action, requested, {}) == {};
      assert DlsOver(snap, topo, userName, action, requested, {}) == {};
      assert FlsOver(snap, topo, action, requested, {}) == {};
    } else {
      assert ClusterGranting(snap, action, {}) == {};
    }
  }

  /** A missing user is mapped to no role, so the request is never allowed. */
  lemma NoUserNoAccess(configIndex: string, snap: Snapshot, topo: Topology, action: string, shape: RequestShape,
                       caller: Option<TransportAddress>)
    ensures Evaluation(configIndex, snap, topo, None, action, shape, caller).result != Success(true)
    ensures Evaluation(configIndex, snap, topo, None, action, shape, caller).decision == NO_DECISION
  {
    NoRolesNoAccess(snap, topo, UserName(None), action, Resolved(topo, shape));
  }

  /**
   * A request whose index set still holds a null entry is never granted by
   * index patterns: no pattern removes the null, so no role has a satisfying
   * pattern and nothing is attached.
   */
  lemma NullIndexNeverGranted(snap: Snapshot, topo: Topology, userName: string, action: string,
                              sgRoles: set<string>, requested: Requested)
    requires !IsClusterAction(action) && requested.nullIndex
    ensures RolesDecision(snap, topo, userName, action, sgRoles, requested) == NO_DECISION
  {
    forall r | r in snap.roles ensures RoleGrant(snap, topo, r, action, requested) == {} {
      var permitted := snap.roles[r].indices;
      forall p | p in permitted ensures !Satisfies(snap.actionGroups, topo, p, permitted[p], action, requested) {
      }
    }
    assert IndexGranting(snap, topo, action, requested, sgRoles) == {};
    assert DlsOver(snap, topo, userName, action, requested, sgRoles) == {};
    assert FlsOver(snap, topo, action, requested, sgRoles) == {};
  }

  /**
   * An index request that names a null index beside a real one is refused
   * whenever it reaches the role loop with a non-cluster action, whatever
   * the roles grant.
   */
  lemma NullEntryRequestRefused(configIndex: string, snap: Snapshot, topo: Topology, user: Option<User>,
                                action: string, request: IndicesRequest, caller: Option<TransportAddress>,
                                i: nat, j: nat)
    requires !IsClusterAction(action) && caller.Some?
    requires request.indices.Some? && i < |request.indices.value| && j < |request.indices.value|
    requires request.indices.value[i].None? && request.indices.value[j].Some?
    ensures Evaluation(configIndex, snap, topo, user, action, Indices(request), caller).result == Success(false)
    ensures Evaluation(configIndex, snap, topo, user, action, Indices(request), caller).decision == NO_DECISION
  {
    NullNameKeptBesideNames(topo, request, i, j);
    NullIndexNeverGranted(snap, topo, UserName(user), action, MappedRoles(snap.rolesMapping, user, caller),
                          Resolved(topo, Indices(request)));
  }

  /** Being mapped to more roles never takes a permission, a row filter or a field name away. */
  lemma MoreRolesNeverRevoke(snap: Snapshot, topo: Topology, userName: string, action: string,
                             roles1: set<string>, roles2: set<string>, requested: Requested)
    requires roles1 <= roles2
    ensures var d1 := RolesDecision(snap, topo, userName, action, roles1, requested);
            var d2 := RolesDecision(snap, topo, userName, action, roles2, requested);
            (d1.allow ==> d2.allow) && d1.dls <= d2.dls && d1.fls <= d2.fls
  {
    var d1 := RolesDecision(snap, topo, userName, action, roles1, requested);
    if IsClusterAction(action) {
      if d1.allow {
        var r :| r in ClusterGranting(snap, action, roles1);
        assert r in ClusterGranting(snap, action, roles2);
      }
    } else {
      if d1.allow {
        var r :| r in IndexGranting(snap, topo, action, requested, roles1);
        assert r in IndexGranting(snap, topo, action, requested, roles2);
      }
      forall q | q in d1.dls ensures q in DlsOver(snap, topo, userName, action, requested, roles2) {
        var r :| r in roles1 && Active(snap, r)
                 && q in RoleDls(snap.roles[r].indices, RoleGrant(snap, topo, r, action, requested), userName);
      }
      forall f | f in d1.fls ensures f in FlsOver(snap, topo, action, requested, roles2) {
        var r :| r in roles1 && Active(snap, r)
                 && f in RoleFls(snap.roles[r].indices, RoleGrant(snap, topo, r, action, requested));
      }
    }
  }

  /** Row filters and field names are only ever attached to a request the role loop allows. */
  lemma DirectivesOnlyWhenAllowed(snap: Snapshot, topo: Topology, userName: string, action: string,
                                  sgRoles: set<string>, requested: Requested)
    ensures var d := RolesDecision(snap, topo, userName, action, sgRoles, requested);
            (d.dls != {} || d.fls != {}) ==> d.allow
  {
    var d := RolesDecision(snap, topo, userName, action, sgRoles, requested);
    if !IsClusterAction(action) {
      if d.dls != {} {
        var q :| q in d.dls;
        var r :| r in sgRoles && Active(snap, r)
                 && q in RoleDls(snap.roles[r].indices, RoleGrant(snap, topo, r, action, requested), userName);
        assert r in IndexGranting(snap, topo, action, requested, sgRoles);
      } else if d.fls != {} {
        var f :| f in d.fls;
        var r :| r in sgRoles && Active(snap, r)
                 && f in RoleFls(snap.roles[r].indices, RoleGrant(snap, topo, r, action, requested));
        assert r in IndexGranting(snap, topo, action, requested, sgRoles);
      }
    }
  }

  /**
   * Every satisfying pattern of every mapped, non-empty role contributes its
   * non-empty `_dls_` filter, with `${user.name}` replaced by the user's
   * name; no other row filter is attached.
   */
  lemma DlsOfSatisfyingGrants(snap: Snapshot, topo: Topology, userName: string, action: string,
                              sgRoles: set<string>, requested: Requested, q: string)
    requires !IsClusterAction(action)
    ensures q in RolesDecision(snap, topo, userName, action, sgRoles, requested).dls <==>
      exists r, p :: r in sgRoles && Active(snap, r) && p in RoleGrant(snap, topo, r, action, requested)
                     && Get(snap.roles[r].indices[p], "_dls_").Some?
                     && |Get(snap.roles[r].indices[p], "_dls_").value| > 0
                     && q == Replace(Get(snap.roles[r].indices[p], "_dls_").value, USER_NAME_PLACEHOLDER, userName)
  {
    var dls := RolesDecision(snap, topo, userName, action, sgRoles, requested).dls;
    assert dls == DlsOver(snap, topo, userName, action, requested, sgRoles);
    if q in dls {
      var r :| r in sgRoles && Active(snap, r)
               && q in RoleDls(snap.roles[r].indices, RoleGrant(snap, topo, r, action, requested), userName);
      var p :| p in RoleGrant(snap, topo, r, action, requested) && q in DlsOfGrant(snap.roles[r].indices[p], userName);
    }
    forall r, p | r in sgRoles && Active(snap, r) && p in RoleGrant(snap, topo, r, action, requested)
                  && q in DlsOfGrant(snap.roles[r].indices[p], userName)
      ensures q in dls
    {
      assert q in RoleDls(snap.roles[r].indices, RoleGrant(snap, topo, r, action, requested), userName);
    }
  }

  /**
   * Every satisfying pattern of every mapped, non-empty role contributes
   * every one of its `_fls_` fields; no other field name is attached.
   */
  lemma FlsOfSatisfyingGrants(snap: Snapshot, topo: Topology, userName: string, action: string,
                              sgRoles: set<string>, requested: Requested, f: string)
    requires !IsClusterAction(action)
    ensures f in RolesDecision(snap, topo, userName, action, sgRoles, requested).fls <==>
      exists r, p :: r in sgRoles && Active(snap, r) && p in RoleGrant(snap, topo, r, action, requested)
                     && f in GetAsArray(snap.roles[r].indices[p], "_fls_")
  {
    var fls := RolesDecision(snap, topo, userName, action, sgRoles, requested).fls;
    assert fls == FlsOver(snap, topo, action, requested, sgRoles);
    if f in fls {
      var r :| r in sgRoles && Active(snap, r)
               && f in RoleFls(snap.roles[r].indices, RoleGrant(snap, topo, r, action, requested));
      var p :| p in RoleGrant(snap, topo, r, action, requested) && f in FlsOfGrant(snap.roles[r].indices[p]);
    }
    if exists r, p :: r in sgRoles && Active(snap, r) && p in RoleGrant(snap, topo, r, action, requested)
                      && f in GetAsArray(snap.roles[r].indices[p], "_fls_") {
      var r, p :| r in sgRoles && Active(snap, r) && p in RoleGrant(snap, topo, r, action, requested)
                  && f in GetAsArray(snap.roles[r].indices[p], "_fls_");
      assert f in FlsOfGrant(snap.roles[r].indices[p]);
      assert f in RoleFls(snap.roles[r].indices, RoleGrant(snap, topo, r, action, requested));
    }
  }
}
