/**
 * `evaluate(user, action, request)`: the authorisation decision for one
 * transport action, the document- and field-level security directives it
 * attaches to the request, and the request flags it switches off.
 *
 * `Evaluation` is the decision as a function of its inputs; the
 * `PrivilegesEvaluator` class performs it step by step on a mutable
 * `ActionRequest` and an `AuditLog`, and its `Evaluate` method is proved to
 * leave exactly the state `Evaluation` describes.
 */
module Evaluator {
  import opened Wrappers
  import opened Strings
  import opened Wildcard
  import opened Settings
  import opened Configuration
  import opened Actions
  import opened RoleMapper
  import opened RequestResolution
  import opened IndexMatching

  /** The configuration index used when the node's settings name none. */
  const DEFAULT_CONFIG_INDEX := "searchguard"

  /** The placeholder a row filter may use for the user's name. */
  const USER_NAME_PLACEHOLDER := "${user.name}"

  /** The row filter of one satisfying grant: a non-empty `_dls_` string with the user's name filled in. */
  function DlsOfGrant(entry: IndexEntry, userName: string): (r: set<string>)
    ensures |r| <= 1
  {
    match Get(entry, "_dls_")
    case None => {}
    case Some(dls) => if |dls| > 0 then {Replace(dls, USER_NAME_PLACEHOLDER, userName)} else {}
  }

  /** The field names of one satisfying grant. */
  function FlsOfGrant(entry: IndexEntry): set<string> {
    set f | f in GetAsArray(entry, "_fls_")
  }

  /** The row filters of a role's satisfying patterns. */
  function RoleDls(permitted: map<string, IndexEntry>, satisfying: set<string>, userName: string): set<string>
    requires satisfying <= permitted.Keys
  {
    set p, q | p in satisfying && q in DlsOfGrant(permitted[p], userName) :: q
  }

  /** The field names of a role's satisfying patterns. */
  function RoleFls(permitted: map<string, IndexEntry>, satisfying: set<string>): set<string>
    requires satisfying <= permitted.Keys
  {
    set p, f | p in satisfying && f in FlsOfGrant(permitted[p]) :: f
  }

  /** A mapped role that the evaluator looks at: it is defined and has some settings. */
  predicate Active(snap: Snapshot, r: string) {
    r in snap.roles && !snap.roles[r].IsEmpty()
  }

  /** The role's `.cluster` patterns, expanded, match the action. */
  predicate ClusterGrants(snap: Snapshot, r: string, action: string)
    requires r in snap.roles
  {
    MatchAnyIn(ResolvedActions(snap.actionGroups, ArrayOf(snap.roles[r].cluster)), action)
  }

  /** The role's index patterns that satisfy the request. */
  function RoleGrant(snap: Snapshot, topo: Topology, r: string, action: string, requested: Requested): (g: set<string>)
    requires r in snap.roles
    ensures g <= snap.roles[r].indices.Keys
  {
    SatisfyingPatterns(snap.actionGroups, topo, snap.roles[r].indices, action, requested)
  }

  /** The outcome of the role loop. */
  datatype Decision = Decision(allow: bool, dls: set<string>, fls: set<string>)

  const NO_DECISION := Decision(false, {}, {})

  /** The active roles among `roles` whose cluster patterns match the action. */
  function ClusterGranting(snap: Snapshot, action: string, roles: set<string>): set<string> {
    set r | r in roles && Active(snap, r) && ClusterGrants(snap, r, action)
  }

  /** The active roles among `roles` with at least one satisfying index pattern. */
  function IndexGranting(snap: Snapshot, topo: Topology, action: string, requested: Requested, roles: set<string>)
    : set<string>
  {
    set r | r in roles && Active(snap, r) && RoleGrant(snap, topo, r, action, requested) != {}
  }

  /** The row filters the active roles among `roles` contribute. */
  function DlsOver(snap: Snapshot, topo: Topology, userName: string, action: string, requested: Requested,
                   roles: set<string>): set<string>
  {
    set r, q | r in roles && Active(snap, r)
               && q in RoleDls(snap.roles[r].indices, RoleGrant(snap, topo, r, action, requested), userName) :: q
  }

  /** The field names the active roles among `roles` contribute. */
  function FlsOver(snap: Snapshot, topo: Topology, action: string, requested: Requested, roles: set<string>)
    : set<string>
  {
    set r, f | r in roles && Active(snap, r)
               && f in RoleFls(snap.roles[r].indices, RoleGrant(snap, topo, r, action, requested)) :: f
  }

  /**
   * The role loop as a function: a cluster-scoped action is allowed when one
   * active role's cluster patterns match it, and carries no directives; any
   * other action is allowed when one active role has a satisfying pattern,
   * and carries the directives of every satisfying pattern of every such
   * role.
   */
  function RolesDecision(snap: Snapshot, topo: Topology, userName: string, action: string, sgRoles: set<string>,
                         requested: Requested): (r: Decision)
    ensures IsClusterAction(action) ==> r.dls == {} && r.fls == {}
  {
    if IsClusterAction(action) then
      Decision(ClusterGranting(snap, action, sgRoles) != {}, {}, {})
    else
      Decision(IndexGranting(snap, topo, action, requested, sgRoles) != {},
               DlsOver(snap, topo, userName, action, requested, sgRoles),
               FlsOver(snap, topo, action, requested, sgRoles))
  }

  /** Looking at one more role adds exactly that role's contribution. */
  lemma RoleStep(snap: Snapshot, topo: Topology, userName: string, action: string, requested: Requested,
                 done: set<string>, r: string)
    ensures ClusterGranting(snap, action, done + {r})
         == ClusterGranting(snap, action, done)
            + (if Active(snap, r) && ClusterGrants(snap, r, action) then {r} else {})
    ensures IndexGranting(snap, topo, action, requested, done + {r})
         == IndexGranting(snap, topo, action, requested, done)
            + (if Active(snap, r) && RoleGrant(snap, topo, r, action, requested) != {} then {r} else {})
    ensures DlsOver(snap, topo, userName, action, requested, done + {r})
         == DlsOver(snap, topo, userName, action, requested, done)
            + (if Active(snap, r)
               then RoleDls(snap.roles[r].indices, RoleGrant(snap, topo, r, action, requested), userName) else {})
    ensures FlsOver(snap, topo, action, requested, done + {r})
         == FlsOver(snap, topo, action, requested, done)
            + (if Active(snap, r) then RoleFls(snap.roles[r].indices, RoleGrant(snap, topo, r, action, requested))
               else {})
  {
    var cluster := if Active(snap, r) && ClusterGrants(snap, r, action) then {r} else {};
    forall x ensures x in ClusterGranting(snap, action, done + {r})
                     <==> x in ClusterGranting(snap, action, done) + cluster {
    }
    var index := if Active(snap, r) && RoleGrant(snap, topo, r, action, requested) != {} then {r} else {};
    forall x ensures x in IndexGranting(snap, topo, action, requested, done + {r})
                     <==> x in IndexGranting(snap, topo, action, requested, done) + index {
    }
    DlsStep(snap, topo, userName, action, requested, done, r);
    FlsStep(snap, topo, action, requested, done, r);
  }

  lemma DlsStep(snap: Snapshot, topo: Topology, userName: string, action: string, requested: Requested,
                done: set<string>, r: string)
    ensures DlsOver(snap, topo, userName, action, requested, done + {r})
         == DlsOver(snap, topo, userName, action, requested, done)
            + (if Active(snap, r)
               then RoleDls(snap.roles[r].indices, RoleGrant(snap, topo, r, action, requested), userName) else {})
  {
    var extra := if Active(snap, r)
                 then RoleDls(snap.roles[r].indices, RoleGrant(snap, topo, r, action, requested), userName) else {};
    forall q | q in DlsOver(snap, topo, userName, action, requested, done + {r})
      ensures q in DlsOver(snap, topo, userName, action, requested, done) + extra
    {
      var r' :| r' in done + {r} && Active(snap, r')
                && q in RoleDls(snap.roles[r'].indices, RoleGrant(snap, topo, r', action, requested), userName);
      if r' != r {
        assert r' in done;
      }
    }
  }

  lemma FlsStep(snap: Snapshot, topo: Topology, action: string, requested: Requested, done: set<string>, r: string)
    ensures FlsOver(snap, topo, action, requested, done + {r})
         == FlsOver(snap, topo, action, requested, done)
            + (if Active(snap, r) then RoleFls(snap.roles[r].indices, RoleGrant(snap, topo, r, action, requested))
               else {})
  {
    var extra := if Active(snap, r) then RoleFls(snap.roles[r].indices, RoleGrant(snap, topo, r, action, requested))
                 else {};
    forall f | f in FlsOver(snap, topo, action, requested, done + {r})
      ensures f in FlsOver(snap, topo, action, requested, done) + extra
    {
      var r' :| r' in done + {r} && Active(snap, r')
                && f in RoleFls(snap.roles[r'].indices, RoleGrant(snap, topo, r', action, requested));
      if r' != r {
        assert r' in done;
      }
    }
  }

  /** The name of the user, for the placeholder; no role is mapped without a user. */
  function UserName(user: Option<User>): string {
    if user.Some? then user.value.name else ""
  }

  /** What the audit log is told. */
  datatype AuditEvent = MissingPrivileges(action: string) | SgIndexAttempt(action: string)

  /** `evaluate` throws when the request carries no remote address. */
  datatype EvalError = MissingRemoteAddress

  /** Everything one evaluation determines. */
  datatype Outcome = Outcome(
    result: Result<bool, EvalError>,
    audit: Option<AuditEvent>,
    neutralise: bool,
    decision: Decision)

  /**
   * `evaluate` as a function: the snapshot-restore refusal, the remote
   * address check, the deny-list guard of the configuration index and of
   * `_all`, the cache and realtime neutralisation, and the role loop. Only
   * a missing remote address throws, and never for a snapshot restore; an
   * audited request is always refused; a neutralised one is never audited.
   */
  function Evaluation(configIndex: string, snap: Snapshot, topo: Topology, user: Option<User>, action: string,
                      shape: RequestShape, caller: Option<TransportAddress>): (r: Outcome)
    ensures r.result.Failure? <==> caller.None? && !StartsWith(action, SNAPSHOT_RESTORE)
    ensures r.audit.Some? ==> r.result == Success(false) && r.decision == NO_DECISION && !r.neutralise
    ensures r.neutralise ==> r.result.Success? && r.audit.None?
    ensures r.result.Success? && r.audit.None? ==> r.result.value == r.decision.allow
  {
    if StartsWith(action, SNAPSHOT_RESTORE) then
      Outcome(Success(false), Some(MissingPrivileges(action)), false, NO_DECISION)
    else if caller.None? then
      Outcome(Failure(MissingRemoteAddress), None, false, NO_DECISION)
    else
      var requested := Resolved(topo, shape);
      var protectedTarget := configIndex in requested.indices || ALL in requested.indices;
      if protectedTarget && MatchAny(DENIED_ACTION_PATTERNS, action) then
        Outcome(Success(false), Some(SgIndexAttempt(action)), false, NO_DECISION)
      else
        var d := RolesDecision(snap, topo, UserName(user), action, MappedRoles(snap.rolesMapping, user, caller),
                               requested);
        Outcome(Success(d.allow), None, protectedTarget, d)
  }

  /** The loop over the satisfying patterns of one role, collecting its row filters and field names. */
  method CollectDirectives(permitted: map<string, IndexEntry>, satisfying: set<string>, userName: string,
                           dlsQueries: set<string>, flsFields: set<string>)
    returns (dlsOut: set<string>, flsOut: set<string>)
    requires satisfying <= permitted.Keys
    ensures dlsOut == dlsQueries + RoleDls(permitted, satisfying, userName)
    ensures flsOut == flsFields + RoleFls(permitted, satisfying)
  {
    dlsOut, flsOut := dlsQueries, flsFields;
    var todo := satisfying;
    while todo != {}
      invariant todo <= satisfying
      invariant forall q :: q in dlsOut <==>
        q in dlsQueries || exists p :: p in satisfying && p !in todo && q in DlsOfGrant(permitted[p], userName)
      invariant forall f :: f in flsOut <==>
        f in flsFields || exists p :: p in satisfying && p !in todo && f in FlsOfGrant(permitted[p])
      decreases todo
    {
      var resolvedIndex :| resolvedIndex in todo;
      todo := todo - {resolvedIndex};
      var entry := permitted[resolvedIndex];
      var dls := Get(entry, "_dls_");
      var fls := GetAsArray(entry, "_fls_");
      if dls.Some? && |dls.value| > 0 {
        dlsOut := dlsOut + {Replace(dls.value, USER_NAME_PLACEHOLDER, userName)};
      }
      if |fls| > 0 {
        flsOut := flsOut + (set f | f in fls);
      }
    }
  }

  /** The role loop: skip undefined or empty roles; a cluster action returns on the first matching role. */
  method EvaluateRoles(snap: Snapshot, topo: Topology, userName: string, action: string, sgRoles: set<string>,
                       requested: Requested) returns (d: Decision)
    ensures d == RolesDecision(snap, topo, userName, action, sgRoles, requested)
  {
    var allowAction := false;
    var dlsQueries: set<string> := {};
    var flsFields: set<string> := {};
    var todo := sgRoles;
    ghost var done: set<string> := {};
    while todo != {}
      invariant todo + done == sgRoles && todo !! done
      invariant IsClusterAction(action) ==>
        !allowAction && dlsQueries == {} && flsFields == {} && ClusterGranting(snap, action, done) == {}
      invariant !IsClusterAction(action) ==>
        && allowAction == (IndexGranting(snap, topo, action, requested, done) != {})
        && dlsQueries == DlsOver(snap, topo, userName, action, requested, done)
        && flsFields == FlsOver(snap, topo, action, requested, done)
      decreases todo
    {
      var sgRole :| sgRole in todo;
      RoleStep(snap, topo, userName, action, requested, done, sgRole);
      todo, done := todo - {sgRole}, done + {sgRole};
      if sgRole !in snap.roles || snap.roles[sgRole].IsEmpty() {
        continue;
      }
      var role := snap.roles[sgRole];
      if IsClusterAction(action) {
        var resolvedActions := ResolveActions(snap.actionGroups, ArrayOf(role.cluster));
        if MatchAnyIn(resolvedActions, action) {
          assert sgRole in ClusterGranting(snap, action, sgRoles);
          return Decision(true, {}, {});
        }
        continue;
      }
      var satisfying := EvaluatePatterns(snap.actionGroups, topo, role.indices, action, requested);
      if satisfying != {} {
        dlsQueries, flsFields := CollectDirectives(role.indices, satisfying, userName, dlsQueries, flsFields);
        allowAction := true;
      } else {
        assert RoleDls(role.indices, satisfying, userName) == {};
        assert RoleFls(role.indices, satisfying) == {};
      }
    }
    d := Decision(allowAction, dlsQueries, flsFields);
  }

  /** The audit log: the events reported to it, in order. */
  class AuditLog {
    var events: seq<AuditEvent>

    constructor()
      ensures events == []
    {
      events := [];
    }

    /** `logMissingPrivileges(action, request)`. */
    method LogMissingPrivileges(action: string)
      modifies this
      ensures events == old(events) + [MissingPrivileges(action)]
    {
      events := events + [MissingPrivileges(action)];
    }

    /** `logSgIndexAttempt(request, action)`. */
    method LogSgIndexAttempt(action: string)
      modifies this
      ensures events == old(events) + [SgIndexAttempt(action)]
    {
      events := events + [SgIndexAttempt(action)];
    }
  }

  /**
   * The parts of a transport request the evaluator reads or writes: its
   * shape, whether it is a search or a realtime request, the remote address
   * in its context, its cache and realtime flags and its two headers.
   */
  class ActionRequest {
    const shape: RequestShape
    const isSearchRequest: bool
    const isRealtimeRequest: bool
    const remoteAddress: Option<TransportAddress>
    var requestCache: Option<bool>
    var realtime: bool
    var dlsQueryHeader: Option<set<string>>
    var flsFieldsHeader: Option<set<string>>

    constructor(shape: RequestShape, isSearchRequest: bool, isRealtimeRequest: bool,
                remoteAddress: Option<TransportAddress>)
      ensures this.shape == shape && this.isSearchRequest == isSearchRequest
      ensures this.isRealtimeRequest == isRealtimeRequest && this.remoteAddress == remoteAddress
      ensures requestCache == None && realtime && dlsQueryHeader == None && flsFieldsHeader == None
    {
      this.shape := shape;
      this.isSearchRequest := isSearchRequest;
      this.isRealtimeRequest := isRealtimeRequest;
      this.remoteAddress := remoteAddress;
      requestCache := None;
      realtime := true;
      dlsQueryHeader := None;
      flsFieldsHeader := None;
    }
  }

  /** The evaluator: the configuration index it protects, its deny-list and its audit log. */
  class PrivilegesEvaluator {
    const searchguardIndex: string
    const deniedActionPatterns: seq<string>
    const auditLog: AuditLog

    /** The configuration index is read from the settings, with a default; the deny-list is fixed. */
    constructor(configIndexSetting: Option<string>, auditLog: AuditLog)
      ensures searchguardIndex == if configIndexSetting.Some? then configIndexSetting.value else DEFAULT_CONFIG_INDEX
      ensures deniedActionPatterns == DENIED_ACTION_PATTERNS
      ensures this.auditLog == auditLog
    {
      searchguardIndex := if configIndexSetting.Some? then configIndexSetting.value else DEFAULT_CONFIG_INDEX;
      var deniedActionPatternsList: seq<string> := [];
      deniedActionPatternsList := deniedActionPatternsList + ["indices:data/write*"];
      deniedActionPatternsList := deniedActionPatternsList + ["indices:admin/close"];
      deniedActionPatternsList := deniedActionPatternsList + ["indices:admin/delete"];
      deniedActionPatterns := deniedActionPatternsList;
      this.auditLog := auditLog;
    }

    /**
     * `evaluate(user, action, request)`: the result, the audit event, the
     * request's flags and its headers are exactly those `Evaluation`
     * determines; nothing else changes.
     */
    method Evaluate(snap: Snapshot, topo: Topology, user: Option<User>, action: string, request: ActionRequest)
      returns (result: Result<bool, EvalError>)
      requires deniedActionPatterns == DENIED_ACTION_PATTERNS
      modifies request, auditLog
      ensures var o := Evaluation(searchguardIndex, snap, topo, user, action, request.shape, request.remoteAddress);
        && result == o.result
        && auditLog.events == old(auditLog.events) + (if o.audit.Some? then [o.audit.value] else [])
        && request.requestCache
           == (if o.neutralise && request.isSearchRequest then Some(false) else old(request.requestCache))
        && request.realtime == (if o.neutralise && request.isRealtimeRequest then false else old(request.realtime))
        && request.dlsQueryHeader == (if o.decision.dls != {} then Some(o.decision.dls) else old(request.dlsQueryHeader))
        && request.flsFieldsHeader == (if o.decision.fls != {} then Some(o.decision.fls) else old(request.flsFieldsHeader))
    {
      if StartsWith(action, SNAPSHOT_RESTORE) {
        auditLog.LogMissingPrivileges(action);
        return Success(false);
      }
      if request.remoteAddress.None? {
        return Failure(MissingRemoteAddress);
      }
      var caller := request.remoteAddress.value;
      var requestedIndices, requestedTypes, requestedNull := Resolve(topo, request.shape);
      var requested := Requested(requestedIndices, requestedTypes, requestedNull);
      ghost var protectedTarget := searchguardIndex in requestedIndices || ALL in requestedIndices;
      ghost var denied := protectedTarget && MatchAny(DENIED_ACTION_PATTERNS, action);
      ghost var o := Evaluation(searchguardIndex, snap, topo, user, action, request.shape, request.remoteAddress);
      assert denied ==> o == Outcome(Success(false), Some(SgIndexAttempt(action)), false, NO_DECISION);
      if searchguardIndex in requestedIndices && MatchAny(deniedActionPatterns, action) {
        auditLog.LogSgIndexAttempt(action);
        return Success(false);
      }
      if ALL in requestedIndices && MatchAny(deniedActionPatterns, action) {
        auditLog.LogSgIndexAttempt(action);
        return Success(false);
      }
      if searchguardIndex in requestedIndices || ALL in requestedIndices {
        Neutralise(request);
      }
      var sgRoles := MapSgRoles(snap.rolesMapping, user, Some(caller));
      var decision := EvaluateRoles(snap, topo, UserName(user), action, sgRoles, requested);
      assert o == Outcome(Success(decision.allow), None, protectedTarget, decision);
      AttachDirectives(request, decision);
      return Success(decision.allow);
    }

    /** A request on the configuration index or on `_all` bypasses the request cache and is not realtime. */
    static method Neutralise(request: ActionRequest)
      modifies request
      ensures request.requestCache == if request.isSearchRequest then Some(false) else old(request.requestCache)
      ensures request.realtime == if request.isRealtimeRequest then false else old(request.realtime)
      ensures request.dlsQueryHeader == old(request.dlsQueryHeader)
      ensures request.flsFieldsHeader == old(request.flsFieldsHeader)
    {
      if request.isSearchRequest {
        request.requestCache := Some(false);
      }
      if request.isRealtimeRequest {
        request.realtime := false;
      }
    }

    /** The collected row filters and field names travel as request headers, when there are any. */
    static method AttachDirectives(request: ActionRequest, decision: Decision)
      modifies request
      ensures request.dlsQueryHeader == if decision.dls != {} then Some(decision.dls) else old(request.dlsQueryHeader)
      ensures request.flsFieldsHeader == if decision.fls != {} then Some(decision.fls) else old(request.flsFieldsHeader)
      ensures request.requestCache == old(request.requestCache) && request.realtime == old(request.realtime)
    {
      if decision.dls != {} {
        request.dlsQueryHeader := Some(decision.dls);
      }
      if decision.fls != {} {
        request.flsFieldsHeader := Some(decision.fls);
      }
    }
  }
}
