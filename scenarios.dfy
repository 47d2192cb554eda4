/**
 * Concrete decisions from the integration tests, worked out on the model:
 * worf may search the `ships` type of `starfleet` but not the whole index,
 * a row filter gets the user's name filled in, destructive calls on the
 * `searchguard` index are refused by the deny-list and an upgrade of it
 * for lack of a grant, and two patterns that each cover half
 * of a request do not add up to a grant.
 */
module Scenarios {
  import opened Wrappers
  import opened Strings
  import opened Wildcard
  import opened Settings
  import opened Configuration
  import opened Actions
  import opened RoleMapper
  import opened RequestResolution
  import opened IndexMatching
  import opened Evaluator
  import opened EvaluatorProperties

  const SEARCH := "indices:data/read/search"
  const READ_PATTERN := "indices:data/read*"

  /** worf's role: read access to the `ships` type of `starfleet`. */
  const SHIPS_GRANT: IndexEntry := map["ships" := Array([READ_PATTERN])]
  const STARFLEET_ROLE := Role(None, map["starfleet" := SHIPS_GRANT])
  const WORF_SNAPSHOT := Snapshot(
    map["sg_role_starfleet" := STARFLEET_ROLE],
    map["sg_role_starfleet" := RoleMapping(None, Some(Array(["worf"])), None)],
    None)
  const WORF := User("worf", {})
  const CALLER := TransportAddress("127.0.0.1", "localhost")

  function SearchStarfleet(types: seq<string>): RequestShape {
    Indices(IndicesRequest(Some([Some("starfleet")]), types))
  }

  lemma SearchIsIndexAction()
    ensures !IsClusterAction(SEARCH)
    ensures !StartsWith(SEARCH, SNAPSHOT_RESTORE)
    ensures !MatchAny(DENIED_ACTION_PATTERNS, SEARCH)
  {
    assert SEARCH[0] != "cluster:"[0];
    assert SEARCH[8] != "indices:admin/template/delete"[8];
    assert SEARCH[19] != "indices:data/read/scroll"[19];
    DeniedActionIff(SEARCH);
    assert SEARCH[13] != "indices:data/write"[13];
    assert SEARCH[8] != "indices:admin/close"[8];
    assert SEARCH[8] != "indices:admin/delete"[8];
  }

  /** The read pattern, which names no action group, grants the search. */
  lemma ReadPatternGrantsSearch()
    ensures MatchAnyIn(ResolvedActions(None, [READ_PATTERN]), SEARCH)
  {
    assert "indices:data/read" + "*" == READ_PATTERN;
    PrefixStarMatch("indices:data/read", SEARCH);
    assert ResolvedActions(None, [READ_PATTERN]) == {READ_PATTERN};
  }

  /** The read pattern is stored as a one-element array and reads back as itself. */
  lemma ReadPatternTrimmed()
    ensures AsArray(Array([READ_PATTERN])) == [READ_PATTERN]
  {
    assert Trimmed(READ_PATTERN) by {
      assert READ_PATTERN[0] == 'i' && READ_PATTERN[|READ_PATTERN| - 1] == '*';
    }
    TrimmedArrayKept([READ_PATTERN]);
  }

  /** A comma-separated scalar setting reads as its pieces, the empty one between two commas dropped. */
  lemma CommaSeparatedSettingSplits()
    ensures AsArray(Scalar("READ,,WRITE")) == ["READ", "WRITE"]
  {
    EmptyMiddlePieceDropped("READ", "WRITE");
    assert "READ" + "," + "" + "," + "WRITE" == "READ,,WRITE";
  }

  /** A space written after a comma is trimmed away from the element behind it. */
  lemma SpaceAfterCommaTrimmed()
    ensures AsArray(Scalar("READ, WRITE")) == ["READ", "WRITE"]
  {
    BlankAfterCommaTrimmed("READ", " ", "WRITE");
    assert "READ" + "," + " " + "WRITE" == "READ, WRITE";
  }

  /** worf is mapped to `sg_role_starfleet` by user name. */
  lemma WorfMapped()
    ensures MappedRoles(WORF_SNAPSHOT.rolesMapping, Some(WORF), Some(CALLER)) == {"sg_role_starfleet"}
  {
    LiteralMatch("worf", "worf");
    TrimmedArrayKept(["worf"]);
    assert MappingApplies(WORF_SNAPSHOT.rolesMapping["sg_role_starfleet"], WORF, Some(CALLER));
  }

  /** A request naming one concrete index addresses exactly that index. */
  lemma SingleNameResolves(topo: Topology, name: string, types: seq<string>)
    requires topo.concrete(name) == Some({name}) && name != ALL
    ensures Resolved(topo, Indices(IndicesRequest(Some([Some(name)]), types))).indices == {name}
  {
    var names := [Some(name)];
    assert names[..|names| - 1] == [];
    assert ResolveNames(topo, names[..|names| - 1]) == Some({});
    var last := names[|names| - 1];
    assert last == Some(name);
    assert {} + {name} == {name};
    assert !NoIndicesDeclared(Some(names)) by {
      assert names[0].Some?;
    }
  }

  /** A single-pattern role's grant is that pattern, if it satisfies the request. */
  lemma SinglePatternGrant(topo: Topology, p: string, entry: IndexEntry, action: string, requested: Requested)
    ensures SatisfyingPatterns(None, topo, map[p := entry], action, requested)
         == if Satisfies(None, topo, p, entry, action, requested) then {p} else {}
  {
  }

  /** With a single active role the decision is that role's. */
  lemma SingleRoleDecision(snap: Snapshot, topo: Topology, userName: string, action: string, r: string,
                           requested: Requested)
    requires !IsClusterAction(action) && Active(snap, r)
    ensures RolesDecision(snap, topo, userName, action, {r}, requested).allow
        <==> RoleGrant(snap, topo, r, action, requested) != {}
  {
    if RoleGrant(snap, topo, r, action, requested) != {} {
      assert r in IndexGranting(snap, topo, action, requested, {r});
    }
  }

  /** With worf's one role and its one pattern, the decision is that pattern's. */
  lemma DecisionOfStarfleetRole(topo: Topology, action: string, requested: Requested)
    requires !IsClusterAction(action)
    ensures RolesDecision(WORF_SNAPSHOT, topo, "worf", action, {"sg_role_starfleet"}, requested).allow
        <==> Satisfies(None, topo, "starfleet", SHIPS_GRANT, action, requested)
  {
    assert "starfleet" in STARFLEET_ROLE.indices;
    assert Active(WORF_SNAPSHOT, "sg_role_starfleet");
    SinglePatternGrant(topo, "starfleet", SHIPS_GRANT, action, requested);
    SingleRoleDecision(WORF_SNAPSHOT, topo, "worf", action, "sg_role_starfleet", requested);
  }

  /**
   * Any index action that passes the deny-list and the restore check is
   * decided for worf by the one `starfleet` pattern alone.
   */
  lemma WorfDecision(topo: Topology, action: string, shape: RequestShape, requested: Requested)
    requires !StartsWith(action, SNAPSHOT_RESTORE) && !MatchAny(DENIED_ACTION_PATTERNS, action)
    requires !IsClusterAction(action) && Resolved(topo, shape) == requested
    ensures var o := Evaluation(DEFAULT_CONFIG_INDEX, WORF_SNAPSHOT, topo, Some(WORF), action, shape, Some(CALLER));
            && o.result == Success(Satisfies(None, topo, "starfleet", SHIPS_GRANT, action, requested))
            && o.audit == None
            && o.neutralise == (DEFAULT_CONFIG_INDEX in requested.indices || ALL in requested.indices)
  {
    RoleLoopDecides(DEFAULT_CONFIG_INDEX, WORF_SNAPSHOT, topo, Some(WORF), action, shape, Some(CALLER));
    WorfMapped();
    assert UserName(Some(WORF)) == "worf";
    DecisionOfStarfleetRole(topo, action, requested);
  }

  /** The `ships` grant never covers a request for `_all` types. */
  lemma ShipsGrantMissesAllTypes(topo: Topology, action: string, indices: set<string>)
    requires indices != {}
    ensures !Satisfies(None, topo, "starfleet", SHIPS_GRANT, action, Requested(indices, {ALL}, false))
  {
    LiteralMatch("ships", ALL);
    assert GetMatchAny("ships", {ALL}) == {};
    assert PermittedTypes(SHIPS_GRANT) == {"ships"};
    assert GrantingAmong(None, SHIPS_GRANT, action, {ALL}, {"ships"}) == {};
  }

  /** `starfleet/_search` declares no type, so it asks for `_all` types, which `ships` does not cover: denied. */
  lemma WorfSearchWithoutTypeDenied(topo: Topology)
    requires topo.concrete("starfleet") == Some({"starfleet"})
    ensures Evaluation(DEFAULT_CONFIG_INDEX, WORF_SNAPSHOT, topo, Some(WORF), SEARCH,
                       SearchStarfleet([]), Some(CALLER)).result == Success(false)
  {
    SearchIsIndexAction();
    SingleNameResolves(topo, "starfleet", []);
    NoTypesMeansAllTypes(topo, IndicesRequest(Some([Some("starfleet")]), []));
    var requested := Requested({"starfleet"}, {ALL}, false);
    assert Resolved(topo, SearchStarfleet([])) == requested;
    WorfDecision(topo, SEARCH, SearchStarfleet([]), requested);
    ShipsGrantMissesAllTypes(topo, SEARCH, requested.indices);
  }

  lemma StarfleetIsLiteral()
    ensures !ContainsWildcard("starfleet")
  {
  }

  /** The `ships` key grants the search on type `ships`. */
  lemma ShipsTypeGrants()
    ensures TypeGrants(None, SHIPS_GRANT, "ships", SEARCH, {"ships"})
  {
    ReadPatternGrantsSearch();
    ReadPatternTrimmed();
    assert GetAsArray(SHIPS_GRANT, "ships") == [READ_PATTERN];
    LiteralMatch("ships", "ships");
    assert "ships" in GetMatchAny("ships", {"ships"});
  }

  /** `ships` is the one type key of worf's grant, and it grants the search. */
  lemma ShipsKeyGrants()
    ensures GrantingAmong(None, SHIPS_GRANT, SEARCH, {"ships"}, PermittedTypes(SHIPS_GRANT)) == {"ships"}
  {
    ShipsTypeGrants();
    assert SHIPS_GRANT.Keys == {"ships"};
    SingleKeyGranting(None, SHIPS_GRANT, "ships", SEARCH, {"ships"});
  }

  /** The `ships` grant alone removes `starfleet` and `ships` from a request for exactly those. */
  lemma ShipsGrantCovers(topo: Topology)
    requires topo.concrete("starfleet") == Some({"starfleet"})
    ensures Satisfies(None, topo, "starfleet", SHIPS_GRANT, SEARCH, Requested({"starfleet"}, {"ships"}, false))
  {
    var requested := Requested({"starfleet"}, {"ships"}, false);
    ShipsGrantRemovesAll(topo);
    SatisfiesIffCoversAlone(None, topo, "starfleet", SHIPS_GRANT, SEARCH, requested);
  }

  lemma ShipsGrantRemovesAll(topo: Topology)
    requires topo.concrete("starfleet") == Some({"starfleet"})
    ensures var requested := Requested({"starfleet"}, {"ships"}, false);
            Removed(None, topo, "starfleet", SHIPS_GRANT, SEARCH, requested) == requested
  {
    ShipsKeyGrants();
    StarfleetIsLiteral();
    LiteralCoversItself("ships");
    StarfleetPermitted(topo);
    LiteralCoversRequest(None, topo, "starfleet", SHIPS_GRANT, SEARCH, Requested({"starfleet"}, {"ships"}, false),
                         {"ships"});
  }

  lemma StarfleetPermitted(topo: Topology)
    requires topo.concrete("starfleet") == Some({"starfleet"})
    ensures {"starfleet"} <= PermittedIndices(topo, "starfleet")
  {
  }

  /** A wildcard-free type key covers exactly its own name. */
  lemma LiteralCoversItself(k: string)
    requires !ContainsWildcard(k)
    ensures CoveredBy({k}, {k}) == {k}
  {
    LiteralMatch(k, k);
    assert k in CoveredBy({k}, {k});
  }

  /** `starfleet/ships/_search` addresses the `ships` type of `starfleet`. */
  lemma ShipsRequestResolves(topo: Topology)
    requires topo.concrete("starfleet") == Some({"starfleet"})
    ensures Resolved(topo, SearchStarfleet(["ships"])) == Requested({"starfleet"}, {"ships"}, false)
  {
    SingleNameResolves(topo, "starfleet", ["ships"]);
    assert (set t | t in ["ships"]) == {"ships"};
  }

  /** `starfleet/ships/_search` asks for the granted type: allowed, and the cache stays on. */
  lemma WorfSearchOfShipsAllowed(topo: Topology)
    requires topo.concrete("starfleet") == Some({"starfleet"})
    ensures var o := Evaluation(DEFAULT_CONFIG_INDEX, WORF_SNAPSHOT, topo, Some(WORF), SEARCH,
                                SearchStarfleet(["ships"]), Some(CALLER));
            o.result == Success(true) && !o.neutralise
  {
    var requested := Requested({"starfleet"}, {"ships"}, false);
    SearchIsIndexAction();
    ShipsRequestResolves(topo);
    ShipsGrantCovers(topo);
    assert DEFAULT_CONFIG_INDEX !in requested.indices && ALL !in requested.indices;
    WorfDecision(topo, SEARCH, SearchStarfleet(["ships"]), requested);
  }

  /**
   * `starfleet,<null>/ships/_search`: the null entry makes resolution fall
   * back to the raw names, null included, and no pattern removes the null:
   * denied, though `ships` of `starfleet` alone is granted.
   */
  lemma WorfSearchWithNullEntryDenied(topo: Topology)
    ensures Evaluation(DEFAULT_CONFIG_INDEX, WORF_SNAPSHOT, topo, Some(WORF), SEARCH,
                       Indices(IndicesRequest(Some([Some("starfleet"), None]), ["ships"])), Some(CALLER)).result
         == Success(false)
  {
    SearchIsIndexAction();
    NullEntryRequestRefused(DEFAULT_CONFIG_INDEX, WORF_SNAPSHOT, topo, Some(WORF), SEARCH,
                            IndicesRequest(Some([Some("starfleet"), None]), ["ships"]), Some(CALLER), 1, 0);
  }

  const UPGRADE := "indices:admin/upgrade"

  lemma UpgradeIsIndexAction()
    ensures !IsClusterAction(UPGRADE)
    ensures !StartsWith(UPGRADE, SNAPSHOT_RESTORE)
    ensures !MatchAny(DENIED_ACTION_PATTERNS, UPGRADE)
  {
    assert UPGRADE[0] != "cluster:"[0];
    assert UPGRADE[14] != "indices:admin/template/delete"[14];
    assert UPGRADE[8] != "indices:data/read/scroll"[8];
    DeniedActionIff(UPGRADE);
    assert UPGRADE[8] != "indices:data/write"[8];
    assert UPGRADE[14] != "indices:admin/close"[14];
    assert UPGRADE[14] != "indices:admin/delete"[14];
  }

  /**
   * `/searchguard/_upgrade` is not on the deny-list, so it reaches the role
   * loop (with the cache switched off), where worf's role has no grant for
   * it: denied, but without a configuration-index audit event.
   */
  lemma WorfUpgradeOfConfigIndexDenied(topo: Topology)
    requires topo.concrete("searchguard") == Some({"searchguard"})
    ensures var o := Evaluation(DEFAULT_CONFIG_INDEX, WORF_SNAPSHOT, topo, Some(WORF), UPGRADE,
                                Indices(IndicesRequest(Some([Some("searchguard")]), [])), Some(CALLER));
            o.result == Success(false) && o.audit == None && o.neutralise
  {
    var shape := Indices(IndicesRequest(Some([Some("searchguard")]), []));
    UpgradeIsIndexAction();
    SingleNameResolves(topo, "searchguard", []);
    NoTypesMeansAllTypes(topo, IndicesRequest(Some([Some("searchguard")]), []));
    var requested := Requested({"searchguard"}, {ALL}, false);
    assert Resolved(topo, shape) == requested;
    WorfDecision(topo, UPGRADE, shape, requested);
    ShipsGrantMissesAllTypes(topo, UPGRADE, requested.indices);
  }

  /** A row filter ending in the placeholder gets the user's name in its place. */
  lemma PlaceholderFilled(pre: string, userName: string)
    requires forall i :: 0 <= i < |pre| ==> pre[i] != '$'
    ensures DlsOfGrant(map["_dls_" := Scalar(pre + USER_NAME_PLACEHOLDER)], userName) == {pre + userName}
  {
    var target := USER_NAME_PLACEHOLDER;
    var filter := pre + target + "";
    assert target[0] == '$';
    forall i | 0 <= i < |pre| ensures !(target <= filter[i..]) {
      assert filter[i..][0] == pre[i];
    }
    ReplaceSplits(pre, target, "", userName);
    assert filter == pre + target && pre + userName + "" == pre + userName;
  }

  /** The row filter of a satisfying grant names the user. */
  lemma RowFilterNamesTheUser()
    ensures DlsOfGrant(map["_dls_" := Scalar("u=${user.name}")], "worf") == {"u=worf"}
  {
    var pre := "u=";
    assert pre + USER_NAME_PLACEHOLDER == "u=${user.name}";
    assert pre + "worf" == "u=worf";
    assert pre[0] != '$' && pre[1] != '$';
    PlaceholderFilled(pre, "worf");
  }

  /** Deleting, closing or writing to the `searchguard` index is refused whatever worf's roles say. */
  lemma DestructiveCallsOnConfigIndexRefused(snap: Snapshot, topo: Topology, action: string, user: Option<User>)
    requires topo.concrete("searchguard") == Some({"searchguard"})
    requires action == "indices:admin/delete" || action == "indices:admin/close" || StartsWith(action, "indices:data/write")
    ensures Evaluation(DEFAULT_CONFIG_INDEX, snap, topo, user, action,
                       Indices(IndicesRequest(Some([Some("searchguard")]), [])), Some(CALLER)).result == Success(false)
  {
    SingleNameResolves(topo, "searchguard", []);
    ConfigIndexProtected(DEFAULT_CONFIG_INDEX, snap, topo, user, action,
                         Indices(IndicesRequest(Some([Some("searchguard")]), [])), Some(CALLER));
  }

  /** Two single-index patterns `a` and `b`, each granting read actions on type `t`. */
  const T_GRANT: IndexEntry := map["t" := Array([READ_PATTERN])]
  const HALVES := map["a" := T_GRANT, "b" := T_GRANT]
  const HALVES_TOPOLOGY := Topology({"a", "b"}, (n: string) => if n == "a" || n == "b" then Some({n}) else None)
  const BOTH_HALVES := Requested({"a", "b"}, {"t"}, false)

  /** The `t` key grants the search on type `t`. */
  lemma TGrantGrants()
    ensures GrantingAmong(None, T_GRANT, SEARCH, {"t"}, PermittedTypes(T_GRANT)) == {"t"}
  {
    TKeyGrants();
    assert T_GRANT.Keys == {"t"};
    SingleKeyGranting(None, T_GRANT, "t", SEARCH, {"t"});
  }

  lemma TKeyGrants()
    ensures TypeGrants(None, T_GRANT, "t", SEARCH, {"t"})
  {
    ReadPatternGrantsSearch();
    ReadPatternTrimmed();
    assert GetAsArray(T_GRANT, "t") == [READ_PATTERN];
    LiteralMatch("t", "t");
    assert "t" in GetMatchAny("t", {"t"});
  }

  /** Each of the two patterns removes only its own index. */
  lemma HalfRemoved(p: string)
    requires p == "a" || p == "b"
    ensures Removed(None, HALVES_TOPOLOGY, p, T_GRANT, SEARCH, BOTH_HALVES).indices == {p}
  {
    TGrantGrants();
    assert !ContainsWildcard(p);
    HalfPermitted(p);
    LiteralRemoved(None, HALVES_TOPOLOGY, p, T_GRANT, SEARCH, BOTH_HALVES, {"t"});
    assert BOTH_HALVES.indices * {p} == {p};
  }

  lemma HalfPermitted(p: string)
    requires p == "a" || p == "b"
    ensures PermittedIndices(HALVES_TOPOLOGY, p) == {p}
  {
  }

  /** Two patterns that each cover one of two requested indices grant nothing, though together they cover both. */
  lemma HalvesDoNotAddUp()
    ensures SatisfyingPatterns(None, HALVES_TOPOLOGY, HALVES, SEARCH, BOTH_HALVES) == {}
  {
    forall p | p in HALVES
      ensures Removed(None, HALVES_TOPOLOGY, p, HALVES[p], SEARCH, BOTH_HALVES) != BOTH_HALVES
    {
      assert p == "a" || p == "b";
      assert HALVES[p] == T_GRANT;
      HalfRemoved(p);
    }
    NoCumulativeCoverage(None, HALVES_TOPOLOGY, HALVES, SEARCH, BOTH_HALVES);
  }
}
