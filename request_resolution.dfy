/**
 * The two `resolve` overloads: which indices and which types a request
 * addresses, with `_all` standing for every index or every type.
 */
module RequestResolution {
  import opened Wrappers
  import opened Configuration

  /** The sentinel for "every index" and for "every type". */
  const ALL := "_all"

  /**
   * The requested indices and types of one request. `nullIndex` says that
   * the index set also holds null: a request whose names cannot be resolved
   * falls back to its raw declared names, null entries included.
   */
  datatype Requested = Requested(indices: set<string>, types: set<string>, nullIndex: bool)

  /**
   * The topology's resolution of declared names: the union of their
   * concrete indices, or None (the resolver throws) when a name is null or
   * unknown to the cluster.
   */
  function ResolveNames(topo: Topology, names: seq<Option<string>>): Option<set<string>> {
    if names == [] then Some({})
    else
      match ResolveNames(topo, names[..|names| - 1])
      case None => None
      case Some(acc) =>
        var last := names[|names| - 1];
        if last.None? then None
        else
          match topo.concrete(last.value)
          case None => None
          case Some(concrete) => Some(acc + concrete)
  }

  /** The raw declared names other than null, used when resolution fails. */
  function RawNames(names: seq<Option<string>>): set<string> {
    set i | 0 <= i < |names| && names[i].Some? :: names[i].value
  }

  /** Some declared name is null. */
  predicate HasNullName(names: seq<Option<string>>) {
    exists i :: 0 <= i < |names| && names[i].None?
  }

  /** No index is declared: the array is null, empty, or holds only nulls. */
  predicate NoIndicesDeclared(indices: Option<seq<Option<string>>>) {
    indices.None? || forall i :: 0 <= i < |indices.value| ==> indices.value[i].None?
  }

  /**
   * The second `resolve` overload, for one indices request. A null entry
   * is only ever carried beside a real name, and only when the request
   * declares one.
   */
  function ResolveIndicesRequest(topo: Topology, request: IndicesRequest): (r: Requested)
    ensures r.nullIndex ==> r.indices != {}
    ensures r.nullIndex ==> request.indices.Some? && HasNullName(request.indices.value)
    ensures NoIndicesDeclared(request.indices) ==> r.indices == topo.allIndices && !r.nullIndex
  {
    var types := set t | t in request.types;
    if NoIndicesDeclared(request.indices) then Requested(topo.allIndices, types, false)
    else
      var names := request.indices.value;
      match ResolveNames(topo, names)
      case Some(concrete) => Requested(concrete, types, false)
      case None =>
        var i :| 0 <= i < |names| && names[i].Some?;
        assert names[i].value in RawNames(names);
        Requested(RawNames(names), types, HasNullName(names))
  }

  /** The sub-requests' resolutions, united. */
  function UnionResolved(topo: Topology, subRequests: seq<IndicesRequest>): (r: Requested)
    ensures r.nullIndex ==> r.indices != {}
  {
    if subRequests == [] then Requested({}, {}, false)
    else
      var acc := UnionResolved(topo, subRequests[..|subRequests| - 1]);
      var last := ResolveIndicesRequest(topo, subRequests[|subRequests| - 1]);
      Requested(acc.indices + last.indices, acc.types + last.types, acc.nullIndex || last.nullIndex)
  }

  /** `isAllIndices`: no index at all, or exactly `_all`. */
  predicate IsAllIndices(indices: set<string>) {
    indices == {} || indices == {ALL}
  }

  /** The first `resolve` overload: the whole request, normalised. */
  function Resolved(topo: Topology, shape: RequestShape): (r: Requested)
    ensures r.indices != {} && r.types != {}
    ensures shape.NonIndices? ==> r == Requested({ALL}, {ALL}, false)
  {
    match shape
    case NonIndices => Requested({ALL}, {ALL}, false)
    case Composite(subRequests) => Normalised(UnionResolved(topo, subRequests))
    case Indices(request) => Normalised(ResolveIndicesRequest(topo, request))
  }

  /**
   * An all-indices result collapses to `_all`; no types means every type.
   * A set that holds null is never all indices: with null in it, it is
   * neither empty nor exactly `_all`.
   */
  function Normalised(raw: Requested): (r: Requested)
    ensures r.types != {} && r.nullIndex == raw.nullIndex
    ensures !raw.nullIndex ==> r.indices != {}
    ensures raw.nullIndex ==> r.indices == raw.indices
  {
    Requested(if !raw.nullIndex && IsAllIndices(raw.indices) then {ALL} else raw.indices,
              if raw.types == {} then {ALL} else raw.types,
              raw.nullIndex)
  }

  /** `resolve(user, action, request, metaData)`. */
  method Resolve(topo: Topology, shape: RequestShape) returns (indices: set<string>, types: set<string>, nullIndex: bool)
    ensures Requested(indices, types, nullIndex) == Resolved(topo, shape)
  {
    if shape.NonIndices? {
      return {ALL}, {ALL}, false;
    }
    indices, types, nullIndex := {}, {}, false;
    if shape.Composite? {
      var subRequests := shape.subRequests;
      for i := 0 to |subRequests|
        invariant Requested(indices, types, nullIndex) == UnionResolved(topo, subRequests[..i])
      {
        assert subRequests[..i + 1][..i] == subRequests[..i];
        var t := ResolveIndicesRequest(topo, subRequests[i]);
        indices := indices + t.indices;
        types := types + t.types;
        nullIndex := nullIndex || t.nullIndex;
      }
      assert subRequests[..|subRequests|] == subRequests;
    } else {
      var t := ResolveIndicesRequest(topo, shape.request);
      indices := indices + t.indices;
      types := types + t.types;
      nullIndex := t.nullIndex;
    }
    if !nullIndex && IsAllIndices(indices) {
      indices := {ALL};
    }
    if types == {} {
      types := {ALL};
    }
  }

  /** A composite request addresses exactly what its sub-requests address together. */
  lemma {:induction false} CompositeIsUnion(topo: Topology, subRequests: seq<IndicesRequest>, x: string)
    ensures x in UnionResolved(topo, subRequests).indices
        <==> exists i :: 0 <= i < |subRequests| && x in ResolveIndicesRequest(topo, subRequests[i]).indices
    ensures x in UnionResolved(topo, subRequests).types
        <==> exists i :: 0 <= i < |subRequests| && x in ResolveIndicesRequest(topo, subRequests[i]).types
    decreases |subRequests|
  {
    if subRequests != [] {
      var init := subRequests[..|subRequests| - 1];
      CompositeIsUnion(topo, init, x);
      assert forall i :: 0 <= i < |init| ==> init[i] == subRequests[i];
    }
  }

  /** Resolution succeeds exactly when every declared name is non-null and known to the cluster. */
  lemma {:induction false} ResolveNamesSucceeds(topo: Topology, names: seq<Option<string>>)
    ensures ResolveNames(topo, names).Some?
        <==> forall i :: 0 <= i < |names| ==> names[i].Some? && topo.concrete(names[i].value).Some?
    decreases |names|
  {
    if names != [] {
      var init := names[..|names| - 1];
      ResolveNamesSucceeds(topo, init);
      assert forall i :: 0 <= i < |init| ==> init[i] == names[i];
    }
  }

  /** A request that declares no types addresses every type. */
  lemma NoTypesMeansAllTypes(topo: Topology, request: IndicesRequest)
    requires request.types == []
    ensures Resolved(topo, Indices(request)).types == {ALL}
  {
    assert (set t | t in request.types) == {};
  }

  /** A request that declares no index addresses every concrete index (or `_all` on an empty cluster). */
  lemma NoIndicesMeansEveryIndex(topo: Topology, request: IndicesRequest)
    requires NoIndicesDeclared(request.indices)
    ensures Resolved(topo, Indices(request)).indices == if IsAllIndices(topo.allIndices) then {ALL} else topo.allIndices
  {
  }

  /**
   * A name the cluster does not know makes the request fall back to its raw
   * names, null entries included.
   */
  lemma UnknownNameKeepsRawNames(topo: Topology, request: IndicesRequest, i: nat)
    requires request.indices.Some? && i < |request.indices.value|
    requires request.indices.value[i].Some? && topo.concrete(request.indices.value[i].value).None?
    ensures var raw := RawNames(request.indices.value);
            var r := Resolved(topo, Indices(request));
            && r.nullIndex == HasNullName(request.indices.value)
            && r.indices == if !r.nullIndex && IsAllIndices(raw) then {ALL} else raw
  {
    ResolveNamesSucceeds(topo, request.indices.value);
  }

  /**
   * A null entry beside a declared name makes resolution fail, and the
   * request then addresses its raw names with the null among them.
   */
  lemma NullNameKeptBesideNames(topo: Topology, request: IndicesRequest, i: nat, j: nat)
    requires request.indices.Some? && i < |request.indices.value| && j < |request.indices.value|
    requires request.indices.value[i].None? && request.indices.value[j].Some?
    ensures Resolved(topo, Indices(request)).nullIndex
    ensures Resolved(topo, Indices(request)).indices == RawNames(request.indices.value)
  {
    ResolveNamesSucceeds(topo, request.indices.value);
  }
}
