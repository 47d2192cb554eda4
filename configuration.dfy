/**
 * The data the evaluator reads: one snapshot of the role, role-mapping and
 * action-group configuration sections, the caller, the cluster topology
 * and the shape of the request.
 */
module Configuration {
  import opened Wrappers
  import opened Strings
  import opened Settings
  import opened ActionGroups

  /**
   * The settings under one permitted index pattern of a role: type patterns
   * mapped to their action lists, beside the two reserved keys `_dls_`
   * (a row-filter template) and `_fls_` (field names).
   */
  type IndexEntry = map<string, Setting>

  /**
   * `settings.getAsArray(key)`: a missing key reads as no element, a single
   * string is cut at its commas, and every element comes back trimmed.
   */
  function GetAsArray(entry: IndexEntry, key: string): (r: seq<string>)
    ensures key !in entry ==> r == []
    ensures forall i :: 0 <= i < |r| ==> Trimmed(r[i])
  {
    if key !in entry then [] else AsArray(entry[key])
  }

  /** `settings.get(key)`: only a scalar value has a string form. */
  function Get(entry: IndexEntry, key: string): (r: Option<string>)
    ensures r.Some? <==> key in entry && entry[key].Scalar?
  {
    if key in entry && entry[key].Scalar? then Some(entry[key].value) else None
  }

  /** A role: its `.cluster` setting (absent when the role has none) and its `.indices` grants by index pattern. */
  datatype Role = Role(cluster: Option<Setting>, indices: map<string, IndexEntry>) {
    /** The role's settings have no names at all. */
    predicate IsEmpty() {
      cluster.None? && indices == map[]
    }
  }

  /** A role-mapping entry: its `.backendroles`, `.users` and `.hosts` settings, each possibly absent. */
  datatype RoleMapping = RoleMapping(backendRoles: Option<Setting>, users: Option<Setting>, hosts: Option<Setting>)

  /** The configuration sections one decision reads. */
  datatype Snapshot = Snapshot(
    roles: map<string, Role>,
    rolesMapping: map<string, RoleMapping>,
    actionGroups: Option<GroupTable>)

  /** The authenticated user: a name and the backend roles assigned by the authentication backend. */
  datatype User = User(name: string, roles: set<string>)

  /** The caller's transport address: its address literal and its host name. */
  datatype TransportAddress = TransportAddress(address: string, host: string)

  /**
   * The cluster's index topology. `concrete(name)` resolves an index, alias
   * or index expression to concrete index names, or is None when the
   * cluster knows no such index or alias.
   */
  datatype Topology = Topology(allIndices: set<string>, concrete: string -> Option<set<string>>)

  /**
   * An indices request: its declared index names (the array itself and
   * each entry may be null) and its declared types (`type()` and `types()`
   * together).
   */
  datatype IndicesRequest = IndicesRequest(indices: Option<seq<Option<string>>>, types: seq<string>)

  /** What the evaluator can see of a request's targets. */
  datatype RequestShape =
    | NonIndices
    | Composite(subRequests: seq<IndicesRequest>)
    | Indices(request: IndicesRequest)
}
