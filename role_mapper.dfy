/**
 * `mapSgRoles`: the roles a user is mapped to. Every mapping entry is
 * tested on its own; an entry applies when any one of its four criteria
 * holds.
 */
module RoleMapper {
  import opened Wrappers
  import opened Wildcard
  import opened Settings
  import opened Configuration

  /** The four criteria of one mapping entry, any of which assigns the role. */
  predicate MappingApplies(m: RoleMapping, user: User, caller: Option<TransportAddress>) {
    || MatchAnyOfAny(ArrayOf(m.backendRoles), user.roles)
    || MatchAny(ArrayOf(m.users), user.name)
    || (caller.Some? && MatchAny(ArrayOf(m.hosts), caller.value.address))
    || (caller.Some? && MatchAny(ArrayOf(m.hosts), caller.value.host))
  }

  /** The mapped role names: none for a missing user. */
  function MappedRoles(mapping: map<string, RoleMapping>, user: Option<User>, caller: Option<TransportAddress>)
    : (r: set<string>)
    ensures user.None? ==> r == {}
    ensures r <= mapping.Keys
  {
    if user.None? then {}
    else set name | name in mapping && MappingApplies(mapping[name], user.value, caller)
  }

  /** `mapSgRoles(user, caller)`. */
  method MapSgRoles(mapping: map<string, RoleMapping>, user: Option<User>, caller: Option<TransportAddress>)
    returns (sgRoles: set<string>)
    ensures user.None? ==> sgRoles == {}
    ensures sgRoles <= mapping.Keys
    ensures forall name :: name in sgRoles <==>
      && user.Some?
      && name in mapping
      && (|| MatchAnyOfAny(ArrayOf(mapping[name].backendRoles), user.value.roles)
          || MatchAny(ArrayOf(mapping[name].users), user.value.name)
          || (caller.Some? && MatchAny(ArrayOf(mapping[name].hosts), caller.value.address))
          || (caller.Some? && MatchAny(ArrayOf(mapping[name].hosts), caller.value.host)))
    ensures sgRoles == MappedRoles(mapping, user, caller)
  {
    if user.None? {
      return {};
    }
    var u := user.value;
    sgRoles := {};
    var remaining := mapping.Keys;
    while remaining != {}
      invariant remaining <= mapping.Keys
      invariant forall name :: name in sgRoles <==>
        name in mapping && name !in remaining && MappingApplies(mapping[name], u, caller)
      decreases remaining
    {
      var roleMap :| roleMap in remaining;
      remaining := remaining - {roleMap};
      var settings := mapping[roleMap];
      if MatchAnyOfAny(ArrayOf(settings.backendRoles), u.roles) {
        sgRoles := sgRoles + {roleMap};
        continue;
      }
      if MatchAny(ArrayOf(settings.users), u.name) {
        sgRoles := sgRoles + {roleMap};
        continue;
      }
      if caller.Some? && MatchAny(ArrayOf(settings.hosts), caller.value.address) {
        sgRoles := sgRoles + {roleMap};
        continue;
      }
      if caller.Some? && MatchAny(ArrayOf(settings.hosts), caller.value.host) {
        sgRoles := sgRoles + {roleMap};
        continue;
      }
    }
  }
}
