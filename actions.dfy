/**
 * Action strings in the evaluator: `resolveActions`, the fixed deny-list
 * that protects the configuration index, and the classification of
 * cluster-scoped actions.
 */
module Actions {
  import opened Wrappers
  import opened Strings
  import opened Wildcard
  import opened ActionGroups

  /** Actions with this prefix are refused before anything else is looked at. */
  const SNAPSHOT_RESTORE := "cluster:admin/snapshot/restore"

  /** The deny-list built by the evaluator's constructor. */
  const DENIED_ACTION_PATTERNS: seq<string> := ["indices:data/write*", "indices:admin/close", "indices:admin/delete"]

  /**
   * Actions decided by the roles' `.cluster` patterns rather than by index
   * grants; a snapshot restore would be one of them, were it not refused
   * before the roles are consulted.
   */
  predicate IsClusterAction(action: string): (b: bool)
    ensures StartsWith(action, SNAPSHOT_RESTORE) ==> b
  {
    || StartsWith(action, "cluster:")
    || StartsWith(action, "indices:admin/template/delete")
    || StartsWith(action, "indices:admin/template/get")
    || StartsWith(action, "indices:admin/template/put")
    || StartsWith(action, "indices:data/read/scroll")
  }

  /** One entry of `resolveActions`: the group's members, or the entry itself when it has none. */
  function ResolveAction(groups: Option<GroupTable>, entry: string): set<string> {
    var members := GroupMembers(groups, entry);
    if members == {} then {entry} else members
  }

  /** `resolveActions(actions)`: the union of the entries' resolutions; every entry contributes something. */
  function ResolvedActions(groups: Option<GroupTable>, actions: seq<string>): (r: set<string>)
    ensures r == {} <==> actions == []
  {
    if actions == [] then {}
    else ResolvedActions(groups, actions[..|actions| - 1]) + ResolveAction(groups, actions[|actions| - 1])
  }

  /** An action is resolved exactly when some entry resolves to it. */
  lemma {:induction false} ResolvedActionsMembers(groups: Option<GroupTable>, actions: seq<string>, x: string)
    ensures x in ResolvedActions(groups, actions)
        <==> exists i :: 0 <= i < |actions| && x in ResolveAction(groups, actions[i])
    decreases |actions|
  {
    if actions != [] {
      var init := actions[..|actions| - 1];
      ResolvedActionsMembers(groups, init, x);
      if x in ResolvedActions(groups, init) {
        var i :| 0 <= i < |init| && x in ResolveAction(groups, init[i]);
        assert init[i] == actions[i];
      }
      if exists i :: 0 <= i < |actions| && x in ResolveAction(groups, actions[i]) {
        var i :| 0 <= i < |actions| && x in ResolveAction(groups, actions[i]);
        if i < |init| {
          assert init[i] == actions[i];
        }
      }
    }
  }

  /** An entry that names no group (or a group with no members) is kept as a literal action. */
  lemma LiteralActionKept(groups: Option<GroupTable>, actions: seq<string>, i: nat)
    requires i < |actions| && GroupMembers(groups, actions[i]) == {}
    ensures actions[i] in ResolvedActions(groups, actions)
  {
    assert actions[i] in ResolveAction(groups, actions[i]);
    ResolvedActionsMembers(groups, actions, actions[i]);
  }

  /** `resolveActions`: a loop over the entries, consulting the action-group holder for each. */
  method ResolveActions(groups: Option<GroupTable>, actions: seq<string>) returns (resolved: set<string>)
    ensures resolved == ResolvedActions(groups, actions)
  {
    resolved := {};
    for i := 0 to |actions|
      invariant resolved == ResolvedActions(groups, actions[..i])
    {
      var entry := actions[i];
      assert actions[..i + 1][..i] == actions[..i];
      var members := GetGroupMembers(groups, entry);
      if members == {} {
        resolved := resolved + {entry};
      } else {
        resolved := resolved + members;
      }
    }
    assert actions[..|actions|] == actions;
  }

  /** The deny-list in words: any write action, closing an index, deleting an index. */
  lemma DeniedActionIff(action: string)
    ensures MatchAny(DENIED_ACTION_PATTERNS, action)
        <==> StartsWith(action, "indices:data/write") || action == "indices:admin/close" || action == "indices:admin/delete"
  {
    assert "indices:data/write" + "*" == "indices:data/write*";
    PrefixStarMatch("indices:data/write", action);
    LiteralMatch("indices:admin/close", action);
    LiteralMatch("indices:admin/delete", action);
  }

  /** Updating settings and upgrading are deliberately absent from the deny-list. */
  lemma SettingsUpdateAndUpgradeNotDenied()
    ensures !MatchAny(DENIED_ACTION_PATTERNS, "indices:admin/settings/update")
    ensures !MatchAny(DENIED_ACTION_PATTERNS, "indices:admin/upgrade")
  {
    DeniedActionIff("indices:admin/settings/update");
    DeniedActionIff("indices:admin/upgrade");
    assert "indices:admin/settings/update"[8] != "indices:data/write"[8];
    assert "indices:admin/upgrade"[8] != "indices:data/write"[8];
  }

  /** No cluster-scoped action is on the deny-list. */
  lemma ClusterActionsNotDenied(action: string)
    requires IsClusterAction(action)
    ensures !MatchAny(DENIED_ACTION_PATTERNS, action)
  {
    DeniedActionIff(action);
    if StartsWith(action, "cluster:") {
      assert action[0] == 'c';
    } else if StartsWith(action, "indices:data/read/scroll") {
      assert action[13] == 'r';
    } else {
      assert action[8] == 'a' && |action| > 20;
    }
  }
}
