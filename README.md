# Search Guard privileges evaluation, modelled in Dafny

Search Guard guards an Elasticsearch cluster. Each transport action is authorised by
`PrivilegesEvaluator.evaluate(user, action, request)`, which runs these steps in order:

1. Any snapshot restore is refused and audited.
2. The request must carry the caller's remote address.
3. A write, close or delete action aimed at the configuration index (by default `searchguard`) or at `_all` is refused and audited.
4. A request on either of those targets has its request cache and realtime flags switched off.
5. The user is mapped to Search Guard roles, by backend role, user name, caller address or caller host name.
6. A loop over the mapped roles decides:
   - A cluster-scoped action is allowed as soon as one role's `.cluster` patterns, with action groups expanded, match it.
   - Any other action is allowed when one permitted index pattern of one role removes, on its own, every requested index and every requested type. The pattern removes the requested indices it matches, and the requested types that its granting type keys match.
7. Every satisfying pattern contributes its row filter, `_dls_` with `${user.name}` filled in, and its field list, `_fls_`. These travel on the request as headers.

Action groups (`ActionGroupHolder`) map a group name to members. A member is either another group, expanded recursively, or an action pattern.

The model has these modules:

- `Wildcard` is the `*` matcher.
- `Strings` covers `startsWith`, `replace` and `trim`, and the cutting of a string at its commas.
- `Settings` is how a configuration value is read as an array (`getAsArray` of Elasticsearch 2): a single string is cut at its commas with the empty pieces dropped, and every element is trimmed.
- `Configuration` holds the snapshot of the roles, role-mapping and action-group sections, plus the request shapes and the cluster topology.
- `ActionGroups` is the action-group expansion.
- `Actions` holds `resolveActions`, the deny-list and the cluster-action test.
- `RoleMapper` is `mapSgRoles`.
- `RequestResolution` holds both `resolve` overloads.
- `IndexMatching` holds the two index handlers and their type loop.
- `Evaluator` holds the role loop.
  - It specifies the whole decision as the function `Evaluation`.
  - Its class `PrivilegesEvaluator` performs the decision step by step on a mutable `ActionRequest` and an `AuditLog`.
  - `Evaluate` is proved to leave exactly the result, audit events, flags and headers that `Evaluation` describes.
- `EvaluatorProperties` proves what the evaluator promises, for all inputs.
- `Scenarios` replays the authorisation checks of the integration test for the user `worf` under a reconstructed role.

## Model

| member | source | states |
|---|---|---|
| ActionGroups.ExpandList | src/main/java/com/floragunn/searchguard/configuration/ActionGroupHolder.java:47-60 | no element of a group expansion is itself a group name |
| ActionGroups.ExpandMember | src/main/java/com/floragunn/searchguard/configuration/ActionGroupHolder.java:52-57 | expanding one member never yields a group name: groups are expanded, other members kept |
| ActionGroups.GetGroupMembers | src/main/java/com/floragunn/searchguard/configuration/ActionGroupHolder.java:36-45 | a missing configuration gives no members; an unknown group name gives no members; no member returned is a group name; the result is the group's expansion |
| ActionGroups.GroupMembers | src/main/java/com/floragunn/searchguard/configuration/ActionGroupHolder.java:36-45 | a missing configuration or an unknown group name gives no members; no member returned names a group |
| ActionGroups.Resolve | src/main/java/com/floragunn/searchguard/configuration/ActionGroupHolder.java:47-60 | the loop over the entry's members accumulates exactly the expansion of the member list |
| ActionGroups.ExpandListMembership | src/main/java/com/floragunn/searchguard/configuration/ActionGroupHolder.java:49-59 | a value is in a group's expansion iff it is in the expansion of one of the group's members |
| ActionGroups.ExpandListIgnoresOrder | src/main/java/com/floragunn/searchguard/configuration/ActionGroupHolder.java:49-59 | the expansion depends only on which members are listed, not on their order or repetitions |
| ActionGroups.LeafMemberKept | src/main/java/com/floragunn/searchguard/configuration/ActionGroupHolder.java:55-56 | a member that names no group is returned verbatim |
| ActionGroups.PathIrrelevant | src/main/java/com/floragunn/searchguard/configuration/ActionGroupHolder.java:47-60 | on an acyclic (ranked) table the visited-group guard never changes the expansion |
| ActionGroups.GroupUnfolds | src/main/java/com/floragunn/searchguard/configuration/ActionGroupHolder.java:47-60 | on an acyclic table x is a member of a group iff some listed member is a group containing x, or is x itself and names no group: the source's recursion |
| ActionGroups.ResolveAsWritten | src/main/java/com/floragunn/searchguard/configuration/ActionGroupHolder.java:47-60 | whatever the unguarded recursion returns within the available depth names no group |
| ActionGroups.ResolveListAsWritten | src/main/java/com/floragunn/searchguard/configuration/ActionGroupHolder.java:49-59 | whatever the unguarded loop over a member list returns within the available depth names no group |
| ActionGroups.SelfMemberOverflows | src/main/java/com/floragunn/searchguard/configuration/ActionGroupHolder.java:47-60 | the unguarded recursion as written, on the table {"A": ["A"]}, exhausts every stack depth |
| ActionGroups.SelfMemberGuarded | src/main/java/com/floragunn/searchguard/configuration/ActionGroupHolder.java:47-60 | the guarded expansion of a self-listing group terminates; the self-reference contributes nothing |
| Configuration.GetAsArray | src/main/java/com/floragunn/searchguard/configuration/PrivilegesEvaluator.java:344 | a missing key reads as an empty array; every element read is trimmed |
| Configuration.Get | src/main/java/com/floragunn/searchguard/configuration/PrivilegesEvaluator.java:343 | a value is found iff the key holds a single string |
| Settings.AsArray | src/main/java/com/floragunn/searchguard/configuration/PrivilegesEvaluator.java:344 | every element of a value read as an array is trimmed; an array value keeps its length |
| Settings.ArrayOf | src/main/java/com/floragunn/searchguard/configuration/PrivilegesEvaluator.java:404-419 | an absent setting reads as an empty array |
| Settings.SplitByComma | src/main/java/com/floragunn/searchguard/configuration/PrivilegesEvaluator.java:344 | a single string yields exactly its non-empty comma-separated pieces |
| Settings.NonEmptyPieces | src/main/java/com/floragunn/searchguard/configuration/PrivilegesEvaluator.java:344 | exactly the non-empty pieces are kept, and no more pieces than there were |
| Settings.TrimmedArrayKept | src/main/java/com/floragunn/searchguard/configuration/PrivilegesEvaluator.java:344 | an array of already trimmed strings reads back unchanged |
| Settings.NonEmptyKept | src/main/java/com/floragunn/searchguard/configuration/PrivilegesEvaluator.java:344 | when no piece is empty every piece is kept |
| Settings.CommaListSplits | src/main/java/com/floragunn/searchguard/configuration/PrivilegesEvaluator.java:344 | a comma list of trimmed, comma-free pieces reads as those pieces with the empty ones dropped |
| Settings.CommaListOfElements | src/main/java/com/floragunn/searchguard/configuration/PrivilegesEvaluator.java:344 | a comma list of non-empty, trimmed, comma-free elements reads as exactly those elements |
| Settings.EmptyMiddlePieceDropped | src/main/java/com/floragunn/searchguard/configuration/PrivilegesEvaluator.java:344 | `a,,b` reads as `a` and `b` |
| Settings.BlankAfterCommaTrimmed | src/main/java/com/floragunn/searchguard/configuration/PrivilegesEvaluator.java:344 | `a, b`, with any blanks after the comma, reads as `a` and `b` |
| Actions.ResolvedActionsMembers | src/main/java/com/floragunn/searchguard/configuration/PrivilegesEvaluator.java:692-705 | an action is resolved iff some entry resolves to it: the group's members, or the entry itself when the group has none |
| Actions.LiteralActionKept | src/main/java/com/floragunn/searchguard/configuration/PrivilegesEvaluator.java:696-701 | an entry without group members is kept as a literal action |
| Actions.ResolveActions | src/main/java/com/floragunn/searchguard/configuration/PrivilegesEvaluator.java:692-705 | the loop over the entries computes exactly the union of their resolutions |
| Actions.DeniedActionIff | src/main/java/com/floragunn/searchguard/configuration/PrivilegesEvaluator.java:127-134 | the deny-list matches an action iff it is a write action, closing an index or deleting an index |
| Actions.SettingsUpdateAndUpgradeNotDenied | src/main/java/com/floragunn/searchguard/configuration/PrivilegesEvaluator.java:127-134 | updating settings and upgrading are not on the deny-list |
| Actions.ClusterActionsNotDenied | src/main/java/com/floragunn/searchguard/configuration/PrivilegesEvaluator.java:127-134 | no cluster-scoped action is on the deny-list |
| Actions.IsClusterAction | src/main/java/com/floragunn/searchguard/configuration/PrivilegesEvaluator.java:247-249 | every snapshot restore action passes the cluster-action test |
| Actions.ResolvedActions | src/main/java/com/floragunn/searchguard/configuration/PrivilegesEvaluator.java:692-705 | the resolved set of actions is empty exactly when the list of entries is |
| RoleMapper.MapSgRoles | src/main/java/com/floragunn/searchguard/configuration/PrivilegesEvaluator.java:395-428 | no user gives no roles; only mapping names are returned; a name is returned iff its backend-role, user, address or host patterns match |
| RoleMapper.MappedRoles | src/main/java/com/floragunn/searchguard/configuration/PrivilegesEvaluator.java:395-428 | a missing user is mapped to no role; only names of mapping entries are returned |
| RequestResolution.Resolved | src/main/java/com/floragunn/searchguard/configuration/PrivilegesEvaluator.java:555-596 | the requested indices and types are never empty; a request that is not about indices addresses `_all` indices and types |
| RequestResolution.Normalised | src/main/java/com/floragunn/searchguard/configuration/PrivilegesEvaluator.java:583-593 | the types are never empty; a set holding a null entry is kept as it is, never collapsed to `_all`; any other set of indices is non-empty |
| RequestResolution.ResolveIndicesRequest | src/main/java/com/floragunn/searchguard/configuration/PrivilegesEvaluator.java:598-690 | a null entry is only carried beside a real index name, and only when the request declares a null name; a request without declared indices addresses every concrete index |
| RequestResolution.UnionResolved | src/main/java/com/floragunn/searchguard/configuration/PrivilegesEvaluator.java:570-580 | a composite request carries a null entry only beside a real index name |
| RequestResolution.Resolve | src/main/java/com/floragunn/searchguard/configuration/PrivilegesEvaluator.java:555-596 | the method returns exactly the resolved indices and types of the request |
| RequestResolution.CompositeIsUnion | src/main/java/com/floragunn/searchguard/configuration/PrivilegesEvaluator.java:570-580 | a composite request addresses an index or type iff one of its sub-requests does |
| RequestResolution.ResolveNamesSucceeds | src/main/java/com/floragunn/searchguard/configuration/PrivilegesEvaluator.java:678-686 | name resolution succeeds iff every declared name is non-null and known to the cluster |
| RequestResolution.NoTypesMeansAllTypes | src/main/java/com/floragunn/searchguard/configuration/PrivilegesEvaluator.java:591-593 | a request without types addresses `_all` types |
| RequestResolution.NoIndicesMeansEveryIndex | src/main/java/com/floragunn/searchguard/configuration/PrivilegesEvaluator.java:668-674 | a request without declared indices addresses every concrete index, or `_all` on an empty cluster |
| RequestResolution.UnknownNameKeepsRawNames | src/main/java/com/floragunn/searchguard/configuration/PrivilegesEvaluator.java:678-686 | one unknown name makes the request fall back to its raw declared names; the null entry is among them iff some declared name is null, and a set holding it is never collapsed to `_all` |
| RequestResolution.NullNameKeptBesideNames | src/main/java/com/floragunn/searchguard/configuration/PrivilegesEvaluator.java:678-686 | a null name beside a real one makes resolution fail, and the request then addresses its raw names with the null among them |
| IndexMatching.RemovedWithinRequest | src/main/java/com/floragunn/searchguard/configuration/PrivilegesEvaluator.java:430-553 | a pattern removes only requested indices (those it matches, or its own concrete indices) and only requested types matched by a granting type key other than `_dls_`/`_fls_` |
| IndexMatching.Removed | src/main/java/com/floragunn/searchguard/configuration/PrivilegesEvaluator.java:430-553 | a pattern removes only requested indices and types, never the null entry, and nothing at all unless some type key grants the action |
| IndexMatching.SingleKeyGranting | src/main/java/com/floragunn/searchguard/configuration/PrivilegesEvaluator.java:453-467 | an index entry whose only type key grants the action has exactly that key granting |
| IndexMatching.LiteralRemoved | src/main/java/com/floragunn/searchguard/configuration/PrivilegesEvaluator.java:487-553 | a wildcard-free pattern with granting keys removes the requested indices among its resolved indices and the requested types its keys match |
| IndexMatching.LiteralCoversRequest | src/main/java/com/floragunn/searchguard/configuration/PrivilegesEvaluator.java:487-553 | a wildcard-free pattern covers a request without a null entry when its resolved indices include all requested indices and its granting keys match all requested types |
| IndexMatching.Satisfies | src/main/java/com/floragunn/searchguard/configuration/PrivilegesEvaluator.java:302-335 | no pattern satisfies a request holding a null entry; a pattern satisfies a non-empty request only if one of its type keys grants the action |
| IndexMatching.SatisfyingPatterns | src/main/java/com/floragunn/searchguard/configuration/PrivilegesEvaluator.java:300-337 | satisfying patterns are permitted patterns of the role |
| IndexMatching.TypeKeyGrants | src/main/java/com/floragunn/searchguard/configuration/PrivilegesEvaluator.java:454-463 | a type key grants iff it matches a requested type and its expanded actions match the action |
| IndexMatching.VisitTypeKey | src/main/java/com/floragunn/searchguard/configuration/PrivilegesEvaluator.java:451-476 | one type key keeps the type loop's invariant: working copies lose the indices (once any key granted) and the types matched by granting keys |
| IndexMatching.RemoveGrantedTypes | src/main/java/com/floragunn/searchguard/configuration/PrivilegesEvaluator.java:529-552 | after all type keys the working copies have lost the indices to remove iff some key granted, and exactly the requested types the granting keys match |
| IndexMatching.HandleIndicesWithWildcard | src/main/java/com/floragunn/searchguard/configuration/PrivilegesEvaluator.java:430-485 | only requested indices matching the pattern are removed; the new working copies are the old ones minus what the pattern removes |
| IndexMatching.HandleIndicesWithoutWildcard | src/main/java/com/floragunn/searchguard/configuration/PrivilegesEvaluator.java:487-553 | only requested indices among the pattern's concrete indices are removed; the new working copies are the old ones minus what the pattern removes |
| IndexMatching.EvaluatePatterns | src/main/java/com/floragunn/searchguard/configuration/PrivilegesEvaluator.java:300-337 | the loop records exactly the patterns that alone empty fresh copies of both requested sets |
| IndexMatching.SatisfiesIffCoversAlone | src/main/java/com/floragunn/searchguard/configuration/PrivilegesEvaluator.java:302-335 | a pattern satisfies the request iff what it removes is the whole request |
| IndexMatching.NoCumulativeCoverage | src/main/java/com/floragunn/searchguard/configuration/PrivilegesEvaluator.java:302-303 | when no single pattern covers the request the role has no satisfying pattern, however much the patterns cover together |
| Evaluator.DlsOfGrant | src/main/java/com/floragunn/searchguard/configuration/PrivilegesEvaluator.java:343-355 | a satisfying grant contributes at most one row filter |
| Evaluator.RoleGrant | src/main/java/com/floragunn/searchguard/configuration/PrivilegesEvaluator.java:300-337 | a role's satisfying patterns are among its permitted index patterns |
| Evaluator.RoleStep | src/main/java/com/floragunn/searchguard/configuration/PrivilegesEvaluator.java:229-375 | visiting one more role adds exactly that role's cluster grant, index grant, row filters and field names |
| Evaluator.RolesDecision | src/main/java/com/floragunn/searchguard/configuration/PrivilegesEvaluator.java:225-375 | a cluster-scoped action never carries row filters or field names |
| Evaluator.CollectDirectives | src/main/java/com/floragunn/searchguard/configuration/PrivilegesEvaluator.java:339-370 | the loop adds exactly the row filters and field names of the role's satisfying patterns |
| Evaluator.EvaluateRoles | src/main/java/com/floragunn/searchguard/configuration/PrivilegesEvaluator.java:225-375 | the role loop, including its early return for cluster actions, computes exactly `RolesDecision` |
| Evaluator.AuditLog.LogMissingPrivileges | src/main/java/com/floragunn/searchguard/configuration/PrivilegesEvaluator.java:164 | one missing-privileges event is appended |
| Evaluator.AuditLog.LogSgIndexAttempt | src/main/java/com/floragunn/searchguard/configuration/PrivilegesEvaluator.java:190 | one configuration-index event is appended |
| Evaluator.Evaluation | src/main/java/com/floragunn/searchguard/configuration/PrivilegesEvaluator.java:161-390 | only a missing remote address throws, and never for a snapshot restore; an audited request is refused, carries no decision and is not neutralised; a neutralised request is not audited; otherwise the result is the role loop's decision |
| Evaluator.PrivilegesEvaluator.constructor | src/main/java/com/floragunn/searchguard/configuration/PrivilegesEvaluator.java:84-136 | the protected index is the configured one or the default; the deny-list is the three fixed patterns |
| Evaluator.PrivilegesEvaluator.Evaluate | src/main/java/com/floragunn/searchguard/configuration/PrivilegesEvaluator.java:161-390 | the result, the appended audit event, the cache and realtime flags and both headers are exactly those `Evaluation` determines |
| Evaluator.PrivilegesEvaluator.Neutralise | src/main/java/com/floragunn/searchguard/configuration/PrivilegesEvaluator.java:202-217 | a search request loses its request cache, a realtime request its realtime flag; the headers are untouched |
| Evaluator.PrivilegesEvaluator.AttachDirectives | src/main/java/com/floragunn/searchguard/configuration/PrivilegesEvaluator.java:381-387 | non-empty row filters and field names become headers; the flags are untouched |
| EvaluatorProperties.RestoreRefusedFirst | src/main/java/com/floragunn/searchguard/configuration/PrivilegesEvaluator.java:163-167 | a snapshot restore is refused and audited whatever else holds |
| EvaluatorProperties.DeniedIsNotRestore | src/main/java/com/floragunn/searchguard/configuration/PrivilegesEvaluator.java:163-200 | no denied action is a snapshot restore, so the two refusals never overlap |
| EvaluatorProperties.ConfigIndexProtected | src/main/java/com/floragunn/searchguard/configuration/PrivilegesEvaluator.java:188-200 | writing to, closing or deleting the configuration index or `_all` is refused and audited whatever the roles grant |
| EvaluatorProperties.RoleLoopDecides | src/main/java/com/floragunn/searchguard/configuration/PrivilegesEvaluator.java:202-389 | past the early refusals the role loop over the mapped roles decides, nothing is audited, and the flags are switched off iff the configuration index or `_all` is requested |
| EvaluatorProperties.SettingsUpdateAndUpgradeLeftToRoles | src/main/java/com/floragunn/searchguard/configuration/PrivilegesEvaluator.java:127-134 | updating settings and upgrading are decided by the roles, even on the configuration index |
| EvaluatorProperties.NeutralisedIffProtectedAndReached | src/main/java/com/floragunn/searchguard/configuration/PrivilegesEvaluator.java:202-217 | the flags are switched off iff the evaluation got past the refusals and addresses the configuration index or `_all` |
| EvaluatorProperties.MissingAddressIsError | src/main/java/com/floragunn/searchguard/configuration/PrivilegesEvaluator.java:163-169 | a request without a remote address fails, unless it is a snapshot restore |
| EvaluatorProperties.EmptyRoleGrantsNothing | src/main/java/com/floragunn/searchguard/configuration/PrivilegesEvaluator.java:231-240 | an empty role grants neither a cluster action nor an index pattern, so skipping it loses nothing |
| EvaluatorProperties.ClusterActionAllowedIff | src/main/java/com/floragunn/searchguard/configuration/PrivilegesEvaluator.java:247-269 | a cluster action is allowed iff a mapped, defined role's expanded `.cluster` patterns match it; it carries no row filter or field name |
| EvaluatorProperties.ClusterGrantingIff | src/main/java/com/floragunn/searchguard/configuration/PrivilegesEvaluator.java:231-269 | some active role grants a cluster action iff some defined role does |
| EvaluatorProperties.ClusterDecisionIgnoresIndexGrants | src/main/java/com/floragunn/searchguard/configuration/PrivilegesEvaluator.java:247-269 | for cluster actions the index grants never influence the outcome |
| EvaluatorProperties.IndexActionAllowedIff | src/main/java/com/floragunn/searchguard/configuration/PrivilegesEvaluator.java:300-372 | any other action is allowed iff a mapped role has one permitted pattern that alone removes every requested index and type |
| EvaluatorProperties.NoRolesNoAccess | src/main/java/com/floragunn/searchguard/configuration/PrivilegesEvaluator.java:225-375 | without mapped roles nothing is allowed and nothing attached |
| EvaluatorProperties.NoUserNoAccess | src/main/java/com/floragunn/searchguard/configuration/PrivilegesEvaluator.java:395-400 | a missing user is never allowed and gets no row filters or field names |
| EvaluatorProperties.MoreRolesNeverRevoke | src/main/java/com/floragunn/searchguard/configuration/PrivilegesEvaluator.java:225-375 | more mapped roles never take away a permission, a row filter or a field name |
| EvaluatorProperties.DirectivesOnlyWhenAllowed | src/main/java/com/floragunn/searchguard/configuration/PrivilegesEvaluator.java:339-372 | row filters or field names are only attached to an allowed request |
| EvaluatorProperties.NullIndexNeverGranted | src/main/java/com/floragunn/searchguard/configuration/PrivilegesEvaluator.java:300-337 | a request holding a null entry is never granted by index patterns and gets no row filters or field names |
| EvaluatorProperties.NullEntryRequestRefused | src/main/java/com/floragunn/searchguard/configuration/PrivilegesEvaluator.java:161-390 | an index request naming null beside a real index is refused for every non-cluster action that reaches the role loop, whatever the roles grant |
| EvaluatorProperties.DlsOfSatisfyingGrants | src/main/java/com/floragunn/searchguard/configuration/PrivilegesEvaluator.java:339-355 | a row filter is attached iff it is the non-empty `_dls_` of a satisfying pattern of an active mapped role, with the user's name filled in |
| EvaluatorProperties.FlsOfSatisfyingGrants | src/main/java/com/floragunn/searchguard/configuration/PrivilegesEvaluator.java:344-365 | a field name is attached iff it is in the `_fls_` of a satisfying pattern of an active mapped role |
| Strings.ReplaceAbsent | src/main/java/com/floragunn/searchguard/configuration/PrivilegesEvaluator.java:349 | a row filter without the placeholder is used unchanged |
| Strings.ReplaceSplits | src/main/java/com/floragunn/searchguard/configuration/PrivilegesEvaluator.java:349 | the placeholder is replaced in place, with the text before it copied and the rest processed in turn |
| Strings.Replace | src/main/java/com/floragunn/searchguard/configuration/PrivilegesEvaluator.java:349 | replacing the target with a string of its length keeps the length; replacing it with itself changes nothing |
| Strings.Trim | src/main/java/com/floragunn/searchguard/configuration/PrivilegesEvaluator.java:344 | the result is the input with blank characters (up to the space) removed from both ends and nothing else: a slice of the input, with only blanks outside it and no blank at either of its ends |
| Strings.PaddedTrim | src/main/java/com/floragunn/searchguard/configuration/PrivilegesEvaluator.java:344 | a trimmed string padded with blanks on both sides trims back to itself |
| Strings.TrimKeepsTrimmed | src/main/java/com/floragunn/searchguard/configuration/PrivilegesEvaluator.java:344 | a string without blank ends is left as it is by trimming |
| Strings.CommaPieces | src/main/java/com/floragunn/searchguard/configuration/PrivilegesEvaluator.java:344 | a string has at least one comma-separated piece, and no piece contains a comma |
| Strings.JoinCommaPieces | src/main/java/com/floragunn/searchguard/configuration/PrivilegesEvaluator.java:344 | joining the pieces with commas gives the string back |
| Strings.CommaPiecesOfJoin | src/main/java/com/floragunn/searchguard/configuration/PrivilegesEvaluator.java:344 | comma-free pieces joined with commas are cut back into the same pieces |
| Wildcard.GetMatchAny | src/main/java/com/floragunn/searchguard/configuration/PrivilegesEvaluator.java:438 | the candidates returned are exactly those the pattern matches |
| Wildcard.Match | src/main/java/com/floragunn/searchguard/configuration/PrivilegesEvaluator.java:257 | the empty candidate is matched only by a pattern made of `*` characters alone |
| Wildcard.LiteralMatch | src/main/java/com/floragunn/searchguard/configuration/PrivilegesEvaluator.java:128-130 | a pattern without `*` matches exactly itself |
| Wildcard.PrefixStarMatch | src/main/java/com/floragunn/searchguard/configuration/PrivilegesEvaluator.java:128 | `prefix*` matches exactly the strings starting with the prefix |
| Scenarios.WorfSearchWithoutTypeDenied | src/test/java/com/floragunn/searchguard/SGTests.java:452 | worf's search on `starfleet` without a type is refused: the grant names the type `ships` and the request addresses `_all` types |
| Scenarios.WorfSearchOfShipsAllowed | src/test/java/com/floragunn/searchguard/SGTests.java:454 | worf's search on `starfleet/ships` is allowed and its flags are kept |
| Scenarios.WorfSearchWithNullEntryDenied | src/main/java/com/floragunn/searchguard/configuration/PrivilegesEvaluator.java:683-686 | worf's search on `starfleet` and a null index, type `ships`, is refused, though `ships` of `starfleet` alone is granted |
| Scenarios.DestructiveCallsOnConfigIndexRefused | src/test/java/com/floragunn/searchguard/SGTests.java:455-456 | deleting, closing or writing to `searchguard` is refused for any user and any snapshot |
| Scenarios.WorfUpgradeOfConfigIndexDenied | src/test/java/com/floragunn/searchguard/SGTests.java:457 | worf's upgrade of `searchguard` is refused by the roles, not by the deny-list, and the flags are switched off |
| Scenarios.RowFilterNamesTheUser | src/main/java/com/floragunn/searchguard/configuration/PrivilegesEvaluator.java:347-352 | a `_dls_` template naming `${user.name}` yields the filter with the user's name in its place |
| Scenarios.CommaSeparatedSettingSplits | src/main/java/com/floragunn/searchguard/configuration/PrivilegesEvaluator.java:251 | the single string `READ,,WRITE` reads as the two elements `READ` and `WRITE` |
| Scenarios.SpaceAfterCommaTrimmed | src/main/java/com/floragunn/searchguard/configuration/PrivilegesEvaluator.java:251 | the single string `READ, WRITE` reads as the two elements `READ` and `WRITE` |
| Scenarios.HalvesDoNotAddUp | src/main/java/com/floragunn/searchguard/configuration/PrivilegesEvaluator.java:300-335 | two patterns that each grant one of two requested indices do not let the request through |

## Left out

- WildcardMatcher is not part of this model. `Wildcard.Match` is a `*` matcher. It has no `?` and no `/regex/` patterns.
- Settings key access (`getByPrefix`, keys split on `.`) is modelled by structure. A configuration is a map of roles holding maps of index entries, so a role, index or type name that itself contains `.` is not modelled.
- The emptiness test at lines 231-233 reads `roles.getByPrefix(sgRole)`, a prefix without a trailing `.`. A role `sg_role` with no settings of its own therefore counts as non-empty when another role, such as `sg_role_starfleet`, exists. `Role.IsEmpty` looks only at the role's own settings. The decision is the same either way: such a role has no `.cluster` and no `.indices` entries of its own, so it grants nothing and contributes no directives.
- The Elasticsearch settings library is not part of this model. `Settings.AsArray` follows `getAsArray` of Elasticsearch 2: a single string is split by `splitStringByCommaToArray`, the empty pieces are dropped, and every element is trimmed. A value stored under both the plain key and numbered keys is not modelled.
- The cluster topology is a function, `Topology.concrete`, from a name to its concrete indices or nothing. `IndicesOptions`, alias filtering and index-expression syntax of the metadata resolver are not modelled.
- `Topology.concrete` stands for two different resolver calls: the permission side's `hasIndexOrAlias` plus `concreteIndices` with fixed options (lines 494-514) and the request side's `concreteIndices(state, request)` (lines 678-686). The model gives both the same answer. They differ on a literal `_all`: the permission side keeps the pattern `_all` as written, while the request side expands `_all` to every index. That difference is not modelled.
- Null entries inside a request's types array are not modelled. A missing index array, a null index name and a null entry kept by the raw-name fallback are.
- WildcardMatcher is assumed to match nothing against a null candidate. So a pattern never removes the null entry that the raw-name fallback leaves in the requested indices (`Requested.nullIndex`), and such a request is never granted by index patterns.
- The reflective `type()`/`types()` lookup of `resolve(IndicesRequest)` is not modelled. It is replaced by the `IndicesRequest.types` field (lines 608-659).
- The headers store the sets themselves. Base64 serialisation is left out.
- Logging is left out.
- `onChange`, `isInitialized` and `validate` are left out. The configuration snapshot is a parameter of every operation.
- ConfigConstants is not part of this model. The default configuration index name `searchguard` is the one the integration tests create.
- The `volatile` configuration fields and any concurrency are left out.
- The working copies of the index handlers are passed as values. They are local sets that are never shared.
- `Objects.requireNonNull` on the remote address throws a NullPointerException. Here it is the result `Failure(MissingRemoteAddress)`.
- `mapSgRoles` collects the roles in a `TreeSet` (line 401), so the role loop visits them in sorted order. The model states the loop over a set, in any order. The decision does not depend on the order: a cluster action is allowed if any role grants it, and an index action collects the union over all roles (`Evaluator.RoleStep`).
- ActionGroups.GetGroupMembers: on a cyclic action-group table the model terminates (see Findings) where the source recurses without end. On acyclic tables they agree (`ActionGroups.GroupUnfolds`).
- The role worf holds in the integration test lives in `sg_roles.yml`, which is not part of this model. `Scenarios` uses a role reconstructed from the test's expectations: `starfleet` with type `ships` allowed `indices:data/read*`.

## Findings

| source | as written | input that shows it | evidently intended | confidence | as-written member | corrected member |
|---|---|---|---|---|---|---|
| src/main/java/com/floragunn/searchguard/configuration/ActionGroupHolder.java:47-60 | `resolve` recurses into every member that names a group, with no record of the groups already being expanded | the action-group table {"A": ["A"]}, where group `A` lists itself | the expansion terminates, and a group already being expanded contributes nothing more | not executed | ActionGroups.SelfMemberOverflows | ActionGroups.SelfMemberGuarded |
