# Replicated gameplay-tag component, modelled in Dafny

This project models `UGameplayTagComponent`, an actor component that keeps a replicated set of
gameplay tags. It holds one authoritative copy on the server and a mirror on every other
machine. The model covers:

- **Request routing.** A copy whose owner role is below `Authority` never changes its own
  mirror. It calls the matching server RPC instead (`forwarded` records the server RPCs the
  code calls; whether the engine delivers them is transport). A copy
  at `Authority` applies the change directly through the internal operation, without
  validation, and forces a network update when the set changed.
- **The server RPC gate.** Each server RPC runs its validator first. The body runs only if the
  validator accepts. A batch is refused as a whole when any of its tags is invalid. The
  admission policy `IsTagAllowed` accepts exactly the valid tags.
- **The internal mutations.** They do nothing unless there is an owner with authority. They
  add or remove idempotently and return whether the set changed. The batch forms loop over
  the container with a `changed` accumulator, as the C++ does.
- **Dirty marking.** `MarkDirtyForReplication` calls `ForceNetUpdate` (counted in `dirtyCount`)
  only when an owner exists. Every caller of an internal mutation marks dirty exactly when
  the mutation reported a change.
- **Replication notification.** `OnRepGameplayTags` broadcasts `OnGameplayTagsChanged` (counted
  in `broadcastCount`) once per call and does no diff of its own. `ReceiveReplicatedTags`
  stands for one delivery of a replicated value to a mirror: it replaces the set wholesale
  and then calls `OnRepGameplayTags`.
- **Queries.** `HasGameplayTag`, `HasAllGameplayTags`, `HasAnyGameplayTags` and
  `GetAllGameplayTags` are set predicates over the current set, plus a copy of it.

Files:

- `tags.dfy` (module `Tags`): the `Tag` value (`None` or `Named(name)`, valid iff named) and
  container helpers.
- `net_roles.dfy` (module `NetRoles`): the ordered network role and the `< ROLE_Authority` test.
- `gameplay_tag_component.dfy` (module `GameplayTagComponents`): the class
  `GameplayTagComponent` with the source's methods.
- `tag_scenarios.dfy` (module `TagScenarios`): callers that create components and drive them
  through requests, RPCs and replicated updates. For every input, each one proves what the
  component's contracts imply about that sequence.

Two behaviours of the code that a reader might not expect, both modelled as written:

- Validation happens only in the server RPCs. The authority path of `Request*` calls
  `*_Internal` directly (TP_Components_GameplayTags.cpp:31, 46, 61, 76), so a batch holding an
  invalid tag, requested locally at authority, is applied.
  `TagScenarios.LocalBatchBypassesValidation` shows this.
- `OnRep_GameplayTags` does no diff of its own: it broadcasts on every call
  (TP_Components_GameplayTags.cpp:261-265). Whether a client is notified of an unchanged value
  is decided by the engine, not by this component; see `ReceiveReplicatedTags` under
  "Left out". `TagScenarios.RepeatedUpdateNotifiesAgain` shows only that `OnRep_GameplayTags`
  itself does not diff.

Assumptions about foreign code:

- The engine container's `HasTag`, `AddTag` and `RemoveTag` are modelled as exact set
  membership, insertion and deletion.
- A container argument (`FGameplayTagContainer`) is a `seq<Tag>`, iterated in order.
- `GetOwnerRole()`, `GetOwner() != nullptr` and `GetOwner()->HasAuthority()` are three
  independent constants of a component. The engine ties them together: there is no role
  without an owner, and authority means the Authority role. Because the model does not
  impose that link, its results hold for every combination.

## Model

| member | source | states |
|---|---|---|
| NetRoles.IsBelowAuthority | TP_Components_GameplayTags.cpp:25 | a role is below `ROLE_Authority` in the enum order exactly when it is not Authority, so only an authority applies requests itself |
| GameplayTagComponents.GameplayTagComponent.constructor | TP_Components_GameplayTags.cpp:7-11 | a new component has the given owner facts, no tags, no forced updates, no server RPCs called and no broadcasts |
| GameplayTagComponents.GameplayTagComponent.OwnerHasAuthority | TP_Components_GameplayTags.cpp:165 | the guard `GetOwner() && GetOwner()->HasAuthority()` shared by the four internal mutations (cpp:165, 181, 197, 216); each of their contracts states that when it is false they return false and leave the set unchanged |
| GameplayTagComponents.GameplayTagComponent.RequestAddGameplayTag | TP_Components_GameplayTags.cpp:23-36 | below Authority: one `AddTagCall` is appended to `forwarded`, and the tags and dirty count are unchanged; at Authority: no server RPC is called, the tag is added when the owner has authority, and the dirty count goes up by one exactly when the set changed; never broadcasts |
| GameplayTagComponents.GameplayTagComponent.RequestRemoveGameplayTag | TP_Components_GameplayTags.cpp:38-51 | the same routing for removal: forward one `RemoveTagCall`, or remove locally and mark dirty iff the set changed |
| GameplayTagComponents.GameplayTagComponent.RequestAddGameplayTags | TP_Components_GameplayTags.cpp:53-66 | the same routing for a batch add: forward one `AddTagsCall`, or apply `old + set(batch)` without validation and mark dirty iff the set changed |
| GameplayTagComponents.GameplayTagComponent.RequestRemoveGameplayTags | TP_Components_GameplayTags.cpp:68-81 | the same routing for a batch remove: forward one `RemoveTagsCall`, or apply `old - set(batch)` and mark dirty iff the set changed |
| GameplayTagComponents.GameplayTagComponent.ServerAddGameplayTagValidate | TP_Components_GameplayTags.cpp:87-91 | the single add RPC is accepted iff the tag is valid |
| GameplayTagComponents.GameplayTagComponent.ServerAddGameplayTagImplementation | TP_Components_GameplayTags.cpp:93-99 | the server body adds the tag (if the owner has authority) and marks dirty exactly when the set changed |
| GameplayTagComponents.GameplayTagComponent.ServerAddGameplayTag | TP_Components_GameplayTags.cpp:87-99 | a refused (invalid) tag leaves the tags and dirty count unchanged; an accepted one has the body's effect |
| GameplayTagComponents.GameplayTagComponent.ServerRemoveGameplayTagValidate | TP_Components_GameplayTags.cpp:101-104 | the single remove RPC is accepted iff the tag is valid |
| GameplayTagComponents.GameplayTagComponent.ServerRemoveGameplayTagImplementation | TP_Components_GameplayTags.cpp:106-112 | the server body removes the tag (if the owner has authority) and marks dirty exactly when the set changed |
| GameplayTagComponents.GameplayTagComponent.ServerRemoveGameplayTag | TP_Components_GameplayTags.cpp:101-112 | a refused tag changes nothing; an accepted one has the body's effect |
| GameplayTagComponents.GameplayTagComponent.ServerAddGameplayTagsValidate | TP_Components_GameplayTags.cpp:118-129 | the early-return scan accepts a batch iff every tag in it is valid |
| GameplayTagComponents.GameplayTagComponent.ServerAddGameplayTagsImplementation | TP_Components_GameplayTags.cpp:131-137 | the server body adds the whole batch (if the owner has authority) and marks dirty exactly when the set changed |
| GameplayTagComponents.GameplayTagComponent.ServerAddGameplayTags | TP_Components_GameplayTags.cpp:118-137 | atomic gate: with any invalid tag, the tags and dirty count are unchanged even if the other tags are valid; otherwise the result is `old + set(batch)` |
| GameplayTagComponents.GameplayTagComponent.ServerRemoveGameplayTagsValidate | TP_Components_GameplayTags.cpp:139-149 | the early-return scan accepts a batch iff every tag in it is valid |
| GameplayTagComponents.GameplayTagComponent.ServerRemoveGameplayTagsImplementation | TP_Components_GameplayTags.cpp:151-157 | the server body removes the whole batch (if the owner has authority) and marks dirty exactly when the set changed |
| GameplayTagComponents.GameplayTagComponent.ServerRemoveGameplayTags | TP_Components_GameplayTags.cpp:139-157 | atomic gate: with any invalid tag nothing changes; otherwise the result is `old - set(batch)` |
| GameplayTagComponents.GameplayTagComponent.AddGameplayTagInternal | TP_Components_GameplayTags.cpp:163-177 | without an owner that has authority: returns false and leaves the set unchanged; otherwise the set becomes `old + {t}`; returns true iff `t` was absent, which is iff the set changed |
| GameplayTagComponents.GameplayTagComponent.RemoveGameplayTagInternal | TP_Components_GameplayTags.cpp:179-193 | without an owner that has authority: false and no change; otherwise the set becomes `old - {t}`; returns true iff `t` was present, which is iff the set changed |
| GameplayTagComponents.GameplayTagComponent.AddGameplayTagsInternal | TP_Components_GameplayTags.cpp:195-212 | with authority the set becomes `old + set(batch)`; returns true iff some batch tag was absent (partial overlap is fine, an empty batch returns false), which is iff the set changed; the loop invariant keeps the accumulator equal to "some processed tag was new" |
| GameplayTagComponents.GameplayTagComponent.RemoveGameplayTagsInternal | TP_Components_GameplayTags.cpp:214-231 | with authority the set becomes `old - set(batch)`; returns true iff the batch meets `old`, which is iff the set changed; without authority: false and no change |
| GameplayTagComponents.GameplayTagComponent.QueriesAgreeOnOneTag | TP_Components_GameplayTags.cpp:237-250 | `HasGameplayTag(t)` agrees with both `HasAllGameplayTags([t])` and `HasAnyGameplayTags([t])` |
| GameplayTagComponents.GameplayTagComponent.HasGameplayTag | TP_Components_GameplayTags.cpp:237-240 | membership of one tag in the current set; `QueriesAgreeOnOneTag` proves it agrees with `HasAllGameplayTags` and `HasAnyGameplayTags` on a one-tag container, and `GetAllGameplayTags` holds exactly the tags it reports |
| GameplayTagComponents.GameplayTagComponent.HasAllGameplayTags | TP_Components_GameplayTags.cpp:242-245 | holds iff the container's tags are a subset of the set; an empty container always holds |
| GameplayTagComponents.GameplayTagComponent.HasAnyGameplayTags | TP_Components_GameplayTags.cpp:247-250 | holds iff the container's tags intersect the set; an empty container never holds |
| GameplayTagComponents.GameplayTagComponent.GetAllGameplayTags | TP_Components_GameplayTags.cpp:252-255 | the returned copy holds exactly the tags for which `HasGameplayTag` is true |
| GameplayTagComponents.GameplayTagComponent.OnRepGameplayTags | TP_Components_GameplayTags.cpp:261-265 | each call broadcasts exactly once, with no diff |
| GameplayTagComponents.GameplayTagComponent.ReceiveReplicatedTags | TP_Components_GameplayTags.h:73-79 | a replicated update replaces the mirror wholesale and broadcasts exactly once, however many tags differ |
| GameplayTagComponents.GameplayTagComponent.MarkDirtyForReplication | TP_Components_GameplayTags.cpp:271-278 | the dirty count goes up by one iff there is an owner |
| GameplayTagComponents.GameplayTagComponent.IsTagAllowed | TP_Components_GameplayTags.cpp:284-289 | the default admission policy allows exactly the valid tags |
| TagScenarios.AddThenRemove | TP_Components_GameplayTags.cpp:23-51 | starting from any held batch, an authority's add then remove of `t` leaves `t` absent and the others untouched |
| TagScenarios.RemoveThenAdd | TP_Components_GameplayTags.cpp:23-51 | an authority's remove then add of `t` leaves `t` present: nothing remembers the earlier absence |
| TagScenarios.AddTwice | TP_Components_GameplayTags.cpp:163-177 | a second identical add leaves the same set and marks nothing dirty |
| TagScenarios.ProxyRequestIsForwarded | TP_Components_GameplayTags.cpp:23-28 | for every role below Authority, with or without an owner, a request calls exactly one server RPC (recorded in `forwarded`) and leaves the mirror and dirty count unchanged |
| TagScenarios.MutationWithoutOwnerAuthority | TP_Components_GameplayTags.cpp:195-200 | when the owner lacks authority, neither the local path nor an accepted RPC changes the set or marks dirty |
| TagScenarios.StunnedAddedOnce | TP_Components_GameplayTags.cpp:23-36 | adding "Status.Stunned" twice to an empty authority leaves one tag and one forced update |
| TagScenarios.PartialBatchRemove | TP_Components_GameplayTags.cpp:214-231 | `{A,B}` minus the batch `[B,C]` is `{A}`, with exactly one forced update |
| TagScenarios.ObserverReceivesTwoUpdates | TP_Components_GameplayTags.cpp:261-265 | an observer that receives `{X}` and then `{X,Y}` has broadcast twice and holds both tags |
| TagScenarios.OneUpdateOneNotification | TP_Components_GameplayTags.cpp:261-265 | one replicated update broadcasts exactly once and leaves the mirror equal to the update |
| TagScenarios.RepeatedUpdateNotifiesAgain | TP_Components_GameplayTags.cpp:261-265 | two calls of the notification with the same value broadcast twice: `OnRep_GameplayTags` does no diff of its own (whether the engine makes the second call is not modelled) |
| TagScenarios.BatchWithInvalidTagRefused | TP_Components_GameplayTags.cpp:118-137 | a batch add RPC with valid tags plus `None` adds nothing and marks nothing dirty |
| TagScenarios.LocalBatchBypassesValidation | TP_Components_GameplayTags.cpp:53-66 | the same kind of batch requested directly at authority is applied, `None` included, with one forced update |
| TagScenarios.ClientAddRoundTrip | TP_Components_GameplayTags.cpp:23-99 | a client's add leaves its mirror empty and calls one server RPC. The server applies the tag iff it is valid. When the server marked itself dirty, the update reaches the client: the mirror holds the tag and has broadcast once iff the tag is valid |

## Left out

- Engine setup is not modelled: the constructor's tick and replication flags,
  `GetLifetimeReplicatedProps`/`DOREPLIFETIME`, and the reflection macros and Blueprint exposure.
- Network transport is not modelled: RPC delivery, reliability and ordering, the internals of
  `ForceNetUpdate`, and when the engine replicates the value and calls `OnRep`. Server RPC
  calls, forced updates and broadcasts are logs and counters. Whether a called server RPC
  reaches the server is transport: the engine runs it locally when the actor has no owning
  connection and drops it when it is called from a simulated proxy. In the scenarios, delivery is an
  explicit call.
- When a `_Validate` function rejects an RPC, the engine also closes the sending client's
  connection. That is engine behaviour and is not modelled; the model only skips the body.
- `FGameplayTag` and `FGameplayTagContainer` internals are not modelled: hierarchical
  (parent) matching in `HasTag`/`HasAll`/`HasAny`, `AddTag` silently ignoring an invalid tag,
  and the container's duplicate-free storage. The model uses exact set operations. So in the
  model, an authority that adds `None` stores it and reports a change. In the engine,
  `HasTag(None)` is false and `AddTag(None)` does nothing, so `AddGameplayTag_Internal(None)`
  returns true with the container unchanged and the local path forces a network update for
  no change: "dirty iff the set changed" holds in the model only because of the exact-set
  assumption.
- Tag identity: `Named(name)` stands for a tag's canonical registered name. The engine
  compares tag names case-insensitively; the model compares the canonical names exactly.
- The multicast delegate's listeners, their order, and what happens when one fails are not
  modelled: a broadcast is a counter.
- ReceiveReplicatedTags: calls `OnRepGameplayTags` on every delivery. The component registers
  its container with `DOREPLIFETIME` (TP_Components_GameplayTags.cpp:16), whose default rule
  calls the notification only when the received value differs from the mirror; that rule is
  not modelled, so the model allows deliveries, and notifications, the engine would not make.
- Replication into the server's own copy is not modelled. `ReceiveReplicatedTags` requires a
  copy below Authority, because the engine replicates only from the server to other machines.
- The invariant "no invalid tag is ever stored" is not claimed, because the authority's local
  path skips validation.
- Concurrency is not modelled; the component is single-threaded and has no locks.
