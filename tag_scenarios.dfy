/** Callers of the component: each method builds components in a given role and drives them
    through a sequence of requests, RPCs and replicated updates, and its postcondition is
    what the component's contracts promise about that sequence, for every input. */
module TagScenarios {
  import opened Tags
  import opened NetRoles
  import opened GameplayTagComponents

  /** A server-side component whose owner has authority, already holding `initial`. */
  method NewAuthority(initial: seq<Tag>) returns (c: GameplayTagComponent)
    ensures fresh(c)
    ensures c.role == Authority && c.OwnerHasAuthority()
    ensures c.tags == Elems(initial) && c.forwarded == [] && c.broadcastCount == 0
    ensures c.dirtyCount == (if Elems(initial) == {} then 0 else 1)
  {
    c := new GameplayTagComponent(Authority, true, true);
    c.RequestAddGameplayTags(initial);
  }

  /** Adding then removing a tag at authority leaves it absent, whatever was held before. */
  method AddThenRemove(initial: seq<Tag>, tag: Tag) returns (has: bool, after: set<Tag>)
    ensures !has
    ensures after == Elems(initial) - {tag}
  {
    var c := NewAuthority(initial);
    c.RequestAddGameplayTag(tag);
    assert c.tags == Elems(initial) + {tag};
    c.RequestRemoveGameplayTag(tag);
    assert c.tags == Elems(initial) - {tag};
    has := c.HasGameplayTag(tag);
    after := c.GetAllGameplayTags();
  }

  /** Removing then adding a tag at authority leaves it present: no memory of its absence. */
  method RemoveThenAdd(initial: seq<Tag>, tag: Tag) returns (has: bool, after: set<Tag>)
    ensures has
    ensures after == Elems(initial) + {tag}
  {
    var c := NewAuthority(initial);
    c.RequestRemoveGameplayTag(tag);
    assert c.tags == Elems(initial) - {tag};
    c.RequestAddGameplayTag(tag);
    assert c.tags == Elems(initial) + {tag};
    has := c.HasGameplayTag(tag);
    after := c.GetAllGameplayTags();
  }

  /** A second identical add leaves the set as the first left it and marks nothing dirty. */
  method AddTwice(initial: seq<Tag>, tag: Tag)
    returns (once: set<Tag>, twice: set<Tag>, dirtyOnce: nat, dirtyTwice: nat)
    ensures once == twice == Elems(initial) + {tag}
    ensures dirtyTwice == dirtyOnce
  {
    var c := NewAuthority(initial);
    c.RequestAddGameplayTag(tag);
    assert c.tags == Elems(initial) + {tag};
    once, dirtyOnce := c.GetAllGameplayTags(), c.dirtyCount;
    c.RequestAddGameplayTag(tag);
    assert c.tags == Elems(initial) + {tag};
    twice, dirtyTwice := c.GetAllGameplayTags(), c.dirtyCount;
  }

  /** A request made by a copy below Authority calls one server RPC and is not applied to the
      local mirror, in every role, with or without an owner. */
  method ProxyRequestIsForwarded(role: NetRole, ownerPresent: bool, ownerHasAuthority: bool, tag: Tag)
    returns (mirror: set<Tag>, sent: seq<ServerCall>, dirty: nat)
    requires IsBelowAuthority(role)
    ensures mirror == {} && sent == [AddTagCall(tag)] && dirty == 0
  {
    var c := new GameplayTagComponent(role, ownerPresent, ownerHasAuthority);
    c.RequestAddGameplayTag(tag);
    mirror, sent, dirty := c.GetAllGameplayTags(), c.forwarded, c.dirtyCount;
  }

  /** Without an owner that has authority, even an Authority role changes nothing. */
  method MutationWithoutOwnerAuthority(ownerPresent: bool, tags: seq<Tag>)
    returns (after: set<Tag>, dirty: nat)
    ensures after == {} && dirty == 0
  {
    var c := new GameplayTagComponent(Authority, ownerPresent, false);
    c.RequestAddGameplayTags(tags);
    c.ServerAddGameplayTags(tags);
    after, dirty := c.GetAllGameplayTags(), c.dirtyCount;
  }

  /** Scenario A: an empty authority adds "Status.Stunned", then adds it again. */
  method StunnedAddedOnce() returns (has: bool, size: nat, dirty: nat)
    ensures has && size == 1 && dirty == 1
  {
    var c := new GameplayTagComponent(Authority, true, true);
    var stunned := Named("Status.Stunned");
    c.RequestAddGameplayTag(stunned);
    has := c.HasGameplayTag(stunned);
    c.RequestAddGameplayTag(stunned);
    size, dirty := |c.GetAllGameplayTags()|, c.dirtyCount;
  }

  /** Scenario B: {A, B} minus the batch [B, C] leaves {A}, and the removal marks dirty. */
  method PartialBatchRemove() returns (after: set<Tag>, dirtyAdded: int)
    ensures after == {Named("A")} && dirtyAdded == 1
  {
    assert Elems([Named("A"), Named("B")]) == {Named("A"), Named("B")};
    var c := NewAuthority([Named("A"), Named("B")]);
    var before := c.dirtyCount;
    assert Elems([Named("B"), Named("C")]) == {Named("B"), Named("C")};
    c.RequestRemoveGameplayTags([Named("B"), Named("C")]);
    assert c.tags == {Named("A")};
    after, dirtyAdded := c.GetAllGameplayTags(), c.dirtyCount - before;
  }

  /** Scenario C: an observer receives {X} and then {X, Y}; each update notifies once. */
  method ObserverReceivesTwoUpdates() returns (notified: nat, hasBoth: bool)
    ensures notified == 2 && hasBoth
  {
    var c := new GameplayTagComponent(SimulatedProxy, true, false);
    c.ReceiveReplicatedTags({Named("X")});
    c.ReceiveReplicatedTags({Named("X"), Named("Y")});
    notified := c.broadcastCount;
    hasBoth := c.HasAllGameplayTags([Named("X"), Named("Y")]);
  }

  /** An update that differs from the mirror in many tags still notifies exactly once. */
  method OneUpdateOneNotification(before: set<Tag>, snapshot: set<Tag>) returns (notified: nat, mirror: set<Tag>)
    ensures notified == 1 && mirror == snapshot
  {
    var c := new GameplayTagComponent(SimulatedProxy, true, false);
    c.ReceiveReplicatedTags(before);
    var earlier := c.broadcastCount;
    c.ReceiveReplicatedTags(snapshot);
    notified, mirror := c.broadcastCount - earlier, c.GetAllGameplayTags();
  }

  /** OnRepGameplayTags does no diff of its own: called twice with the same value, it
      broadcasts twice. Whether the engine makes the second call is not modelled. */
  method RepeatedUpdateNotifiesAgain(snapshot: set<Tag>) returns (notified: nat)
    ensures notified == 2
  {
    var c := new GameplayTagComponent(AutonomousProxy, true, false);
    c.ReceiveReplicatedTags(snapshot);
    c.ReceiveReplicatedTags(snapshot);
    notified := c.broadcastCount;
  }

  /** Scenario D: a batch add RPC holding one invalid tag among valid ones adds nothing. */
  method BatchWithInvalidTagRefused(valid: seq<Tag>) returns (after: set<Tag>, dirty: nat)
    requires AllValid(valid)
    ensures after == {} && dirty == 0
  {
    var c := new GameplayTagComponent(Authority, true, true);
    assert None in valid + [None];
    c.ServerAddGameplayTags(valid + [None]);
    after, dirty := c.GetAllGameplayTags(), c.dirtyCount;
  }

  /** The same batch requested at authority is applied without validation. */
  method LocalBatchBypassesValidation() returns (after: set<Tag>, dirty: nat)
    ensures after == {Named("A"), None} && dirty == 1
  {
    var c := new GameplayTagComponent(Authority, true, true);
    assert Elems([Named("A"), None]) == {Named("A"), None};
    c.RequestAddGameplayTags([Named("A"), None]);
    assert c.tags == {Named("A"), None};
    after, dirty := c.GetAllGameplayTags(), c.dirtyCount;
  }

  /** A client's add travels to the server as one RPC; the server applies it if the tag is
      valid, marks itself dirty, and the replicated update then reaches the client's mirror
      with one notification. The client's mirror never changes before that update. */
  method ClientAddRoundTrip(tag: Tag)
    returns (mirrorAfterRequest: set<Tag>, mirror: set<Tag>, notified: nat)
    ensures mirrorAfterRequest == {}
    ensures mirror == (if tag.IsValid() then {tag} else {})
    ensures notified == (if tag.IsValid() then 1 else 0)
  {
    var client := new GameplayTagComponent(AutonomousProxy, true, false);
    var server := new GameplayTagComponent(Authority, true, true);
    client.RequestAddGameplayTag(tag);
    mirrorAfterRequest := client.GetAllGameplayTags();
    server.ServerAddGameplayTag(client.forwarded[0].tag);
    if server.dirtyCount > 0 {
      client.ReceiveReplicatedTags(server.GetAllGameplayTags());
    }
    mirror, notified := client.GetAllGameplayTags(), client.broadcastCount;
  }
}
