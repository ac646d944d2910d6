/** The replicated gameplay-tag component: request routing, the server RPCs and their
    validation gate, the authority-guarded mutations, dirty marking, the replication
    notification and the read-only queries. */
module GameplayTagComponents {
  import opened Tags
  import opened NetRoles

  /** A server RPC as a non-authoritative copy calls it. */
  datatype ServerCall =
    | AddTagCall(tag: Tag)
    | RemoveTagCall(tag: Tag)
    | AddTagsCall(tags: seq<Tag>)
    | RemoveTagsCall(tags: seq<Tag>)

  class GameplayTagComponent {
    /** GameplayTagContainer: the replicated tag set (the authoritative copy on the server,
        the last replicated mirror elsewhere). */
    var tags: set<Tag>

    /** GetOwnerRole(): the network role of the owning actor on this machine. */
    const role: NetRole
    /** GetOwner() is not null. */
    const ownerPresent: bool
    /** GetOwner()->HasAuthority(), when there is an owner. */
    const ownerHasAuthority: bool

    /** How many times ForceNetUpdate has been called on the owner. */
    var dirtyCount: nat
    /** The server RPCs this copy has called, oldest first. */
    var forwarded: seq<ServerCall>
    /** How many times OnGameplayTagsChanged has been broadcast. */
    var broadcastCount: nat

    /** A freshly created component holds no tags and has done nothing yet. */
    constructor (role: NetRole, ownerPresent: bool, ownerHasAuthority: bool)
      ensures this.role == role && this.ownerPresent == ownerPresent
      ensures this.ownerHasAuthority == ownerHasAuthority
      ensures tags == {} && dirtyCount == 0 && forwarded == [] && broadcastCount == 0
    {
      this.role := role;
      this.ownerPresent := ownerPresent;
      this.ownerHasAuthority := ownerHasAuthority;
      tags := {};
      dirtyCount := 0;
      forwarded := [];
      broadcastCount := 0;
    }

    /** The guard of every internal mutation: there is an owner and it has authority. */
    predicate OwnerHasAuthority() {
      ownerPresent && ownerHasAuthority
    }

    // ----- Request routing -----

    /** Below Authority the server RPC is called and nothing local changes;
        at Authority the tag is added directly (without validation) and the owner is
        marked dirty exactly when the set changed. */
    method RequestAddGameplayTag(newTag: Tag)
      modifies this`tags, this`dirtyCount, this`forwarded
      ensures IsBelowAuthority(role) ==>
        && forwarded == old(forwarded) + [AddTagCall(newTag)]
        && tags == old(tags) && dirtyCount == old(dirtyCount)
      ensures !IsBelowAuthority(role) ==>
        && forwarded == old(forwarded)
        && tags == (if OwnerHasAuthority() then old(tags) + {newTag} else old(tags))
        && dirtyCount == old(dirtyCount) + (if tags != old(tags) then 1 else 0)
    {
      if IsBelowAuthority(role) {
        forwarded := forwarded + [AddTagCall(newTag)];
      } else {
        var changed := AddGameplayTagInternal(newTag);
        if changed {
          MarkDirtyForReplication();
        }
      }
    }

    /** Below Authority the server RPC is called; at Authority the tag is removed
        directly and the owner is marked dirty exactly when the set changed. */
    method RequestRemoveGameplayTag(tagToRemove: Tag)
      modifies this`tags, this`dirtyCount, this`forwarded
      ensures IsBelowAuthority(role) ==>
        && forwarded == old(forwarded) + [RemoveTagCall(tagToRemove)]
        && tags == old(tags) && dirtyCount == old(dirtyCount)
      ensures !IsBelowAuthority(role) ==>
        && forwarded == old(forwarded)
        && tags == (if OwnerHasAuthority() then old(tags) - {tagToRemove} else old(tags))
        && dirtyCount == old(dirtyCount) + (if tags != old(tags) then 1 else 0)
    {
      if IsBelowAuthority(role) {
        forwarded := forwarded + [RemoveTagCall(tagToRemove)];
      } else {
        var changed := RemoveGameplayTagInternal(tagToRemove);
        if changed {
          MarkDirtyForReplication();
        }
      }
    }

    /** The batch form of RequestAddGameplayTag. */
    method RequestAddGameplayTags(newTags: seq<Tag>)
      modifies this`tags, this`dirtyCount, this`forwarded
      ensures IsBelowAuthority(role) ==>
        && forwarded == old(forwarded) + [AddTagsCall(newTags)]
        && tags == old(tags) && dirtyCount == old(dirtyCount)
      ensures !IsBelowAuthority(role) ==>
        && forwarded == old(forwarded)
        && tags == (if OwnerHasAuthority() then old(tags) + Elems(newTags) else old(tags))
        && dirtyCount == old(dirtyCount) + (if tags != old(tags) then 1 else 0)
    {
      if IsBelowAuthority(role) {
        forwarded := forwarded + [AddTagsCall(newTags)];
      } else {
        var changed := AddGameplayTagsInternal(newTags);
        if changed {
          MarkDirtyForReplication();
        }
      }
    }

    /** The batch form of RequestRemoveGameplayTag. */
    method RequestRemoveGameplayTags(tagsToRemove: seq<Tag>)
      modifies this`tags, this`dirtyCount, this`forwarded
      ensures IsBelowAuthority(role) ==>
        && forwarded == old(forwarded) + [RemoveTagsCall(tagsToRemove)]
        && tags == old(tags) && dirtyCount == old(dirtyCount)
      ensures !IsBelowAuthority(role) ==>
        && forwarded == old(forwarded)
        && tags == (if OwnerHasAuthority() then old(tags) - Elems(tagsToRemove) else old(tags))
        && dirtyCount == old(dirtyCount) + (if tags != old(tags) then 1 else 0)
    {
      if IsBelowAuthority(role) {
        forwarded := forwarded + [RemoveTagsCall(tagsToRemove)];
      } else {
        var changed := RemoveGameplayTagsInternal(tagsToRemove);
        if changed {
          MarkDirtyForReplication();
        }
      }
    }

    // ----- Server RPCs: validation, then implementation -----

    /** The single-tag add RPC is accepted exactly when the tag is valid. */
    function ServerAddGameplayTagValidate(newTag: Tag): (accepted: bool)
      ensures accepted <==> newTag.IsValid()
    {
      newTag.IsValid() && IsTagAllowed(newTag)
    }

    /** The server-side body of the single-tag add RPC. */
    method ServerAddGameplayTagImplementation(newTag: Tag)
      modifies this`tags, this`dirtyCount
      ensures tags == (if OwnerHasAuthority() then old(tags) + {newTag} else old(tags))
      ensures dirtyCount == old(dirtyCount) + (if tags != old(tags) then 1 else 0)
    {
      var changed := AddGameplayTagInternal(newTag);
      if changed {
        MarkDirtyForReplication();
      }
    }

    /** The single-tag add RPC as the server receives it: the body runs only if the
        validator accepts; a refused call changes nothing. */
    method ServerAddGameplayTag(newTag: Tag)
      modifies this`tags, this`dirtyCount
      ensures !newTag.IsValid() ==> tags == old(tags) && dirtyCount == old(dirtyCount)
      ensures newTag.IsValid() ==>
        && tags == (if OwnerHasAuthority() then old(tags) + {newTag} else old(tags))
        && dirtyCount == old(dirtyCount) + (if tags != old(tags) then 1 else 0)
    {
      if ServerAddGameplayTagValidate(newTag) {
        ServerAddGameplayTagImplementation(newTag);
      }
    }

    /** The single-tag remove RPC is accepted exactly when the tag is valid. */
    function ServerRemoveGameplayTagValidate(tagToRemove: Tag): (accepted: bool)
      ensures accepted <==> tagToRemove.IsValid()
    {
      tagToRemove.IsValid() && IsTagAllowed(tagToRemove)
    }

    /** The server-side body of the single-tag remove RPC. */
    method ServerRemoveGameplayTagImplementation(tagToRemove: Tag)
      modifies this`tags, this`dirtyCount
      ensures tags == (if OwnerHasAuthority() then old(tags) - {tagToRemove} else old(tags))
      ensures dirtyCount == old(dirtyCount) + (if tags != old(tags) then 1 else 0)
    {
      var changed := RemoveGameplayTagInternal(tagToRemove);
      if changed {
        MarkDirtyForReplication();
      }
    }

    /** The single-tag remove RPC as the server receives it. */
    method ServerRemoveGameplayTag(tagToRemove: Tag)
      modifies this`tags, this`dirtyCount
      ensures !tagToRemove.IsValid() ==> tags == old(tags) && dirtyCount == old(dirtyCount)
      ensures tagToRemove.IsValid() ==>
        && tags == (if OwnerHasAuthority() then old(tags) - {tagToRemove} else old(tags))
        && dirtyCount == old(dirtyCount) + (if tags != old(tags) then 1 else 0)
    {
      if ServerRemoveGameplayTagValidate(tagToRemove) {
        ServerRemoveGameplayTagImplementation(tagToRemove);
      }
    }

    /** The batch add RPC is accepted exactly when every tag in it is valid; the scan stops
        at the first tag that is not. */
    method ServerAddGameplayTagsValidate(newTags: seq<Tag>) returns (accepted: bool)
      ensures accepted <==> AllValid(newTags)
    {
      for i := 0 to |newTags|
        invariant forall j :: 0 <= j < i ==> newTags[j].IsValid()
      {
        if !newTags[i].IsValid() || !IsTagAllowed(newTags[i]) {
          return false;
        }
      }
      return true;
    }

    /** The server-side body of the batch add RPC. */
    method ServerAddGameplayTagsImplementation(newTags: seq<Tag>)
      modifies this`tags, this`dirtyCount
      ensures tags == (if OwnerHasAuthority() then old(tags) + Elems(newTags) else old(tags))
      ensures dirtyCount == old(dirtyCount) + (if tags != old(tags) then 1 else 0)
    {
      var changed := AddGameplayTagsInternal(newTags);
      if changed {
        MarkDirtyForReplication();
      }
    }

    /** The batch add RPC as the server receives it: refused as a whole if any tag is
        invalid, even when the others are valid. */
    method ServerAddGameplayTags(newTags: seq<Tag>)
      modifies this`tags, this`dirtyCount
      ensures !AllValid(newTags) ==> tags == old(tags) && dirtyCount == old(dirtyCount)
      ensures AllValid(newTags) ==>
        && tags == (if OwnerHasAuthority() then old(tags) + Elems(newTags) else old(tags))
        && dirtyCount == old(dirtyCount) + (if tags != old(tags) then 1 else 0)
    {
      var accepted := ServerAddGameplayTagsValidate(newTags);
      if accepted {
        ServerAddGameplayTagsImplementation(newTags);
      }
    }

    /** The batch remove RPC is accepted exactly when every tag in it is valid. */
    method ServerRemoveGameplayTagsValidate(tagsToRemove: seq<Tag>) returns (accepted: bool)
      ensures accepted <==> AllValid(tagsToRemove)
    {
      for i := 0 to |tagsToRemove|
        invariant forall j :: 0 <= j < i ==> tagsToRemove[j].IsValid()
      {
        if !tagsToRemove[i].IsValid() || !IsTagAllowed(tagsToRemove[i]) {
          return false;
        }
      }
      return true;
    }

    /** The server-side body of the batch remove RPC. */
    method ServerRemoveGameplayTagsImplementation(tagsToRemove: seq<Tag>)
      modifies this`tags, this`dirtyCount
      ensures tags == (if OwnerHasAuthority() then old(tags) - Elems(tagsToRemove) else old(tags))
      ensures dirtyCount == old(dirtyCount) + (if tags != old(tags) then 1 else 0)
    {
      var changed := RemoveGameplayTagsInternal(tagsToRemove);
      if changed {
        MarkDirtyForReplication();
      }
    }

    /** The batch remove RPC as the server receives it: refused as a whole if any tag is invalid. */
    method ServerRemoveGameplayTags(tagsToRemove: seq<Tag>)
      modifies this`tags, this`dirtyCount
      ensures !AllValid(tagsToRemove) ==> tags == old(tags) && dirtyCount == old(dirtyCount)
      ensures AllValid(tagsToRemove) ==>
        && tags == (if OwnerHasAuthority() then old(tags) - Elems(tagsToRemove) else old(tags))
        && dirtyCount == old(dirtyCount) + (if tags != old(tags) then 1 else 0)
    {
      var accepted := ServerRemoveGameplayTagsValidate(tagsToRemove);
      if accepted {
        ServerRemoveGameplayTagsImplementation(tagsToRemove);
      }
    }

    // ----- Internal tag modification (server only) -----

    /** Adds one tag; a duplicate is ignored. Returns whether the set changed, which is
        whether the owner has authority and the tag was absent. */
    method AddGameplayTagInternal(newTag: Tag) returns (changed: bool)
      modifies this`tags
      ensures changed == (OwnerHasAuthority() && newTag !in old(tags))
      ensures tags == (if OwnerHasAuthority() then old(tags) + {newTag} else old(tags))
      ensures changed <==> tags != old(tags)
    {
      if !ownerPresent || !ownerHasAuthority {
        return false;
      }
      if newTag in tags {
        return false;
      }
      tags := tags + {newTag};
      return true;
    }

    /** Removes one tag. Returns whether the set changed, which is whether the owner has
        authority and the tag was present. */
    method RemoveGameplayTagInternal(tagToRemove: Tag) returns (changed: bool)
      modifies this`tags
      ensures changed == (OwnerHasAuthority() && tagToRemove in old(tags))
      ensures tags == (if OwnerHasAuthority() then old(tags) - {tagToRemove} else old(tags))
      ensures changed <==> tags != old(tags)
    {
      if !ownerPresent || !ownerHasAuthority {
        return false;
      }
      if tagToRemove !in tags {
        return false;
      }
      tags := tags - {tagToRemove};
      return true;
    }

    /** Adds every tag of the container, one at a time. Returns whether any tag was new;
        tags already present are skipped, and an empty container changes nothing. */
    method AddGameplayTagsInternal(newTags: seq<Tag>) returns (changed: bool)
      modifies this`tags
      ensures changed == (OwnerHasAuthority() && !(Elems(newTags) <= old(tags)))
      ensures tags == (if OwnerHasAuthority() then old(tags) + Elems(newTags) else old(tags))
      ensures changed <==> tags != old(tags)
    {
      if !ownerPresent || !ownerHasAuthority {
        return false;
      }
      changed := false;
      for i := 0 to |newTags|
        invariant tags == old(tags) + Elems(newTags[..i])
        invariant changed <==> !(Elems(newTags[..i]) <= old(tags))
      {
        ElemsOfLongerPrefix(newTags, i);
        if newTags[i] !in tags {
          tags := tags + {newTags[i]};
          changed := true;
        }
      }
      ElemsOfFullPrefix(newTags);
    }

    /** Removes every tag of the container that is present. Returns whether any tag was
        present; absent tags are skipped, and an empty container changes nothing. */
    method RemoveGameplayTagsInternal(tagsToRemove: seq<Tag>) returns (changed: bool)
      modifies this`tags
      ensures changed == (OwnerHasAuthority() && Elems(tagsToRemove) * old(tags) != {})
      ensures tags == (if OwnerHasAuthority() then old(tags) - Elems(tagsToRemove) else old(tags))
      ensures changed <==> tags != old(tags)
    {
      if !ownerPresent || !ownerHasAuthority {
        return false;
      }
      changed := false;
      for i := 0 to |tagsToRemove|
        invariant tags == old(tags) - Elems(tagsToRemove[..i])
        invariant changed <==> Elems(tagsToRemove[..i]) * old(tags) != {}
      {
        ElemsOfLongerPrefix(tagsToRemove, i);
        if tagsToRemove[i] in tags {
          assert tagsToRemove[i] in Elems(tagsToRemove[..i + 1]) * old(tags);
          tags := tags - {tagsToRemove[i]};
          changed := true;
        } else if tagsToRemove[i] in old(tags) {
          assert tagsToRemove[i] in Elems(tagsToRemove[..i]) * old(tags);
        } else {
          assert Elems(tagsToRemove[..i + 1]) * old(tags) == Elems(tagsToRemove[..i]) * old(tags);
        }
      }
      ElemsOfFullPrefix(tagsToRemove);
      if changed {
        ghost var gone :| gone in Elems(tagsToRemove) * old(tags);
        assert gone !in tags;
      } else {
        assert forall t :: t in old(tags) ==> t !in Elems(tagsToRemove) * old(tags);
      }
    }

    // ----- Queries -----

    /** Membership of one tag. */
    predicate HasGameplayTag(tag: Tag)
      reads this
    {
      tag in tags
    }

    /** Whether every tag of the container is held; an empty container is always held. */
    function HasAllGameplayTags(tagsToCheck: seq<Tag>): (hasAll: bool)
      reads this
      ensures hasAll <==> Elems(tagsToCheck) <= tags
      ensures tagsToCheck == [] ==> hasAll
    {
      forall t | t in tagsToCheck :: t in tags
    }

    /** Whether some tag of the container is held; an empty container never is. */
    function HasAnyGameplayTags(tagsToCheck: seq<Tag>): (hasAny: bool)
      reads this
      ensures hasAny <==> Elems(tagsToCheck) * tags != {}
      ensures tagsToCheck == [] ==> !hasAny
    {
      ElemsMeet(tagsToCheck, tags);
      exists t | t in tagsToCheck :: t in tags
    }

    /** A copy of the whole tag set: it holds exactly the tags HasGameplayTag reports. */
    function GetAllGameplayTags(): (all: set<Tag>)
      reads this
      ensures forall t :: t in all <==> HasGameplayTag(t)
    {
      tags
    }

    /** The one-tag query agrees with both container queries on a one-tag container. */
    lemma QueriesAgreeOnOneTag(tag: Tag)
      ensures HasGameplayTag(tag) <==> HasAllGameplayTags([tag])
      ensures HasGameplayTag(tag) <==> HasAnyGameplayTags([tag])
    {
    }

    // ----- Replication -----

    /** The notification run when a replicated update of the tags arrives: it broadcasts
        OnGameplayTagsChanged once, whether or not anything differs. */
    method OnRepGameplayTags()
      modifies this`broadcastCount
      ensures broadcastCount == old(broadcastCount) + 1
    {
      broadcastCount := broadcastCount + 1;
    }

    /** One delivery of a replicated tag set to a copy without authority: the mirror is
        replaced wholesale and OnRepGameplayTags runs once. The engine's rule that it
        notifies only when the value differs is not modelled. */
    method ReceiveReplicatedTags(snapshot: set<Tag>)
      requires IsBelowAuthority(role)
      modifies this`tags, this`broadcastCount
      ensures tags == snapshot
      ensures broadcastCount == old(broadcastCount) + 1
    {
      tags := snapshot;
      OnRepGameplayTags();
    }

    /** Forces a network update of the owner, but only when there is an owner. */
    method MarkDirtyForReplication()
      modifies this`dirtyCount
      ensures dirtyCount == old(dirtyCount) + (if ownerPresent then 1 else 0)
    {
      if ownerPresent {
        dirtyCount := dirtyCount + 1;
      }
    }

    // ----- Validation policy -----

    /** The admission policy: every valid tag is allowed, and no other. */
    function IsTagAllowed(tag: Tag): (allowed: bool)
      ensures allowed <==> tag.IsValid()
    {
      tag.IsValid()
    }
  }
}
