/** Gameplay tags and the tag containers passed to the component's batch operations. */
module Tags {

  /** A gameplay tag: the empty ("None") tag, or a named one such as "Status.Stunned",
      identified by its canonical registered name. */
  datatype Tag = None | Named(name: string) {

    /** FGameplayTag::IsValid: the tag names something. */
    predicate IsValid() {
      Named?
    }
  }

  /** The tags a container argument holds, as a set. */
  function Elems(ts: seq<Tag>): set<Tag> {
    set t | t in ts
  }

  /** Every tag of a container argument is valid. */
  predicate AllValid(ts: seq<Tag>) {
    forall t | t in ts :: t.IsValid()
  }

  /** Processing one more element of a container adds exactly that element to the processed set. */
  lemma ElemsOfLongerPrefix(ts: seq<Tag>, i: nat)
    requires i < |ts|
    ensures Elems(ts[..i + 1]) == Elems(ts[..i]) + {ts[i]}
  {
    assert ts[..i + 1] == ts[..i] + [ts[i]];
  }

  /** The whole container is its longest prefix. */
  lemma ElemsOfFullPrefix(ts: seq<Tag>)
    ensures Elems(ts[..|ts|]) == Elems(ts)
  {
    assert ts[..|ts|] == ts;
  }

  /** A container meets a set exactly when one of its elements is in the set. */
  lemma ElemsMeet(ts: seq<Tag>, s: set<Tag>)
    ensures Elems(ts) * s != {} <==> exists t | t in ts :: t in s
  {
    if Elems(ts) * s != {} {
      var t :| t in Elems(ts) * s;
      assert t in ts;
    }
    if exists t | t in ts :: t in s {
      var t :| t in ts && t in s;
      assert t in Elems(ts) * s;
    }
  }
}
