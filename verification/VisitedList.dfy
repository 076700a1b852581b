/** The tag array that makes clearing a visited set a counter increment. */
module Visited {
  const TAG_LIMIT: nat := 0x1_0000_0000_0000_0000

  class VisitedList {
    var tags: seq<nat>
    var currentTag: nat
    ghost var marked: set<nat>  // the ids that count as visited

    /** The tags represent the set, and none is ahead of the counter. */
    ghost predicate Valid()
      reads this
    {
      && currentTag < TAG_LIMIT
      && (forall i :: 0 <= i < |tags| ==> tags[i] <= currentTag)
      && marked == TaggedWith(tags, currentTag)
    }

    constructor ()
      ensures Valid() && tags == []
    {
      tags, currentTag, marked := [], 0, {};
    }

    method Resize(size: nat)
      requires Valid()
      modifies this
      ensures Valid() && |tags| >= size && |tags| >= old(|tags|)
    {
      if size > |tags| {
        tags := tags + seq(size - |tags|, _ => 0);
      }
      marked := TaggedWith(tags, currentTag);
    }

    /** Whatever was marked before, nothing is marked afterwards, also when the counter wraps. */
    method Advance()
      requires Valid()
      modifies this
      ensures Valid() && marked == {} && |tags| == old(|tags|)
    {
      currentTag := (currentTag + 1) % TAG_LIMIT;
      if currentTag == 0 {
        tags := seq(|tags|, _ => 0);
        currentTag := 1;
      }
      marked := {};
    }

    method IsVisited(id: nat) returns (b: bool)
      requires Valid() && id < |tags|
      ensures b <==> id in marked
    {
      b := tags[id] == currentTag;
    }

    method Mark(id: nat)
      requires Valid() && id < |tags|
      modifies this
      ensures Valid() && marked == old(marked) + {id} && |tags| == old(|tags|)
    {
      tags := tags[id := currentTag];
      marked := marked + {id};
    }
  }

  ghost function TaggedWith(tags: seq<nat>, tag: nat): set<nat> {
    set i: nat | i < |tags| && tags[i] == tag
  }
}
