/**
 * Arrays: the growable buffer of array.c. The buffer holds `nalloc` slots,
 * of which the first `nelts` are in use; a push into a full buffer first
 * reallocates it at twice the size, and a failed reallocation leaves the
 * buffer as it was. Whether the allocator succeeds is a parameter.
 */
module Arrays {
  import opened Wrappers

  /** The capacity `array_create` starts with. */
  const InitialCapacity: nat := 8

  class GrowArray<T(0)> {
    /** `a->elts`: the slots. */
    var elts: array<T>
    /** `a->nelts`: how many slots are in use. */
    var nelts: nat
    /** `a->nalloc`: how many slots there are. */
    var nalloc: nat

    /** The slots match the recorded capacity, which is never below the initial one, and holds every element. */
    ghost predicate Valid()
      reads this, elts
    {
      elts.Length == nalloc && InitialCapacity <= nalloc && nelts <= nalloc
    }

    /** The elements in use, in order. */
    ghost function Contents(): seq<T>
      reads this, elts
      requires Valid()
    {
      elts[..nelts]
    }

    /** `array_create`: no elements, eight slots. */
    constructor ()
      ensures Valid() && fresh(elts)
      ensures nelts == 0 && nalloc == InitialCapacity && Contents() == []
    {
      elts := new T[InitialCapacity];
      nelts := 0;
      nalloc := InitialCapacity;
    }

    /**
     * `array_push`, together with the caller's store into the slot it
     * returns: the element goes into slot `nelts`, after the buffer has
     * doubled if it was full. `reallocOk` says whether `realloc` succeeds;
     * when it does not, nothing changes and no slot is returned.
     */
    method Push(x: T, reallocOk: bool) returns (slot: Option<nat>)
      requires Valid()
      modifies this, elts
      ensures Valid()
      ensures slot.None? <==> old(nelts) >= old(nalloc) && !reallocOk
      ensures slot.None? ==>
        nelts == old(nelts) && nalloc == old(nalloc) && elts == old(elts) && Contents() == old(Contents())
      ensures slot.Some? ==>
        slot.value == old(nelts) && nelts == old(nelts) + 1 && Contents() == old(Contents()) + [x]
      ensures old(nelts) < old(nalloc) ==> nalloc == old(nalloc) && elts == old(elts)
      ensures old(nelts) >= old(nalloc) && reallocOk ==>
        nalloc == 2 * old(nelts) && nalloc == 2 * old(nalloc) && fresh(elts)
    {
      if nelts >= nalloc {
        if !reallocOk {
          return None;
        }
        var grown := new T[nelts * 2];
        var i := 0;
        while i < nelts
          invariant 0 <= i <= nelts == old(nelts) && Valid()
          invariant elts == old(elts) && elts[..] == old(elts[..]) && grown.Length == 2 * nelts
          invariant grown[..i] == elts[..i]
        {
          grown[i] := elts[i];
          i := i + 1;
        }
        elts := grown;
        nalloc := nelts * 2;
      }
      elts[nelts] := x;
      slot := Some(nelts);
      nelts := nelts + 1;
    }
  }
}
