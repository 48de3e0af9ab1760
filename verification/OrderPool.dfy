/** The pre-allocated pool of order slots (order_pool.hpp). A slot is its index in the storage. */
module OrderPool {
  import opened Sequences
  import opened Orders

  function Slots(n: nat): (r: set<nat>)
    ensures forall i: nat :: i in r <==> i < n
  {
    if n == 0 then {} else Slots(n - 1) + {n - 1}
  }

  ghost predicate Distinct(s: seq<nat>) {
    forall i, j :: 0 <= i < j < |s| ==> s[i] != s[j]
  }

  lemma {:induction false} SlotCount(n: nat)
    ensures |Slots(n)| == n
  {
    if n > 0 {
      SlotCount(n - 1);
    }
  }

  lemma {:induction false} DistinctCount(s: seq<nat>)
    requires Distinct(s)
    ensures |Elements(s)| == |s|
  {
    if s != [] {
      var init := s[..|s| - 1];
      DistinctCount(init);
      assert Elements(s) == Elements(init) + {s[|s| - 1]};
    }
  }

  /** A free list as long as the storage leaves nothing outstanding. */
  lemma FullMeansAllFree(s: seq<nat>, n: nat)
    requires Distinct(s) && Elements(s) <= Slots(n) && |s| == n
    ensures Elements(s) == Slots(n)
  {
    DistinctCount(s);
    SlotCount(n);
    var rest := Slots(n) - Elements(s);
    assert Slots(n) == Elements(s) + rest;
  }

  class Pool {
    var freeList: array<nat>
    var top: nat
    ghost var held: set<nat>

    /** Free slots, each listed once, and held slots share out the storage. */
    ghost predicate Valid()
      reads this, freeList
    {
      && top <= freeList.Length && Distinct(freeList[..top])
      && Elements(freeList[..top]) !! held && Elements(freeList[..top]) + held == Slots(freeList.Length)
    }

    constructor (capacity: nat)
      ensures Valid() && fresh(freeList) && freeList.Length == capacity && top == capacity && held == {}
    {
      freeList := new nat[capacity];
      top := capacity;
      held := {};
      new;
      for i := 0 to capacity
        invariant freeList.Length == capacity == top && held == {} && fresh(freeList)
        invariant forall j :: 0 <= j < i ==> freeList[j] == j
      {
        freeList[i] := i;
      }
      assert forall x :: x in Slots(capacity) ==> freeList[..top][x] == x;
    }

    /** Fails only when every slot is held; otherwise gives out a slot nobody holds. */
    method Acquire() returns (slot: Option<nat>)
      requires Valid()
      modifies this
      ensures Valid() && freeList == old(freeList)
      ensures slot.None? <==> old(held) == Slots(freeList.Length)
      ensures slot.None? ==> held == old(held) && top == old(top)
      ensures slot.Some? ==> slot.value !in old(held) && slot.value < freeList.Length
                             && held == old(held) + {slot.value} && top == old(top) - 1
    {
      ghost var free := freeList[..top];
      if top == 0 {
        return None;
      }
      assert free[top - 1] in Elements(free);
      top := top - 1;
      held := held + {freeList[top]};
      slot := Some(freeList[top]);
      assert free == freeList[..top] + [freeList[top]];
      assert Elements(free) == Elements(freeList[..top]) + {freeList[top]};
    }

    /** Callers give back only what they hold; then the list always has room for it. */
    method Release(slot: nat)
      requires Valid() && slot in held
      modifies this, freeList
      ensures Valid() && freeList == old(freeList)
      ensures held == old(held) - {slot} && top == old(top) + 1
    {
      ghost var free := freeList[..top];
      if top == freeList.Length {
        FullMeansAllFree(free, top);
      }
      assert top < freeList.Length;
      freeList[top] := slot;
      top := top + 1;
      held := held - {slot};
      assert freeList[..top] == free + [slot];
      assert Elements(freeList[..top]) == Elements(free) + {slot};
    }
  }
}
