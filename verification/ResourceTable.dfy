/** The typed resource table as a slab: a vector of slots, the free ones threaded into a list. It
    behaves as a map from index to value. Wasmtime's own table is not part of this model; this is the
    behaviour the host relies on. */
module ResourceTable {
  import opened Prelude

  datatype Slot<T> = Free(next: Option<nat>) | Occupied(value: T)

  function Head(list: seq<nat>, k: nat): Option<nat> {
    if k < |list| then Some(list[k]) else None
  }

  ghost predicate LinkOk<T>(slots: seq<Slot<T>>, list: seq<nat>, k: nat)
    requires k < |list|
  {
    list[k] < |slots| && slots[list[k]].Free? && slots[list[k]].next == Head(list, k + 1)
  }

  /** `list` names every free slot once, in the order the slots themselves are linked. */
  ghost predicate FreeListIs<T>(slots: seq<Slot<T>>, list: seq<nat>) {
    && (forall k :: 0 <= k < |list| ==> LinkOk(slots, list, k))
    && (forall j, k :: 0 <= j < k < |list| ==> list[j] != list[k])
    && (forall i :: 0 <= i < |slots| && slots[i].Free? ==> i in list)
  }

  function Used<T>(slots: seq<Slot<T>>): map<nat, T> {
    map i: nat | i < |slots| && slots[i].Occupied? :: slots[i].value
  }

  lemma TakeHead<T>(slots: seq<Slot<T>>, list: seq<nat>, value: T)
    requires FreeListIs(slots, list) && list != []
    ensures LinkOk(slots, list, 0)
    ensures list[0] < |slots| && FreeListIs(slots[list[0] := Occupied(value)], list[1..])
    ensures Used(slots[list[0] := Occupied(value)]) == Used(slots)[list[0] := value]
  {
    assert LinkOk(slots, list, 0);
    var after, rest := slots[list[0] := Occupied(value)], list[1..];
    forall k | 0 <= k < |rest| ensures LinkOk(after, rest, k) {
      assert LinkOk(slots, list, k + 1) && list[0] != list[k + 1];
    }
    forall i | 0 <= i < |after| && after[i].Free? ensures i in rest {
      assert slots[i].Free? && i in list;
    }
  }

  lemma ReturnHead<T>(slots: seq<Slot<T>>, list: seq<nat>, i: nat)
    requires FreeListIs(slots, list) && i < |slots| && slots[i].Occupied?
    ensures FreeListIs(slots[i := Free(Head(list, 0))], [i] + list)
    ensures Used(slots[i := Free(Head(list, 0))]) == Used(slots) - {i}
  {
    var after, more := slots[i := Free(Head(list, 0))], [i] + list;
    forall k | 0 <= k < |list| ensures list[k] != i {
      assert LinkOk(slots, list, k);
    }
    forall k | 0 <= k < |more| ensures LinkOk(after, more, k) {
      if k > 0 {
        assert LinkOk(slots, list, k - 1);
      }
    }
    forall j | 0 <= j < |after| && after[j].Free? ensures j in more {
      assert j != i ==> slots[j].Free?;
    }
  }

  class Table<T> {
    const limit: nat
    var slots: seq<Slot<T>>
    var freeHead: Option<nat>
    ghost var freeList: seq<nat>

    ghost predicate Valid()
      reads this
    {
      && |slots| <= limit
      && freeHead == Head(freeList, 0)
      && FreeListIs(slots, freeList)
    }

    function View(): map<nat, T>
      reads this
    {
      Used(slots)
    }

    constructor (limit: nat)
      ensures Valid() && View() == map[] && this.limit == limit
    {
      this.limit := limit;
      slots, freeHead, freeList := [], None, [];
    }

    /** Stores `value` at an index not in use; refuses exactly when every index is. */
    method Push(value: T) returns (r: Option<nat>)
      requires Valid()
      modifies this
      ensures Valid()
      ensures r.None? <==> forall i: nat :: i < limit ==> i in old(View())
      ensures match r
              case None => View() == old(View())
              case Some(i) => i < limit && i !in old(View()) && View() == old(View())[i := value]
    {
      if freeHead.Some? {
        var i := freeHead.value;
        TakeHead(slots, freeList, value);
        assert i < limit && i !in View();
        freeHead := slots[i].next;
        slots := slots[i := Occupied(value)];
        freeList := freeList[1..];
        r := Some(i);
      } else if |slots| < limit {
        assert |slots| !in View();
        slots := slots + [Occupied(value)];
        r := Some(|slots| - 1);
      } else {
        assert forall i :: 0 <= i < |slots| ==> slots[i].Occupied?;
        r := None;
      }
    }

    method Get(i: nat) returns (r: Option<T>)
      requires Valid()
      ensures r == if i in View() then Some(View()[i]) else None
    {
      r := if i < |slots| && slots[i].Occupied? then Some(slots[i].value) else None;
    }

    /** Frees an index in use, handing back its value; an index not in use is an error. */
    method Delete(i: nat) returns (r: Option<T>)
      requires Valid()
      modifies this
      ensures Valid()
      ensures r == if i in old(View()) then Some(old(View())[i]) else None
      ensures View() == old(View()) - {i}
    {
      if i < |slots| && slots[i].Occupied? {
        r := Some(slots[i].value);
        ReturnHead(slots, freeList, i);
        slots := slots[i := Free(freeHead)];
        freeHead := Some(i);
        freeList := [i] + freeList;
      } else {
        r := None;
      }
    }
  }
}
