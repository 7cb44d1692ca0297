/** The ordered containers of the UDP client: what inserting and removing do to order and membership. */
module UdpContainers {
  import opened Common
  import opened UdpState

  ghost predicate Sorted(heap: Heap, order: Order, ids: seq<nat>) {
    forall i, j :: 0 <= i < j < |ids| ==> Key(heap, order, ids[i]) <= Key(heap, order, ids[j])
  }

  /** The packets in flight are listed in the order in which they were sent. */
  ghost predicate SentInOrder(heap: Heap, ids: seq<nat>) {
    forall i, j :: 0 <= i < j < |ids| ==> At(heap, ids[i]).lastSeq < At(heap, ids[j]).lastSeq
  }

  /** A first element that sorts before all others keeps the order. */
  lemma Prepend(heap: Heap, order: Order, id: nat, ids: seq<nat>)
    ensures NoDuplicates(ids) && id !in ids ==> NoDuplicates([id] + ids)
    ensures Sorted(heap, order, ids) && (forall x :: x in ids ==> Key(heap, order, id) <= Key(heap, order, x))
            ==> Sorted(heap, order, [id] + ids)
    ensures SentInOrder(heap, ids) && (forall x :: x in ids ==> At(heap, id).lastSeq < At(heap, x).lastSeq)
            ==> SentInOrder(heap, [id] + ids)
  {
    assert forall j :: 0 < j <= |ids| ==> ([id] + ids)[j] == ids[j - 1] && ids[j - 1] in ids;
  }

  lemma {:induction false} WithoutMembers(ids: seq<nat>, id: nat)
    ensures forall x :: x in Without(ids, id) <==> x in ids && x != id
    ensures id !in ids ==> Without(ids, id) == ids
  {
    if ids != [] {
      WithoutMembers(ids[1..], id);
    }
  }

  lemma {:induction false} WithoutKeepsNoDuplicates(ids: seq<nat>, id: nat)
    requires NoDuplicates(ids)
    ensures NoDuplicates(Without(ids, id))
  {
    if ids != [] {
      WithoutKeepsNoDuplicates(ids[1..], id);
      WithoutMembers(ids[1..], id);
      Prepend(map[], ByFirstSend, ids[0], Without(ids[1..], id));
    }
  }

  lemma {:induction false} WithoutKeepsSorted(heap: Heap, order: Order, ids: seq<nat>, id: nat)
    requires Sorted(heap, order, ids)
    ensures Sorted(heap, order, Without(ids, id))
  {
    if ids != [] {
      WithoutKeepsSorted(heap, order, ids[1..], id);
      WithoutMembers(ids[1..], id);
      Prepend(heap, order, ids[0], Without(ids[1..], id));
    }
  }

  lemma {:induction false} WithoutKeepsSent(heap: Heap, ids: seq<nat>, id: nat)
    requires SentInOrder(heap, ids)
    ensures SentInOrder(heap, Without(ids, id))
  {
    if ids != [] {
      WithoutKeepsSent(heap, ids[1..], id);
      WithoutMembers(ids[1..], id);
      Prepend(heap, ByFirstSend, ids[0], Without(ids[1..], id));
    }
  }

  /** In a container that is in order the removal loop finds every occurrence. */
  lemma {:induction false} EraseIsWithout(heap: Heap, order: Order, ids: seq<nat>, id: nat)
    requires Sorted(heap, order, ids)
    ensures Erase(heap, order, ids, id) == Without(ids, id)
  {
    if ids != [] {
      EraseIsWithout(heap, order, ids[1..], id);
      if Key(heap, order, ids[0]) > Key(heap, order, id) {
        assert id !in ids;
        WithoutMembers(ids, id);
      }
    }
  }

  /** Whatever the order, the removal loop takes out nothing but the given request. */
  lemma {:induction false} EraseTakesOnly(heap: Heap, order: Order, ids: seq<nat>, id: nat)
    ensures forall x :: x in Erase(heap, order, ids, id) ==> x in ids
    ensures forall x :: x in ids && x != id ==> x in Erase(heap, order, ids, id)
  {
    if ids != [] {
      EraseTakesOnly(heap, order, ids[1..], id);
      WithoutMembers(ids, id);
    }
  }

  lemma {:induction false} WithoutConcat(a: seq<nat>, b: seq<nat>, id: nat)
    ensures Without(a + b, id) == Without(a, id) + Without(b, id)
  {
    if a == [] {
      assert a + b == b;
    } else {
      assert (a + b)[1..] == a[1..] + b;
      WithoutConcat(a[1..], b, id);
    }
  }

  /** Of several equal elements the search may return any. The removal finds every occurrence exactly if it does not
      start after one. */
  lemma EraseFromFinds(heap: Heap, order: Order, ids: seq<nat>, id: nat, i: nat)
    requires Sorted(heap, order, ids) && Finds(heap, order, ids, id, i)
    ensures EraseFrom(ids, id, i) == Erase(heap, order, ids, id) <==> id !in ids[..i]
    ensures id in EraseFrom(ids, id, i) <==> id in ids[..i]
    ensures forall x :: x in EraseFrom(ids, id, i) ==> x in ids
    ensures forall x :: x in ids && x != id ==> x in EraseFrom(ids, id, i)
  {
    EraseIsWithout(heap, order, ids, id);
    assert ids == ids[..i] + ids[i..];
    WithoutConcat(ids[..i], ids[i..], id);
    WithoutMembers(ids[..i], id);
    WithoutMembers(ids[i..], id);
    WithoutMembers(ids, id);
  }

  lemma FirstFinds(heap: Heap, order: Order, ids: seq<nat>, id: nat)
    ensures exists i: nat :: Finds(heap, order, ids, id, i) && id !in ids[..i]
  {
    var i: nat := 0;
    while i < |ids| && Key(heap, order, ids[i]) != Key(heap, order, id)
      invariant i <= |ids|
      invariant forall k :: 0 <= k < i ==> Key(heap, order, ids[k]) != Key(heap, order, id)
    {
      i := i + 1;
    }
    assert Finds(heap, order, ids, id, i) && id !in ids[..i];
  }

  /** No element that is equal in the order comes after the request. */
  ghost predicate LastOfEqual(heap: Heap, order: Order, ids: seq<nat>, id: nat) {
    forall a, b :: 0 <= a < b < |ids| && ids[a] == id ==> Key(heap, order, ids[b]) != Key(heap, order, id)
  }

  /** No search ends after the request. */
  ghost predicate NoSearchPasses(heap: Heap, order: Order, ids: seq<nat>, id: nat) {
    forall i: nat :: Finds(heap, order, ids, id, i) ==> id !in ids[..i]
  }

  /** That is so exactly if the request is the last of the equal elements. */
  lemma LastIsNotPassed(heap: Heap, order: Order, ids: seq<nat>, id: nat)
    ensures NoSearchPasses(heap, order, ids, id) <==> LastOfEqual(heap, order, ids, id)
  {
    if NoSearchPasses(heap, order, ids, id) {
      forall a, b | 0 <= a < b < |ids| && ids[a] == id
        ensures Key(heap, order, ids[b]) != Key(heap, order, id)
      {
        assert ids[..b][a] == id;
        assert !Finds(heap, order, ids, id, b);
      }
    }
    if LastOfEqual(heap, order, ids, id) {
      forall i: nat | Finds(heap, order, ids, id, i)
        ensures id !in ids[..i]
      {
        assert forall a :: 0 <= a < i ==> ids[..i][a] == ids[a] && ids[a] in ids;
      }
    }
  }

  lemma {:induction false} InsertMembers(heap: Heap, order: Order, ids: seq<nat>, id: nat)
    ensures forall x :: x in Insert(heap, order, ids, id) <==> x in ids || x == id
    ensures |Insert(heap, order, ids, id)| == |ids| + 1
  {
    if ids != [] {
      InsertMembers(heap, order, ids[1..], id);
    }
  }

  lemma {:induction false} InsertKeepsNoDuplicates(heap: Heap, order: Order, ids: seq<nat>, id: nat)
    requires NoDuplicates(ids) && id !in ids
    ensures NoDuplicates(Insert(heap, order, ids, id))
  {
    if ids == [] || Key(heap, order, id) < Key(heap, order, ids[0]) {
      Prepend(heap, order, id, ids);
    } else {
      InsertKeepsNoDuplicates(heap, order, ids[1..], id);
      InsertMembers(heap, order, ids[1..], id);
      Prepend(heap, order, ids[0], Insert(heap, order, ids[1..], id));
    }
  }

  lemma {:induction false} InsertKeepsSorted(heap: Heap, order: Order, ids: seq<nat>, id: nat)
    requires Sorted(heap, order, ids)
    ensures Sorted(heap, order, Insert(heap, order, ids, id))
  {
    if ids == [] || Key(heap, order, id) < Key(heap, order, ids[0]) {
      Prepend(heap, order, id, ids);
    } else {
      InsertKeepsSorted(heap, order, ids[1..], id);
      InsertMembers(heap, order, ids[1..], id);
      Prepend(heap, order, ids[0], Insert(heap, order, ids[1..], id));
    }
  }

  /** The hint is right when nothing sorts later: the request goes to the end. */
  lemma {:induction false} InsertAppends(heap: Heap, order: Order, ids: seq<nat>, id: nat)
    requires forall x :: x in ids ==> Key(heap, order, x) <= Key(heap, order, id)
    ensures Insert(heap, order, ids, id) == ids + [id]
  {
    if ids != [] {
      InsertAppends(heap, order, ids[1..], id);
    }
  }
}
