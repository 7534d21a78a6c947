/**
 * Dijkstra's tentative set: a binary heap ordered by distance for the pop, with the position of every
 * entry kept beside it so that relaxing can lower a distance in place.  The class is proved to behave
 * as the plain map it replaced, from which a least entry was found by a linear scan.
 */
module TentativeSet {
  import opened Types

  /** What a tentative node is known by: its distance so far and the first hops that reach it there. */
  datatype Tent = Tent(distance: nat, firstHops: set<SystemId>)

  /** The linear-scan form of the tentative set. */
  type TentMap = map<NodeId, Tent>

  /** `id` is what a linear scan for a least distance may return. */
  ghost predicate IsLeast(m: TentMap, id: NodeId) {
    id in m && forall other :: other in m ==> m[id].distance <= m[other].distance
  }

  /** Relaxing on the linear-scan form: a new node enters, a shorter path replaces, an equal one merges. */
  function Relaxed(m: TentMap, id: NodeId, d: nat, hops: set<SystemId>): TentMap {
    if id !in m || d < m[id].distance then m[id := Tent(d, hops)]
    else if d == m[id].distance then m[id := Tent(d, m[id].firstHops + hops)]
    else m
  }

  datatype Slot = Slot(distance: nat, firstHops: set<SystemId>, index: nat)

  ghost function ViewOf(slots: map<NodeId, Slot>): TentMap {
    map id | id in slots :: Tent(slots[id].distance, slots[id].firstHops)
  }

  function Parent(k: int): int
    requires k > 0
  {
    (k - 1) / 2
  }

  /** Every heap element is recorded in the map at the position it occupies, and nothing else is. */
  ghost predicate Indexed(heap: seq<NodeId>, slots: map<NodeId, Slot>) {
    && (forall k :: 0 <= k < |heap| ==> heap[k] in slots && slots[heap[k]].index == k)
    && (forall id :: id in slots ==> slots[id].index < |heap| && heap[slots[id].index] == id)
  }

  /** The heap edge into position `k` is in order. */
  ghost predicate EdgeOk(heap: seq<NodeId>, slots: map<NodeId, Slot>, k: int)
    requires Indexed(heap, slots)
    requires 0 < k < |heap|
  {
    slots[heap[Parent(k)]].distance <= slots[heap[k]].distance
  }

  ghost predicate Ordered(heap: seq<NodeId>, slots: map<NodeId, Slot>, n: nat)
    requires Indexed(heap, slots)
    requires n <= |heap|
  {
    forall k :: 0 < k < n ==> EdgeOk(heap, slots, k)
  }

  /** Every edge among the first `n` positions is in order, save the one into `hole` and those out of `i`. */
  ghost predicate OrderedBut(heap: seq<NodeId>, slots: map<NodeId, Slot>, n: nat, hole: int, i: int)
    requires Indexed(heap, slots)
    requires n <= |heap|
  {
    forall k :: 0 < k < n && k != hole && Parent(k) != i ==> EdgeOk(heap, slots, k)
  }

  /** The parent of `i` is no farther than any child of `i` among the first `n` positions. */
  ghost predicate Spans(heap: seq<NodeId>, slots: map<NodeId, Slot>, n: nat, i: int)
    requires Indexed(heap, slots)
    requires 0 <= i < |heap| && n <= |heap|
  {
    i > 0 ==> forall k :: 0 < k < n && Parent(k) == i ==> slots[heap[Parent(i)]].distance <= slots[heap[k]].distance
  }

  /** `heap1` is `heap0` with positions `i` and `j` exchanged and every distance kept. */
  ghost predicate Swapped(heap0: seq<NodeId>, slots0: map<NodeId, Slot>, heap1: seq<NodeId>, slots1: map<NodeId, Slot>,
                          i: int, j: int)
  {
    && 0 <= i < |heap0| && 0 <= j < |heap0|
    && heap1 == heap0[i := heap0[j]][j := heap0[i]]
    && slots1.Keys == slots0.Keys
    && forall id :: id in slots0 ==> slots1[id].distance == slots0[id].distance
  }

  /** One step of sifting up: the out-of-order edge moves from `j` to its parent. */
  lemma UpStep(heap0: seq<NodeId>, slots0: map<NodeId, Slot>, heap1: seq<NodeId>, slots1: map<NodeId, Slot>, j: int)
    requires Indexed(heap0, slots0) && Indexed(heap1, slots1)
    requires 0 < j < |heap0| && Swapped(heap0, slots0, heap1, slots1, Parent(j), j)
    requires OrderedBut(heap0, slots0, |heap0|, j, -1) && Spans(heap0, slots0, |heap0|, j)
    requires !EdgeOk(heap0, slots0, j)
    ensures OrderedBut(heap1, slots1, |heap1|, Parent(j), -1) && Spans(heap1, slots1, |heap1|, Parent(j))
  {
    var i := Parent(j);
    forall k | 0 < k < |heap1| && k != i
      ensures EdgeOk(heap1, slots1, k)
    {
      if k != j { assert EdgeOk(heap0, slots0, k); }
    }
    if i > 0 {
      assert EdgeOk(heap0, slots0, i);
      forall k | 0 < k < |heap1| && Parent(k) == i
        ensures slots1[heap1[Parent(i)]].distance <= slots1[heap1[k]].distance
      {
        if k != j { assert EdgeOk(heap0, slots0, k); }
      }
    }
  }

  /** The edges out of `i` among the first `n` positions are in order. */
  ghost predicate ChildrenOk(heap: seq<NodeId>, slots: map<NodeId, Slot>, n: nat, i: int)
    requires Indexed(heap, slots)
    requires n <= |heap|
  {
    forall k :: 0 < k < n && Parent(k) == i ==> EdgeOk(heap, slots, k)
  }

  /** `j` is a child of `i` with a least distance among the children of `i`. */
  ghost predicate LesserChild(heap: seq<NodeId>, slots: map<NodeId, Slot>, n: nat, i: int, j: int)
    requires Indexed(heap, slots)
    requires n <= |heap|
  {
    && 0 < j < n && Parent(j) == i
    && forall k :: 0 < k < n && Parent(k) == i ==> slots[heap[j]].distance <= slots[heap[k]].distance
  }

  /** One step of sifting down: exchanging `i` with its lesser child `j` moves the disorder below `j`. */
  lemma DownStep(heap0: seq<NodeId>, slots0: map<NodeId, Slot>, heap1: seq<NodeId>, slots1: map<NodeId, Slot>,
                 n: nat, hole: nat, i: nat, j: nat)
    requires Indexed(heap0, slots0) && Indexed(heap1, slots1)
    requires hole <= i && i < j < n <= |heap0| && Swapped(heap0, slots0, heap1, slots1, i, j)
    requires LesserChild(heap0, slots0, n, i, j) && !EdgeOk(heap0, slots0, j)
    requires OrderedBut(heap0, slots0, n, hole, i) && Spans(heap0, slots0, n, i)
    ensures OrderedBut(heap1, slots1, n, hole, j) && Spans(heap1, slots1, n, j)
  {
    forall k | 0 < k < n && k != hole && Parent(k) != j
      ensures EdgeOk(heap1, slots1, k)
    {
      if k != i && Parent(k) != i { assert EdgeOk(heap0, slots0, k); }
    }
    forall k | 0 < k < n && Parent(k) == j
      ensures slots1[heap1[Parent(j)]].distance <= slots1[heap1[k]].distance
    {
      assert EdgeOk(heap0, slots0, k);
    }
  }

  /** In an ordered heap the root carries a least distance. */
  lemma {:induction false} RootIsLeast(heap: seq<NodeId>, slots: map<NodeId, Slot>, k: nat)
    requires Indexed(heap, slots) && Ordered(heap, slots, |heap|)
    requires k < |heap|
    ensures slots[heap[0]].distance <= slots[heap[k]].distance
  {
    if k > 0 {
      RootIsLeast(heap, slots, Parent(k));
      assert EdgeOk(heap, slots, k);
    }
  }

  /** Lowering one distance can only disturb the edge into that position. */
  lemma Lowered(heap: seq<NodeId>, slots0: map<NodeId, Slot>, slots1: map<NodeId, Slot>, id: NodeId)
    requires Indexed(heap, slots0) && Ordered(heap, slots0, |heap|)
    requires id in slots0 && slots1.Keys == slots0.Keys && slots1[id].index == slots0[id].index
    requires slots1[id].distance <= slots0[id].distance
    requires forall other :: other in slots0 && other != id ==> slots1[other] == slots0[other]
    ensures Indexed(heap, slots1)
    ensures OrderedBut(heap, slots1, |heap|, slots0[id].index, -1) && Spans(heap, slots1, |heap|, slots0[id].index)
  {
    var i := slots0[id].index;
    forall k | 0 < k < |heap| && k != i
      ensures EdgeOk(heap, slots1, k)
    {
      assert EdgeOk(heap, slots0, k);
    }
    forall k | 0 < k < |heap| && Parent(k) == i && i > 0
      ensures slots1[heap[Parent(i)]].distance <= slots1[heap[k]].distance
    {
      assert EdgeOk(heap, slots0, k) && EdgeOk(heap, slots0, i);
    }
  }

  /** The root of an ordered heap is what a linear scan may return. */
  lemma RootIsScanned(heap: seq<NodeId>, slots: map<NodeId, Slot>)
    requires Indexed(heap, slots) && Ordered(heap, slots, |heap|) && |heap| > 0
    ensures IsLeast(ViewOf(slots), heap[0])
  {
    forall id | id in slots
      ensures slots[heap[0]].distance <= slots[id].distance
    {
      RootIsLeast(heap, slots, slots[id].index);
    }
  }

  /** Exchanging the root with the last position leaves only the edges out of the root in doubt. */
  lemma RootSwappedOut(heap0: seq<NodeId>, slots0: map<NodeId, Slot>, heap1: seq<NodeId>, slots1: map<NodeId, Slot>)
    requires Indexed(heap0, slots0) && Indexed(heap1, slots1) && Ordered(heap0, slots0, |heap0|) && |heap0| > 0
    requires Swapped(heap0, slots0, heap1, slots1, 0, |heap0| - 1)
    ensures OrderedBut(heap1, slots1, |heap1| - 1, 0, 0) && Spans(heap1, slots1, |heap1| - 1, 0)
  {
    forall k | 0 < k < |heap1| - 1 && Parent(k) != 0
      ensures EdgeOk(heap1, slots1, k)
    {
      assert EdgeOk(heap0, slots0, k);
    }
  }

  /** Dropping the last position keeps the rest indexed and ordered. */
  lemma LastDropped(heap: seq<NodeId>, slots: map<NodeId, Slot>)
    requires Indexed(heap, slots) && |heap| > 0 && Ordered(heap, slots, |heap| - 1)
    ensures var n := |heap| - 1;
            && Indexed(heap[..n], slots - {heap[n]}) && Ordered(heap[..n], slots - {heap[n]}, n)
            && ViewOf(slots - {heap[n]}) == ViewOf(slots) - {heap[n]}
  {
    var n := |heap| - 1;
    forall k | 0 < k < n
      ensures EdgeOk(heap[..n], slots - {heap[n]}, k)
    {
      assert EdgeOk(heap, slots, k);
    }
  }

  /** Appending a new entry leaves only the edge into the last position in doubt. */
  lemma LastAppended(heap: seq<NodeId>, slots: map<NodeId, Slot>, id: NodeId, slot: Slot)
    requires Indexed(heap, slots) && Ordered(heap, slots, |heap|)
    requires id !in slots && slot.index == |heap|
    ensures Indexed(heap + [id], slots[id := slot])
    ensures OrderedBut(heap + [id], slots[id := slot], |heap| + 1, |heap|, -1)
    ensures Spans(heap + [id], slots[id := slot], |heap| + 1, |heap|)
  {
    var h, s := heap + [id], slots[id := slot];
    forall k | 0 < k < |heap|
      ensures EdgeOk(h, s, k)
    {
      assert EdgeOk(heap, slots, k);
    }
  }

  /** Changing first hops alone disturbs nothing. */
  lemma Merged(heap: seq<NodeId>, slots: map<NodeId, Slot>, id: NodeId, hops: set<SystemId>)
    requires Indexed(heap, slots) && Ordered(heap, slots, |heap|)
    requires id in slots
    ensures var s := slots[id := slots[id].(firstHops := hops)];
            Indexed(heap, s) && Ordered(heap, s, |heap|)
  {
    var s := slots[id := slots[id].(firstHops := hops)];
    forall k | 0 < k < |heap|
      ensures EdgeOk(heap, s, k)
    {
      assert EdgeOk(heap, slots, k);
    }
  }

  class TentSet {
    var heap: seq<NodeId>
    var slots: map<NodeId, Slot>

    ghost predicate Valid()
      reads this
    {
      Indexed(heap, slots) && Ordered(heap, slots, |heap|)
    }

    /** The abstract value: the linear-scan map. */
    ghost function View(): TentMap
      reads this
    {
      ViewOf(slots)
    }

    constructor (self: NodeId)
      ensures Valid()
      ensures View() == map[self := Tent(0, {})]
    {
      heap := [self];
      slots := map[self := Slot(0, {}, 0)];
    }

    function Len(): nat
      reads this
    {
      |heap|
    }

    predicate Less(i: nat, j: nat)
      requires i < |heap| && j < |heap| && heap[i] in slots && heap[j] in slots
      reads this
    {
      slots[heap[i]].distance < slots[heap[j]].distance
    }

    method Swap(i: nat, j: nat)
      requires Indexed(heap, slots)
      requires i < |heap| && j < |heap|
      modifies this
      ensures Indexed(heap, slots)
      ensures heap == old(heap)[i := old(heap)[j]][j := old(heap)[i]]
      ensures View() == old(View())
      ensures slots.Keys == old(slots).Keys
      ensures forall id :: id in slots ==> slots[id].distance == old(slots)[id].distance
    {
      var a, b := heap[i], heap[j];
      heap := heap[i := b][j := a];
      slots := slots[b := slots[b].(index := i)];
      slots := slots[a := slots[a].(index := j)];
    }

    /** Sift up from `j0`: the only edge that may be out of order on entry is the one into `j0`. */
    method Up(j0: nat)
      requires Indexed(heap, slots)
      requires j0 < |heap|
      requires OrderedBut(heap, slots, |heap|, j0, -1) && Spans(heap, slots, |heap|, j0)
      modifies this
      ensures Valid()
      ensures View() == old(View()) && |heap| == |old(heap)|
    {
      var j: nat := j0;
      while true
        invariant j < |heap| == |old(heap)|
        invariant Indexed(heap, slots)
        invariant View() == old(View())
        invariant OrderedBut(heap, slots, |heap|, j, -1) && Spans(heap, slots, |heap|, j)
        decreases j
      {
        var i := if j == 0 then 0 else (j - 1) / 2;
        if i == j || !Less(j, i) {
          break;
        }
        ghost var h, s := heap, slots;
        Swap(i, j);
        UpStep(h, s, heap, slots, j);
        j := i;
      }
      forall k | 0 < k < |heap|
        ensures EdgeOk(heap, slots, k)
      {
      }
    }

    /** The lesser of the two children of `i`, whose first child is among the first `n` positions. */
    method PickChild(i: nat, n: nat) returns (j: nat)
      requires Indexed(heap, slots)
      requires 2 * i + 1 < n <= |heap|
      ensures LesserChild(heap, slots, n, i, j)
    {
      j := 2 * i + 1;
      if j + 1 < n && Less(j + 1, j) {
        j := j + 1;
      }
      assert forall k :: 0 < k < n && Parent(k) == i ==> k == 2 * i + 1 || k == 2 * i + 2;
    }

    /**
     * Sift down from `i0` within the first `n` positions.  Nothing moves when the edges out of `i0` are
     * in order; a sift from the root leaves those positions ordered.
     */
    method Down(i0: nat, n: nat) returns (moved: bool)
      requires Indexed(heap, slots)
      requires i0 < |heap| && n <= |heap|
      requires OrderedBut(heap, slots, n, i0, i0) && Spans(heap, slots, n, i0)
      modifies this
      ensures Indexed(heap, slots) && |heap| == |old(heap)|
      ensures View() == old(View())
      ensures i0 < n ==> heap[n..] == old(heap)[n..]
      ensures old(ChildrenOk(heap, slots, n, i0)) || i0 >= n ==> !moved && heap == old(heap) && slots == old(slots)
      ensures i0 == 0 ==> Ordered(heap, slots, n)
    {
      var i := i0;
      while true
        invariant i0 <= i < |heap| == |old(heap)|
        invariant Indexed(heap, slots)
        invariant View() == old(View())
        invariant i == i0 ==> heap == old(heap) && slots == old(slots)
        invariant i0 < i ==> i < n && heap[n..] == old(heap)[n..] && !old(ChildrenOk(heap, slots, n, i0))
        invariant OrderedBut(heap, slots, n, i0, i) && Spans(heap, slots, n, i)
        decreases |heap| - i
      {
        if 2 * i + 1 >= n {
          assert ChildrenOk(heap, slots, n, i);
          break;
        }
        var j := PickChild(i, n);
        if !Less(j, i) {
          assert ChildrenOk(heap, slots, n, i);
          break;
        }
        ghost var h, s := heap, slots;
        assert !EdgeOk(h, s, j);
        Swap(i, j);
        DownStep(h, s, heap, slots, n, i0, i, j);
        i := j;
      }
      moved := i > i0;
      if i0 == 0 {
        forall k | 0 < k < n
          ensures EdgeOk(heap, slots, k)
        {
        }
      }
    }

    /** Restore the order around position `i`, whose distance has been lowered. */
    method Fix(i: nat)
      requires Indexed(heap, slots)
      requires i < |heap|
      requires OrderedBut(heap, slots, |heap|, i, -1) && Spans(heap, slots, |heap|, i)
      modifies this
      ensures Valid()
      ensures View() == old(View())
    {
      var moved := Down(i, |heap|);
      if !moved {
        Up(i);
      }
    }

    /** Move the root to the last position and restore the order in front of it. */
    method SinkRoot()
      requires Valid() && Len() > 0
      modifies this
      ensures Len() == old(Len()) && heap[Len() - 1] == old(heap)[0] && View() == old(View())
      ensures Indexed(heap, slots) && Ordered(heap, slots, Len() - 1)
    {
      hide OrderedBut; hide Spans; hide ChildrenOk; hide ViewOf;
      var n := |heap| - 1;
      ghost var h, s := heap, slots;
      Swap(0, n);
      RootSwappedOut(h, s, heap, slots);
      var moved := Down(0, n);
      assert n > 0 ==> heap[n] == heap[n..][0];
    }

    /** Remove and return a least entry, exactly as the linear scan would. */
    method Pop() returns (id: NodeId, tent: Tent)
      requires Valid() && Len() > 0
      modifies this
      ensures Valid()
      ensures IsLeast(old(View()), id) && tent == old(View())[id]
      ensures View() == old(View()) - {id}
    {
      hide Ordered; hide IsLeast;
      RootIsScanned(heap, slots);
      id := heap[0];
      SinkRoot();
      var n := |heap| - 1;
      LastDropped(heap, slots);
      tent := Tent(slots[id].distance, slots[id].firstHops);
      assert View()[id] == tent;
      heap, slots := heap[..n], slots - {id};
    }

    method Insert(id: NodeId, d: nat, hops: set<SystemId>)
      requires Valid() && id !in View()
      modifies this
      ensures Valid()
      ensures View() == old(View())[id := Tent(d, hops)]
    {
      var slot := Slot(d, hops, |heap|);
      LastAppended(heap, slots, id, slot);
      heap, slots := heap + [id], slots[id := slot];
      Up(|heap| - 1);
    }

    method Lower(id: NodeId, d: nat, hops: set<SystemId>)
      requires Valid() && id in View() && d < View()[id].distance
      modifies this
      ensures Valid()
      ensures View() == old(View())[id := Tent(d, hops)]
    {
      var i := slots[id].index;
      var lowered := slots[id := Slot(d, hops, i)];
      Lowered(heap, slots, lowered, id);
      slots := lowered;
      assert View() == old(View())[id := Tent(d, hops)];
      Fix(i);
    }

    /** Relax one node: the heap form does what the linear-scan form does. */
    method Relax(id: NodeId, d: nat, hops: set<SystemId>)
      requires Valid()
      modifies this
      ensures Valid()
      ensures View() == Relaxed(old(View()), id, d, hops)
    {
      if id !in slots {
        Insert(id, d, hops);
      } else if d < slots[id].distance {
        Lower(id, d, hops);
      } else if d == slots[id].distance {
        var merged := slots[id].firstHops + hops;
        Merged(heap, slots, id, merged);
        slots := slots[id := slots[id].(firstHops := merged)];
      }
    }
  }
}
