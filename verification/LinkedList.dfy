/** The circular doubly linked list of framework/linked_list: a sentinel and the data nodes
    form one cycle.  A list is described by the ghost sequence `c` of its nodes in `next`
    order, the sentinel first. */
module LinkedList {

  /** Storage as `malloc` and `free` see it: what may still be touched, and what was freed, in order. */
  class Memory {
    ghost var live: set<object>
    ghost var freed: seq<object>

    /** Nothing has been freed twice, and nothing freed is in use. */
    ghost predicate Valid()
      reads this
    {
      Distinct(freed) && forall o | o in freed :: o !in live
    }

    constructor ()
      ensures Valid() && live == {} && freed == []
    {
      live, freed := {}, [];
    }

    ghost method Malloc(o: object)
      requires Valid() && o !in live && o !in freed
      modifies this
      ensures Valid() && live == old(live) + {o} && freed == old(freed)
    {
      live := live + {o};
    }

    /** Freeing something that is not live (never allocated, or freed before) is a contract violation. */
    ghost method Free(o: object)
      requires Valid() && o in live
      modifies this
      ensures Valid() && live == old(live) - {o} && freed == old(freed) + [o]
    {
      live, freed := live - {o}, freed + [o];
    }
  }

  class Node {
    var nodeData: object?
    var prev: Node
    var next: Node

    constructor (nodeData: object?)
      ensures this.nodeData == nodeData && next == this && prev == this
    {
      this.nodeData := nodeData;
      next := this;
      prev := this;
    }

    /** Loads that are only allowed while the node's storage is live. */
    function Next(ghost memory: Memory): Node
      requires this in memory.live
      reads this, memory
    {
      next
    }

    function Data(ghost memory: Memory): object?
      requires this in memory.live
      reads this, memory
    {
      nodeData
    }
  }

  // ---------------------------------------------------------------- rings

  ghost predicate Distinct(s: seq<object>) {
    forall i, j | 0 <= i < j < |s| :: s[i] != s[j]
  }

  /** The position after `i` on a cycle of `n` nodes. */
  function After(n: nat, i: nat): nat
    requires i < n
  {
    if i + 1 == n then 0 else i + 1
  }

  function Before(n: nat, i: nat): nat
    requires i < n
  {
    if i == 0 then n - 1 else i - 1
  }

  ghost predicate Forward(c: seq<Node>)
    reads c
  {
    forall i {:trigger c[i].next} | 0 <= i < |c| :: c[i].next == c[After(|c|, i)]
  }

  ghost predicate Backward(c: seq<Node>)
    reads c
  {
    forall i {:trigger c[i].prev} | 0 <= i < |c| :: c[i].prev == c[Before(|c|, i)]
  }

  /** The two-way cycle invariant, for rings of every length. */
  ghost predicate Ring(c: seq<Node>)
    reads c
  {
    c != [] && Distinct(c) && Forward(c) && Backward(c)
  }

  function Exchange<T>(s: seq<T>, i: nat, j: nat): seq<T>
    requires i < |s| && j < |s|
  {
    s[i := s[j]][j := s[i]]
  }

  function InsertAt<T>(c: seq<T>, p: nat, node: T): seq<T>
    requires p <= |c|
  {
    c[..p] + [node] + c[p..]
  }

  function RemoveAt(c: seq<Node>, p: nat): seq<Node>
    requires p < |c|
  {
    c[..p] + c[p + 1..]
  }

  /** The links after `node` has been put between positions `p - 1` and `p` of the cycle `c`. */
  ghost predicate LinkedIn(c: seq<Node>, p: nat, node: Node)
    requires 0 < p <= |c|
    reads c, node
  {
    var n := |c|;
    && node.next == c[After(n, p - 1)] && node.prev == c[p - 1]
    && (forall k {:trigger c[k].next} | 0 <= k < n ::
      c[k].next == (if k == p - 1 then node else c[After(n, k)]))
    && (forall k {:trigger c[k].prev} | 0 <= k < n ::
      c[k].prev == (if k == After(n, p - 1) then node else c[Before(n, k)]))
  }

  lemma LinkedInForward(c: seq<Node>, p: nat, node: Node)
    requires 0 < p <= |c| && LinkedIn(c, p, node)
    ensures Forward(InsertAt(c, p, node))
  {
    var d, n := InsertAt(c, p, node), |c|;
    forall k | 0 <= k < n + 1 ensures d[k].next == d[After(n + 1, k)] {
      if k < p {
        assert d[k] == c[k] && c[k].next == d[After(n + 1, k)];
      } else if k > p {
        assert d[k] == c[k - 1] && c[k - 1].next == d[After(n + 1, k)];
      }
    }
  }

  lemma LinkedInBackward(c: seq<Node>, p: nat, node: Node)
    requires 0 < p <= |c| && LinkedIn(c, p, node)
    ensures Backward(InsertAt(c, p, node))
  {
    var d, n := InsertAt(c, p, node), |c|;
    forall k | 0 <= k < n + 1 ensures d[k].prev == d[Before(n + 1, k)] {
      if k < p {
        assert d[k] == c[k] && c[k].prev == d[Before(n + 1, k)];
      } else if k > p {
        assert d[k] == c[k - 1] && c[k - 1].prev == d[Before(n + 1, k)];
      }
    }
  }

  lemma InsertAtIsDistinct(c: seq<Node>, p: nat, node: Node)
    requires p <= |c| && Distinct(c) && node !in c
    ensures Distinct(InsertAt(c, p, node))
  {
  }

  lemma LinkedInIsRing(c: seq<Node>, p: nat, node: Node)
    requires 0 < p <= |c| && Distinct(c) && node !in c && LinkedIn(c, p, node)
    ensures Ring(InsertAt(c, p, node))
  {
    LinkedInForward(c, p, node);
    LinkedInBackward(c, p, node);
    InsertAtIsDistinct(c, p, node);
  }

  /** The links after position `p` has been cut out of the cycle `c`. */
  ghost predicate CutOut(c: seq<Node>, p: nat)
    requires 0 < p < |c|
    reads c
  {
    var n := |c|;
    && (forall k {:trigger c[k].next} | 0 <= k < n && k != p ::
      c[k].next == (if k == p - 1 then c[After(n, p)] else c[After(n, k)]))
    && (forall k {:trigger c[k].prev} | 0 <= k < n && k != p ::
      c[k].prev == (if k == After(n, p) then c[p - 1] else c[Before(n, k)]))
  }

  lemma CutOutIsRing(c: seq<Node>, p: nat)
    requires 0 < p < |c| && Distinct(c) && CutOut(c, p)
    ensures Ring(RemoveAt(c, p))
  {
    var d, n := RemoveAt(c, p), |c|;
    forall k | 0 <= k < n - 1 ensures d[k].next == d[After(n - 1, k)] && d[k].prev == d[Before(n - 1, k)] {
      var o := if k < p then k else k + 1;
      assert c[o].next == d[After(n - 1, k)];
      assert c[o].prev == d[Before(n - 1, k)];
    }
  }

  // ---------------------------------------------------------------- operations

  /** The success path of the source has no return statement, so `ret` is only promised on failure. */
  method InitDoublyLinkedListNode(node: Node?) returns (ret: int)
    modifies node
    ensures node == null ==> ret == -1
    ensures node != null ==> Ring([node]) && node.nodeData == old(node.nodeData)
  {
    ret := *;
    if node == null {
      return -1;
    }
    node.next := node;
    node.prev := node;
  }

  /** `hasRoom` is whether malloc succeeds. */
  method CreateDoublyLinkedListNode(memory: Memory, nodeData: object?, hasRoom: bool) returns (node: Node?)
    requires memory.Valid()
    modifies memory
    ensures memory.Valid()
    ensures node == null <==> nodeData == null || !hasRoom
    ensures node == null ==> memory.live == old(memory.live)
    ensures node != null ==> fresh(node) && Ring([node]) && node.nodeData == nodeData
    ensures node != null ==> memory.live == old(memory.live) + {node}
    ensures memory.freed == old(memory.freed)
  {
    if nodeData == null || !hasRoom {
      return null;
    }
    node := new Node(nodeData);
    memory.Malloc(node);
    var _ := InitDoublyLinkedListNode(node);
  }

  /** The nodes whose links an operation at the sentinel `head` may rewrite. */
  ghost function Around(head: Node?, node: Node?): set<Node>
    reads head, if head == null then {} else {head.next, head.prev}
  {
    if head == null || node == null then {} else
      {head as Node, node as Node, head.next, head.prev, head.next.next, head.prev.prev}
  }

  ghost function Cell(node: Node?): set<Node> {
    if node == null then {} else {node as Node}
  }

  method InsertHeadDoublyLinkedListNode(head: Node?, node: Node?, ghost c: seq<Node>) returns (ret: int)
    requires head != null && node != null ==> Ring(c) && c[0] == head && node !in c
    modifies Around(head, node)`next, Around(head, node)`prev
    ensures ret == if head == null || node == null then -1 else 0
    ensures ret == 0 ==> Ring(InsertAt(c, 1, node))
  {
    if head == null || node == null {
      return -1;
    }
    var headNext := head.next;
    node.next := headNext;
    node.prev := head;
    head.next := node;
    headNext.prev := node;
    LinkedInIsRing(c, 1, node);
    return 0;
  }

  method InsertTailDoublyLinkedListNode(head: Node?, node: Node?, ghost c: seq<Node>) returns (ret: int)
    requires head != null && node != null ==> Ring(c) && c[0] == head && node !in c
    modifies Around(head, node)`next, Around(head, node)`prev
    ensures ret == if head == null || node == null then -1 else 0
    ensures ret == 0 ==> Ring(InsertAt(c, |c|, node))
  {
    if head == null || node == null {
      return -1;
    }
    var headPrev := head.prev;
    node.next := head;
    node.prev := headPrev;
    headPrev.next := node;
    head.prev := node;
    LinkedInIsRing(c, |c|, node);
    return 0;
  }

  /** Unlinks the first data node, hands its payload to `node` and frees it; fails on the empty ring. */
  method DeleteHeadDoublyLinkedListNode(memory: Memory, head: Node?, node: Node?, ghost c: seq<Node>) returns (ret: int)
    requires memory.Valid()
    requires head != null && node != null ==> Ring(c) && c[0] == head && (forall n | n in c :: n in memory.live)
    modifies memory, Around(head, node)`next, Around(head, node)`prev, Cell(node)`nodeData
    ensures memory.Valid() && ret == if head == null || node == null || |c| == 1 then -1 else 0
    ensures ret != 0 ==> unchanged(memory) && (node != null ==> unchanged(node))
    ensures ret != 0 && head != null && node != null ==> Ring(c)
    ensures ret == 0 ==> node.nodeData == old(c[1].nodeData) && Ring(RemoveAt(c, 1))
    ensures ret == 0 ==> memory.freed == old(memory.freed) + [c[1]] && memory.live == old(memory.live) - {c[1]}
  {
    if head == null || node == null {
      return -1;
    }
    var headNext := head.Next(memory);
    if headNext == head {
      return -1;
    }
    var headNextNext := headNext.Next(memory);
    head.next := headNextNext;
    headNextNext.prev := head;
    node.nodeData := headNext.Data(memory);
    memory.Free(headNext);
    CutOutIsRing(c, 1);
    return 0;
  }

  /** The same at the other end. */
  method DeleteTailDoublyLinkedListNode(memory: Memory, head: Node?, node: Node?, ghost c: seq<Node>) returns (ret: int)
    requires memory.Valid()
    requires head != null && node != null ==> Ring(c) && c[0] == head && (forall n | n in c :: n in memory.live)
    modifies memory, Around(head, node)`next, Around(head, node)`prev, Cell(node)`nodeData
    ensures memory.Valid() && ret == if head == null || node == null || |c| == 1 then -1 else 0
    ensures ret != 0 ==> unchanged(memory) && (node != null ==> unchanged(node))
    ensures ret != 0 && head != null && node != null ==> Ring(c)
    ensures ret == 0 ==> node.nodeData == old(c[|c| - 1].nodeData) && Ring(RemoveAt(c, |c| - 1))
    ensures ret == 0 ==> memory.freed == old(memory.freed) + [c[|c| - 1]]
    ensures ret == 0 ==> memory.live == old(memory.live) - {c[|c| - 1]}
  {
    if head == null || node == null {
      return -1;
    }
    var headPrev := head.prev;
    if headPrev == head {
      return -1;
    }
    var headPrevPrev := headPrev.prev;
    head.prev := headPrevPrev;
    headPrevPrev.next := head;
    node.nodeData := headPrev.Data(memory);
    memory.Free(headPrev);
    CutOutIsRing(c, |c| - 1);
    return 0;
  }

  // ---------------------------------------------------------------- swap

  /** The links after swapping the neighbours at positions `i` and `i + 1`, by position. */
  ghost predicate RelinkedNeighbours(c: seq<Node>, i: nat)
    requires i + 1 < |c|
    reads c
  {
    var n := |c|;
    && (forall k {:trigger c[k].next} | 0 <= k < n ::
      c[k].next == (if k == i then c[After(n, i + 1)] else if k == i + 1 then c[i]
       else if k == Before(n, i) then c[i + 1] else c[After(n, k)]))
    && (forall k {:trigger c[k].prev} | 0 <= k < n ::
      c[k].prev == (if k == i then c[i + 1] else if k == i + 1 then c[Before(n, i)]
       else if k == After(n, i + 1) then c[i] else c[Before(n, k)]))
  }

  lemma RelinkedNeighboursIsExchange(c: seq<Node>, i: nat)
    requires 1 <= i && i + 1 < |c| && Distinct(c) && RelinkedNeighbours(c, i)
    ensures Ring(Exchange(c, i, i + 1))
  {
  }

  /** `node2` directly follows `node1`. */
  method SwapDoublyLinkedListNextNode(node1: Node, node2: Node, ghost c: seq<Node>, ghost i: nat)
    requires Ring(c) && i + 1 < |c| && 1 <= i && c[i] == node1 && c[i + 1] == node2
    modifies (set n | n in c)`next, (set n | n in c)`prev
    ensures Ring(Exchange(c, i, i + 1))
  {
    var node1Prev := node1.prev;
    var node2Next := node2.next;
    assert node1Prev == c[Before(|c|, i)] && node2Next == c[After(|c|, i + 1)];
    node1.next := node2Next;
    node2Next.prev := node1;
    node1Prev.next := node2;
    node2.next := node1;
    node1.prev := node2;
    node2.prev := node1Prev;
    RelinkedNeighboursIsExchange(c, i);
  }

  predicate Adjacent(i: nat, j: nat) {
    i + 1 == j || j + 1 == i
  }

  method SwapDoublyLinkedListAdjacentNode(node1: Node, node2: Node, ghost c: seq<Node>, ghost i: nat, ghost j: nat)
    requires Ring(c) && 1 <= i < |c| && 1 <= j < |c| && c[i] == node1 && c[j] == node2 && Adjacent(i, j)
    modifies (set n | n in c)`next, (set n | n in c)`prev
    ensures Ring(Exchange(c, i, j))
  {
    if node1.next == node2 {
      SwapDoublyLinkedListNextNode(node1, node2, c, i);
    } else {
      SwapDoublyLinkedListNextNode(node2, node1, c, j);
      assert Exchange(c, i, j) == Exchange(c, j, i);
    }
  }

  /** Puts `node` between `before` and `after`; `back` is what `after` then points back at
      (lines 153-156 with `node2`, lines 158-161 with what line 160 stores). */
  method Splice(before: Node, node: Node, after: Node, back: Node)
    modifies {before, node}`next, {after, node}`prev
    ensures node.next == after && (before != node ==> before.next == node)
    ensures node.prev == before && (after != node ==> after.prev == back)
  {
    before.next := node;
    node.next := after;
    after.prev := back;
    node.prev := before;
  }

  /** The links after the eight assignments of a swap of non-neighbours, by position; `last` is
      what line 160 stores in the back link of the node after position `j`. */
  ghost predicate Relinked(c: seq<Node>, i: nat, j: nat, last: Node)
    requires i < |c| && j < |c|
    reads c
  {
    var n := |c|;
    && (forall k {:trigger c[k].next} | 0 <= k < n ::
      c[k].next == (if k == i then c[After(n, j)] else if k == j then c[After(n, i)]
       else if k == Before(n, i) then c[j] else if k == Before(n, j) then c[i] else c[After(n, k)]))
    && (forall k {:trigger c[k].prev} | 0 <= k < n ::
      c[k].prev == (if k == i then c[Before(n, j)] else if k == j then c[Before(n, i)]
       else if k == After(n, j) then last else if k == After(n, i) then c[j] else c[Before(n, k)]))
  }

  lemma RelinkedForward(c: seq<Node>, i: nat, j: nat, last: Node)
    requires i < |c| && j < |c| && !Adjacent(i, j) && 1 <= i && 1 <= j
    requires Relinked(c, i, j, last)
    ensures Forward(Exchange(c, i, j))
  {
    var d, n := Exchange(c, i, j), |c|;
    forall k | 0 <= k < n ensures d[k].next == d[After(n, k)] {
      assert Before(n, After(n, k)) == k;
    }
  }

  lemma RelinkedBackward(c: seq<Node>, i: nat, j: nat, last: Node)
    requires i < |c| && j < |c| && !Adjacent(i, j) && 1 <= i && 1 <= j && i != j
    requires Relinked(c, i, j, last)
    ensures forall k {:trigger Exchange(c, i, j)[k].prev} | 0 <= k < |c| ::
      Exchange(c, i, j)[k].prev == (if k == After(|c|, j) then last else Exchange(c, i, j)[Before(|c|, k)])
  {
    var d, n := Exchange(c, i, j), |c|;
    forall k | 0 <= k < n
      ensures d[k].prev == if k == After(n, j) then last else d[Before(n, k)]
    {
      assert After(n, Before(n, k)) == k;
    }
  }

  /** So the result is a ring exactly when the last store was the right one. */
  lemma RelinkedIsExchange(c: seq<Node>, i: nat, j: nat, last: Node)
    requires i < |c| && j < |c| && Distinct(c) && !Adjacent(i, j) && 1 <= i && 1 <= j
    requires Relinked(c, i, j, last)
    ensures Distinct(Exchange(c, i, j)) && Forward(Exchange(c, i, j))
    ensures Ring(Exchange(c, i, j)) <==> last == c[i]
    ensures forall k {:trigger Exchange(c, i, j)[k].prev} | 0 <= k < |c| ::
      Exchange(c, i, j)[k].prev == (if k == After(|c|, j) then last else Exchange(c, i, j)[Before(|c|, k)])
  {
    RelinkedForward(c, i, j, last);
    if i == j {
      assert Exchange(c, i, j) == c;
      assert c[After(|c|, j)].prev == last;
    } else {
      RelinkedBackward(c, i, j, last);
      assert Exchange(c, i, j)[After(|c|, j)].prev == last;
    }
  }

  /** The swap as the source has it.  The forward chain always comes out exchanged; when the two
      nodes are distinct and not neighbours, the old successor of `node2` is left pointing back
      at `node2` instead of `node1`, and every other back link is right. */
  method SwapDoublyLinkedListNode(node1: Node, node2: Node, ghost c: seq<Node>, ghost i: nat, ghost j: nat)
    requires Ring(c) && 1 <= i < |c| && 1 <= j < |c| && c[i] == node1 && c[j] == node2
    modifies (set n | n in c)`next, (set n | n in c)`prev
    ensures Distinct(Exchange(c, i, j)) && Forward(Exchange(c, i, j))
    ensures forall k {:trigger Exchange(c, i, j)[k].prev} | 0 <= k < |c| ::
      Exchange(c, i, j)[k].prev ==
        (if k == After(|c|, j) && !Adjacent(i, j) then node2 else Exchange(c, i, j)[Before(|c|, k)])
    ensures Ring(Exchange(c, i, j)) <==> i == j || Adjacent(i, j)
  {
    if node1.next == node2 || node1.prev == node2 {
      SwapDoublyLinkedListAdjacentNode(node1, node2, c, i, j);
      return;
    }
    var node1Prev := node1.prev;
    var node1Next := node1.next;
    var node2Prev := node2.prev;
    var node2Next := node2.next;
    Splice(node1Prev, node2, node1Next, node2);
    Splice(node2Prev, node1, node2Next, node2);
    RelinkedIsExchange(c, i, j, node2);
  }

  /** The swap with the back link of line 160 set to `node1`: a transposition of the two positions. */
  method SwapDoublyLinkedListNodeCorrected(node1: Node, node2: Node, ghost c: seq<Node>, ghost i: nat, ghost j: nat)
    requires Ring(c) && 1 <= i < |c| && 1 <= j < |c| && c[i] == node1 && c[j] == node2
    modifies (set n | n in c)`next, (set n | n in c)`prev
    ensures Ring(Exchange(c, i, j))
  {
    if node1.next == node2 || node1.prev == node2 {
      SwapDoublyLinkedListAdjacentNode(node1, node2, c, i, j);
      return;
    }
    var node1Prev := node1.prev;
    var node1Next := node1.next;
    var node2Prev := node2.prev;
    var node2Next := node2.next;
    Splice(node1Prev, node2, node1Next, node2);
    Splice(node2Prev, node1, node2Next, node1);
    RelinkedIsExchange(c, i, j, node1);
  }

  /** Swapping the same two nodes twice gives back every link. */
  method SwapTwice(node1: Node, node2: Node, ghost c: seq<Node>, ghost i: nat, ghost j: nat)
    requires Ring(c) && 1 <= i < |c| && 1 <= j < |c| && c[i] == node1 && c[j] == node2
    modifies (set n | n in c)`next, (set n | n in c)`prev
    ensures forall n | n in c :: n.next == old(n.next) && n.prev == old(n.prev)
  {
    ghost var d := Exchange(c, i, j);
    SwapDoublyLinkedListNodeCorrected(node1, node2, c, i, j);
    assert forall n | n in d :: n in c;
    SwapDoublyLinkedListNodeCorrected(node1, node2, d, j, i);
    assert Exchange(d, j, i) == c;
  }

  // ---------------------------------------------------------------- teardown

  /** Everything teardown has to free: the data nodes `c[1..]` with their payloads, and the
      ring's storage as a pair of sequences that does not depend on the heap. */
  ghost predicate HasPayloads(c: seq<Node>, data: seq<object?>)
    reads c
  {
    |data| == |c| && forall k {:trigger c[k].nodeData} | 0 <= k < |c| :: c[k].nodeData == data[k]
  }

  /** Payloads are owned by one node each and are not list nodes themselves. */
  ghost predicate OwnsPayloads(c: seq<Node>, data: seq<object?>) {
    && |data| == |c|
    && (forall i | 1 <= i < |c| :: data[i] !in c)
    && (forall i, j | 1 <= i < j < |c| && data[i] != null :: data[i] != data[j])
  }

  ghost predicate AllLive(memory: Memory, c: seq<Node>, data: seq<object?>)
    reads memory
  {
    && |data| == |c|
    && (forall n | n in c :: n in memory.live)
    && (forall i | 1 <= i < |c| && data[i] != null :: data[i] in memory.live)
  }

  ghost function FreeOrderOf(node: Node, payload: object?): seq<object> {
    if payload == null then [node] else [payload, node]
  }

  /** What teardown frees from position `i` on, in order: each payload, then its node. */
  ghost function FreeOrder(c: seq<Node>, data: seq<object?>, i: nat): (order: seq<object>)
    requires |data| == |c|
    decreases |c| - i
  {
    if i >= |c| then [] else FreeOrderOf(c[i], data[i]) + FreeOrder(c, data, i + 1)
  }

  ghost function StorageOf(node: Node, payload: object?): set<object> {
    if payload == null then {node} else {payload, node}
  }

  /** The data nodes from position `i` on and their payloads. */
  ghost function Storage(c: seq<Node>, data: seq<object?>, i: nat): set<object>
    requires |data| == |c|
    decreases |c| - i
  {
    if i >= |c| then {} else StorageOf(c[i], data[i]) + Storage(c, data, i + 1)
  }

  /** Everything in the storage from position `i` on belongs to one of the nodes from there on. */
  lemma {:induction false} StorageOwner(c: seq<Node>, data: seq<object?>, i: nat, o: object) returns (k: nat)
    requires |data| == |c| && o in Storage(c, data, i)
    ensures i <= k < |c| && o in StorageOf(c[k], data[k])
    decreases |c| - i
  {
    if o in StorageOf(c[i], data[i]) {
      k := i;
    } else {
      k := StorageOwner(c, data, i + 1, o);
    }
  }

  /** From position `i` on, each node's storage is its own and does not hold the sentinel. */
  ghost predicate SeparateFrom(c: seq<Node>, data: seq<object?>, i: nat)
    requires c != [] && |data| == |c|
    decreases |c| - i
  {
    i < |c| ==>
      && Storage(c, data, i + 1) !! StorageOf(c[i], data[i])
      && c[0] !in StorageOf(c[i], data[i]) && data[i] != c[i]
      && SeparateFrom(c, data, i + 1)
  }

  lemma {:induction false} OwnedIsSeparate(c: seq<Node>, data: seq<object?>, i: nat)
    requires 1 <= i <= |c| && Distinct(c) && OwnsPayloads(c, data)
    ensures SeparateFrom(c, data, i)
    decreases |c| - i
  {
    if i < |c| {
      forall o | o in Storage(c, data, i + 1) ensures o !in StorageOf(c[i], data[i]) {
        var k := StorageOwner(c, data, i + 1, o);
      }
      OwnedIsSeparate(c, data, i + 1);
    }
  }

  lemma OwnedIsLive(memory: Memory, c: seq<Node>, data: seq<object?>)
    requires c != [] && AllLive(memory, c, data)
    ensures Storage(c, data, 1) <= memory.live
  {
    forall o | o in Storage(c, data, 1) ensures o in memory.live {
      var k := StorageOwner(c, data, 1, o);
    }
  }

  /** Each piece of storage is in the free order exactly once. */
  lemma {:induction false} FreeOrderIsStorage(c: seq<Node>, data: seq<object?>, i: nat)
    requires c != [] && |data| == |c| && SeparateFrom(c, data, i)
    ensures multiset(FreeOrder(c, data, i)) == multiset(Storage(c, data, i))
    decreases |c| - i
  {
    if i < |c| {
      FreeOrderIsStorage(c, data, i + 1);
      assert multiset(FreeOrderOf(c[i], data[i])) == multiset(StorageOf(c[i], data[i]));
    }
  }

  /** What is left to free, with node `i` taken off. */
  lemma OneNodeLess(live: set<object>, c: seq<Node>, data: seq<object?>, i: nat, log: seq<object>)
    requires i < |c| == |data| && SeparateFrom(c, data, i) && Storage(c, data, i) <= live && c[0] in live
    ensures var order, storage := FreeOrderOf(c[i], data[i]), StorageOf(c[i], data[i]);
      && log + FreeOrder(c, data, i) == (log + order) + FreeOrder(c, data, i + 1)
      && Storage(c, data, i) == storage + Storage(c, data, i + 1) && SeparateFrom(c, data, i + 1)
      && storage <= live && Storage(c, data, i + 1) <= live - storage && c[0] in live - storage
      && data[i] != c[i]
  {
    var order := FreeOrderOf(c[i], data[i]);
    assert log + (order + FreeOrder(c, data, i + 1)) == (log + order) + FreeOrder(c, data, i + 1);
  }

  /** Lines 26-29: the payload, if any, and then the node itself. */
  method FreeNode(memory: Memory, delNode: Node)
    requires memory.Valid() && delNode in memory.live && delNode.nodeData != delNode
    requires delNode.nodeData != null ==> delNode.nodeData in memory.live
    modifies memory
    ensures memory.Valid() && memory.freed == old(memory.freed) + FreeOrderOf(delNode, delNode.nodeData)
    ensures memory.live == old(memory.live) - StorageOf(delNode, delNode.nodeData)
  {
    if delNode.Data(memory) != null {
      memory.Free(delNode.Data(memory));
    }
    memory.Free(delNode);
  }

  /** The loop of lines 22-30.  `Memory.Free` refuses a second free and `Next`/`Data` refuse freed nodes. */
  method FreeDataNodes(memory: Memory, head: Node, ghost c: seq<Node>, ghost data: seq<object?>)
    requires c != [] && Forward(c) && c[0] == head && HasPayloads(c, data) && SeparateFrom(c, data, 1)
    requires memory.Valid() && head in memory.live && Storage(c, data, 1) <= memory.live
    modifies memory
    ensures memory.Valid() && memory.freed == old(memory.freed) + FreeOrder(c, data, 1)
    ensures memory.live == old(memory.live) - Storage(c, data, 1)
    ensures head in memory.live
  {
    var node := head.Next(memory);
    ghost var i, log, gone := 1, [], {};
    while node != head
      invariant 1 <= i <= |c| && node == (if i == |c| then head else c[i])
      invariant memory.Valid() && SeparateFrom(c, data, i) && head in memory.live && Storage(c, data, i) <= memory.live
      invariant FreeOrder(c, data, 1) == log + FreeOrder(c, data, i) && memory.freed == old(memory.freed) + log
      invariant Storage(c, data, 1) == gone + Storage(c, data, i) && memory.live == old(memory.live) - gone
      decreases |c| - i
    {
      var delNode := node;
      node := node.Next(memory);
      assert node == if i + 1 == |c| then head else c[i + 1];
      ghost var order, storage := FreeOrderOf(delNode, data[i]), StorageOf(delNode, data[i]);
      OneNodeLess(memory.live, c, data, i, log);
      assert delNode.nodeData == data[i];
      FreeNode(memory, delNode);
      log, gone := log + order, gone + storage;
      i := i + 1;
    }
  }

  /** Frees the whole list and leaves the empty ring. */
  method DeInitDoublyLinkedListNode(memory: Memory, head: Node?, ghost c: seq<Node>, ghost data: seq<object?>)
    returns (ret: int)
    requires memory.Valid()
    requires head != null ==> Ring(c) && c[0] == head && HasPayloads(c, data)
    requires head != null ==> OwnsPayloads(c, data) && AllLive(memory, c, data)
    modifies memory, Cell(head)`next, Cell(head)`prev
    ensures memory.Valid() && (head == null ==> ret == -1 && unchanged(memory))
    ensures head != null ==> Ring([head]) && head in memory.live
    ensures head != null ==> memory.freed == old(memory.freed) + FreeOrder(c, data, 1)
    ensures head != null ==> memory.live == old(memory.live) - Storage(c, data, 1)
  {
    ret := *;
    if head == null {
      return -1;
    }
    OwnedIsSeparate(c, data, 1);
    OwnedIsLive(memory, c, data);
    FreeDataNodes(memory, head, c, data);
    head.next := head;
    head.prev := head;
  }
}
