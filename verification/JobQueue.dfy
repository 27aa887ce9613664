/** The thread pool's job list: the ring of LinkedList, used as a queue by inserting at the head
    and deleting at the tail, with the payloads that AddJob allocates and that a worker, or the
    teardown of the list, frees (framework/thread_pool/thread_pool.c). */
module JobQueue {
  import opened LinkedList

  /** A function pointer and its argument; 0 is NULL. */
  datatype Job = Job(jobFunc: int, arg: int)

  class JobNode {
    const job: Job

    constructor (job: Job)
      ensures this.job == job
    {
      this.job := job;
    }

    /** A load that is only allowed while the payload is live. */
    function JobInfo(ghost memory: Memory): Job
      requires this in memory.live
      reads memory
    {
      job
    }
  }

  class JobList {
    const head: Node
    const memory: Memory
    ghost var ring: seq<Node>
    /** What the nodes of the ring carry; the sentinel carries nothing. */
    ghost var data: seq<object?>
    /** The waiting jobs, oldest first: the payloads read from the tail to the head. */
    ghost var contents: seq<Job>
    /** The payload each worker has dequeued and not freed yet. */
    ghost var held: map<nat, JobNode>
    /** Every payload ever allocated. */
    ghost var made: set<object>

    ghost predicate Valid()
      reads this, memory, ring
    {
      && memory.Valid()
      && JobRing(memory, head, ring, data, contents)
      && Kept(memory.live, memory.freed, data, held, made)
    }

    constructor ()
      ensures Valid() && contents == [] && held == map[] && made == {}
      ensures fresh(head) && fresh(memory) && fresh(ring)
    {
      head := new Node(null);
      memory := new Memory();
      new;
      memory.Malloc(head);
      var _ := InitDoublyLinkedListNode(head);
      ring, data, contents, held, made := [head], [null], [], map[], {};
    }

    /** Lines 170-187: allocate the payload and the node, insert at the head; the payload is freed
        again when there is no room for the node. */
    method AddJob(job: Job, hasRoomForJob: bool, hasRoomForNode: bool) returns (ret: int)
      requires Valid()
      modifies this, memory, ring
      ensures Valid() && forall n | n in ring :: n in old(ring) || fresh(n)
      ensures ret == if hasRoomForJob && hasRoomForNode then 0 else -1
      ensures contents == if ret == 0 then old(contents) + [job] else old(contents)
      ensures held == old(held) && old(made) <= made
      ensures ret != 0 ==> memory.live == old(memory.live)
    {
      if !hasRoomForJob {
        return -1;
      }
      var tmp, node := QueueJob(memory, head, job, hasRoomForNode, ring, data, contents);
      if node == null {
        KeptRefuse(old(memory.live), old(memory.freed), data, held, made, tmp);
        made := made + {tmp};
        return -1;
      }
      KeptAdd(old(memory.live), memory.freed, data, held, made, {tmp, node}, tmp);
      ring, data, contents := InsertAt(ring, 1, node), InsertAt(data, 1, tmp), contents + [job];
      made := made + {tmp};
      assert JobRing(memory, head, ring, data, contents) && Kept(memory.live, memory.freed, data, held, made);
      ret := 0;
    }

    /** Lines 55, 67 and 74: delete at the tail into a node of the caller's, who then has the payload. */
    method TakeJob(ghost worker: nat) returns (cur: JobNode?)
      requires Valid() && worker !in held
      modifies this, memory, ring
      ensures Valid() && made == old(made) && forall n | n in ring :: n in old(ring)
      ensures cur == null <==> old(contents) == []
      ensures cur != null ==> cur.job == old(contents)[0] && contents == old(contents)[1..]
      ensures cur != null ==> held == old(held)[worker := cur]
      ensures cur == null ==> contents == [] && held == old(held) && memory.live == old(memory.live)
    {
      var curHead := new Node(null);
      cur := DeleteJob(memory, head, curHead, ring, data, contents);
      if cur != null {
        ghost var c, d := ring[..|ring| - 1], data[..|data| - 1];
        KeptTake(old(memory.live), old(memory.freed), data, held, made, ring[|ring| - 1], cur, worker);
        ring, data, contents := c, d, contents[1..];
        held := held[worker := cur];
        assert JobRing(memory, head, ring, data, contents) && Kept(memory.live, memory.freed, data, held, made);
      }
    }

    /** Line 77: the worker is done with its job and frees the payload. */
    method FreeJob(cur: JobNode, ghost worker: nat)
      requires Valid() && worker in held && held[worker] == cur
      modifies this`held, memory
      ensures Valid() && held == old(held) - {worker}
      ensures memory.freed == old(memory.freed) + [cur]
    {
      KeptFree(memory.live, memory.freed, data, held, made, worker);
      memory.Free(cur);
      held := held - {worker};
    }

    /** Line 150: teardown frees the payloads that no worker has taken.  With Valid, which says that
        nothing is freed twice: every payload ever allocated has been freed exactly once, or is the
        one a worker is still going to free. */
    method Deinit()
      requires Valid()
      modifies this, memory, head
      ensures Valid() && contents == [] && held == old(held) && made == old(made)
      ensures forall p | p in made :: p in memory.freed || p in held.Values
      ensures forall p | p in held.Values :: p !in memory.freed
      ensures forall n | n in ring :: n in old(ring)
    {
      KeptDeinit(memory.live, memory.freed, ring, data, held, made);
      var _ := DeInitDoublyLinkedListNode(memory, head, ring, data);
      ring, data, contents := [head], [null], [];
    }
  }

  ghost predicate JobRing(memory: Memory, head: Node, c: seq<Node>, data: seq<object?>, jobs: seq<Job>)
    reads memory, c
  {
    && Ring(c) && c[0] == head && HasPayloads(c, data) && OwnsPayloads(c, data) && AllLive(memory, c, data)
    && Holds(data, jobs)
  }

  /** Node `k` of the ring carries the job that is `k`-th from the newest. */
  ghost predicate Holds(data: seq<object?>, jobs: seq<Job>) {
    && |data| == |jobs| + 1 && data[0] == null
    && forall k {:trigger data[k]} | 1 <= k < |data| ::
      data[k] is JobNode && (data[k] as JobNode).job == jobs[|data| - 1 - k]
  }

  /** The dequeued payloads are live, each with one worker, and out of the list; and every payload
      is in the list, with a worker, or freed. */
  ghost predicate Kept(live: set<object>, freed: seq<object>, data: seq<object?>, held: map<nat, JobNode>,
                       made: set<object>) {
    && (forall w | w in held :: held[w] in live && held[w] !in data && held[w] in made)
    && (forall k | 1 <= k < |data| && data[k] != null :: data[k] in made)
    && (forall w, v | w in held && v in held && w != v :: held[w] != held[v])
    && (forall p | p in made :: p in data || p in freed || exists w :: w in held && held[w] == p)
  }

  lemma KeptAdd(live: set<object>, freed: seq<object>, data: seq<object?>, held: map<nat, JobNode>,
                made: set<object>, more: set<object>, p: JobNode)
    requires Kept(live, freed, data, held, made) && data != [] && p !in made
    ensures Kept(live + more, freed, InsertAt(data, 1, p), held, made + {p})
  {
    var d: seq<object?> := InsertAt(data, 1, p);
    assert d[1] == p;
    forall x | x in data ensures x in d {
      var k :| 0 <= k < |data| && data[k] == x;
      assert d[if k == 0 then 0 else k + 1] == x;
    }
    forall k | 1 <= k < |d| && d[k] != null ensures d[k] in made + {p} {
      assert k > 1 ==> d[k] == data[k - 1];
    }
  }

  lemma KeptRefuse(live: set<object>, freed: seq<object>, data: seq<object?>, held: map<nat, JobNode>,
                   made: set<object>, p: JobNode)
    requires Kept(live, freed, data, held, made)
    ensures Kept(live, freed + [p], data, held, made + {p})
  {
  }

  lemma KeptTake(live: set<object>, freed: seq<object>, data: seq<object?>, held: map<nat, JobNode>,
                 made: set<object>, node: Node, p: JobNode, worker: nat)
    requires Kept(live, freed, data, held, made) && worker !in held && p in live && p in made
    requires data != [] && data[|data| - 1] == p && p !in data[..|data| - 1]
    ensures Kept(live - {node}, freed + [node], data[..|data| - 1], held[worker := p], made)
  {
    var d, h := data[..|data| - 1], held[worker := p];
    assert data == d + [p];
    forall q | q in made ensures q in d || q in freed || exists w :: w in h && h[w] == q {
      if q !in data && q !in freed {
        var w :| w in held && held[w] == q;
        assert h[w] == q;
      } else if q == p {
        assert h[worker] == q;
      }
    }
  }

  lemma KeptFree(live: set<object>, freed: seq<object>, data: seq<object?>, held: map<nat, JobNode>,
                 made: set<object>, worker: nat)
    requires Kept(live, freed, data, held, made) && worker in held
    ensures Kept(live - {held[worker]}, freed + [held[worker]], data, held - {worker}, made)
  {
    var h := held - {worker};
    forall q | q in made
      ensures q in data || q in freed + [held[worker]] || exists w :: w in h && h[w] == q
    {
      if q !in data && q !in freed {
        var w :| w in held && held[w] == q;
        assert w != worker ==> w in h && h[w] == q;
      }
    }
  }

  lemma {:induction false} FreeOrderHas(c: seq<Node>, data: seq<object?>, i: nat, k: nat)
    requires |data| == |c| && i <= k < |c| && data[k] != null
    ensures data[k] in FreeOrder(c, data, i)
    decreases |c| - i
  {
    if i == k {
      assert FreeOrderOf(c[i], data[i])[0] == data[k];
      assert FreeOrder(c, data, i)[0] == data[k];
    } else {
      FreeOrderHas(c, data, i + 1, k);
    }
  }

  lemma KeptDeinit(live: set<object>, freed: seq<object>, c: seq<Node>, data: seq<object?>,
                   held: map<nat, JobNode>, made: set<object>)
    requires Kept(live, freed, data, held, made) && |data| == |c| && c != [] && data[0] == null
    ensures Kept(live - Storage(c, data, 1), freed + FreeOrder(c, data, 1), [null], held, made)
  {
    forall w | w in held ensures held[w] !in Storage(c, data, 1) {
      if held[w] in Storage(c, data, 1) {
        var _ := StorageOwner(c, data, 1, held[w]);
        assert false;
      }
    }
    forall p | p in made && p in data ensures p in FreeOrder(c, data, 1) {
      var k :| 0 <= k < |data| && data[k] == p;
      FreeOrderHas(c, data, 1, k);
    }
  }

  lemma OneMore(memory: Memory, c: seq<Node>, data: seq<object?>, jobs: seq<Job>, node: Node, payload: JobNode)
    requires c != [] && OwnsPayloads(c, data) && AllLive(memory, c, data) && Holds(data, jobs)
    requires node in memory.live && payload in memory.live && payload !in data
    requires node !in c && forall k | 1 <= k < |data| :: data[k] != node
    ensures var c', data' := InsertAt(c, 1, node), InsertAt(data, 1, payload);
      OwnsPayloads(c', data') && AllLive(memory, c', data') && Holds(data', jobs + [payload.job])
  {
    var d := InsertAt(data, 1, payload);
    assert forall k | 2 <= k < |d| :: d[k] == data[k - 1];
  }

  lemma PayloadsOneMore(c: seq<Node>, data: seq<object?>, node: Node, payload: JobNode)
    requires c != [] && HasPayloads(c, data) && node.nodeData == payload
    ensures HasPayloads(InsertAt(c, 1, node), InsertAt(data, 1, payload))
  {
    var c', data' := InsertAt(c, 1, node), InsertAt(data, 1, payload);
    forall k | 0 <= k < |c'| ensures c'[k].nodeData == data'[k] {
      if k > 1 {
        assert c'[k] == c[k - 1] && data'[k] == data[k - 1];
      }
    }
  }

  /** Lines 170-177. */
  method NewJob(memory: Memory, head: Node, job: Job, ghost c: seq<Node>, ghost data: seq<object?>,
                ghost jobs: seq<Job>)
    returns (payload: JobNode)
    requires memory.Valid() && JobRing(memory, head, c, data, jobs)
    modifies memory
    ensures memory.Valid() && JobRing(memory, head, c, data, jobs)
    ensures fresh(payload) && payload.job == job && payload !in data
    ensures memory.live == old(memory.live) + {payload} && memory.freed == old(memory.freed)
  {
    payload := new JobNode(job);
    memory.Malloc(payload);
  }

  method InsertNode(memory: Memory, head: Node, node: Node, payload: JobNode, ghost c: seq<Node>,
                    ghost data: seq<object?>, ghost jobs: seq<Job>)
    requires JobRing(memory, head, c, data, jobs) && node !in c && node.nodeData == payload
    requires node in memory.live && payload in memory.live && payload !in data
    requires forall k | 1 <= k < |data| :: data[k] != node
    modifies node, c
    ensures JobRing(memory, head, InsertAt(c, 1, node), InsertAt(data, 1, payload), jobs + [payload.job])
  {
    OneMore(memory, c, data, jobs, node, payload);
    var _ := InsertHeadDoublyLinkedListNode(head, node, c);
    PayloadsOneMore(c, data, node, payload);
  }

  /** Lines 178-187: the node around a payload, put into the ring; without room for it the payload
      is freed. */
  method InsertJob(memory: Memory, head: Node, payload: JobNode, hasRoom: bool, ghost c: seq<Node>,
                   ghost data: seq<object?>, ghost jobs: seq<Job>)
    returns (node: Node?)
    requires memory.Valid() && JobRing(memory, head, c, data, jobs) && payload in memory.live && payload !in data
    modifies memory, c
    ensures memory.Valid() && (node != null <==> hasRoom)
    ensures node == null ==> JobRing(memory, head, c, data, jobs)
    ensures node == null ==> memory.live == old(memory.live) - {payload}
    ensures node == null ==> memory.freed == old(memory.freed) + [payload]
    ensures node != null ==> fresh(node) && memory.live == old(memory.live) + {node}
    ensures node != null ==> memory.freed == old(memory.freed)
    ensures node != null ==>
      JobRing(memory, head, InsertAt(c, 1, node), InsertAt(data, 1, payload), jobs + [payload.job])
  {
    node := CreateDoublyLinkedListNode(memory, payload, hasRoom);
    if node == null {
      memory.Free(payload);
      return;
    }
    InsertNode(memory, head, node, payload, c, data, jobs);
  }

  /** Lines 170-187 but for the counter. */
  method QueueJob(memory: Memory, head: Node, job: Job, hasRoom: bool, ghost c: seq<Node>,
                  ghost data: seq<object?>, ghost jobs: seq<Job>)
    returns (payload: JobNode, node: Node?)
    requires memory.Valid() && JobRing(memory, head, c, data, jobs)
    modifies memory, c
    ensures memory.Valid() && fresh(payload) && (node != null <==> hasRoom)
    ensures node == null ==> JobRing(memory, head, c, data, jobs)
    ensures node == null ==> memory.live == old(memory.live) && memory.freed == old(memory.freed) + [payload]
    ensures node != null ==> fresh(node) && memory.live == old(memory.live) + {payload, node}
    ensures node != null ==> memory.freed == old(memory.freed)
    ensures node != null ==>
      JobRing(memory, head, InsertAt(c, 1, node), InsertAt(data, 1, payload), jobs + [job])
    ensures node != null ==> forall n | n in InsertAt(c, 1, node) :: n == node || n in c
  {
    payload := NewJob(memory, head, job, c, data, jobs);
    node := InsertJob(memory, head, payload, hasRoom, c, data, jobs);
  }

  lemma OneLess(live: set<object>, c: seq<Node>, data: seq<object?>, jobs: seq<Job>)
    requires |c| > 1 && Distinct(c) && OwnsPayloads(c, data) && Holds(data, jobs)
    requires (forall n | n in c :: n in live) && forall i | 1 <= i < |c| && data[i] != null :: data[i] in live
    ensures var last := |c| - 1;
      && OwnsPayloads(c[..last], data[..last]) && Holds(data[..last], jobs[1..])
      && (forall n | n in c[..last] :: n in live - {c[last]})
      && (forall i | 1 <= i < last && data[i] != null :: data[i] in live - {c[last]})
      && data[last] is JobNode && (data[last] as JobNode).job == jobs[0] && data[last] !in data[..last]
  {
    var last := |c| - 1;
    forall n | n in c[..last] ensures n in live - {c[last]} {
      var k :| 0 <= k < last && c[k] == n;
    }
    assert data[last] is JobNode;
  }

  method DeleteJob(memory: Memory, head: Node, curHead: Node, ghost c: seq<Node>, ghost data: seq<object?>,
                   ghost jobs: seq<Job>)
    returns (cur: JobNode?)
    requires memory.Valid() && JobRing(memory, head, c, data, jobs) && curHead !in c
    modifies memory, c, curHead
    ensures memory.Valid() && (cur == null <==> jobs == [])
    ensures cur == null ==> JobRing(memory, head, c, data, jobs) && unchanged(memory)
    ensures cur != null ==> JobRing(memory, head, c[..|c| - 1], data[..|c| - 1], jobs[1..])
    ensures cur != null ==> cur == data[|c| - 1] && cur.job == jobs[0] && |data| == |c| && jobs != []
    ensures cur != null ==> cur in old(memory.live) && cur !in data[..|c| - 1] && forall n | n in c[..|c| - 1] :: n in c
    ensures cur != null ==> memory.freed == old(memory.freed) + [c[|c| - 1]]
    ensures cur != null ==> memory.live == old(memory.live) - {c[|c| - 1]}
  {
    var ret := DeleteTailDoublyLinkedListNode(memory, head, curHead, c);
    if ret != 0 {
      return null;
    }
    assert RemoveAt(c, |c| - 1) == c[..|c| - 1];
    OneLess(old(memory.live), c, data, jobs);
    cur := curHead.nodeData as JobNode;
  }
}
