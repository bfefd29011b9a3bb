/** include/hwmalloc/detail/fixed_size_heap.hpp: the pools of one block size, one per local numa node and one
    per local node and device. */
module FixedSizeHeaps {
  import opened Common
  import opened NodeMaps
  import opened Pools
  import opened SizeClasses
  import P = PoolProtocol

  /** What the heap asks of numa_tools and of the device layer. */
  datatype Machine = Machine(localNodes: NodeMap, localNode: nat, pageSize: Positive, numDevices: nat) {
    ghost predicate Valid() {
      localNodes.Valid() && Distinct(localNodes.Keys()) && localNode in localNodes.Keys()
    }
  }

  // What the arguments of a heap fix for all of its pools.
  datatype Parameters = Parameters(blockSize: nat, segmentSize: nat, neverFree: bool, numReserveSegments: nat) {
    predicate Fits(m: Machine) {
      1 <= blockSize <= segmentSize && segmentSize + m.pageSize <= P.LIMIT
    }
  }

  // Pool p has the heap's parameters and is for this node and device.
  predicate Serves(p: Pool, x: Parameters, m: Machine, node: nat, device: Option<int>) {
    && p.blockSize == x.blockSize && p.segmentSize == x.segmentSize && p.neverFree == x.neverFree
    && p.numReserveSegments == (if x.numReserveSegments < 1 then 1 else x.numReserveSegments)
    && p.segmentBytes == AllocationSize(x.segmentSize, m.pageSize)
    && p.numaNode == node && p.deviceId == device
  }

  // `i * m_num_devices + j`
  function DeviceIndex(i: nat, j: nat, numDevices: nat): nat {
    Offset(i, numDevices) + j
  }

  /** The index of a node's and device's pool is in range and determines both. */
  lemma DeviceIndexIsInjective(i: nat, j: nat, i': nat, j': nat, numDevices: nat, numNodes: nat)
    requires j < numDevices && j' < numDevices && i < numNodes
    ensures DeviceIndex(i, j, numDevices) < Offset(numNodes, numDevices)
    ensures DeviceIndex(i, j, numDevices) == DeviceIndex(i', j', numDevices) ==> i == i' && j == j'
  {
    OffsetMonotone(i + 1, numNodes, numDevices);
    if i < i' {
      OffsetMonotone(i + 1, i', numDevices);
    } else if i' < i {
      OffsetMonotone(i' + 1, i, numDevices);
    }
  }

  // Every slot of the vector of device pools belongs to a node and a device.
  lemma {:induction false} DeviceIndexIsOnto(k: nat, numNodes: nat, numDevices: nat) returns (i: nat, j: nat)
    requires k < Offset(numNodes, numDevices)
    ensures i < numNodes && j < numDevices && k == DeviceIndex(i, j, numDevices)
  {
    if k >= Offset(numNodes - 1, numDevices) {
      i, j := numNodes - 1, k - Offset(numNodes - 1, numDevices);
    } else {
      i, j := DeviceIndexIsOnto(k, numNodes - 1, numDevices);
    }
  }

  /** No two pools share a free stack. With what a valid pool says about its segments this separates
      them. */
  ghost predicate Apart(ps: set<Pool>) {
    forall p, q :: p in ps && q in ps && p != q ==> p.freeStack != q.freeStack
  }

  lemma ApartPoolsAreDisjoint(p: Pool, q: Pool)
    requires p.Valid() && q.Valid() && p != q && p.freeStack != q.freeStack
    ensures p.Repr() !! q.Repr()
  {
    forall g, h | g in p.segments && h in q.segments ensures p.segments[g] != q.segments[h] {
      assert p.ShowsSegment(g, p.State().segments[g]);
      assert q.ShowsSegment(h, q.State().segments[h]);
    }
  }

  // What a block says about the pool that issued it.
  lemma IssuedBlock(p: Pool, b: Block)
    requires p.Valid() && p.IsIssued(b)
    ensures b.segment.pool == p && b.segment.blockSize == p.blockSize && b.segment.allocation.node == p.numaNode
    ensures b.device.Some? <==> p.deviceId.Some?
    ensures p.deviceId.Some? ==> b.device.value.id == p.deviceId.value && b.device.value.handle == b.handle
  {
    assert p.ShowsSegment(Abstract(b).segment, p.State().segments[Abstract(b).segment]);
  }

  // A pool that was just built.
  ghost predicate IsNew(p: Pool)
    reads p, p.freeStack
  {
    p.segments == map[] && p.Valid() && p.Live() == {} && p.Registered() == {}
  }

  // The slots before `filled` hold pools that share no free stack, all others nothing.
  ghost predicate FilledUpTo(ps: seq<Pool?>, filled: nat) {
    && filled <= |ps|
    && (forall k :: 0 <= k < filled ==> ps[k] != null)
    && (forall k :: filled <= k < |ps| ==> ps[k] == null)
    && (forall k, l :: 0 <= k < l < filled ==> ps[k] != ps[l] && ps[k].freeStack != ps[l].freeStack)
  }

  // Builds a pool in a slot, which was empty.
  method FillSlot(ps: seq<Pool?>, k: nat, x: Parameters, m: Machine, node: nat,
      device: Option<int>) returns (ps': seq<Pool?>)
    requires x.Fits(m) && k < |ps| && FilledUpTo(ps, k)
    ensures |ps'| == |ps| && FilledUpTo(ps', k + 1)
    ensures ps[k] == null && ps'[k] != null && ps' == ps[k := ps'[k]]
    ensures fresh(ps'[k]) && fresh(ps'[k].freeStack) && IsNew(ps'[k]) && Serves(ps'[k], x, m, node, device)
  {
    var p := new Pool(x.blockSize, x.segmentSize, m.pageSize, node, device, x.neverFree, x.numReserveSegments);
    ps' := ps[k := p];
  }

  // The host slots before `filled` are for their nodes, the device slots before `filled` for their nodes
  // and devices.
  predicate HostsServe(ps: seq<Pool?>, filled: nat, x: Parameters, m: Machine) {
    && filled <= |ps| == |m.localNodes.nodes|
    && forall i :: 0 <= i < filled ==> ps[i] != null && Serves(ps[i], x, m, m.localNodes.nodes[i].0, None)
  }

  ghost predicate DevicesServe(ds: seq<Pool?>, filled: nat, x: Parameters, m: Machine) {
    && filled <= |ds| == Offset(|m.localNodes.nodes|, m.numDevices)
    && forall i: nat, j: nat ::
         i < |m.localNodes.nodes| && j < m.numDevices && DeviceIndex(i, j, m.numDevices) < filled ==>
         DeviceServes(ds, x, m, i, j)
  }

  predicate DeviceServes(ds: seq<Pool?>, x: Parameters, m: Machine, i: nat, j: nat) {
    var k := DeviceIndex(i, j, m.numDevices);
    i < |m.localNodes.nodes| && k < |ds| && ds[k] != null && Serves(ds[k], x, m, m.localNodes.nodes[i].0, Some(j))
  }

  lemma DevicesServeNext(ds: seq<Pool?>, ds': seq<Pool?>, x: Parameters, m: Machine, i: nat, j: nat)
    requires i < |m.localNodes.nodes| && j < m.numDevices
    requires var k := DeviceIndex(i, j, m.numDevices);
             && DevicesServe(ds, k, x, m) && k < |ds| == |ds'| && ds' == ds[k := ds'[k]]
             && ds'[k] != null && Serves(ds'[k], x, m, m.localNodes.nodes[i].0, Some(j))
    ensures DevicesServe(ds', DeviceIndex(i, j, m.numDevices) + 1, x, m)
  {
    var k := DeviceIndex(i, j, m.numDevices);
    forall i': nat, j': nat | i' < |m.localNodes.nodes| && j' < m.numDevices
      && DeviceIndex(i', j', m.numDevices) < k + 1
      ensures DeviceServes(ds', x, m, i', j')
    {
      if DeviceIndex(i', j', m.numDevices) == k {
        DeviceIndexIsInjective(i, j, i', j', m.numDevices, |m.localNodes.nodes|);
      } else {
        assert DeviceServes(ds, x, m, i', j');
      }
    }
  }

  ghost predicate SlotsApart(ps: seq<Pool?>, ds: seq<Pool?>) {
    forall k, l :: 0 <= k < |ps| && 0 <= l < |ds| && ps[k] != null && ds[l] != null ==>
      ps[k] != ds[l] && ps[k].freeStack != ds[l].freeStack
  }

  // The pools of the first i nodes, and those of the first j devices of the next node, are built.
  ghost predicate Filled(ps: seq<Pool?>, ds: seq<Pool?>, hosts: nat, devices: nat, x: Parameters, m: Machine) {
    && FilledUpTo(ps, hosts) && HostsServe(ps, hosts, x, m)
    && FilledUpTo(ds, devices) && DevicesServe(ds, devices, x, m)
    && SlotsApart(ps, ds)
  }

  ghost predicate Holds(ps: seq<Pool?>, ds: seq<Pool?>, p: Pool) {
    p in ps || p in ds
  }

  method FillDevice(ps: seq<Pool?>, ds: seq<Pool?>, i: nat, j: nat, x: Parameters, m: Machine) returns (ds': seq<Pool?>)
    requires x.Fits(m) && i < |m.localNodes.nodes| && j < m.numDevices
    requires Filled(ps, ds, i + 1, DeviceIndex(i, j, m.numDevices), x, m)
    ensures Filled(ps, ds', i + 1, DeviceIndex(i, j + 1, m.numDevices), x, m)
    ensures forall p: Pool :: p in ds' ==> p in ds || (fresh(p) && fresh(p.freeStack) && IsNew(p))
  {
    DeviceIndexIsInjective(i, j, i, j, m.numDevices, |m.localNodes.nodes|);
    ds' := FillSlot(ds, DeviceIndex(i, j, m.numDevices), x, m, m.localNodes.nodes[i].0, Some(j));
    DevicesServeNext(ds, ds', x, m, i, j);
  }

  // The inner loop: the device pools of the i-th node.
  method FillDevices(ps: seq<Pool?>, ds: seq<Pool?>, i: nat, x: Parameters, m: Machine) returns (ds': seq<Pool?>)
    requires x.Fits(m) && i < |m.localNodes.nodes| && Filled(ps, ds, i + 1, DeviceIndex(i, 0, m.numDevices), x, m)
    ensures Filled(ps, ds', i + 1, DeviceIndex(i + 1, 0, m.numDevices), x, m)
    ensures forall p: Pool :: p in ds' ==> p in ds || (fresh(p) && fresh(p.freeStack) && IsNew(p))
  {
    ds' := ds;
    for j := 0 to m.numDevices
      invariant Filled(ps, ds', i + 1, DeviceIndex(i, j, m.numDevices), x, m)
      invariant forall p: Pool :: p in ds' ==> p in ds || (fresh(p) && fresh(p.freeStack) && IsNew(p))
    {
      ds' := FillDevice(ps, ds', i, j, x, m);
    }
  }

  // The body of the outer loop.
  method FillNode(ps: seq<Pool?>, ds: seq<Pool?>, i: nat, x: Parameters, m: Machine)
    returns (ps': seq<Pool?>, ds': seq<Pool?>)
    requires x.Fits(m) && i < |m.localNodes.nodes| && Filled(ps, ds, i, DeviceIndex(i, 0, m.numDevices), x, m)
    ensures Filled(ps', ds', i + 1, DeviceIndex(i + 1, 0, m.numDevices), x, m)
    ensures forall p: Pool :: Holds(ps', ds', p) ==> Holds(ps, ds, p) || (fresh(p) && fresh(p.freeStack) && IsNew(p))
  {
    ps' := FillSlot(ps, i, x, m, m.localNodes.nodes[i].0, None);
    ds' := FillDevices(ps', ds, i, x, m);
  }

  // The outer loop.
  method FillNodes(x: Parameters, m: Machine) returns (ps: seq<Pool?>, ds: seq<Pool?>)
    requires x.Fits(m)
    ensures var n := |m.localNodes.nodes|; Filled(ps, ds, n, DeviceIndex(n, 0, m.numDevices), x, m)
    ensures forall p: Pool :: Holds(ps, ds, p) ==> fresh(p) && fresh(p.freeStack) && IsNew(p)
  {
    ps, ds := seq(m.localNodes.Size(), _ => null), seq(Offset(m.localNodes.Size(), m.numDevices), _ => null);
    for i := 0 to m.localNodes.Size()
      invariant Filled(ps, ds, i, DeviceIndex(i, 0, m.numDevices), x, m)
      invariant forall p: Pool :: Holds(ps, ds, p) ==> fresh(p) && fresh(p.freeStack) && IsNew(p)
    {
      ps, ds := FillNode(ps, ds, i, x, m);
    }
  }

  // When all nodes are done, every slot is full.
  lemma AllFilled(ps: seq<Pool?>, ds: seq<Pool?>, x: Parameters, m: Machine)
    requires Filled(ps, ds, |m.localNodes.nodes|, DeviceIndex(|m.localNodes.nodes|, 0, m.numDevices), x, m)
    ensures HostsServe(ps, |ps|, x, m) && DevicesServe(ds, |ds|, x, m)
    ensures forall k :: 0 <= k < |ps| ==> ps[k] != null
    ensures forall k :: 0 <= k < |ds| ==> ds[k] != null
    ensures forall p: Pool, q: Pool :: Holds(ps, ds, p) && Holds(ps, ds, q) && p != q ==> p.freeStack != q.freeStack
  {
  }

  // ------------------------------------------- one pool changes, the others do not

  // What the pools consist of.
  ghost function Footprint(ps: set<Pool>): set<object>
    reads ps
  {
    set p, o | p in ps && o in p.Repr() :: o
  }

  ghost predicate AllValid(ps: set<Pool>)
    reads ps, Footprint(ps)
  {
    forall p :: p in ps ==> p.Valid()
  }

  lemma DisjointFromOthers(ps: set<Pool>, p: Pool)
    requires Apart(ps) && AllValid(ps) && p in ps
    ensures Footprint(ps - {p}) !! p.Repr() && AllValid(ps - {p})
  {
    forall q | q in ps && q != p ensures q.Repr() !! p.Repr() {
      ApartPoolsAreDisjoint(q, p);
    }
  }

  // What a pool knows of its segments and of its calls.
  ghost function Books(p: Pool): (P.Run, map<nat, Segment>)
    reads p`run, p`segments
  {
    (p.run, p.segments)
  }

  twostate lemma StaysValid(q: Pool, new f: set<object>)
    requires old(q.Valid()) && old(q.Repr()) <= f && (forall o :: o in f ==> old(allocated(o)) && unchanged(o))
    ensures q.Valid()
  {
  }

  twostate lemma AllStayValid(ps: set<Pool>, new f: set<object>)
    requires old(AllValid(ps)) && old(Footprint(ps)) <= f && (forall o :: o in f ==> old(allocated(o)) && unchanged(o))
    ensures AllValid(ps)
  {
    forall q | q in ps ensures q.Valid() {
      assert old(q.Repr()) <= f by {
        forall o | o in old(q.Repr()) ensures o in old(Footprint(ps)) {}
      }
      StaysValid(q, f);
    }
  }

  // The blocks of p that clients hold.
  ghost function HeldOf(p: Pool): set<P.Block>
    reads p
  {
    if p.run.states == [] then {} else p.Live()
  }

  // Pool p has handed out b; `was` is what was live before.
  ghost predicate Handed(p: Pool, b: Block, was: set<P.Block>)
    reads p, p.Repr()
  {
    p.Valid() && p.IsIssued(b) && Abstract(b) !in was && p.Live() == was + {Abstract(b)}
  }

  lemma OnlyPoolInRepr(p: Pool)
    ensures forall q: Pool {:trigger Books(q)} :: q != p ==> q !in p.Repr()
  {
    forall q: Pool | q != p ensures q !in p.Repr() {
      var x: object := q;
      assert x != p.freeStack;
    }
  }

  method AllocateAway(p: Pool, os: OsAnswer, ghost f: set<object>) returns (b: Block)
    requires p.Valid() && os.id !in p.Registered() && f !! p.Repr()
    modifies p.Repr()
    ensures forall o :: o in f ==> old(allocated(o)) && unchanged(o)
    ensures forall q: Pool {:trigger Books(q)} :: q != p && old(allocated(q)) ==> Books(q) == old(Books(q))
    ensures Handed(p, b, old(p.Live())) && IsPlaced(p, b, os, old(p.segments))
  {
    OnlyPoolInRepr(p);
    b := p.Allocate(MemoryFor(p, os), os.devicePtr, os.id);
  }

  method AllocateBeside(p: Pool, os: OsAnswer, ghost others: set<Pool>) returns (b: Block)
    requires p.Valid() && os.id !in p.Registered() && Footprint(others) !! p.Repr() && AllValid(others)
    modifies p.Repr()
    ensures AllValid(others) && Handed(p, b, old(p.Live())) && IsPlaced(p, b, os, old(p.segments))
    ensures forall q: Pool {:trigger Books(q)} :: q != p && old(allocated(q)) ==> Books(q) == old(Books(q))
  {
    ghost var f := Footprint(others);
    b := AllocateAway(p, os, f);
    AllStayValid(others, f);
  }

  // An allocation from one of the pools: of the others nothing changes.
  method AllocateAmong(p: Pool, os: OsAnswer, ghost ps: set<Pool>) returns (b: Block)
    requires p in ps && Apart(ps) && AllValid(ps) && os.id !in p.Registered()
    modifies p.Repr()
    ensures AllValid(ps) && Handed(p, b, old(p.Live())) && IsPlaced(p, b, os, old(p.segments))
    ensures forall q: Pool {:trigger Books(q)} :: q != p && old(allocated(q)) ==> Books(q) == old(Books(q))
  {
    DisjointFromOthers(ps, p);
    b := AllocateBeside(p, os, ps - {p});
  }

  method FreeAway(p: Pool, b: Block, ghost f: set<object>)
    requires p.Valid() && p.IsIssued(b) && f !! p.Repr()
    modifies p.Repr()
    ensures forall o :: o in f ==> old(allocated(o)) && unchanged(o)
    ensures forall q: Pool {:trigger Books(q)} :: q != p && old(allocated(q)) ==> Books(q) == old(Books(q))
    ensures p.Valid() && p.Live() == old(p.Live()) - {Abstract(b)}
  {
    OnlyPoolInRepr(p);
    p.Free(b);
  }

  method FreeBeside(p: Pool, b: Block, ghost others: set<Pool>)
    requires p.Valid() && p.IsIssued(b) && Footprint(others) !! p.Repr() && AllValid(others)
    modifies p.Repr()
    ensures AllValid(others) && forall q: Pool {:trigger Books(q)} ::
              q != p && old(allocated(q)) ==> Books(q) == old(Books(q))
    ensures p.Valid() && p.Live() == old(p.Live()) - {Abstract(b)}
  {
    ghost var f := Footprint(others);
    FreeAway(p, b, f);
    AllStayValid(others, f);
  }

  // A block goes back to its pool: of the others nothing changes.
  method FreeAmong(p: Pool, b: Block, ghost ps: set<Pool>)
    requires p in ps && Apart(ps) && AllValid(ps) && p.IsIssued(b)
    modifies p.Repr()
    ensures AllValid(ps) && forall q: Pool {:trigger Books(q)} ::
              q != p && old(allocated(q)) ==> Books(q) == old(Books(q))
    ensures p.Live() == old(p.Live()) - {Abstract(b)}
  {
    DisjointFromOthers(ps, p);
    FreeBeside(p, b, ps - {p});
  }

  class FixedSizeHeap {
    const parameters: Parameters
    const machine: Machine
    const pools: seq<Pool?>
    const devicePools: seq<Pool?>

    /** Both vectors are full: every slot has the pool of its node, or of its node and device. */
    ghost predicate Complete() {
      && machine.Valid()
      && (forall k :: 0 <= k < |pools| ==> pools[k] != null)
      && (forall k :: 0 <= k < |devicePools| ==> devicePools[k] != null)
      && HostsServe(pools, |pools|, parameters, machine)
      && DevicesServe(devicePools, |devicePools|, parameters, machine)
    }

    ghost function Pools(): set<Pool> {
      set p: Pool | p in pools + devicePools
    }

    constructor (x: Parameters, m: Machine)
      requires m.Valid() && x.Fits(m)
      ensures parameters == x && machine == m && Complete() && Apart(Pools())
      ensures forall p :: p in Pools() ==> fresh(p) && fresh(p.freeStack) && IsNew(p)
    {
      var ps, ds := FillNodes(x, m);
      AllFilled(ps, ds, x, m);
      parameters, machine, pools, devicePools := x, m, ps, ds;
    }

    // The index of a node's pool; a node that is not local is served by the local node.
    function NumaNodeIndex(node: nat): (i: nat)
      requires machine.Valid()
      ensures i < |machine.localNodes.nodes|
      ensures machine.localNodes.nodes[i].0 == if node in machine.localNodes.Keys() then node else machine.localNode
      ensures i == IndexOrLocal(machine.localNodes.Keys(), machine.localNode, node)
    {
      var it := machine.localNodes.Find(node);
      PositionIsLinearSearch(machine.localNodes.Keys(), node, it);
      PositionIsLinearSearch(machine.localNodes.Keys(), machine.localNode, machine.localNodes.Find(machine.localNode));
      if it != machine.localNodes.Size() then machine.localNodes.nodes[it].1
      else machine.localNodes.nodes[machine.localNodes.Find(machine.localNode)].1
    }

    // The node whose pool serves requests for `node`.
    ghost function NodeFor(node: nat): nat {
      if node in machine.localNodes.Keys() then node else machine.localNode
    }

    function HostPool(node: nat): (p: Pool)
      requires Complete()
      ensures p in Pools() && Serves(p, parameters, machine, NodeFor(node), None)
    {
      pools[NumaNodeIndex(node)]
    }

    function DevicePool(node: nat, device: nat): (p: Pool)
      requires Complete() && device < machine.numDevices
      ensures p in Pools() && Serves(p, parameters, machine, NodeFor(node), Some(device))
    {
      assert DeviceServes(devicePools, parameters, machine, NumaNodeIndex(node), device) by {
        DeviceIndexIsInjective(NumaNodeIndex(node), device, 0, device, machine.numDevices, |machine.localNodes.nodes|);
      }
      devicePools[DeviceIndex(NumaNodeIndex(node), device, machine.numDevices)]
    }

    // The pool that `allocate(numa_node)` or `allocate(numa_node, device_id)` uses.
    function PoolFor(node: nat, device: Option<nat>): (p: Pool)
      requires Complete() && (device.Some? ==> device.value < machine.numDevices)
      ensures p in Pools()
      ensures Serves(p, parameters, machine, NodeFor(node), if device.None? then None else Some(device.value as int))
    {
      if device.None? then HostPool(node) else DevicePool(node, device.value)
    }

    /** Two requests reach the same pool exactly if they are for the same memory: the same node, once nodes
        that are not local are replaced, and the same device or both none. */
    lemma PoolsAreDetermined(node: nat, node': nat, device: Option<nat>, device': Option<nat>)
      requires Complete() && (device.Some? ==> device.value < machine.numDevices)
      requires device'.Some? ==> device'.value < machine.numDevices
      ensures PoolFor(node, device) == PoolFor(node', device') <==> NodeFor(node) == NodeFor(node') && device == device'
    {
      var keys := machine.localNodes.Keys();
      assert keys[NumaNodeIndex(node)] == NodeFor(node) && keys[NumaNodeIndex(node')] == NodeFor(node');
    }

    // The slot of a pool.
    lemma SlotOf(p: Pool) returns (i: nat, device: Option<nat>)
      requires Complete() && p in Pools()
      ensures i < |machine.localNodes.nodes| && p.numaNode == machine.localNodes.nodes[i].0
      ensures Serves(p, parameters, machine, p.numaNode, p.deviceId)
      ensures if device.None? then i < |pools| && p == pools[i] && p.deviceId == None
              else && device.value < machine.numDevices
                   && DeviceIndex(i, device.value, machine.numDevices) < |devicePools|
                   && p == devicePools[DeviceIndex(i, device.value, machine.numDevices)]
                   && p.deviceId == Some(device.value as int)
    {
      if k :| 0 <= k < |pools| && pools[k] == p {
        i, device := k, None;
      } else {
        var k :| 0 <= k < |devicePools| && devicePools[k] == p;
        var j;
        i, j := DeviceIndexIsOnto(k, |machine.localNodes.nodes|, machine.numDevices);
        device := Some(j);
        assert DeviceServes(devicePools, parameters, machine, i, j);
      }
    }

    // A node and a device, or none, have one pool.
    lemma OnePool(p: Pool, q: Pool)
      requires Complete() && p in Pools() && q in Pools() && p.numaNode == q.numaNode && p.deviceId == q.deviceId
      ensures p == q
    {
      var i, d := SlotOf(p);
      var j, e := SlotOf(q);
      assert machine.localNodes.Keys()[i] == machine.localNodes.Keys()[j];
    }

    // Both overloads of `allocate`; `ps` are the pools of the whole heap.
    method Allocate(node: nat, device: Option<nat>, os: OsAnswer, ghost ps: set<Pool>) returns (b: Block)
      requires Complete() && (device.Some? ==> device.value < machine.numDevices)
      requires PoolFor(node, device) in ps && Apart(ps) && AllValid(ps) && os.id !in PoolFor(node, device).Registered()
      modifies PoolFor(node, device).Repr()
      ensures AllValid(ps)
      ensures forall q: Pool {:trigger Books(q)} ::
                q != PoolFor(node, device) && old(allocated(q)) ==> Books(q) == old(Books(q))
      ensures Handed(PoolFor(node, device), b, old(PoolFor(node, device).Live()))
      ensures IsPlaced(PoolFor(node, device), b, os, old(PoolFor(node, device).segments))
    {
      b := AllocateAmong(PoolFor(node, device), os, ps);
    }
  }
}
