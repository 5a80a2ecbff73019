/** The structural model that one analysis asks the finite-element solver to
    create: a one-dimensional lumped-mass chain with a fixed base node, a chain
    of elastic two-node links and at most one extra link standing for the
    damper. The solver itself is not modelled; this module describes exactly
    which nodes, constraints, masses and elements the environment declares. */
module Topology {
  import opened Building

  /** A node: its tag and its coordinate along the single axis. */
  datatype Node = Node(tag: nat, position: real)

  /** A two-node link element between two node tags, always in direction 1. */
  datatype Element = Element(tag: nat, nodeA: nat, nodeB: nat)

  /** A uniaxial elastic material. */
  datatype Material = Elastic(tag: nat, stiffness: real)

  /** Everything declared to the solver before the ground motion is attached. */
  datatype StructuralModel = StructuralModel(
    nodes: seq<Node>,
    fixed: set<nat>,
    masses: map<nat, real>,
    material: Material,
    elements: seq<Element>)

  /** The state of the solver right after a wipe. */
  const Wiped: StructuralModel := StructuralModel([], {}, map[], Elastic(0, 0.0), [])

  /** Nodes `i+1 .. floorNum+1`, node `k+1` sitting at height `k * StoryHeight`. */
  function NodesFrom(i: nat, floorNum: nat): seq<Node>
    decreases floorNum + 1 - i
  {
    if i <= floorNum then [Node(i + 1, i as real * StoryHeight)] + NodesFrom(i + 1, floorNum)
    else []
  }

  /** Chain links created by the loop `for i in range(i, floorNum)`:
      element `i` joins node tags `i+1` and `i+2`. */
  function ChainFrom(i: nat, floorNum: nat): seq<Element>
    decreases floorNum - i
  {
    if i < floorNum then [Element(i, i + 1, i + 2)] + ChainFrom(i + 1, floorNum)
    else []
  }

  /** The guard under which the damper link is added. */
  predicate HasDamper(floorNum: nat, damperFloor: int)
  {
    1 <= damperFloor < floorNum
  }

  /** The damper link, if any: it takes the next free element tag and joins
      node tags `damperFloor` and `damperFloor + 1`. */
  function DamperLinks(floorNum: nat, damperFloor: int, nextTag: nat): (links: seq<Element>)
    ensures |links| <= 1
    ensures |links| == 1 <==> HasDamper(floorNum, damperFloor)
    ensures forall k :: 0 <= k < |links| ==>
              links[k].tag == nextTag && links[k].nodeA == damperFloor && links[k].nodeB == damperFloor + 1
  {
    if HasDamper(floorNum, damperFloor) then [Element(nextTag, damperFloor as nat, damperFloor as nat + 1)]
    else []
  }

  /** All link elements, in creation order. */
  function Elements(floorNum: nat, damperFloor: int): (es: seq<Element>)
    ensures |es| == (if floorNum == 0 then 0 else floorNum - 1) + (if HasDamper(floorNum, damperFloor) then 1 else 0)
    ensures HasDamper(floorNum, damperFloor) ==> es[|es| - 1] == Element(floorNum, damperFloor as nat, damperFloor as nat + 1)
  {
    ChainFromShape(1, floorNum);
    var chain := ChainFrom(1, floorNum);
    chain + DamperLinks(floorNum, damperFloor, |chain| + 1)
  }

  /** Masses assigned by the loop `for nd in range(nd, floorNum + 2)`. */
  function MassesFrom(nd: nat, floorNum: nat): map<nat, real>
    decreases floorNum + 2 - nd
  {
    if nd < floorNum + 2 then MassesFrom(nd + 1, floorNum)[nd := MassPerFloor]
    else map[]
  }

  /** The model declared for a given damper floor. */
  function StructureFor(floorNum: nat, damperFloor: int): StructuralModel
  {
    StructuralModel(
      NodesFrom(0, floorNum),
      {1},
      MassesFrom(2, floorNum),
      Elastic(MaterialTag, LinkStiffness),
      Elements(floorNum, damperFloor))
  }

  /** Node `k` of the list created from index `i` is the node of index `i + k`. */
  lemma {:induction false} NodesFromShape(i: nat, floorNum: nat)
    ensures |NodesFrom(i, floorNum)| == if i <= floorNum then floorNum + 1 - i else 0
    ensures forall k :: 0 <= k < |NodesFrom(i, floorNum)| ==>
              NodesFrom(i, floorNum)[k] == Node(i + k + 1, (i + k) as real * StoryHeight)
    decreases floorNum + 1 - i
  {
    if i <= floorNum {
      NodesFromShape(i + 1, floorNum);
    }
  }

  /** The masses assigned from tag `nd` on cover exactly tags `nd .. floorNum + 1`,
      each with the floor mass. */
  lemma {:induction false} MassesFromShape(nd: nat, floorNum: nat)
    ensures forall t :: t in MassesFrom(nd, floorNum) <==> nd <= t < floorNum + 2
    ensures forall t :: t in MassesFrom(nd, floorNum) ==> MassesFrom(nd, floorNum)[t] == MassPerFloor
    decreases floorNum + 2 - nd
  {
    if nd < floorNum + 2 {
      MassesFromShape(nd + 1, floorNum);
    }
  }

  /** Chain element `k` of the list created from index `i` has tag `i + k`
      and joins node tags `i + k + 1` and `i + k + 2`. */
  lemma {:induction false} ChainFromShape(i: nat, floorNum: nat)
    ensures |ChainFrom(i, floorNum)| == if i < floorNum then floorNum - i else 0
    ensures forall k :: 0 <= k < |ChainFrom(i, floorNum)| ==>
              ChainFrom(i, floorNum)[k] == Element(i + k, i + k + 1, i + k + 2)
    decreases floorNum - i
  {
    if i < floorNum {
      ChainFromShape(i + 1, floorNum);
    }
  }

  /** The nodes, the boundary condition and the masses: `floorNum + 1` nodes,
      node tag `i+1` at `3.0 * i`, only node 1 fixed, and every other node
      (the floors) carrying the floor mass. */
  lemma ModelNodes(floorNum: nat, damperFloor: int)
    ensures var m := StructureFor(floorNum, damperFloor);
      && |m.nodes| == floorNum + 1
      && (forall i :: 0 <= i <= floorNum ==> m.nodes[i].tag == i + 1 && m.nodes[i].position == 3.0 * i as real)
      && m.fixed == {1}
      && (forall nd :: nd in m.masses <==> 2 <= nd <= floorNum + 1)
      && (forall nd :: nd in m.masses ==> m.masses[nd] == 100000.0)
      && m.material == Elastic(1, 100000000.0)
  {
    NodesFromShape(0, floorNum);
    MassesFromShape(2, floorNum);
  }

  /** The chain: `floorNum - 1` links, element `t` joining node tags `t+1`
      and `t+2`, for `t = 1 .. floorNum - 1`. */
  lemma ChainLinks(floorNum: nat)
    requires floorNum >= 1
    ensures |ChainFrom(1, floorNum)| == floorNum - 1
    ensures forall k :: 0 <= k < floorNum - 1 ==> ChainFrom(1, floorNum)[k] == Element(k + 1, k + 2, k + 3)
  {
    ChainFromShape(1, floorNum);
  }

  /** Element tags are consecutive from 1 (hence unique); the damper, when
      present, is the last element, joining `damperFloor` and `damperFloor + 1`;
      every element joins two adjacent nodes that exist in the model. */
  lemma ElementsShape(floorNum: nat, damperFloor: int)
    ensures var es := Elements(floorNum, damperFloor);
      && (forall k :: 0 <= k < |es| ==> es[k].tag == k + 1)
      && (forall k :: 0 <= k < |es| ==> es[k].nodeB == es[k].nodeA + 1 && 1 <= es[k].nodeA && es[k].nodeB <= floorNum + 1)
      && (HasDamper(floorNum, damperFloor) ==> es[|es| - 1] == Element(floorNum, damperFloor as nat, damperFloor as nat + 1))
  {
    ChainFromShape(1, floorNum);
  }

  /** A damper link is added exactly when `1 <= damperFloor < floorNum`:
      the model then has `floorNum` elements, and `floorNum - 1` otherwise. */
  lemma DamperAddedIff(floorNum: nat, damperFloor: int)
    requires floorNum >= 1
    ensures |Elements(floorNum, damperFloor)| == floorNum <==> 1 <= damperFloor < floorNum
    ensures |Elements(floorNum, damperFloor)| == if 1 <= damperFloor < floorNum then floorNum else floorNum - 1
  {
    ChainFromShape(1, floorNum);
  }

  /** The fixed base node 1 is an end of some element only when the damper
      sits at floor 1: the chain starts at node 2. */
  lemma BaseLinkedOnlyByDamper(floorNum: nat, damperFloor: int)
    ensures var es := Elements(floorNum, damperFloor);
      (exists k :: 0 <= k < |es| && (es[k].nodeA == 1 || es[k].nodeB == 1)) <==> damperFloor == 1 && floorNum >= 2
  {
    var es := Elements(floorNum, damperFloor);
    ChainFromShape(1, floorNum);
    if damperFloor == 1 && floorNum >= 2 {
      assert es[|es| - 1].nodeA == 1;
    }
  }

  /** The declared model is consistent for every floor count and damper
      floor: `floorNum + 1` nodes; the fixed node is one of them; exactly the
      nodes that are not fixed carry mass; every link joins two adjacent
      declared nodes. */
  lemma StructureWellFormed(floorNum: nat, damperFloor: int)
    ensures var m := StructureFor(floorNum, damperFloor);
      && |m.nodes| == floorNum + 1
      && (forall t :: t in m.fixed ==> 1 <= t <= |m.nodes|)
      && (forall t :: t in m.masses <==> 1 <= t <= |m.nodes| && t !in m.fixed)
      && (forall e :: e in m.elements ==> 1 <= e.nodeA && e.nodeB == e.nodeA + 1 && e.nodeB <= |m.nodes|)
  {
    NodesFromShape(0, floorNum);
    MassesFromShape(2, floorNum);
    ElementsShape(floorNum, damperFloor);
  }
}
