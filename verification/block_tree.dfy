/**
 The tree of processing inner blocks. Accepting a block rejects every conflicting block: its siblings and all their
 descendants, each exactly once.
 */
module BlockTree {
  import opened Collections

  datatype ID = ID(value: nat)

  /** An inner block; its ID stands for its content. */
  datatype InnerBlock = InnerBlock(id: ID, parent: ID)

  /** Blocks by parent ID and own ID. */
  type Nodes = map<ID, map<ID, InnerBlock>>

  predicate Has(nodes: Nodes, x: InnerBlock) {
    x.parent in nodes && x.id in nodes[x.parent]
  }

  ghost function Blocks(nodes: Nodes): (s: set<InnerBlock>)
    ensures forall x :: x in s <==> Has(nodes, x)
  {
    var s := set p, c | p in nodes && c in nodes[p] :: InnerBlock(c, p);
    assert forall x :: x in s <==> Has(nodes, x) by {
      forall x | Has(nodes, x)
        ensures x in s
      {
        assert x == InnerBlock(x.id, x.parent);
      }
    }
    s
  }

  ghost predicate WellKeyed(nodes: Nodes) {
    forall p, c :: p in nodes && c in nodes[p] ==> nodes[p][c] == InnerBlock(c, p)
  }

  /** A line of descent that starts at a sibling of `b`. */
  ghost predicate Line(blocks: set<InnerBlock>, b: InnerBlock, line: seq<InnerBlock>) {
    && |line| > 0
    && (forall i :: 0 <= i < |line| ==> line[i] in blocks)
    && line[0].parent == b.parent
    && forall i :: 0 < i < |line| ==> line[i].parent == line[i - 1].id
  }

  /** A sibling of `b` or a descendant of one. */
  ghost predicate Conflicts(blocks: set<InnerBlock>, b: InnerBlock, x: InnerBlock) {
    exists line :: Line(blocks, b, line) && line[|line| - 1] == x
  }

  /** What is left when `b` was accepted. */
  ghost function Remaining(blocks: set<InnerBlock>, b: InnerBlock): set<InnerBlock> {
    set x | x in blocks && x != b && !Conflicts(blocks - {b}, b, x)
  }

  lemma SiblingConflicts(blocks: set<InnerBlock>, b: InnerBlock, x: InnerBlock)
    requires x in blocks && x.parent == b.parent
    ensures Conflicts(blocks, b, x)
  {
    var line := [x];
    assert Line(blocks, b, line) && line[|line| - 1] == x;
  }

  lemma ChildConflicts(blocks: set<InnerBlock>, b: InnerBlock, y: InnerBlock, x: InnerBlock)
    requires Conflicts(blocks, b, y) && x in blocks && x.parent == y.id
    ensures Conflicts(blocks, b, x)
  {
    var line :| Line(blocks, b, line) && line[|line| - 1] == y;
    var longer := line + [x];
    assert Line(blocks, b, longer) && longer[|longer| - 1] == x;
  }

  /** A set with all siblings that is closed under children holds every conflicting block. */
  lemma {:induction false} ClosedHoldsLine(blocks: set<InnerBlock>, b: InnerBlock, closed: set<InnerBlock>,
      line: seq<InnerBlock>)
    requires forall x :: x in blocks && x.parent == b.parent ==> x in closed
    requires forall x, y :: x in blocks && y in closed && x.parent == y.id ==> x in closed
    requires Line(blocks, b, line)
    ensures line[|line| - 1] in closed
  {
    if |line| > 1 {
      ClosedHoldsLine(blocks, b, closed, line[..|line| - 1]);
    }
  }

  method Values(m: map<ID, InnerBlock>) returns (s: seq<InnerBlock>)
    requires forall c, d :: c in m && d in m && c != d ==> m[c] != m[d]
    ensures Distinct(s) && forall x :: x in s <==> exists c :: c in m && m[c] == x
  {
    s := [];
    var left := m.Keys;
    while left != {}
      invariant left <= m.Keys && Distinct(s)
      invariant forall x :: x in s <==> exists c :: c in m && c !in left && m[c] == x
      decreases |left|
    {
      var c :| c in left;
      assert m[c] !in s;
      left := left - {c};
      s := s + [m[c]];
    }
  }

  /** The children of a parent, in any order. */
  method Children(nodes: Nodes, parent: ID) returns (s: seq<InnerBlock>)
    requires WellKeyed(nodes)
    ensures Distinct(s) && forall x :: x in s <==> x.parent == parent && Has(nodes, x)
  {
    if parent !in nodes {
      return [];
    }
    s := Values(nodes[parent]);
    forall x
      ensures x in s <==> x.parent == parent && Has(nodes, x)
    {
      assert Has(nodes, x) && x.parent == parent ==> nodes[parent][x.id] == x;
    }
  }

  // ---------------------------------------------------------------------------------------
  // The traversal: blocks already rejected and blocks pending rejection.
  // ---------------------------------------------------------------------------------------

  /** No block is met twice. */
  ghost predicate Apart(rejected: seq<InnerBlock>, pending: seq<InnerBlock>) {
    && Distinct(rejected)
    && Distinct(pending)
    && Elements(rejected) !! Elements(pending)
  }

  /** Only conflicting blocks are met. */
  ghost predicate OnlyConflicts(blocks: set<InnerBlock>, b: InnerBlock, met: set<InnerBlock>) {
    forall x :: x in met ==> x in blocks && Conflicts(blocks, b, x)
  }

  /** The tree holds exactly the blocks not met. */
  ghost predicate HoldsRest(blocks: set<InnerBlock>, nodes: Nodes, met: set<InnerBlock>) {
    forall x :: Has(nodes, x) <==> x in blocks && x !in met
  }

  /** Siblings, and children of rejected blocks, have been met. */
  ghost predicate Expanded(blocks: set<InnerBlock>, b: InnerBlock, rejected: set<InnerBlock>, met: set<InnerBlock>) {
    && (forall x :: x in blocks && x.parent == b.parent ==> x in met)
    && forall x, y :: x in blocks && y in rejected && x.parent == y.id ==> x in met
  }

  ghost predicate Traversal(
    blocks: set<InnerBlock>, b: InnerBlock, nodes: Nodes, rejected: set<InnerBlock>, met: set<InnerBlock>)
  {
    && WellKeyed(nodes)
    && OnlyConflicts(blocks, b, met)
    && HoldsRest(blocks, nodes, met)
    && Expanded(blocks, b, rejected, met)
  }

  lemma ApartStep(rejected: seq<InnerBlock>, pending: seq<InnerBlock>, children: seq<InnerBlock>)
    requires Apart(rejected, pending) && pending != [] && Distinct(children)
    requires Elements(children) !! Elements(rejected) + Elements(pending)
    ensures var child := pending[|pending| - 1];
      && Apart(rejected + [child], pending[..|pending| - 1] + children)
      && Elements(rejected + [child]) == Elements(rejected) + {child}
      && Elements(rejected + [child]) + Elements(pending[..|pending| - 1] + children) ==
         Elements(rejected) + Elements(pending) + Elements(children)
  {
    var child, rest := pending[|pending| - 1], pending[..|pending| - 1];
    assert pending == rest + [child];
    assert Elements(pending) == Elements(rest) + {child} && child !in rest;
    assert Elements(rest + children) == Elements(rest) + Elements(children);
    forall i, j | 0 <= i < j < |rest + children|
      ensures (rest + children)[i] != (rest + children)[j]
    {
      if i < |rest| <= j {
        assert rest[i] in Elements(rest) && children[j - |rest|] in Elements(children);
      }
    }
    assert Distinct(rejected + [child]) by {
      assert child in Elements(pending) && forall i :: 0 <= i < |rejected| ==> rejected[i] in Elements(rejected);
    }
  }

  lemma TraversalStep(
    blocks: set<InnerBlock>, b: InnerBlock, nodes: Nodes, rejected: set<InnerBlock>, met: set<InnerBlock>,
    child: InnerBlock, children: set<InnerBlock>)
    requires Traversal(blocks, b, nodes, rejected, met) && child in met
    requires forall x :: x in children <==> x.parent == child.id && Has(nodes, x)
    ensures Traversal(blocks, b, nodes - {child.id}, rejected + {child}, met + children)
    ensures children !! met
  {
    forall x | x in children
      ensures x in blocks && Conflicts(blocks, b, x)
    {
      ChildConflicts(blocks, b, child, x);
    }
  }

  lemma TraversalStarts(blocks: set<InnerBlock>, b: InnerBlock, nodes: Nodes, siblings: set<InnerBlock>)
    requires WellKeyed(nodes)
    requires forall x :: x in blocks <==> x != b && Has(nodes, x)
    requires forall x :: x in siblings <==> x != b && x.parent == b.parent && Has(nodes, x)
    ensures Traversal(blocks, b, nodes - {b.parent}, {}, siblings)
  {
    forall x | x in siblings
      ensures Conflicts(blocks, b, x)
    {
      SiblingConflicts(blocks, b, x);
    }
  }

  lemma TraversalEnds(blocks: set<InnerBlock>, b: InnerBlock, nodes: Nodes, rejected: set<InnerBlock>)
    requires Traversal(blocks, b, nodes, rejected, rejected)
    ensures forall x :: x in rejected <==> Conflicts(blocks, b, x)
    ensures forall x :: Has(nodes, x) <==> x in blocks && !Conflicts(blocks, b, x)
  {
    forall x | Conflicts(blocks, b, x)
      ensures x in rejected
    {
      var line :| Line(blocks, b, line) && line[|line| - 1] == x;
      ClosedHoldsLine(blocks, b, rejected, line);
    }
  }

  function WithoutBlock(nodes: Nodes, b: InnerBlock): Nodes {
    if b.parent in nodes then nodes[b.parent := nodes[b.parent] - {b.id}] else nodes
  }

  class Tree {
    var nodes: Nodes

    ghost predicate Valid()
      reads this
    {
      WellKeyed(nodes)
    }

    constructor ()
      ensures Valid() && nodes == map[]
    {
      nodes := map[];
    }

    method Add(b: InnerBlock)
      requires Valid()
      modifies this
      ensures Valid() && Blocks(nodes) == old(Blocks(nodes)) + {b}
    {
      if b.parent !in nodes {
        nodes := nodes[b.parent := map[]];
      }
      nodes := nodes[b.parent := nodes[b.parent][b.id := b]];
    }

    method Get(b: InnerBlock) returns (found: bool)
      ensures found <==> b in Blocks(nodes)
    {
      return b.parent in nodes && b.id in nodes[b.parent];
    }

    /** Accepts `b` and rejects what conflicts with it; `failing` are the blocks whose rejection fails. */
    method Accept(b: InnerBlock, acceptFails: bool, failing: set<InnerBlock>)
        returns (ok: bool, rejected: seq<InnerBlock>)
      requires Valid()
      modifies this
      ensures Valid()
      ensures acceptFails ==> rejected == [] && nodes == old(nodes)
      ensures Distinct(rejected) && OnlyConflicts(old(Blocks(nodes)) - {b}, b, Elements(rejected))
      ensures ok ==> forall x :: x in rejected <==> Conflicts(old(Blocks(nodes)) - {b}, b, x)
      ensures ok ==> Blocks(nodes) == Remaining(old(Blocks(nodes)), b)
      ensures ok ==> forall x :: Has(nodes, x) <==>
        old(Has(nodes, x)) && x != b && !Conflicts(old(Blocks(nodes)) - {b}, b, x)
      ensures ok <==> !acceptFails && forall x :: x in failing ==> !Conflicts(old(Blocks(nodes)) - {b}, b, x)
    {
      ghost var blocks := Blocks(nodes) - {b};
      if acceptFails {
        return false, [];
      }
      var pending := Children(WithoutBlock(nodes, b), b.parent);
      TraversalStarts(blocks, b, nodes, Elements(pending));
      nodes := nodes - {b.parent};
      rejected := [];
      assert Elements(rejected) == {};

      while pending != []
        invariant Apart(rejected, pending)
        invariant Traversal(blocks, b, nodes, Elements(rejected), Elements(rejected) + Elements(pending))
        invariant failing !! Elements(rejected)
        decreases blocks - Elements(rejected)
      {
        var child := pending[|pending| - 1];
        ghost var met := Elements(rejected) + Elements(pending);
        assert child in Elements(pending) && child in met;
        if child in failing {
          return false, rejected;
        }
        var children := Children(nodes, child.id);
        TraversalStep(blocks, b, nodes, Elements(rejected), met, child, Elements(children));
        ApartStep(rejected, pending, children);
        assert child in blocks - Elements(rejected);
        rejected := rejected + [child];
        pending := pending[..|pending| - 1] + children;
        nodes := nodes - {child.id};
      }

      assert Elements(rejected) + Elements([]) == Elements(rejected);
      TraversalEnds(blocks, b, nodes, Elements(rejected));
      return true, rejected;
    }
  }
}
