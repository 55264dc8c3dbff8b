/**
 * Blocks of code that realignment must not cut (merge/block.py), read off an
 * abstract syntax node: its kind, its extent and whether it is a compound
 * statement `{ ... }`.
 */
module Blocks {

  /** The syntax kinds the case analysis tells apart. */
  datatype Kind = IfStmt | OtherStmt

  /** A syntax node: `kind`, `start`, `end`, `is_compound` and the children in order. */
  datatype Node = Node(kind: Kind, start: int, end: int, isCompound: bool, children: seq<Node>)

  /** `Block(start, end)`: a line range that should not be mixed up. */
  datatype Block = Block(start: int, end: int)

  /** `Block.from_cursor`: the node's own extent. */
  function FromNode(n: Node): (b: Block)
    ensures b.start == n.start && b.end == n.end
  {
    Block(n.start, n.end)
  }

  /** An `if` node with its condition and `then` branch, and possibly an `else` branch. */
  predicate IsIf(n: Node)
  {
    n.kind == IfStmt && |n.children| >= 2
  }

  /** The `else` branch is present when the node has more than two children. */
  predicate HasElse(n: Node)
  {
    |n.children| > 2
  }

  /** `Block.structure_of_IF`: the case split on which branches are compound. */
  function StructureOfIf(n: Node): (bs: seq<Block>)
    requires IsIf(n)
    ensures Block(n.start, n.children[1].end) in bs
    ensures HasElse(n) ==> Block(n.start, n.children[2].end) in bs
    ensures 1 <= |bs| <= 4
  {
    var ch1 := n.children[1];
    if |n.children| > 2 then
      var ch2 := n.children[2];
      if ch1.isCompound && ch2.isCompound then
        [FromNode(ch1), FromNode(ch2), Block(n.start, ch1.end), Block(n.start, ch2.end)]
      else if !ch1.isCompound && ch2.isCompound then
        [FromNode(ch2), Block(n.start, ch1.end), Block(n.start, ch2.end)]
      else if ch1.isCompound && !ch2.isCompound then
        [FromNode(ch1), Block(n.start, ch1.end), Block(n.start, ch2.end)]
      else
        [Block(n.start, ch1.end), Block(n.start, ch2.end)]
    else
      if ch1.isCompound then [Block(ch1.start, ch1.end), Block(n.start, ch1.end)]
      else [Block(n.start, ch1.end)]
  }

  /** The extent of a branch when it is compound, nothing otherwise. */
  function OwnExtent(branch: Node): seq<Block>
  {
    if branch.isCompound then [FromNode(branch)] else []
  }

  /**
   * The blocks described branch by branch: the compound branches' own
   * extents (then before else), then the `if` up to the end of the `then`
   * branch, then the `if` up to the end of the `else` branch.
   */
  function Structure(n: Node): seq<Block>
    requires IsIf(n)
  {
    OwnExtent(n.children[1])
    + (if HasElse(n) then OwnExtent(n.children[2]) else [])
    + [Block(n.start, n.children[1].end)]
    + (if HasElse(n) then [Block(n.start, n.children[2].end)] else [])
  }

  /** The case split gives exactly the blocks described branch by branch, in that order. */
  lemma StructureOfIfIsStructure(n: Node)
    requires IsIf(n)
    ensures StructureOfIf(n) == Structure(n)
    ensures |StructureOfIf(n)| == |OwnExtent(n.children[1])| + (if HasElse(n) then |OwnExtent(n.children[2])| + 2 else 1)
  {
  }

  /** Four, three, three or two blocks with an `else` branch; two or one without. */
  lemma StructureOfIfSize(n: Node)
    requires IsIf(n)
    ensures var ch1 := n.children[1];
      |StructureOfIf(n)| ==
        if HasElse(n) then
          var ch2 := n.children[2];
          if ch1.isCompound && ch2.isCompound then 4
          else if ch1.isCompound || ch2.isCompound then 3
          else 2
        else if ch1.isCompound then 2 else 1
  {
  }

  /**
   * A branch adds its own extent to the blocks exactly when it is compound,
   * for an `if` whose `then` branch starts after the `if` itself and whose
   * `else` branch starts after the `then` branch.
   */
  lemma CompoundBranchesOnly(n: Node)
    requires IsIf(n)
    requires n.start < n.children[1].start
    requires HasElse(n) ==> n.children[1].start < n.children[2].start
    ensures FromNode(n.children[1]) in StructureOfIf(n) <==> n.children[1].isCompound
    ensures HasElse(n) ==> (FromNode(n.children[2]) in StructureOfIf(n) <==> n.children[2].isCompound)
  {
    StructureOfIfIsStructure(n);
    var ch1 := n.children[1];
    if HasElse(n) {
      var ch2 := n.children[2];
      assert Structure(n) == OwnExtent(ch1) + OwnExtent(ch2) + [Block(n.start, ch1.end), Block(n.start, ch2.end)];
    } else {
      assert Structure(n) == OwnExtent(ch1) + [Block(n.start, ch1.end)];
    }
  }

  /** Every block starts at the start of the `if` or of one of its branches, and ends where a branch ends. */
  lemma StructureOfIfBounds(n: Node)
    requires IsIf(n)
    ensures forall b :: b in StructureOfIf(n) ==>
      && (b.start == n.start || b.start == n.children[1].start || (HasElse(n) && b.start == n.children[2].start))
      && (b.end == n.children[1].end || (HasElse(n) && b.end == n.children[2].end))
  {
  }
}
