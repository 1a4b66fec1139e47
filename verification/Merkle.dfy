/** The Merkle tree stored in a linear array (crypto/curve25519/merkle.go). A nil pointer is None; the hash of two
    concatenated hashes is a parameter. */
module Merkle {
  import opened Arith
  import opened Options

  // ---- The tree ----

  /** The parent of two children: a missing right child is replaced by its left sibling, a missing pair is missing. */
  function Parent<H>(h: (H, H) -> H, left: Option<H>, right: Option<H>): Option<H> {
    match (left, right)
    case (None, _) => None
    case (Some(l), None) => Some(h(l, l))
    case (Some(l), Some(r)) => Some(h(l, r))
  }

  /** The recursive Merkle root of the 2^k leaves starting at `at`, missing ones included. */
  ghost function Root<H>(h: (H, H) -> H, leaves: seq<H>, at: nat, k: nat): Option<H>
    decreases k
  {
    if k == 0 then if at < |leaves| then Some(leaves[at]) else None
    else Parent(h, Root(h, leaves, at, k - 1), Root(h, leaves, at + Pow2(k - 1), k - 1))
  }

  /** The hash as a free term, which shows what is hashed in which order. */
  datatype Term<H> = Leaf(hash: H) | Node(left: Term<H>, right: Term<H>)

  function FreeNode<H>(): (Term<H>, Term<H>) -> Term<H> {
    (l, r) => Node(l, r)
  }

  function Frontier<H>(t: Term<H>): seq<H> {
    match t
    case Leaf(hash) => [hash]
    case Node(left, right) => Frontier(left) + Frontier(right)
  }

  /** A root whose leaves are all there hashes them from left to right. */
  lemma {:induction false} LeavesInOrder<H>(leaves: seq<Term<H>>, at: nat, k: nat)
    requires at + Pow2(k) <= |leaves| && forall i :: 0 <= i < |leaves| ==> leaves[i].Leaf?
    ensures Root(FreeNode(), leaves, at, k).Some?
    ensures Frontier(Root(FreeNode(), leaves, at, k).value)
      == seq(Pow2(k), i requires 0 <= i < Pow2(k) => leaves[at + i].hash)
    decreases k
  {
    if k > 0 {
      LeavesInOrder(leaves, at, k - 1);
      LeavesInOrder(leaves, at + Pow2(k - 1), k - 1);
    }
  }

  /** Two leaves are hashed in their order; a third one is hashed with itself. */
  lemma SmallRoots<H>(h: (H, H) -> H, a: H, b: H, c: H)
    ensures Root(h, [a, b], 0, 1) == Some(h(a, b))
    ensures Root(h, [a, b, c], 0, 2) == Some(h(h(a, b), h(c, c)))
  {
    assert Root(h, [a, b, c], 0, 1) == Some(h(a, b));
    assert Root(h, [a, b, c], 2, 0) == Some(c) && Root(h, [a, b, c], 3, 0) == None;
    assert Root(h, [a, b, c], 2, 1) == Some(h(c, c));
  }

  /** A subtree is missing exactly when its first leaf is. */
  lemma {:induction false} MissingSubtree<H>(h: (H, H) -> H, leaves: seq<H>, at: nat, k: nat)
    ensures Root(h, leaves, at, k).None? <==> at >= |leaves|
    decreases k
  {
    if k > 0 {
      MissingSubtree(h, leaves, at, k - 1);
      MissingSubtree(h, leaves, at + Pow2(k - 1), k - 1);
    }
  }

  // ---- The array ----

  /** What cell c holds: a leaf below n, and above it the parent of two earlier cells. */
  ghost function Cell<H>(h: (H, H) -> H, leaves: seq<H>, n: nat, c: nat): Option<H>
    requires c + 1 < 2 * n
    decreases c
  {
    if c < n then if c < |leaves| then Some(leaves[c]) else None
    else Parent(h, Cell(h, leaves, n, 2 * (c - n)), Cell(h, leaves, n, 2 * (c - n) + 1))
  }

  /** Where level k starts: 2^e leaves, then half as many cells on each level. */
  ghost function LevelStart(e: nat, k: nat): int
    requires k <= e
  {
    2 * Pow2(e) - 2 * Pow2(e - k)
  }

  lemma ChildIndices(e: nat, k: nat, j: nat)
    requires 1 <= k <= e && j < Pow2(e - k)
    ensures Pow2(e) <= LevelStart(e, k) + j < 2 * Pow2(e) - 1
    ensures 2 * (LevelStart(e, k) + j - Pow2(e)) == LevelStart(e, k - 1) + 2 * j && 2 * j + 1 < Pow2(e - (k - 1))
  {
    assert Pow2(e - (k - 1)) == 2 * Pow2(e - k);
    Pow2Sum(e - k + 1, k - 1);
    PositiveFactor(Pow2(e - k + 1), Pow2(k - 1));
  }

  lemma PositiveFactor(x: int, y: int)
    requires x >= 0 && y >= 1
    ensures x * y >= x
  {
    Monotone(x, 1, y);
  }

  /** Cell j of level k is the root of the 2^k leaves it spans. */
  lemma {:induction false} CellIsRoot<H>(h: (H, H) -> H, leaves: seq<H>, e: nat, k: nat, j: nat, at: nat)
    requires k <= e && j < Pow2(e - k) && at == Pow2(k) * j
    ensures 0 <= LevelStart(e, k) && LevelStart(e, k) + j + 1 < 2 * Pow2(e)
    ensures Cell(h, leaves, Pow2(e), LevelStart(e, k) + j) == Root(h, leaves, at, k)
    decreases k
  {
    if k > 0 {
      ChildIndices(e, k, j);
      Halves(k, j, at);
      CellIsRoot(h, leaves, e, k - 1, 2 * j, at);
      CellIsRoot(h, leaves, e, k - 1, 2 * j + 1, at + Pow2(k - 1));
      ParentIsRoot(h, leaves, Pow2(e), LevelStart(e, k) + j, at, k);
    }
  }

  /** One step: the two children of cell c span the two halves of its leaves. */
  lemma ParentIsRoot<H>(h: (H, H) -> H, leaves: seq<H>, n: nat, c: nat, at: nat, k: nat)
    requires n <= c && c + 1 < 2 * n && k > 0
    requires Cell(h, leaves, n, 2 * (c - n)) == Root(h, leaves, at, k - 1)
    requires Cell(h, leaves, n, 2 * (c - n) + 1) == Root(h, leaves, at + Pow2(k - 1), k - 1)
    ensures Cell(h, leaves, n, c) == Root(h, leaves, at, k)
  {
  }

  lemma Halves(k: nat, j: nat, at: nat)
    requires k > 0 && at == Pow2(k) * j
    ensures at == Pow2(k - 1) * (2 * j) && at + Pow2(k - 1) == Pow2(k - 1) * (2 * j + 1)
  {
  }

  // ---- nextPowerOfTwo ----

  /** The exponent of the least power of two that is at least n. */
  function Exponent(n: nat): (e: nat)
    requires n >= 1
    ensures n <= Pow2(e) && forall d: nat :: n <= Pow2(d) ==> e <= d
  {
    if n == 1 then 0 else
      var e := Exponent((n + 1) / 2) + 1;
      HalvedExponent(n, e);
      e
  }

  lemma HalvedExponent(n: nat, e: nat)
    requires n >= 2 && e >= 1 && (n + 1) / 2 <= Pow2(e - 1)
    requires forall d: nat :: (n + 1) / 2 <= Pow2(d) ==> e - 1 <= d
    ensures n <= Pow2(e) && forall d: nat :: n <= Pow2(d) ==> e <= d
  {
    forall d: nat | n <= Pow2(d)
      ensures e <= d
    {
      assert d > 0;
      assert Pow2(d) == 2 * Pow2(d - 1);
    }
  }

  // ---- BuildMerkleTreeStore ----

  /** The cells below `offset` are final. */
  ghost predicate Built<H>(h: (H, H) -> H, leaves: seq<H>, n: nat, cells: seq<Option<H>>, offset: nat) {
    offset <= |cells| == 2 * n - 1 && forall c :: 0 <= c < offset ==> cells[c] == Cell(h, leaves, n, c)
  }

  /** The array with the leaves in place and nil everywhere else. */
  method PlaceLeaves<H>(h: (H, H) -> H, hashes: seq<H>, n: nat) returns (merkles: array<Option<H>>)
    requires 1 <= |hashes| <= n
    ensures fresh(merkles) && Built(h, hashes, n, merkles[..], n)
  {
    merkles := new Option<H>[2 * n - 1](_ => None);
    for i := 0 to |hashes|
      invariant forall c :: 0 <= c < i ==> merkles[c] == Some(hashes[c])
      invariant forall c :: i <= c < 2 * n - 1 ==> merkles[c] == None
    {
      merkles[i] := Some(hashes[i]);
    }
  }

  /** The next parent cell, from its two children. */
  method PlaceParent<H>(h: (H, H) -> H, merkles: array<Option<H>>, i: nat, offset: nat, ghost leaves: seq<H>,
    ghost n: nat)
    requires Built(h, leaves, n, merkles[..], offset) && i + 1 < offset < merkles.Length && i == 2 * (offset - n)
    modifies merkles
    ensures Built(h, leaves, n, merkles[..], offset + 1)
  {
    assert forall c :: 0 <= c < offset ==> merkles[c] == merkles[..][c];
    if merkles[i].None? {
      merkles[offset] := None;
    } else if merkles[i + 1].None? {
      merkles[offset] := Some(h(merkles[i].value, merkles[i].value));
    } else {
      merkles[offset] := Some(h(merkles[i].value, merkles[i + 1].value));
    }
  }

  /** `zero` is the all-zero hash, the only cell of an empty tree. */
  method BuildMerkleTreeStore<H>(h: (H, H) -> H, zero: H, hashes: seq<H>) returns (merkles: array<Option<H>>)
    ensures |hashes| == 0 ==> merkles[..] == [Some(zero)]
    ensures |hashes| >= 1 ==> (var n := Pow2(Exponent(|hashes|)); Built(h, hashes, n, merkles[..], 2 * n - 1))
  {
    if |hashes| == 0 {
      merkles := new Option<H>[1](_ => Some(zero));
      return;
    }
    var n := Pow2(Exponent(|hashes|));
    merkles := PlaceLeaves(h, hashes, n);
    var offset := n;
    var i := 0;
    while i < merkles.Length - 1
      invariant i == 2 * (offset - n) && fresh(merkles) && Built(h, hashes, n, merkles[..], offset)
    {
      PlaceParent(h, merkles, i, offset, hashes, n);
      offset := offset + 1;
      i := i + 2;
    }
  }

  /** The last cell is present, and is the recursive root over the leaves padded to a power of two. */
  method MerkleRoot<H>(h: (H, H) -> H, zero: H, hashes: seq<H>) returns (root: H)
    ensures |hashes| == 0 ==> root == zero
    ensures |hashes| >= 1 ==> Some(root) == Root(h, hashes, 0, Exponent(|hashes|))
  {
    var merkles := BuildMerkleTreeStore(h, zero, hashes);
    assert merkles[..][|merkles[..]| - 1] == merkles[merkles.Length - 1];
    if |hashes| >= 1 {
      LastCell(h, hashes, Exponent(|hashes|));
    }
    root := merkles[merkles.Length - 1].value;
  }

  lemma LastCell<H>(h: (H, H) -> H, leaves: seq<H>, e: nat)
    requires |leaves| >= 1
    ensures Cell(h, leaves, Pow2(e), 2 * Pow2(e) - 2) == Root(h, leaves, 0, e) && Root(h, leaves, 0, e).Some?
  {
    LastLevel(e);
    CellIsRoot(h, leaves, e, e, 0, 0);
    MissingSubtree(h, leaves, 0, e);
  }

  lemma LastLevel(e: nat)
    ensures Pow2(e - e) == 1 && LevelStart(e, e) == 2 * Pow2(e) - 2
  {
  }
}
