/** Merkle branches: the tree and branch consensus builds
    (src/testkit.rs) and the reading of them a confirmation goes through
    (src/chain/proof.rs).

    The hash is an arbitrary function. A statement that would need it to be
    collision free ends in "or these two strings collide", the two strings
    being among those the tree and the branch hashed: that some collision
    exists somewhere says nothing, as a hash of unbounded input always has
    one. */
module Merkle {
  import opened Wrappers

  type Hash = s: seq<byte> | |s| == 32 witness seq(32, _ => 0)

  const ZEROES: Hash := seq(32, _ => 0)

  /** The foreign functions: double SHA-256, and whether bytes deserialize
      as a transaction. */
  datatype Crypto = Crypto(sha256d: seq<byte> -> Hash, readsAsTx: seq<byte> -> bool)

  const BRANCH_MAX: nat := 32

  /** Why a branch leads to no root. */
  datatype Fault = Shape | Transaction

  /** A hash as a server spells it: byte for byte reversed. */
  function Reverse(h: Hash): Hash {
    seq<byte>(32, i requires 0 <= i < 32 => h[31 - i])
  }

  /** Two nodes side by side, the 64 bytes their parent is the hash of. */
  function Join(left: Hash, right: Hash): seq<byte> {
    var l: seq<byte>, r: seq<byte> := left, right;
    l + r
  }

  lemma {:induction false} ReverseTwice(h: Hash)
    ensures Reverse(Reverse(h)) == h
  {
  }

  lemma {:induction false} JoinInjective(a: Hash, b: Hash, x: Hash, y: Hash)
    requires Join(a, b) == Join(x, y)
    ensures a == x && b == y
  {
    assert Join(a, b)[..32] == a && Join(x, y)[..32] == x;
    assert Join(a, b)[32..] == b && Join(x, y)[32..] == y;
  }

  // ----- the tree --------------------------------------------------------

  /** The 64 bytes hashed into parent `i` of `row`: the last node of an odd
      row is paired with a copy of itself. */
  function Pair(row: seq<Hash>, i: nat): seq<byte>
    requires 2 * i < |row|
  {
    Join(row[2 * i], if 2 * i + 1 < |row| then row[2 * i + 1] else row[2 * i])
  }

  /** The row as the builder pads it, and the row it hashes that into. */
  function Padded(row: seq<Hash>): seq<Hash> {
    if |row| % 2 == 1 then row + [row[|row| - 1]] else row
  }

  function Halved(c: Crypto, row: seq<Hash>): seq<Hash>
    requires |row| % 2 == 0
  {
    seq<Hash>(|row| / 2, i requires 0 <= i < |row| / 2 => c.sha256d(Join(row[2 * i], row[2 * i + 1])))
  }

  function Parents(c: Crypto, row: seq<Hash>): seq<Hash> {
    seq<Hash>((|row| + 1) / 2, i requires 0 <= i < (|row| + 1) / 2 => c.sha256d(Pair(row, i)))
  }

  function Root(c: Crypto, row: seq<Hash>): Hash
    requires row != []
    decreases |row|
  {
    if |row| == 1 then row[0] else Root(c, Parents(c, row))
  }

  /** Levels between a leaf and the root. */
  function Depth(n: nat): nat {
    if n <= 1 then 0 else 1 + Depth((n + 1) / 2)
  }

  /** The row `level` steps above `row`, none of them padded. */
  function Level(c: Crypto, row: seq<Hash>, level: nat): seq<Hash>
    decreases level
  {
    if level == 0 then row else Level(c, Parents(c, row), level - 1)
  }

  /** What pairs with `index` in `row`. */
  function Sibling(row: seq<Hash>, index: nat): Hash
    requires |row| > 1 && index < |row| + |row| % 2
  {
    if index % 2 == 1 then row[index - 1]
    else if index + 1 < |row| then row[index + 1] else row[index]
  }

  /** The branch of `index`, each hash spelled as a server spells it, byte
      for byte reversed. */
  function Branch(c: Crypto, row: seq<Hash>, index: nat): seq<Hash>
    requires |row| <= 1 || index < |row| + |row| % 2
    decreases |row|
  {
    if |row| <= 1 then []
    else [Reverse(Sibling(row, index))] + Branch(c, Parents(c, row), index / 2)
  }

  function Txids(c: Crypto, txs: seq<seq<byte>>): seq<Hash> {
    seq<Hash>(|txs|, i requires 0 <= i < |txs| => c.sha256d(txs[i]))
  }

  // ----- reading a branch -----------------------------------------------------

  /** The 64 bytes a step of the branch hashes. */
  function Inner(node: Hash, index: nat, sibling: Hash): seq<byte> {
    if index % 2 == 1 then Join(sibling, node) else Join(node, sibling)
  }

  function Climb(c: Crypto, node: Hash, index: nat, branch: seq<Hash>): Result<Hash, Fault>
    decreases |branch|
  {
    if branch == [] then
      if index != 0 then Err(Shape) else Ok(node)
    else
      var sibling := Reverse(branch[0]);
      var inner := Inner(node, index, sibling);
      if index % 2 == 1 && sibling == node then Err(Shape)
      else if c.readsAsTx(inner) then Err(Transaction)
      else Climb(c, c.sha256d(inner), index / 2, branch[1..])
  }

  /** What `merkle_root` answers. */
  function RootOf(c: Crypto, txid: Hash, pos: nat, branch: seq<Hash>): Result<Hash, Fault> {
    if |branch| > BRANCH_MAX then Err(Shape) else Climb(c, txid, pos, branch)
  }

  /** `merkle_root`: the loop of the source, `node` and `index` going up
      the branch. */
  method MerkleRoot(c: Crypto, txid: Hash, pos: nat, branch: seq<Hash>) returns (r: Result<Hash, Fault>)
    ensures r == RootOf(c, txid, pos, branch)
    ensures exists path :: Walks(c, txid, pos, branch, path) && Tells(c, pos, branch, path, r)
  {
    var walked := RootWalked(c, txid, pos, branch);
    if |branch| > BRANCH_MAX {
      return Err(Shape);
    }
    var index := pos;
    var node := txid;
    for k := 0 to |branch|
      invariant Climb(c, txid, pos, branch) == Climb(c, node, index, branch[k..])
    {
      var sibling := Reverse(branch[k]);
      assert branch[k..][0] == branch[k] && branch[k..][1..] == branch[k + 1..];
      var right := index % 2 == 1;
      if right && sibling == node {
        return Err(Shape);
      }
      var inner := if right then Join(sibling, node) else Join(node, sibling);
      if c.readsAsTx(inner) {
        return Err(Transaction);
      }
      node := c.sha256d(inner);
      index := index / 2;
    }
    if index != 0 {
      return Err(Shape);
    }
    return Ok(node);
  }

  lemma {:induction false} HalvedIsParents(c: Crypto, row: seq<Hash>)
    ensures Halved(c, Padded(row)) == Parents(c, row)
  {
    var padded := Padded(row);
    assert |padded| / 2 == (|row| + 1) / 2;
    forall i | 0 <= i < |padded| / 2 ensures Halved(c, padded)[i] == Parents(c, row)[i] {
      assert padded[2 * i] == row[2 * i];
      assert padded[2 * i + 1] == if 2 * i + 1 < |row| then row[2 * i + 1] else row[2 * i];
      assert Pair(row, i) == Join(padded[2 * i], padded[2 * i + 1]);
    }
  }

  lemma MoveHead<T>(s: seq<T>, t: seq<T>)
    requires t != []
    ensures (s + [t[0]]) + t[1..] == s + t
  {
  }

  /** What a turn of the builder's loop makes of its row. */
  lemma {:induction false} RowStep(c: Crypto, row: seq<Hash>, index: nat)
    requires |row| > 1 && index < |row| + |row| % 2
    ensures Halved(c, Padded(row)) == Parents(c, row) && |Parents(c, row)| == (|row| + 1) / 2
    ensures Root(c, row) == Root(c, Parents(c, row))
    ensures Depth(|row|) == 1 + Depth(|Parents(c, row)|)
    ensures index / 2 < |Parents(c, row)|
    ensures Branch(c, row, index)
         == [Reverse(Sibling(row, index))] + Branch(c, Parents(c, row), index / 2)
  {
    HalvedIsParents(c, row);
  }

  /** The builder between two turns: the root, the branch still to come and
      the turns left are those of the row it holds. */
  ghost predicate Rising(c: Crypto, txids: seq<Hash>, pos: nat, row: seq<Hash>, index: nat, branch: seq<Hash>)
    requires |txids| <= 1 || pos < |txids| + |txids| % 2
  {
    && (|row| <= 1 || index < |row| + |row| % 2)
    && (|row| == 0 <==> |txids| == 0)
    && (|row| > 0 ==> Root(c, row) == Root(c, txids))
    && branch + Branch(c, row, index) == Branch(c, txids, pos)
    && |branch| + Depth(|row|) == Depth(|txids|)
  }

  lemma {:induction false} RisingStep(c: Crypto, txids: seq<Hash>, pos: nat, row: seq<Hash>, index: nat,
      branch: seq<Hash>)
    requires |txids| <= 1 || pos < |txids| + |txids| % 2
    requires |row| > 1 && index < |row| + |row| % 2
    requires Rising(c, txids, pos, row, index, branch)
    ensures Rising(c, txids, pos, Parents(c, row), index / 2, branch + [Reverse(Sibling(row, index))])
  {
    hide Sibling, Reverse, Parents, Root, Branch, Depth, Halved;
    RowStep(c, row, index);
    MoveHead(branch, Branch(c, row, index));
  }

  lemma {:induction false} RisingFirst(c: Crypto, txids: seq<Hash>, pos: nat)
    requires |txids| <= 1 || pos < |txids| + |txids| % 2
    ensures Rising(c, txids, pos, txids, pos, [])
  {
    assert [] + Branch(c, txids, pos) == Branch(c, txids, pos);
  }

  lemma {:induction false} RisingInside(c: Crypto, txids: seq<Hash>, pos: nat, row: seq<Hash>, index: nat,
      branch: seq<Hash>)
    requires |txids| <= 1 || pos < |txids| + |txids| % 2
    requires Rising(c, txids, pos, row, index, branch)
    ensures |row| <= 1 || index < |row| + |row| % 2
    ensures |row| <= 1 ==>
              && branch == Branch(c, txids, pos) && |branch| == Depth(|txids|)
              && (row == [] <==> txids == []) && (row != [] ==> row[0] == Root(c, txids))
  {
  }

  /** `merkle_of`: the loop of the source, padding each odd row, taking the
      sibling of `index` and halving both. A position past the padded row
      panics there. */
  method MerkleOf(c: Crypto, txids: seq<Hash>, pos: nat) returns (root: Hash, branch: seq<Hash>)
    requires |txids| <= 1 || pos < |txids| + |txids| % 2
    ensures root == if txids == [] then ZEROES else Root(c, txids)
    ensures branch == Branch(c, txids, pos)
    ensures |branch| == Depth(|txids|)
    ensures exists rows :: Grows(c, txids, rows) && Tops(txids, pos, rows, root, branch)
  {
    hide Rising, Branch, Root, Depth, Grows, Tops, Reverse, Parents, Halved;
    var rows := TreeGrown(c, txids, pos);
    var row: seq<Hash> := txids;
    var index: nat := pos;
    branch := [];
    RisingFirst(c, txids, pos);
    while |row| > 1
      invariant Rising(c, txids, pos, row, index, branch)
      decreases |row|
    {
      RisingInside(c, txids, pos, row, index, branch);
      RisingStep(c, txids, pos, row, index, branch);
      RowStep(c, row, index);
      ghost var unpadded := row;
      if |row| % 2 == 1 {
        row := row + [row[|row| - 1]];
      }
      assert row == Padded(unpadded);
      var sibling := row[if index % 2 == 1 then index - 1 else index + 1];
      assert sibling == Sibling(unpadded, index);
      branch := branch + [Reverse(sibling)];
      row := Halved(c, row);
      index := index / 2;
    }
    RisingInside(c, txids, pos, row, index, branch);
    root := if row == [] then ZEROES else row[0];
  }

  // ----- byte by byte ----------------------------------------------------

  /** The 64 bytes are those of `left`, then those of `right`. */
  predicate Side(left: Hash, right: Hash, inner: seq<byte>) {
    |inner| == 64 && forall i :: 0 <= i < 32 ==> inner[i] == left[i] && inner[32 + i] == right[i]
  }

  predicate Reversed(these: Hash, those: Hash) { forall i :: 0 <= i < 32 ==> these[i] == those[31 - i] }

  /** The position, `k` bits lower. */
  function Shifted(pos: nat, k: nat): nat { if k == 0 then pos else Shifted(pos / 2, k - 1) }

  lemma {:induction false} ShiftedIs(pos: nat, k: nat)
    ensures Power(k) > 0 && Shifted(pos, k) == pos / Power(k)
  {
    if k > 0 {
      ShiftedIs(pos / 2, k - 1);
      HalvedFirst(pos, Power(k - 1));
    }
  }

  lemma {:induction false} HalvedFirst(pos: nat, size: nat)
    requires size > 0
    ensures (pos / 2) / size == pos / (2 * size)
  {
    var q := (pos / 2) / size;
    assert q * size <= pos / 2 < q * size + size;
    assert q * (2 * size) == 2 * (q * size);
    Quotient(pos, 2 * size, q);
  }

  lemma {:induction false} Quotient(n: nat, size: nat, q: nat)
    requires size > 0 && q * size <= n < q * size + size
    ensures n / size == q
  {
    Scaled(q + 1, n / size, size);
    Scaled(n / size + 1, q, size);
  }

  lemma {:induction false} Scaled(a: nat, b: nat, size: nat)
    ensures a <= b ==> a * size <= b * size
  {
    if a <= b {
      assert b * size == a * size + (b - a) * size;
    }
  }

  /** What a branch passes: the nodes from the txid up, the bytes each is hashed
      from, and the sibling of each. */
  datatype Path = Path(nodes: seq<Hash>, inners: seq<seq<byte>>, siblings: seq<Hash>)

  /** At each bit of the position that is set the node goes to the right of its
      sibling, which is sent reversed, and else to its left. */
  predicate Walks(c: Crypto, txid: Hash, pos: nat, branch: seq<Hash>, path: Path) {
    && |path.inners| == |path.siblings| == |branch| && |path.nodes| == |branch| + 1 && path.nodes[0] == txid
    && forall k :: 0 <= k < |branch| ==> Rises(c, path.nodes[k], Shifted(pos, k) % 2 == 1, branch[k],
                                               path.siblings[k], path.inners[k], path.nodes[k + 1])
  }

  predicate Rises(c: Crypto, node: Hash, right: bool, sent: Hash, sibling: Hash, inner: seq<byte>, up: Hash) {
    && Reversed(sent, sibling) && up == c.sha256d(inner)
    && if right then Side(sibling, node, inner) else Side(node, sibling, inner)
  }

  /** The node at level `k` is the right copy of its left sibling. */
  predicate Copied(pos: nat, path: Path, k: nat)
    requires k < |path.nodes| && k < |path.siblings|
  {
    Shifted(pos, k) % 2 == 1 && path.siblings[k] == path.nodes[k]
  }

  /** No level under `k` stops the reading. */
  predicate Passes(c: Crypto, pos: nat, path: Path, k: nat)
    requires k <= |path.nodes| && k <= |path.siblings| && k <= |path.inners|
  {
    forall j :: 0 <= j < k ==> !Copied(pos, path, j) && !c.readsAsTx(path.inners[j])
  }

  /** What a path of 32 levels at most is read as: its last node when nothing
      stops it and the position has no bit left, and else what stops it. */
  ghost predicate Tells(c: Crypto, pos: nat, branch: seq<Hash>, path: Path, r: Result<Hash, Fault>)
    requires |path.inners| == |path.siblings| == |branch| && |path.nodes| == |branch| + 1
  {
    match r
    case Ok(root) =>
      |branch| <= 32 && Passes(c, pos, path, |branch|) && Shifted(pos, |branch|) == 0 && root == path.nodes[|branch|]
    case Err(Transaction) =>
      && |branch| <= 32
      && exists k :: 0 <= k < |branch| && Passes(c, pos, path, k) && !Copied(pos, path, k)
                     && c.readsAsTx(path.inners[k])
    case Err(Shape) =>
      || |branch| > 32 || (Passes(c, pos, path, |branch|) && Shifted(pos, |branch|) != 0)
      || exists k :: 0 <= k < |branch| && Passes(c, pos, path, k) && Copied(pos, path, k)
  }

  /** The path of a branch with one step more below. */
  function Longer(node: Hash, inner: seq<byte>, sibling: Hash, path: Path): Path {
    Path([node] + path.nodes, [inner] + path.inners, [sibling] + path.siblings)
  }

  lemma {:induction false} WalksLonger(c: Crypto, node: Hash, index: nat, branch: seq<Hash>, path: Path)
    requires branch != []
    requires var inner := Inner(node, index, Reverse(branch[0]));
             Walks(c, c.sha256d(inner), index / 2, branch[1..], path)
    ensures var sibling := Reverse(branch[0]);
            Walks(c, node, index, branch, Longer(node, Inner(node, index, sibling), sibling, path))
  {
    var sibling := Reverse(branch[0]);
    var inner := Inner(node, index, sibling);
    var longer := Longer(node, inner, sibling, path);
    forall k | 0 <= k < |branch|
      ensures Rises(c, longer.nodes[k], Shifted(index, k) % 2 == 1, branch[k], longer.siblings[k], longer.inners[k],
                    longer.nodes[k + 1])
    {
      if k > 0 {
        assert branch[1..][k - 1] == branch[k] && Shifted(index, k) == Shifted(index / 2, k - 1);
      }
    }
  }

  lemma {:induction false} LevelUp(index: nat, path: Path, node: Hash, inner: seq<byte>, sibling: Hash, k: nat)
    requires k < |path.nodes| && k < |path.siblings| && k < |path.inners|
    ensures var longer := Longer(node, inner, sibling, path);
            && (Copied(index, longer, k + 1) <==> Copied(index / 2, path, k)) && longer.inners[k + 1] == path.inners[k]
  {
    assert Shifted(index, k + 1) == Shifted(index / 2, k);
  }

  lemma {:induction false} PassesLonger(c: Crypto, index: nat, path: Path, node: Hash, inner: seq<byte>, sibling: Hash,
      k: nat)
    requires k < |path.nodes| && k <= |path.siblings| && k <= |path.inners|
    requires !(index % 2 == 1 && sibling == node) && !c.readsAsTx(inner)
    ensures Passes(c, index, Longer(node, inner, sibling, path), k + 1) <==> Passes(c, index / 2, path, k)
    ensures k < |path.siblings| ==>
              (Copied(index, Longer(node, inner, sibling, path), k + 1) <==> Copied(index / 2, path, k))
    decreases k
  {
    var longer := Longer(node, inner, sibling, path);
    assert !Copied(index, longer, 0) && !c.readsAsTx(longer.inners[0]);
    hide Copied, Longer;
    if k < |path.siblings| && k < |path.inners| {
      LevelUp(index, path, node, inner, sibling, k);
    }
    if k > 0 {
      PassesLonger(c, index, path, node, inner, sibling, k - 1);
      LevelUp(index, path, node, inner, sibling, k - 1);
      assert Passes(c, index, longer, k + 1) <==>
        Passes(c, index, longer, k) && !Copied(index, longer, k) && !c.readsAsTx(longer.inners[k]);
    }
  }

  /** What the rest of the branch tells is what the whole does. */
  lemma {:induction false} TellsLonger(c: Crypto, node: Hash, index: nat, branch: seq<Hash>, path: Path,
      r: Result<Hash, Fault>)
    requires 0 < |branch| <= 32 && |path.inners| == |path.siblings| == |branch| - 1 && |path.nodes| == |branch|
    requires Tells(c, index / 2, branch[1..], path, r)
    requires var sibling := Reverse(branch[0]);
             !(index % 2 == 1 && sibling == node) && !c.readsAsTx(Inner(node, index, sibling))
    ensures var sibling := Reverse(branch[0]);
            Tells(c, index, branch, Longer(node, Inner(node, index, sibling), sibling, path), r)
  {
    hide Passes, Copied, Inner, Reverse;
    var sibling := Reverse(branch[0]);
    var inner := Inner(node, index, sibling);
    var longer := Longer(node, inner, sibling, path);
    PassesLonger(c, index, path, node, inner, sibling, |branch| - 1);
    match r
    case Ok(root) =>
    case Err(Transaction) =>
      var k :| 0 <= k < |branch| - 1 && Passes(c, index / 2, path, k) && !Copied(index / 2, path, k)
               && c.readsAsTx(path.inners[k]);
      PassesLonger(c, index, path, node, inner, sibling, k);
      assert longer.inners[k + 1] == path.inners[k];
    case Err(Shape) =>
      if exists k :: 0 <= k < |branch| - 1 && Passes(c, index / 2, path, k) && Copied(index / 2, path, k) {
        var k :| 0 <= k < |branch| - 1 && Passes(c, index / 2, path, k) && Copied(index / 2, path, k);
        PassesLonger(c, index, path, node, inner, sibling, k);
      }
  }

  lemma {:induction false} TellsFirst(c: Crypto, node: Hash, index: nat, branch: seq<Hash>, path: Path)
    requires 0 < |branch| <= 32 && |path.inners| == |path.siblings| == |branch| - 1 && |path.nodes| == |branch|
    ensures var sibling := Reverse(branch[0]);
            var inner := Inner(node, index, sibling);
            var longer := Longer(node, inner, sibling, path);
            && (index % 2 == 1 && sibling == node ==> Tells(c, index, branch, longer, Err(Shape)))
            && (!(index % 2 == 1 && sibling == node) && c.readsAsTx(inner) ==>
                Tells(c, index, branch, longer, Err(Transaction)))
  {
    hide Inner, Reverse;
    var longer := Longer(node, Inner(node, index, Reverse(branch[0])), Reverse(branch[0]), path);
    assert Passes(c, index, longer, 0);
    assert Shifted(index, 0) == index;
  }

  lemma {:induction false} ClimbWalked(c: Crypto, node: Hash, index: nat, branch: seq<Hash>) returns (path: Path)
    requires |branch| <= 32
    ensures Walks(c, node, index, branch, path) && Tells(c, index, branch, path, Climb(c, node, index, branch))
    decreases |branch|
  {
    hide Tells, Rises, Inner, Reverse;
    if branch == [] {
      path := Path([node], [], []);
      NoneTells(c, node, index);
    } else {
      var sibling := Reverse(branch[0]);
      var inner := Inner(node, index, sibling);
      var rest := ClimbWalked(c, c.sha256d(inner), index / 2, branch[1..]);
      path := Longer(node, inner, sibling, rest);
      WalksLonger(c, node, index, branch, rest);
      TellsFirst(c, node, index, branch, rest);
      if !(index % 2 == 1 && sibling == node) && !c.readsAsTx(inner) {
        TellsLonger(c, node, index, branch, rest, Climb(c, node, index, branch));
      }
    }
  }

  lemma {:induction false} NoneTells(c: Crypto, node: Hash, index: nat)
    ensures Tells(c, index, [], Path([node], [], []), Climb(c, node, index, []))
  {
  }

  /** The path there always is, whatever is told of it. */
  lemma {:induction false} PathOf(c: Crypto, node: Hash, index: nat, branch: seq<Hash>) returns (path: Path)
    ensures Walks(c, node, index, branch, path)
    decreases |branch|
  {
    hide Rises, Inner, Reverse;
    if branch == [] {
      path := Path([node], [], []);
    } else {
      var inner := Inner(node, index, Reverse(branch[0]));
      var rest := PathOf(c, c.sha256d(inner), index / 2, branch[1..]);
      path := Longer(node, inner, Reverse(branch[0]), rest);
      WalksLonger(c, node, index, branch, rest);
    }
  }

  /** What `merkle_root` answers, by the bytes it hashes. */
  lemma {:induction false} RootWalked(c: Crypto, txid: Hash, pos: nat, branch: seq<Hash>) returns (path: Path)
    ensures Walks(c, txid, pos, branch, path) && Tells(c, pos, branch, path, RootOf(c, txid, pos, branch))
  {
    hide Climb, Walks;
    if |branch| <= BRANCH_MAX {
      path := ClimbWalked(c, txid, pos, branch);
    } else {
      path := PathOf(c, txid, pos, branch);
    }
  }

  /** Each node of the row above is the hash of two of the row below side by
      side, the last of an odd row beside itself. */
  ghost predicate Above(c: Crypto, below: seq<Hash>, above: seq<Hash>) {
    && |above| == (|below| + 1) / 2
    && forall i :: 0 <= i < |above| ==>
         ParentOf(c, below[2 * i], below[Min(2 * i + 1, |below| - 1)], above[i])
  }

  ghost predicate ParentOf(c: Crypto, left: Hash, right: Hash, up: Hash) {
    exists inner :: Side(left, right, inner) && up == c.sha256d(inner)
  }

  /** The rows of a tree, from its leaves up, until one has a single node. */
  ghost predicate Grows(c: Crypto, txids: seq<Hash>, rows: seq<seq<Hash>>) {
    && rows != [] && rows[0] == txids && |rows[|rows| - 1]| <= 1
    && forall k :: 0 <= k < |rows| - 1 ==> |rows[k]| > 1 && Above(c, rows[k], rows[k + 1])
  }

  /** The root is the last node, or zeroes if there is none; the branch has of
      each row below what is beside the position, reversed. */
  ghost predicate Tops(txids: seq<Hash>, pos: nat, rows: seq<seq<Hash>>, root: Hash, branch: seq<Hash>)
    requires rows != []
  {
    && |branch| == |rows| - 1
    && (if txids == [] then forall i :: 0 <= i < 32 ==> root[i] == 0 else rows[|rows| - 1] == [root])
    && forall k :: 0 <= k < |branch| ==> Beside(rows[k], Shifted(pos, k), branch[k])
  }

  predicate Beside(row: seq<Hash>, at: nat, sent: Hash) {
    var beside := if at % 2 == 1 then at - 1 else Min(at + 1, |row| - 1);
    0 <= beside < |row| && Reversed(sent, row[beside])
  }

  lemma {:induction false} ParentsAbove(c: Crypto, row: seq<Hash>)
    ensures Above(c, row, Parents(c, row))
  {
    var above := Parents(c, row);
    forall i | 0 <= i < |above| ensures ParentOf(c, row[2 * i], row[Min(2 * i + 1, |row| - 1)], above[i]) {
      var inner := Pair(row, i);
      assert Side(row[2 * i], row[Min(2 * i + 1, |row| - 1)], inner) && above[i] == c.sha256d(inner);
    }
  }

  lemma {:induction false} SiblingBeside(row: seq<Hash>, index: nat)
    requires |row| > 1 && index < |row| + |row| % 2
    ensures Beside(row, index, Reverse(Sibling(row, index)))
  {
  }

  lemma {:induction false} TreeGrown(c: Crypto, row: seq<Hash>, pos: nat) returns (rows: seq<seq<Hash>>)
    requires |row| <= 1 || pos < |row| + |row| % 2
    ensures Grows(c, row, rows)
    ensures Tops(row, pos, rows, if row == [] then ZEROES else Root(c, row), Branch(c, row, pos))
    decreases |row|
  {
    hide Above, Beside, Sibling, Reverse;
    if |row| <= 1 {
      rows := [row];
    } else {
      RowStep(c, row, pos);
      var above := TreeGrown(c, Parents(c, row), pos / 2);
      rows := [row] + above;
      ParentsAbove(c, row);
      SiblingBeside(row, pos);
      RowsMore(c, row, pos, above);
    }
  }

  lemma {:induction false} RowsMore(c: Crypto, row: seq<Hash>, pos: nat, above: seq<seq<Hash>>)
    requires |row| > 1 && pos < |row| + |row| % 2 && pos / 2 < |Parents(c, row)| && Above(c, row, Parents(c, row))
    requires Grows(c, Parents(c, row), above) && Beside(row, pos, Reverse(Sibling(row, pos)))
    requires Tops(Parents(c, row), pos / 2, above, Root(c, row), Branch(c, Parents(c, row), pos / 2))
    ensures Grows(c, row, [row] + above) && Tops(row, pos, [row] + above, Root(c, row), Branch(c, row, pos))
  {
    hide Above, Beside, Sibling, Reverse, Parents, Root;
    var rows, branch, rest := [row] + above, Branch(c, row, pos), Branch(c, Parents(c, row), pos / 2);
    assert branch == [Reverse(Sibling(row, pos))] + rest;
    forall k | 0 <= k < |branch| ensures Beside(rows[k], Shifted(pos, k), branch[k]) {
      if k > 0 {
        assert Shifted(pos, k) == Shifted(pos / 2, k - 1) && rows[k] == above[k - 1] && branch[k] == rest[k - 1];
      }
    }
  }

  /** The root of two txids is the hash of the bytes of the first and then those
      of the second. */
  lemma {:induction false} RootOfTwo(c: Crypto, a: Hash, b: Hash, inner: seq<byte>)
    requires Side(a, b, inner)
    ensures Root(c, [a, b]) == c.sha256d(inner)
  {
    assert Pair([a, b], 0) == inner;
    assert Parents(c, [a, b]) == [c.sha256d(inner)];
  }

  // ----- what is hashed --------------------------------------------------

  /** The strings hashed into the rows above `row`. */
  function RowInputs(c: Crypto, row: seq<Hash>): set<seq<byte>>
    decreases |row|
  {
    if |row| <= 1 then {}
    else (set i | 0 <= i < (|row| + 1) / 2 :: Pair(row, i)) + RowInputs(c, Parents(c, row))
  }

  /** The strings the tree of `txs` is made by hashing. */
  function TreeInputs(c: Crypto, txs: seq<seq<byte>>): set<seq<byte>> {
    (set i | 0 <= i < |txs| :: txs[i]) + RowInputs(c, Txids(c, txs))
  }

  /** The strings a branch hashes on its way up. */
  function ClimbInputs(c: Crypto, node: Hash, index: nat, branch: seq<Hash>): set<seq<byte>>
    decreases |branch|
  {
    if branch == [] then {}
    else
      var inner := Inner(node, index, Reverse(branch[0]));
      {inner} + ClimbInputs(c, c.sha256d(inner), index / 2, branch[1..])
  }

  /** Two different strings, one of each set, with the same hash. */
  ghost predicate Collide(c: Crypto, these: set<seq<byte>>, those: set<seq<byte>>) {
    exists a, b :: a in these && b in those && a != b && c.sha256d(a) == c.sha256d(b)
  }

  // ----- shape of the tree -----------------------------------------------

  lemma {:induction false} NextLevel(c: Crypto, row: seq<Hash>, level: nat)
    ensures Level(c, row, level + 1) == Parents(c, Level(c, row, level))
    decreases level
  {
    if level > 0 {
      NextLevel(c, Parents(c, row), level - 1);
    }
  }

  lemma {:induction false} TopIsRoot(c: Crypto, row: seq<Hash>)
    requires row != []
    ensures Level(c, row, Depth(|row|)) == [Root(c, row)]
    decreases |row|
  {
    if |row| > 1 {
      TopIsRoot(c, Parents(c, row));
    }
  }

  /** Every pair of every row below the root is an input of the tree. */
  lemma {:induction false} LevelInputs(c: Crypto, row: seq<Hash>, level: nat, i: nat)
    requires level < Depth(|row|)
    requires 2 * i < |Level(c, row, level)|
    ensures Pair(Level(c, row, level), i) in RowInputs(c, row)
    decreases level
  {
    if level > 0 {
      LevelInputs(c, Parents(c, row), level - 1, i);
    }
  }

  lemma {:induction false} DepthBound(n: nat, bits: nat)
    requires n <= Power(bits)
    ensures Depth(n) <= bits
  {
    if n > 1 {
      DepthBound((n + 1) / 2, bits - 1);
    }
  }

  function Power(bits: nat): nat { if bits == 0 then 1 else 2 * Power(bits - 1) }

  // ----- soundness -------------------------------------------------------

  /** One step down: a node of the tree that a branch reached by hashing
      `inner` was hashed from the same 64 bytes, and what the branch came
      from is the node below it, never the copy that pads an odd row. */
  lemma {:induction false} StepDown(c: Crypto, row: seq<Hash>, node: Hash, index: nat, sibling: Hash)
    requires index / 2 < |Parents(c, row)|
    requires Pair(row, index / 2) == Inner(node, index, sibling)
    requires !(index % 2 == 1 && sibling == node)
    ensures index < |row| && node == row[index]
  {
    var i := index / 2;
    var right := if 2 * i + 1 < |row| then row[2 * i + 1] else row[2 * i];
    if index % 2 == 1 {
      JoinInjective(row[2 * i], right, sibling, node);
    } else {
      JoinInjective(row[2 * i], right, node, sibling);
    }
  }

  /** Whatever a branch accepted starts from is the node of
      the tree as far under the root as the branch is long, at that very
      position of the row, unpadded. */
  ghost predicate NodeAt(c: Crypto, row: seq<Hash>, node: Hash, pos: nat, length: nat) {
    && length <= Depth(|row|)
    && var level := Level(c, row, Depth(|row|) - length);
       pos < |level| && node == level[pos]
  }

  /** The step of soundness at a leaf: it is the hash of a transaction,
      and what a branch hashes reads as none. */
  lemma {:induction false} LeafIsNoInner(c: Crypto, txs: seq<seq<byte>>, inner: seq<byte>, i: nat)
    requires forall i :: 0 <= i < |txs| ==> c.readsAsTx(txs[i])
    requires i < |txs| && !c.readsAsTx(inner) && c.sha256d(inner) == c.sha256d(txs[i])
    ensures Collide(c, TreeInputs(c, txs), {inner})
  {
    assert txs[i] in TreeInputs(c, txs) && inner in {inner};
  }

  /** The step of soundness above the leaves. */
  lemma {:induction false} InnerDown(c: Crypto, txs: seq<seq<byte>>, level: nat, node: Hash, index: nat, sibling: Hash)
    requires level < Depth(|txs|)
    requires !(index % 2 == 1 && sibling == node)
    requires var up := Level(c, Txids(c, txs), level + 1);
             index / 2 < |up| && up[index / 2] == c.sha256d(Inner(node, index, sibling))
    ensures var below := Level(c, Txids(c, txs), level);
            (index < |below| && node == below[index]) || Collide(c, TreeInputs(c, txs), {Inner(node, index, sibling)})
  {
    var row := Txids(c, txs);
    var inner := Inner(node, index, sibling);
    var below := Level(c, row, level);
    NextLevel(c, row, level);
    var pair := Pair(below, index / 2);
    if pair == inner {
      StepDown(c, below, node, index, sibling);
    } else {
      LevelInputs(c, row, level, index / 2);
      assert pair in TreeInputs(c, txs) && inner in {inner};
    }
  }

  lemma {:induction false} CollideMore(c: Crypto, these: set<seq<byte>>, those: set<seq<byte>>, more: set<seq<byte>>)
    requires Collide(c, these, those) && those <= more
    ensures Collide(c, these, more)
  {
    var a, b :| a in these && b in those && a != b && c.sha256d(a) == c.sha256d(b);
    assert b in more;
  }

  lemma {:induction false} ClimbSound(c: Crypto, txs: seq<seq<byte>>, node: Hash, index: nat, branch: seq<Hash>)
    requires txs != []
    requires forall i :: 0 <= i < |txs| ==> c.readsAsTx(txs[i])
    requires Climb(c, node, index, branch) == Ok(Root(c, Txids(c, txs)))
    ensures NodeAt(c, Txids(c, txs), node, index, |branch|)
         || Collide(c, TreeInputs(c, txs), ClimbInputs(c, node, index, branch))
    decreases |branch|
  {
    var row := Txids(c, txs);
    if branch == [] {
      TopIsRoot(c, row);
    } else {
      var sibling := Reverse(branch[0]);
      var inner := Inner(node, index, sibling);
      var hashed := ClimbInputs(c, node, index, branch);
      ClimbSound(c, txs, c.sha256d(inner), index / 2, branch[1..]);
      if Collide(c, TreeInputs(c, txs), ClimbInputs(c, c.sha256d(inner), index / 2, branch[1..])) {
        CollideMore(c, TreeInputs(c, txs), ClimbInputs(c, c.sha256d(inner), index / 2, branch[1..]), hashed);
      } else if |branch| - 1 == Depth(|row|) {
        LeafIsNoInner(c, txs, inner, index / 2);
        CollideMore(c, TreeInputs(c, txs), {inner}, hashed);
      } else {
        InnerDown(c, txs, Depth(|row|) - |branch|, node, index, sibling);
        if Collide(c, TreeInputs(c, txs), {inner}) {
          CollideMore(c, TreeInputs(c, txs), {inner}, hashed);
        }
      }
    }
  }

  /** Soundness: whatever txid, position and branch a server makes up, when
      they lead to the root of a block of transactions, the branch is no
      longer than the tree is deep, and the txid is the node at that level
      and position, or the branch hashes a string that collides with one
      the block's tree hashes. A branch as long as the tree is deep proves
      the transaction at that position. */
  lemma {:induction false} BranchSound(c: Crypto, txs: seq<seq<byte>>, txid: Hash, pos: nat, branch: seq<Hash>)
    requires txs != []
    requires forall i :: 0 <= i < |txs| ==> c.readsAsTx(txs[i])
    requires RootOf(c, txid, pos, branch) == Ok(Root(c, Txids(c, txs)))
    requires !Collide(c, TreeInputs(c, txs), ClimbInputs(c, txid, pos, branch))
    ensures |branch| <= Depth(|txs|)
    ensures NodeAt(c, Txids(c, txs), txid, pos, |branch|)
    ensures |branch| == Depth(|txs|) ==> pos < |txs| && txid == c.sha256d(txs[pos])
  {
    ClimbSound(c, txs, txid, pos, branch);
  }

  // ----- completeness ----------------------------------------------------

  ghost predicate Distinct(row: seq<Hash>) {
    forall i, j :: 0 <= i < j < |row| ==> row[i] != row[j]
  }

  /** Whether a 64-byte node on the way up from `index` reads as a
      transaction. */
  predicate PathReadsAsTx(c: Crypto, row: seq<Hash>, index: nat)
    requires index < |row|
    decreases |row|
  {
    |row| > 1 && (c.readsAsTx(Pair(row, index / 2)) || PathReadsAsTx(c, Parents(c, row), index / 2))
  }

  lemma {:induction false} ParentsDistinct(c: Crypto, row: seq<Hash>)
    requires |row| > 1 && Distinct(row)
    requires !Collide(c, RowInputs(c, row), RowInputs(c, row))
    ensures Distinct(Parents(c, row))
  {
    var up := Parents(c, row);
    forall i, j | 0 <= i < j < |up| ensures up[i] != up[j] {
      if Pair(row, i) == Pair(row, j) {
        JoinInjective(row[2 * i], row[2 * i + 1],
                      row[2 * j], if 2 * j + 1 < |row| then row[2 * j + 1] else row[2 * j]);
      }
      assert Pair(row, i) in RowInputs(c, row) && Pair(row, j) in RowInputs(c, row);
    }
  }

  /** The first step of the builder's own branch hashes the pair of the
      tree, and its first sibling is another node of the row. */
  lemma {:induction false} ClimbStep(c: Crypto, row: seq<Hash>, index: nat)
    requires |row| > 1 && Distinct(row) && index < |row|
    ensures Climb(c, row[index], index, Branch(c, row, index))
         == if c.readsAsTx(Pair(row, index / 2)) then Err(Transaction)
            else Climb(c, Parents(c, row)[index / 2], index / 2, Branch(c, Parents(c, row), index / 2))
  {
    var sibling := Sibling(row, index);
    var branch := Branch(c, row, index);
    assert branch[1..] == Branch(c, Parents(c, row), index / 2);
    ReverseTwice(sibling);
    assert Inner(row[index], index, sibling) == Pair(row, index / 2);
  }

  lemma {:induction false} ClimbComplete(c: Crypto, row: seq<Hash>, index: nat)
    requires Distinct(row) && index < |row|
    requires !Collide(c, RowInputs(c, row), RowInputs(c, row))
    ensures Climb(c, row[index], index, Branch(c, row, index))
         == if PathReadsAsTx(c, row, index) then Err(Transaction) else Ok(Root(c, row))
    ensures |Branch(c, row, index)| == Depth(|row|)
    decreases |row|
  {
    if |row| > 1 {
      var up := Parents(c, row);
      ParentsDistinct(c, row);
      ClimbComplete(c, up, index / 2);
      ClimbStep(c, row, index);
    }
  }

  /** Completeness: the branch of every transaction of a block, odd rows at
      any level included, leads `merkle_root` back to the block's root, is
      never judged misshapen, and is held unsure exactly when a node on its
      way reads as a transaction; unless two strings the tree hashes
      collide. */
  lemma {:induction false} BranchComplete(c: Crypto, txids: seq<Hash>, pos: nat)
    requires Distinct(txids) && pos < |txids| <= Power(32)
    requires !Collide(c, RowInputs(c, txids), RowInputs(c, txids))
    ensures RootOf(c, txids[pos], pos, Branch(c, txids, pos))
         == if PathReadsAsTx(c, txids, pos) then Err(Transaction) else Ok(Root(c, txids))
  {
    ClimbComplete(c, txids, pos);
    DepthBound(|txids|, 32);
  }

  /** The copy that pads an odd row is a transaction of no position: the
      branch the builder gives for it is refused (CVE-2012-2459). */
  lemma {:induction false} PaddingRefused(c: Crypto, txids: seq<Hash>)
    requires |txids| > 1 && |txids| % 2 == 1
    ensures RootOf(c, txids[|txids| - 1], |txids|, Branch(c, txids, |txids|)) == Err(Shape)
  {
    var branch := Branch(c, txids, |txids|);
    ReverseTwice(txids[|txids| - 1]);
    assert branch[0] == Reverse(txids[|txids| - 1]);
  }
}
