/** What a confirmation taken from a server is worth: the properties of
    `proven_on` and of the session's chains, over every server and every
    session. */
module Confirmations {
  import opened Wrappers
  import opened Merkle
  import opened Proof
  import opened ProvenOn

  // ----- what `true` proves ----------------------------------------------

  /** The chain that settles a confirmation needing one: read from the server
      when the session had none as the list was made, or the session's. */
  ghost function SettlingChain(k: Consensus, network: Network, listed: Chains, after: Shared, height: u32,
      server: Server): (u32, seq<Header>)
    requires k.Valid() && CheckpointFor(k, network, height).Some?
  {
    var gathered := Gather(server, height, CheckpointFor(k, network, height).value.end + 1 - height, []);
    if Needs(k, network, listed, height) && gathered.Ok? && gathered.value.Some? then (height, gathered.value.value)
    else
      var period := PeriodOf(height);
      if period in after.chains && period in after.headers then (after.chains[period].from, after.headers[period])
      else (height, [])
  }

  /** Whatever a server answers, `true` means the height is no higher than
      the tip, the header carries the work of its height and the branch
      leads from the txid to its root; and where a checkpoint applies, the
      header's hash is what a hash-linked chain of headers, up to that
      checkpoint, holds at the height. */
  lemma {:induction false} TrueIsProven(k: Consensus, c: Crypto, network: Network, listed: Chains, after: Shared,
      txid: Hash, height: u32, tip: u32, server: Server)
    requires k.Valid() && SharedValid(k, network, after)
    requires Decide(k, c, network, listed, after.chains, txid, height, tip, server) == Ok(true)
    ensures height <= tip && server.branch.Some? && server.header.Some?
    ensures HasWork(k, network, height, server.header.value)
    ensures server.branch.value.height == height
    ensures RootOf(c, txid, server.branch.value.pos, server.branch.value.merkle) == Ok(server.header.value.merkleRoot)
    ensures CheckpointFor(k, network, height).Some? ==>
              var (from, headers) := SettlingChain(k, network, listed, after, height, server);
              && ChainTo(k, network, from, headers)
              && from <= height && PeriodOf(from) == PeriodOf(height)
              && k.blockHash(headers[height - from]) == k.blockHash(server.header.value)
  {
  }

  /** A server cannot make up a confirmation in a period with a checkpoint:
      when `actual` are the headers of the blocks that lead to it, and `txs`
      the transactions of the one at `height`, `true` means the txid is the
      node of that block's tree at the position and depth of the branch,
      the transaction itself when the branch is as long as the tree is deep;
      or a header the session read or the server sent collides with another,
      or a string the branch hashes collides with one the tree hashes. */
  lemma {:induction false} TrueIsReal(k: Consensus, c: Crypto, network: Network, listed: Chains, after: Shared,
      txid: Hash, height: u32, tip: u32, server: Server, from: u32, actual: seq<Header>, txs: seq<seq<byte>>)
    requires k.Valid() && SharedValid(k, network, after)
    requires Decide(k, c, network, listed, after.chains, txid, height, tip, server) == Ok(true)
    requires ChainTo(k, network, from, actual) && from <= height && PeriodOf(from) == PeriodOf(height)
    requires txs != [] && forall i :: 0 <= i < |txs| ==> c.readsAsTx(txs[i])
    requires actual[height - from].merkleRoot == Root(c, Txids(c, txs))
    ensures server.branch.Some? && server.header.Some?
    ensures
      var branch := server.branch.value;
      || (NodeAt(c, Txids(c, txs), txid, branch.pos, |branch.merkle|)
          && (|branch.merkle| == Depth(|txs|) ==> branch.pos < |txs| && txid == c.sha256d(txs[branch.pos])))
      || Collide(c, TreeInputs(c, txs), ClimbInputs(c, txid, branch.pos, branch.merkle))
      || HeadersCollide(k, SettlingChain(k, network, listed, after, height, server).1, actual)
      || HeadersCollide(k, [server.header.value], actual)
  {
    hide Decide, CacheValid, SettlingChain, Climb, Root;
    TrueIsProven(k, c, network, listed, after, txid, height, tip, server);
    var (from', headers) := SettlingChain(k, network, listed, after, height, server);
    var header, branch := server.header.value, server.branch.value;
    ChainsAgree(k, network, from', headers, from, actual, height);
    if header == actual[height - from] {
      if !Collide(c, TreeInputs(c, txs), ClimbInputs(c, txid, branch.pos, branch.merkle)) {
        BranchSound(c, txs, txid, branch.pos, branch.merkle);
      }
    } else if !HeadersCollide(k, headers, actual) {
      assert header in [header] && actual[height - from] in actual;
    }
  }

  // ----- what each answer comes of ---------------------------------------

  /** The branch leads to a root other than the header's, and no other header
      read again bears it out. */
  ghost predicate Misled(k: Consensus, network: Network, height: u32, header: Header, again: Header, root: Hash)
    requires k.Valid()
  {
    && root != header.merkleRoot
    && !(k.blockHash(again) != k.blockHash(header) && HasWork(k, network, height, again) && root == again.merkleRoot)
  }

  /** The block is not in the chain read, or that is no chain to the checkpoint;
      or, none being read, the session holds another. */
  ghost predicate Unchained(k: Consensus, network: Network, listed: Chains, answered: Chains, height: u32, hash: Hash,
      server: Server)
    requires k.Valid() && CheckpointFor(k, network, height).Some?
  {
    var read := ReadFor(k, network, listed, height, server);
    var held := ChainedBefore(answered, height);
    if read.Some? then !(ChainTo(k, network, height, read.value) && k.blockHash(read.value[0]) == hash)
    else held.Some? && held.value != hash
  }

  /** The headers read for a block, if a chain is wanted and the server has one. */
  ghost function ReadFor(k: Consensus, network: Network, listed: Chains, height: u32, server: Server)
      : Option<seq<Header>>
    requires k.Valid() && CheckpointFor(k, network, height).Some?
  {
    var gathered := Gather(server, height, CheckpointFor(k, network, height).value.end + 1 - height, []);
    if ChainedBefore(listed, height).None? && gathered.Ok? then gathered.value else None
  }

  /** A chain is wanted, and asking for it fails. */
  ghost predicate ReadFails(k: Consensus, network: Network, listed: Chains, height: u32, server: Server)
    requires k.Valid()
  {
    && CheckpointFor(k, network, height).Some? && ChainedBefore(listed, height).None?
    && Gather(server, height, CheckpointFor(k, network, height).value.end + 1 - height, []).Err?
  }

  /** A header with work and a sound branch for the height. */
  ghost predicate Led(k: Consensus, c: Crypto, network: Network, txid: Hash, height: u32, tip: u32, server: Server)
    requires k.Valid()
  {
    && height <= tip && server.branch.Some? && server.header.Some? && server.branch.value.height == height
    && HasWork(k, network, height, server.header.value)
    && RootOf(c, txid, server.branch.value.pos, server.branch.value.merkle).Ok?
  }

  /** When a server is charged with a false proof: for a height past those that
      may have come in since, a header without work, a branch no block has, one
      that leads elsewhere again, or a block outside the chain to its
      checkpoint; and for nothing else. */
  lemma {:induction false} ChargedExactly(k: Consensus, c: Crypto, network: Network, listed: Chains, answered: Chains,
      txid: Hash, height: u32, tip: u32, server: Server)
    requires k.Valid()
    ensures
      Decide(k, c, network, listed, answered, txid, height, tip, server) == Err(FalseProof) <==>
        || height > tip + 3
        || (&& height <= tip && server.branch.Some? && server.header.Some? && server.branch.value.height == height
            && var branch, header := server.branch.value, server.header.value;
               var root := RootOf(c, txid, branch.pos, branch.merkle);
               || !HasWork(k, network, height, header) || root == Err(Shape)
               || (root.Ok? && root.value != header.merkleRoot && server.again.Some?
                   && Misled(k, network, height, header, server.again.value, root.value))
               || (root == Ok(header.merkleRoot) && CheckpointFor(k, network, height).Some?
                   && !ReadFails(k, network, listed, height, server)
                   && Unchained(k, network, listed, answered, height, k.blockHash(header), server)))
  {
    hide HasWork, RootOf, CheckpointFor, ChainTo, Gather, ChainedBefore;
    GatherTransport(k, network, height, server);
  }

  /** And when the way there is said to have failed: no header to be had, none
      the second time the branch leads elsewhere, or no headers of a chain
      wanted. */
  lemma {:induction false} FailsExactly(k: Consensus, c: Crypto, network: Network, listed: Chains, answered: Chains,
      txid: Hash, height: u32, tip: u32, server: Server)
    requires k.Valid()
    ensures
      Decide(k, c, network, listed, answered, txid, height, tip, server) == Err(Transport) <==>
        || (height <= tip && server.branch.Some? && server.header.None?)
        || (&& Led(k, c, network, txid, height, tip, server)
            && var root := RootOf(c, txid, server.branch.value.pos, server.branch.value.merkle).value;
               if root != server.header.value.merkleRoot then server.again.None?
               else ReadFails(k, network, listed, height, server))
  {
    hide HasWork, RootOf, CheckpointFor, ChainTo, Gather, ChainedBefore;
    GatherTransport(k, network, height, server);
  }

  lemma {:induction false} GatherTransport(k: Consensus, network: Network, height: u32, server: Server)
    requires k.Valid()
    ensures
      CheckpointFor(k, network, height).Some? ==>
        var gathered := Gather(server, height, CheckpointFor(k, network, height).value.end + 1 - height, []);
        gathered.Err? ==> gathered.error == Transport
  {
    if CheckpointFor(k, network, height).Some? {
      NoParts(server, height, CheckpointFor(k, network, height).value.end + 1 - height);
      var _ := GatherParts(server, height, CheckpointFor(k, network, height).value.end + 1 - height, []);
    }
  }

  /** And when the answer is true, as each of the above is out and the block is
      in a chain to its checkpoint, if it has one. */
  lemma {:induction false} TrueExactly(k: Consensus, c: Crypto, network: Network, listed: Chains, answered: Chains,
      txid: Hash, height: u32, tip: u32, server: Server)
    requires k.Valid()
    ensures
      Decide(k, c, network, listed, answered, txid, height, tip, server) == Ok(true) <==>
        && Led(k, c, network, txid, height, tip, server)
        && var header := server.header.value;
           && RootOf(c, txid, server.branch.value.pos, server.branch.value.merkle) == Ok(header.merkleRoot)
           && (CheckpointFor(k, network, height).Some? ==>
                 && !ReadFails(k, network, listed, height, server)
                 && !Unchained(k, network, listed, answered, height, k.blockHash(header), server)
                 && (ReadFor(k, network, listed, height, server).None? ==> ChainedBefore(answered, height).Some?))
  {
    hide HasWork, RootOf, CheckpointFor, ChainTo, Gather, ChainedBefore;
  }

  // ----- a server that answers from the chain ----------------------------

  /** A chain as the network has it, block 0 first: linked, each header with
      the work of its height, and through every checkpoint it reaches. */
  ghost predicate RealChain(k: Consensus, network: Network, chain: seq<Header>)
    requires k.Valid()
  {
    && |chain| <= U32_MAX
    && Linked(k, chain)
    && (forall h: u32 :: h < |chain| ==> HasWork(k, network, h, chain[h]))
    && (forall h: u32 :: h < |chain| && CheckpointFor(k, network, h).Some? ==>
          && CheckpointFor(k, network, h).value.end < |chain|
          && k.blockHash(chain[CheckpointFor(k, network, h).value.end]) == CheckpointFor(k, network, h).value.hash)
  }

  /** A server answering from `chain` throughout: the header at the height,
      the branch of the transaction at `pos` of its block, and, asked for
      headers, some of them at least, or a refusal. */
  ghost predicate Answers(c: Crypto, chain: seq<Header>, height: u32, txids: seq<Hash>, pos: nat, server: Server)
    requires height < |chain| && pos < |txids|
  {
    && (server.header.Some? ==> server.header.value == chain[height])
    && (server.again.Some? ==> server.again.value == chain[height])
    && (server.branch.Some? ==> server.branch.value == BranchAnswer(height, pos, Branch(c, txids, pos)))
    && forall from, count :: HonestHeaders(chain, from, server.headersFrom(from, count))
  }

  ghost predicate HonestHeaders(chain: seq<Header>, from: nat, answer: HeadersAnswer) {
    answer.Headers? && from < |chain| ==>
      answer.headers != [] && from + |answer.headers| <= |chain| &&
          answer.headers == chain[from..from + |answer.headers|]
  }

  ghost predicate Forthcoming(server: Server) {
    forall from, count :: server.headersFrom(from, count).Headers?
  }

  lemma {:induction false} GatherHonest(chain: seq<Header>, server: Server, from: nat, count: nat, got: seq<Header>)
    requires from + count <= |chain| && from + |got| <= |chain| && got == chain[from..from + |got|]
    requires forall f, n :: HonestHeaders(chain, f, server.headersFrom(f, n))
    ensures match Gather(server, from, count, got)
            case Ok(Some(headers)) => headers == chain[from..from + count]
            case Ok(None) => true
            case Err(failure) => failure == Transport
    ensures Forthcoming(server) ==> Gather(server, from, count, got).Ok? && Gather(server, from, count, got).value.Some?
    decreases count - |got|
  {
    if |got| < count {
      var answer := server.headersFrom(from + |got|, count - |got|);
      assert HonestHeaders(chain, from + |got|, answer);
      if answer.Headers? {
        var more := got + answer.headers;
        assert more == chain[from..from + |more|];
        GatherHonest(chain, server, from, count, more);
      }
    } else {
      assert got[..count] == chain[from..from + count];
    }
  }

  lemma {:induction false} RealPart(k: Consensus, network: Network, chain: seq<Header>, height: u32)
    requires k.Valid() && RealChain(k, network, chain) && height < |chain| && CheckpointFor(k, network, height).Some?
    ensures ChainTo(k, network, height, chain[height..CheckpointFor(k, network, height).value.end + 1])
  {
    var end := CheckpointFor(k, network, height).value.end;
    var part := chain[height..end + 1];
    forall i | 0 <= i < |part| - 1 ensures part[i + 1].prev == k.blockHash(part[i]) {
      assert part[i + 1] == chain[height + i + 1] && part[i] == chain[height + i];
    }
  }

  lemma {:induction false} CachedHonest(k: Consensus, network: Network, chains: Chains, kept: map<nat, seq<Header>>,
      chain: seq<Header>, height: u32)
    requires k.Valid() && CacheValid(k, network, chains, kept) && RealChain(k, network, chain) && height < |chain|
    requires CheckpointFor(k, network, height).Some? && ChainedBefore(chains, height).Some?
    ensures ChainedBefore(chains, height).value == k.blockHash(chain[height])
         || HeadersCollide(k, kept[PeriodOf(height)], chain)
  {
    var part := chain[height..CheckpointFor(k, network, height).value.end + 1];
    RealPart(k, network, chain, height);
    CachedAgrees(k, network, chains, kept, height, height, part);
    if HeadersCollide(k, kept[PeriodOf(height)], part) {
      CollideInWhole(k, kept[PeriodOf(height)], part, chain);
    }
  }

  lemma {:induction false} ReadHonest(k: Consensus, network: Network, chain: seq<Header>, height: u32, server: Server)
    requires k.Valid() && RealChain(k, network, chain) && height < |chain| && CheckpointFor(k, network, height).Some?
    requires forall f, n :: HonestHeaders(chain, f, server.headersFrom(f, n))
    ensures match ReadChain(k, network, height, CheckpointFor(k, network, height).value.end + 1 - height, server)
            case Ok(Some(hashes)) => hashes[0] == k.blockHash(chain[height])
            case Ok(None) => !Forthcoming(server)
            case Err(failure) => failure == Transport && !Forthcoming(server)
  {
    RealPart(k, network, chain, height);
    GatherHonest(chain, server, height, CheckpointFor(k, network, height).value.end + 1 - height, []);
  }

  /** Chaining a block of the real chain never fails it, whatever the session
      holds at either time. */
  lemma {:induction false} ChainingHonest(k: Consensus, network: Network, listed: Chains, after: Shared,
      chain: seq<Header>, height: u32, server: Server)
    requires k.Valid() && SharedValid(k, network, after) && RealChain(k, network, chain) && height < |chain|
    requires forall f, n :: HonestHeaders(chain, f, server.headersFrom(f, n))
    ensures
      var r := Chaining(k, network, listed, after.chains, height, k.blockHash(chain[height]), server);
      || r == Ok(true)
      || (Needs(k, network, listed, height) && !Forthcoming(server) && (r == Ok(false) || r == Err(Transport)))
      || (!Needs(k, network, listed, height) && Needs(k, network, after.chains, height) && r == Ok(false))
      || (PeriodOf(height) in after.headers && HeadersCollide(k, after.headers[PeriodOf(height)], chain))
  {
    if Needs(k, network, listed, height) {
      ReadHonest(k, network, chain, height, server);
    }
    if CheckpointFor(k, network, height).Some? && ChainedBefore(after.chains, height).Some? {
      CachedHonest(k, network, after.chains, after.headers, chain, height);
    }
  }

  lemma {:induction false} CollideInWhole(k: Consensus, these: seq<Header>, part: seq<Header>, whole: seq<Header>)
    requires HeadersCollide(k, these, part) && forall h :: h in part ==> h in whole
    ensures HeadersCollide(k, these, whole)
  {
    var a, b :| a in these && b in part && a != b && k.blockHash(a) == k.blockHash(b);
    assert b in whole;
  }

  /** A server that answers throughout from one real chain is never charged
      with a false proof of a transaction of that chain; and `true` comes of
      it whenever it gives the branch and the headers asked, the height is
      no higher than the tip, no node on the way reads as a transaction, and
      the chain the session held, if it did, was not cleared meanwhile;
      unless the strings hashed by the block's tree collide, or a header the
      session read collides with one of the chain. */
  lemma {:induction false} HonestNeverCharged(k: Consensus, c: Crypto, network: Network, listed: Chains,
      after: Shared, chain: seq<Header>, txids: seq<Hash>, pos: nat, height: u32, tip: u32, server: Server)
    requires k.Valid() && SharedValid(k, network, after) && RealChain(k, network, chain)
    requires height < |chain| && height <= tip + ABOVE_THE_TIP
    requires Distinct(txids) && pos < |txids| <= Power(32) && chain[height].merkleRoot == Root(c, txids)
    requires Answers(c, chain, height, txids, pos, server)
    requires !Collide(c, RowInputs(c, txids), RowInputs(c, txids))
    requires !(PeriodOf(height) in after.headers && HeadersCollide(k, after.headers[PeriodOf(height)], chain))
    ensures Decide(k, c, network, listed, after.chains, txids[pos], height, tip, server) != Err(FalseProof)
    ensures height <= tip && server.branch.Some? && server.header.Some? && !PathReadsAsTx(c, txids, pos)
         && (if Needs(k, network, listed, height) then Forthcoming(server)
             else !Needs(k, network, after.chains, height))
         ==> Decide(k, c, network, listed, after.chains, txids[pos], height, tip, server) == Ok(true)
  {
    if server.branch.Some? && server.header.Some? {
      CheckHonest(k, c, network, chain, txids, pos, height);
      ChainingHonest(k, network, listed, after, chain, height, server);
    }
  }

  lemma {:induction false} CheckHonest(k: Consensus, c: Crypto, network: Network, chain: seq<Header>,
      txids: seq<Hash>, pos: nat, height: u32)
    requires k.Valid() && RealChain(k, network, chain) && height < |chain|
    requires Distinct(txids) && pos < |txids| <= Power(32) && chain[height].merkleRoot == Root(c, txids)
    requires !Collide(c, RowInputs(c, txids), RowInputs(c, txids))
    ensures Check(k, c, network, height, chain[height], txids[pos], BranchAnswer(height, pos, Branch(c, txids, pos)))
         == if PathReadsAsTx(c, txids, pos) then Unsure else Holds
  {
    BranchComplete(c, txids, pos);
  }

  // ----- no confirmation left undecided ----------------------------------

  lemma {:induction false} ListedServes(k: Consensus, network: Network, before: Chains, proven: seq<Block>,
      list: seq<Range>, read: map<u32, seq<Hash>>, height: u32)
    requires k.Valid() && ReadsFor(k, network, before, proven, list)
    requires forall r :: r in list ==> r.from in read && |read[r.from]| == r.count
    requires Covered(list, height) && CheckpointFor(k, network, height).Some?
    ensures !NoneServes(read, height, CheckpointFor(k, network, height).value.end)
  {
    var r :| r in list && PeriodOf(r.from) == PeriodOf(height) && r.from <= height;
    var i :| 0 <= i < |list| && list[i] == r;
    ListedRange(k, network, before, proven, r, height);
    SomeServes(read, r.from, height, CheckpointFor(k, network, height).value.end);
  }

  lemma {:induction false} SomeServes(read: map<u32, seq<Hash>>, from: u32, height: u32, end: nat)
    requires Serves(read, from, height, end)
    ensures !NoneServes(read, height, end)
  {
  }

  lemma {:induction false} ListedRange(k: Consensus, network: Network, before: Chains, proven: seq<Block>, r: Range,
      height: u32)
    requires k.Valid() && Listed(k, network, before, proven, r) && PeriodOf(r.from) == PeriodOf(height)
    ensures CheckpointFor(k, network, height).Some?
    ensures r.from + r.count == CheckpointFor(k, network, height).value.end + 1 &&
        height <= CheckpointFor(k, network, height).value.end
  {
  }

  /** A sync that has read every chain the list names, each covering its
      range, and has lost none the session held, leaves no confirmation
      unsure for want of a chain. */
  lemma {:induction false} DecidedAfterReading(k: Consensus, network: Network, before: Chains, after: Chains,
      proven: seq<Block>, list: seq<Range>, read: map<u32, seq<Hash>>, block: Block, answer: Verdict)
    requires k.Valid() && ReadsFor(k, network, before, proven, list)
    requires forall r :: r in list ==> r.from in read && |read[r.from]| == r.count
    requires forall h: u32 :: ChainedBefore(before, h).Some? ==> ChainedBefore(after, h).Some?
    requires block in proven && MayAnswer(k, network, after, read, block.height, block.hash, answer)
    ensures answer != Unsure
  {
    if Needs(k, network, before, block.height) {
      ListedServes(k, network, before, proven, list, read, block.height);
    }
  }

  /** Short of a clearing, keeping a chain loses no block the session held. */
  lemma {:induction false} KeepingLosesNothing(k: Consensus, network: Network, shared: Shared, from: u32,
      headers: seq<Header>, height: u32)
    requires k.Valid() && SharedValid(k, network, shared) && ChainTo(k, network, from, headers)
    requires |shared.chains| < CHAINED_MAX
    requires ChainedBefore(shared.chains, height).Some?
    ensures ChainedBefore(Remember(shared.chains, from, Hashes(k, headers)), height).Some?
  {
  }

  /** A chain kept, by this sync or another. */
  datatype Keep = Keep(from: u32, headers: seq<Header>)

  ghost function AllKept(k: Consensus, shared: Shared, keeps: seq<Keep>): Shared
    decreases |keeps|
  {
    if keeps == [] then shared
    else
      var Keep(from, headers) := keeps[0];
      AllKept(k, Shared(Remember(shared.chains, from, Hashes(k, headers)),
                        RememberHeaders(shared.chains, shared.headers, from, headers)), keeps[1..])
  }

  lemma {:induction false} KeptCounted(chains: Chains, from: u32, hashes: seq<Hash>)
    ensures |Remember(chains, from, hashes)| <= |chains| + 1
  {
    var period := PeriodOf(from);
    if !(period in chains && chains[period].from <= from) {
      var room := if |chains| >= CHAINED_MAX then map[] else chains;
      assert room[period := Chain(from, hashes)].Keys == room.Keys + {period};
    }
  }

  /** As many chains kept as there is room for periods lose no block, whatever
      chains they are and whoever keeps them. */
  lemma {:induction false} AllKeptLosesNothing(k: Consensus, network: Network, shared: Shared, keeps: seq<Keep>,
      height: u32)
    requires k.Valid() && SharedValid(k, network, shared)
    requires forall i :: 0 <= i < |keeps| ==> ChainTo(k, network, keeps[i].from, keeps[i].headers)
    requires |shared.chains| + |keeps| <= CHAINED_MAX
    ensures SharedValid(k, network, AllKept(k, shared, keeps))
    ensures ChainedBefore(shared.chains, height).Some? ==> ChainedBefore(AllKept(k, shared, keeps).chains, height).Some?
    decreases |keeps|
  {
    if keeps != [] {
      hide CacheValid, ChainTo, ChainedBefore;
      var Keep(from, headers) := keeps[0];
      var next := Shared(Remember(shared.chains, from, Hashes(k, headers)),
                         RememberHeaders(shared.chains, shared.headers, from, headers));
      RememberValid(k, network, shared.chains, shared.headers, from, headers);
      KeptCounted(shared.chains, from, Hashes(k, headers));
      if ChainedBefore(shared.chains, height).Some? {
        KeepingLosesNothing(k, network, shared, from, headers, height);
      }
      assert forall i :: 0 <= i < |keeps[1..]| ==> keeps[1..][i] == keeps[i + 1];
      AllKeptLosesNothing(k, network, next, keeps[1..], height);
    }
  }

  /** So a sync that read all the list names leaves no block unsure whenever the
      periods the session held, and the chains it and others kept meanwhile,
      are no more than the cache has room for. */
  lemma {:induction false} DecidedByCount(k: Consensus, network: Network, before: Shared, keeps: seq<Keep>,
      proven: seq<Block>, list: seq<Range>, read: map<u32, seq<Hash>>, block: Block, answer: Verdict)
    requires k.Valid() && SharedValid(k, network, before) && ReadsFor(k, network, before.chains, proven, list)
    requires forall r :: r in list ==> r.from in read && |read[r.from]| == r.count
    requires forall i :: 0 <= i < |keeps| ==> ChainTo(k, network, keeps[i].from, keeps[i].headers)
    requires |before.chains| + |keeps| <= CHAINED_MAX
    requires block in proven
    requires MayAnswer(k, network, AllKept(k, before, keeps).chains, read, block.height, block.hash, answer)
    ensures answer != Unsure
  {
    hide ReadsFor, MayAnswer, CacheValid, ChainTo, ChainedBefore, AllKept;
    var after := AllKept(k, before, keeps).chains;
    forall h: u32 | ChainedBefore(before.chains, h).Some? ensures ChainedBefore(after, h).Some? {
      AllKeptLosesNothing(k, network, before, keeps, h);
    }
    DecidedAfterReading(k, network, before.chains, after, proven, list, read, block, answer);
  }
}
