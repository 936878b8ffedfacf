/** What proves that a transaction confirmed (src/chain/proof.rs): a header
    with the work of its height, a merkle branch to its root, and, where
    work is cheap, a chain of headers up to a checkpoint. The session's cache
    of those chains, and the one call that takes a confirmation from a
    server end to end (src/chain/electrum.rs).

    The block hash, the compact encoding of targets and the tables of the
    network are arbitrary. */
module Proof {
  import opened Wrappers
  import opened Merkle

  datatype Network = Mainnet | Testnet4 | Signet | Regtest

  datatype Header = Header(version: u32, prev: Hash, merkleRoot: Hash, time: u32, bits: u32, nonce: u32)

  /** The foreign functions and the tables: the hash of a header, the target
      its compact bits stand for, the number a hash is compared as, the
      difficulty of a target, the easiest target of a network, and for each
      retarget period of mainnet its bits and the hash of its last block. */
  datatype Consensus = Consensus(
    blockHash: Header -> Hash,
    target: u32 -> nat,
    number: Hash -> nat,
    difficulty: nat -> nat,
    limit: Network -> nat,
    bits: seq<u32>,
    ends: seq<Hash>)
  {
    /** What is taken of the tables: one target at least, none easier than the
        network's easiest, no end without its target, and no more periods than
        heights fit. */
    ghost predicate Valid() {
      && |bits| > 0
      && |ends| <= |bits|
      && |bits| * 2016 <= U32_MAX
      && forall i :: 0 <= i < |bits| ==> target(bits[i]) <= limit(Mainnet)
    }
  }

  const PAST_THE_TABLE: nat := 2
  const ABOVE_THE_TIP: nat := 3
  const CHAIN_BELOW_DIFFICULTY: nat := 400_000_000_000_000
  const CHAINED_MAX: nat := 64

  /** A target holds for 2,016 blocks: the period of a height, and the
      height of its last block. */
  function PeriodOf(height: nat): nat { height / 2016 }

  function EndOf(period: nat): nat { period * 2016 + 2015 }

  /** What a branch and a header make of a confirmation. */
  datatype Verdict = Holds | False | Unsure | Elsewhere

  /** A server's answer about a branch: the height it speaks of, the
      position and the hashes. */
  datatype BranchAnswer = BranchAnswer(height: nat, pos: nat, merkle: seq<Hash>)

  /** The last block of a period; a block proven at a height; so many
      headers from a height. */
  datatype Checkpoint = Checkpoint(end: nat, hash: Hash)
  datatype Block = Block(height: u32, hash: Hash)
  datatype Range = Range(from: u32, count: nat)

  // ----- work ------------------------------------------------------------

  function Quadrupled(target: nat, times: nat): nat {
    if times == 0 then target else 4 * Quadrupled(target, times - 1)
  }

  /** The easiest target a mainnet header of `period` may carry: the table's,
      and past it the last one, four times easier a period, twice at most,
      and never easier than the network's. */
  function EasiestOf(k: Consensus, period: nat): nat
    requires k.Valid()
  {
    var last := |k.bits| - 1;
    if period <= last then k.target(k.bits[period])
    else Min(Quadrupled(k.target(k.bits[last]), Min(period - last, PAST_THE_TABLE)), k.limit(Mainnet))
  }

  function Easiest(k: Consensus, network: Network, height: u32): Option<nat>
    requires k.Valid()
  {
    match network
    case Mainnet => Some(EasiestOf(k, PeriodOf(height)))
    case Testnet4 => Some(k.limit(Testnet4))
    case _ => None
  }

  /** `easiest_target`: the loop of the source. */
  method EasiestTarget(k: Consensus, network: Network, height: u32) returns (r: Option<nat>)
    requires k.Valid()
    ensures r == Easiest(k, network, height)
    ensures network == Mainnet ==>
              var period, last := height / 2016, k.target(k.bits[|k.bits| - 1]);
              r == Some(if period < |k.bits| then k.target(k.bits[period])
                        else if period == |k.bits| then Min(4 * last, k.limit(Mainnet))
                        else Min(16 * last, k.limit(Mainnet)))
    ensures network == Testnet4 ==> r == Some(k.limit(Testnet4))
    ensures network in {Signet, Regtest} ==> r == None
  {
    EasiestIs(k, height);
    match network
    case Mainnet =>
      var period := PeriodOf(height);
      var last := |k.bits| - 1;
      var easiest := k.target(k.bits[Min(period, last)]);
      ghost var start := easiest;
      assert start <= k.limit(Mainnet);
      ghost var bound := Max(last, Min(period, last + PAST_THE_TABLE));
      var i := last;
      while i < Min(period, last + PAST_THE_TABLE)
        invariant last <= i <= bound
        invariant easiest == Min(Quadrupled(start, i - last), k.limit(Mainnet))
      {
        var looser := Min(4 * easiest, k.limit(Mainnet));
        if looser == easiest {
          QuadrupledStays(start, k.limit(Mainnet), i - last, bound - last);
          break;
        }
        easiest := looser;
        i := i + 1;
      }
      assert easiest == Min(Quadrupled(start, bound - last), k.limit(Mainnet));
      return Some(easiest);
    case Testnet4 =>
      return Some(k.limit(Testnet4));
    case Signet => return None;
    case Regtest => return None;
  }

  lemma {:induction false} QuadrupledStays(target: nat, limit: nat, i: nat, j: nat)
    requires i <= j
    requires Min(4 * Min(Quadrupled(target, i), limit), limit) == Min(Quadrupled(target, i), limit)
    ensures Min(Quadrupled(target, j), limit) == Min(Quadrupled(target, i), limit)
    decreases j
  {
    if i < j {
      QuadrupledStays(target, limit, i, j - 1);
    }
  }

  /** The target of each period on mainnet. */
  lemma {:induction false} EasiestIs(k: Consensus, height: u32)
    requires k.Valid()
    ensures
      var period, last := height / 2016, k.target(k.bits[|k.bits| - 1]);
      Easiest(k, Mainnet, height) == Some(if period < |k.bits| then k.target(k.bits[period])
                                          else if period == |k.bits| then Min(4 * last, k.limit(Mainnet))
                                          else Min(16 * last, k.limit(Mainnet)))
  {
    var last := k.target(k.bits[|k.bits| - 1]);
    assert Quadrupled(last, 1) == 4 * Quadrupled(last, 0);
    assert Quadrupled(last, 2) == 16 * last;
  }

  /** Past the table, whatever height a server claims, a header costs a
      sixteenth of the last period's work at least. */
  lemma {:induction false} SixteenTimesAtMost(k: Consensus, height: u32)
    requires k.Valid()
    ensures PeriodOf(height) >= |k.bits|
        ==> Easiest(k, Mainnet, height).value <= 16 * k.target(k.bits[|k.bits| - 1])
    ensures Easiest(k, Mainnet, height).value <= k.limit(Mainnet)
  {
    EasiestIs(k, height);
  }

  predicate HasWork(k: Consensus, network: Network, height: u32, header: Header)
    requires k.Valid()
  {
    match Easiest(k, network, height)
    case None => true
    case Some(easiest) => k.target(header.bits) <= easiest && k.number(k.blockHash(header)) <= k.target(header.bits)
  }

  /** A header does the work of a height exactly if its hash is within its own
      target, and that within the easiest there, where work proves anything. */
  lemma {:induction false} WorkIs(k: Consensus, network: Network, height: u32, header: Header)
    requires k.Valid()
    ensures
      var period, target := height / 2016, k.target(header.bits);
      var last := k.target(k.bits[|k.bits| - 1]);
      HasWork(k, network, height, header) <==>
        match network
        case Mainnet =>
          && k.number(k.blockHash(header)) <= target
          && target <= (if period < |k.bits| then k.target(k.bits[period])
                        else Min(if period == |k.bits| then 4 * last else 16 * last, k.limit(Mainnet)))
        case Testnet4 => k.number(k.blockHash(header)) <= target <= k.limit(Testnet4)
        case _ => true
  {
    hide EasiestOf;
    EasiestIs(k, height);
  }

  // ----- one confirmation ------------------------------------------------

  function Check(k: Consensus, c: Crypto, network: Network, height: u32, header: Header, txid: Hash,
      branch: BranchAnswer): Verdict
    requires k.Valid()
  {
    if branch.height != height then Unsure
    else if !HasWork(k, network, height, header) then False
    else match RootOf(c, txid, branch.pos, branch.merkle)
      case Ok(root) => if root == header.merkleRoot then Holds else Elsewhere
      case Err(Transaction) => Unsure
      case Err(Shape) => False
  }

  /** What a height is worth against the tip, the addition saturating. */
  function AboveTheTip(height: u32, tip: u32): Option<Verdict> {
    if height > Min(tip + ABOVE_THE_TIP, U32_MAX) then Some(False)
    else if height > tip then Some(Unsure)
    else None
  }

  function Recheck(k: Consensus, c: Crypto, network: Network, height: u32, first: Header, again: Header, txid: Hash,
      branch: BranchAnswer): Verdict
    requires k.Valid()
  {
    if k.blockHash(again) != k.blockHash(first) && Check(k, c, network, height, again, txid, branch) == Holds
    then Unsure else False
  }

  // ----- chains to a checkpoint ------------------------------------------

  /** The checkpoint a confirmation must chain to: the height and hash of
      the last block of its period. */
  function CheckpointFor(k: Consensus, network: Network, height: u32): Option<Checkpoint>
    requires k.Valid()
  {
    var period := PeriodOf(height);
    if network == Mainnet && period < |k.ends| && k.difficulty(k.target(k.bits[period])) < CHAIN_BELOW_DIFFICULTY
    then Some(Checkpoint(EndOf(period), k.ends[period]))
    else None
  }

  /** The checkpoint of a height is the last block of the 2,016 it is in, on
      mainnet, if the tables end there or later and its work is cheap. */
  lemma {:induction false} CheckpointIs(k: Consensus, network: Network, height: u32, end: nat, hash: Hash)
    requires k.Valid()
    ensures CheckpointFor(k, network, height) == Some(Checkpoint(end, hash)) <==>
              && network == Mainnet && height <= end < height + 2016 && (end + 1) % 2016 == 0
              && var ended := (end + 1) / 2016;
                 && ended <= |k.ends| && hash == k.ends[ended - 1]
                 && k.difficulty(k.target(k.bits[ended - 1])) < 400_000_000_000_000
  {
    if height <= end < height + 2016 && (end + 1) % 2016 == 0 {
      assert (end + 1) / 2016 == height / 2016 + 1;
    }
  }

  function Hashes(k: Consensus, headers: seq<Header>): seq<Hash> {
    seq<Hash>(|headers|, i requires 0 <= i < |headers| => k.blockHash(headers[i]))
  }

  predicate Linked(k: Consensus, headers: seq<Header>) {
    forall i :: 0 <= i < |headers| - 1 ==> headers[i + 1].prev == k.blockHash(headers[i])
  }

  /** Headers from `from` to the end of its period, each the parent of the
      next, the last one the checkpoint. */
  predicate ChainTo(k: Consensus, network: Network, from: u32, headers: seq<Header>)
    requires k.Valid()
  {
    match CheckpointFor(k, network, from)
    case None => false
    case Some(Checkpoint(end, endHash)) =>
      && |headers| == end - from + 1
      && Linked(k, headers)
      && k.blockHash(headers[|headers| - 1]) == endHash
  }

  /** Two different headers, one of each chain, with the same hash. */
  ghost predicate HeadersCollide(k: Consensus, these: seq<Header>, those: seq<Header>) {
    exists a, b :: a in these && b in those && a != b && k.blockHash(a) == k.blockHash(b)
  }

  /** Any two chains to the checkpoint of a period hold the same blocks
      where they overlap, or two of their headers collide. */
  lemma {:induction false} ChainsAgree(k: Consensus, network: Network, from: u32, headers: seq<Header>, from': u32,
      headers': seq<Header>, height: u32)
    requires k.Valid()
    requires ChainTo(k, network, from, headers) && ChainTo(k, network, from', headers')
    requires PeriodOf(from) == PeriodOf(from') == PeriodOf(height)
    requires from <= height && from' <= height
    ensures k.blockHash(headers[height - from]) == k.blockHash(headers'[height - from']) ||
        HeadersCollide(k, headers, headers')
    decreases CheckpointFor(k, network, from).value.end - height
  {
    var end := CheckpointFor(k, network, from).value.end;
    if height < end {
      ChainsAgree(k, network, from, headers, from', headers', height + 1);
      var a, b := headers[height + 1 - from], headers'[height + 1 - from'];
      assert a in headers && b in headers';
    }
  }

  // ----- the session's cache ---------------------------------------------

  /** Chains to the checkpoints by period: the height each starts at, and
      its hashes. */
  datatype Chain = Chain(from: u32, hashes: seq<Hash>)

  type Chains = map<nat, Chain>

  function ChainedBefore(chains: Chains, height: u32): Option<Hash> {
    var period := PeriodOf(height);
    if period in chains && chains[period].from <= height && height - chains[period].from < |chains[period].hashes|
    then Some(chains[period].hashes[height - chains[period].from])
    else None
  }

  function Remember(chains: Chains, from: u32, hashes: seq<Hash>): Chains {
    var period := PeriodOf(from);
    if period in chains && chains[period].from <= from then chains
    else (if |chains| >= CHAINED_MAX then map[] else chains)[period := Chain(from, hashes)]
  }

  /** Every chain kept was read from these headers, hash-linked up to the
      checkpoint of its period. */
  ghost predicate CacheValid(k: Consensus, network: Network, chains: Chains, kept: map<nat, seq<Header>>)
    requires k.Valid()
  {
    forall p <- chains ::
      && p in kept
      && PeriodOf(chains[p].from) == p
      && ChainTo(k, network, chains[p].from, kept[p])
      && chains[p].hashes == Hashes(k, kept[p])
  }

  ghost function RememberHeaders(chains: Chains, kept: map<nat, seq<Header>>, from: u32,
      headers: seq<Header>): map<nat, seq<Header>> {
    var period := PeriodOf(from);
    if period in chains && chains[period].from <= from then kept
    else (if |chains| >= CHAINED_MAX then map[] else kept)[period := headers]
  }

  /** What a chain leaves in the cache is valid again, and no more periods
      than the most are kept. */
  lemma {:induction false} RememberValid(k: Consensus, network: Network, chains: Chains, kept: map<nat, seq<Header>>,
      from: u32, headers: seq<Header>)
    requires k.Valid() && CacheValid(k, network, chains, kept)
    requires ChainTo(k, network, from, headers)
    ensures CacheValid(k, network, Remember(chains, from, Hashes(k, headers)),
        RememberHeaders(chains, kept, from, headers))
  {
  }

  lemma {:induction false} RememberBounded(chains: Chains, from: u32, hashes: seq<Hash>)
    ensures |chains| <= CHAINED_MAX ==> |Remember(chains, from, hashes)| <= CHAINED_MAX
  {
    var period := PeriodOf(from);
    if !(period in chains && chains[period].from <= from) && |chains| < CHAINED_MAX {
      assert Remember(chains, from, hashes).Keys == chains.Keys + {period};
    }
  }

  /** What the cache holds once a chain was kept: of its period the chain that
      starts lowest, and of the others what it held, unless it was full. */
  lemma {:induction false} KeptIsFound(chains: Chains, from: u32, hashes: seq<Hash>, height: u32)
    ensures
      var after := ChainedBefore(Remember(chains, from, hashes), height);
      var period := from / 2016;
      if period in chains && chains[period].from <= from then after == ChainedBefore(chains, height)
      else if height / 2016 != period then
        after == if |chains| < 64 then ChainedBefore(chains, height) else None
      else if from <= height < from + |hashes| then after == Some(hashes[height - from])
      else after == None
  {
  }

  // ----- what chaining answers -------------------------------------------

  /** Whether the chain read from `from` holds a block for `height`. */
  predicate Serves(read: map<u32, seq<Hash>>, from: u32, height: u32, end: nat) {
    from in read && from <= height && from + |read[from]| - 1 == end && height <= end
  }

  function Judge(block: Option<Hash>, hash: Hash): Verdict {
    match block
    case None => Unsure
    case Some(found) => if found == hash then Holds else False
  }

  predicate AnsweredBy(read: map<u32, seq<Hash>>, from: u32, height: u32, end: nat, hash: Hash, answer: Verdict) {
    Serves(read, from, height, end) && answer == Judge(Some(read[from][height - from]), hash)
  }

  ghost predicate NoneServes(read: map<u32, seq<Hash>>, height: u32, end: nat) {
    forall from :: !Serves(read, from, height, end)
  }

  /** The answers `chained` may give: a hash map is searched in no order, so
      any chain read in this sync that serves the height may be the one
      asked, and the session's only when none does. */
  ghost predicate MayAnswer(k: Consensus, network: Network, chains: Chains, read: map<u32, seq<Hash>>, height: u32,
      hash: Hash, answer: Verdict)
    requires k.Valid()
  {
    match CheckpointFor(k, network, height)
    case None => answer == Holds
    case Some(Checkpoint(end, _)) =>
      || (exists from :: AnsweredBy(read, from, height, end, hash, answer))
      || (NoneServes(read, height, end) && answer == Judge(ChainedBefore(chains, height), hash))
  }

  /** What a sync read, kept beside the headers it was read from. */
  ghost predicate ReadValid(k: Consensus, network: Network, read: map<u32, seq<Hash>>, headers: map<u32, seq<Header>>)
    requires k.Valid()
  {
    forall from <- read :: from in headers && ChainTo(k, network, from, headers[from]) &&
        read[from] == Hashes(k, headers[from])
  }

  /** A collision between a header any chain held or read was made of and
      one of `actual`. */
  ghost predicate Forged(k: Consensus, kept: map<nat, seq<Header>>, headers: map<u32, seq<Header>>,
      actual: seq<Header>) {
    || (exists p :: p in kept && HeadersCollide(k, kept[p], actual))
    || (exists from :: from in headers && HeadersCollide(k, headers[from], actual))
  }

  /** A chain that ends where the period of `height` ends is one of that
      period, and what it holds at `height` is what any other holds there. */
  lemma {:induction false} HeldAgrees(k: Consensus, network: Network, from: u32, headers: seq<Header>, from': u32,
      headers': seq<Header>, height: u32)
    requires k.Valid() && ChainTo(k, network, from, headers) && ChainTo(k, network, from', headers')
    requires CheckpointFor(k, network, height).Some?
    requires from <= height && from + |headers| - 1 == CheckpointFor(k, network, height).value.end
    requires from' <= height && PeriodOf(from') == PeriodOf(height)
    ensures Hashes(k, headers)[height - from] == k.blockHash(headers'[height - from']) ||
        HeadersCollide(k, headers, headers')
  {
    ChainsAgree(k, network, from, headers, from', headers', height);
  }

  lemma {:induction false} CachedAgrees(k: Consensus, network: Network, chains: Chains, kept: map<nat, seq<Header>>,
      height: u32, from: u32, actual: seq<Header>)
    requires k.Valid() && CacheValid(k, network, chains, kept)
    requires ChainTo(k, network, from, actual) && from <= height && PeriodOf(from) == PeriodOf(height)
    requires ChainedBefore(chains, height).Some?
    ensures ChainedBefore(chains, height).value == k.blockHash(actual[height - from])
         || HeadersCollide(k, kept[PeriodOf(height)], actual)
  {
    var period := PeriodOf(height);
    HeldAgrees(k, network, chains[period].from, kept[period], from, actual, height);
  }

  lemma {:induction false} ServedAgrees(k: Consensus, network: Network, read: map<u32, seq<Hash>>,
      headers: map<u32, seq<Header>>, from': u32, height: u32, from: u32, actual: seq<Header>)
    requires k.Valid() && ReadValid(k, network, read, headers)
    requires ChainTo(k, network, from, actual) && from <= height && PeriodOf(from) == PeriodOf(height)
    requires Serves(read, from', height, CheckpointFor(k, network, height).value.end)
    ensures read[from'][height - from'] == k.blockHash(actual[height - from]) ||
        HeadersCollide(k, headers[from'], actual)
  {
    HeldAgrees(k, network, from', headers[from'], from, actual, height);
  }

  ghost predicate ReadsCollide(k: Consensus, headers: map<u32, seq<Header>>) {
    exists a, b :: a in headers && b in headers && HeadersCollide(k, headers[a], headers[b])
  }

  lemma {:induction false} BothServe(k: Consensus, network: Network, read: map<u32, seq<Hash>>,
      headers: map<u32, seq<Header>>, a: u32, b: u32, height: u32)
    requires k.Valid() && ReadValid(k, network, read, headers)
    requires CheckpointFor(k, network, height).Some?
    requires Serves(read, a, height, CheckpointFor(k, network, height).value.end)
    requires Serves(read, b, height, CheckpointFor(k, network, height).value.end)
    ensures read[a][height - a] == read[b][height - b] || ReadsCollide(k, headers)
  {
    HeldAgrees(k, network, a, headers[a], b, headers[b], height);
  }

  /** The cache and what a sync read agree with direct verification: against
      any chain of headers `actual` that ends at the checkpoint, the answer
      is what that chain says, or `Unsure`; whichever chain the hash map
      gave, and unless two headers collide. */
  lemma {:induction false} AnswerIsReal(k: Consensus, network: Network, chains: Chains, kept: map<nat, seq<Header>>,
      read: map<u32, seq<Hash>>, headers: map<u32, seq<Header>>,
      height: u32, hash: Hash, answer: Verdict, from: u32, actual: seq<Header>)
    requires k.Valid() && CacheValid(k, network, chains, kept) && ReadValid(k, network, read, headers)
    requires ChainTo(k, network, from, actual) && from <= height && PeriodOf(from) == PeriodOf(height)
    requires MayAnswer(k, network, chains, read, height, hash, answer)
    ensures answer == Unsure
         || answer == (if hash == k.blockHash(actual[height - from]) then Holds else False)
         || Forged(k, kept, headers, actual)
  {
    var end := CheckpointFor(k, network, height).value.end;
    if exists from' :: AnsweredBy(read, from', height, end, hash, answer) {
      var from': u32 :| AnsweredBy(read, from', height, end, hash, answer);
      ServedAgrees(k, network, read, headers, from', height, from, actual);
    } else if ChainedBefore(chains, height).Some? {
      CachedAgrees(k, network, chains, kept, height, from, actual);
    }
  }

  /** No order of the hash map changes the answer, unless two of the headers
      read in this sync collide. */
  lemma {:induction false} OrderIndependent(k: Consensus, network: Network, chains: Chains,
      read: map<u32, seq<Hash>>, headers: map<u32, seq<Header>>,
      height: u32, hash: Hash, answer: Verdict, answer': Verdict)
    requires k.Valid() && ReadValid(k, network, read, headers)
    requires MayAnswer(k, network, chains, read, height, hash, answer)
    requires MayAnswer(k, network, chains, read, height, hash, answer')
    ensures answer == answer' || ReadsCollide(k, headers)
  {
    if CheckpointFor(k, network, height).Some? {
      var end := CheckpointFor(k, network, height).value.end;
      if !NoneServes(read, height, end) {
        var a: u32 :| AnsweredBy(read, a, height, end, hash, answer);
        var b: u32 :| AnsweredBy(read, b, height, end, hash, answer');
        BothServe(k, network, read, headers, a, b, height);
      }
    }
  }

  /** A chain of headers this session holds, or read in this sync. */
  ghost predicate Held(kept: map<nat, seq<Header>>, headers: map<u32, seq<Header>>, chain: seq<Header>) {
    || (exists p :: p in kept && kept[p] == chain)
    || (exists from :: from in headers && headers[from] == chain)
  }

  /** An answer other than `Unsure` is what a chain held says. */
  lemma {:induction false} AnswerOfChain(k: Consensus, network: Network, chains: Chains, kept: map<nat, seq<Header>>,
      read: map<u32, seq<Hash>>, headers: map<u32, seq<Header>>, height: u32, hash: Hash, answer: Verdict)
    returns (from: u32, chain: seq<Header>)
    requires k.Valid() && CacheValid(k, network, chains, kept) && ReadValid(k, network, read, headers)
    requires CheckpointFor(k, network, height).Some? && answer != Unsure
    requires MayAnswer(k, network, chains, read, height, hash, answer)
    ensures ChainTo(k, network, from, chain) && from <= height && PeriodOf(from) == PeriodOf(height)
    ensures Held(kept, headers, chain)
    ensures answer == Judge(Some(k.blockHash(chain[height - from])), hash)
  {
    var end := CheckpointFor(k, network, height).value.end;
    if exists from :: AnsweredBy(read, from, height, end, hash, answer) {
      from :| AnsweredBy(read, from, height, end, hash, answer);
      chain := headers[from];
    } else {
      from, chain := CachedChain(k, network, chains, kept, height);
    }
  }

  lemma {:induction false} CachedChain(k: Consensus, network: Network, chains: Chains, kept: map<nat, seq<Header>>,
      height: u32) returns (from: u32, chain: seq<Header>)
    requires k.Valid() && CacheValid(k, network, chains, kept) && ChainedBefore(chains, height).Some?
    ensures ChainTo(k, network, from, chain) && from <= height && PeriodOf(from) == PeriodOf(height)
    ensures PeriodOf(height) in kept && kept[PeriodOf(height)] == chain
    ensures height - from < |chain| && ChainedBefore(chains, height).value == k.blockHash(chain[height - from])
  {
    from, chain := chains[PeriodOf(height)].from, kept[PeriodOf(height)];
  }

  /** Two answers to one question, of sessions that read what they read from
      whatever servers, in whatever order, and kept or forgot whatever the
      cache had room for, never contradict each other: they are the same, or
      one is `Unsure`, or two headers held collide. So forgetting chains
      only ever turns an answer into `Unsure`. */
  lemma {:induction false} AnswersNeverConflict(k: Consensus, network: Network,
      chains: Chains, kept: map<nat, seq<Header>>, read: map<u32, seq<Hash>>, headers: map<u32, seq<Header>>,
      chains': Chains, kept': map<nat, seq<Header>>, read': map<u32, seq<Hash>>, headers': map<u32, seq<Header>>,
      height: u32, hash: Hash, answer: Verdict, answer': Verdict)
    requires k.Valid()
    requires CacheValid(k, network, chains, kept) && ReadValid(k, network, read, headers)
    requires CacheValid(k, network, chains', kept') && ReadValid(k, network, read', headers')
    requires MayAnswer(k, network, chains, read, height, hash, answer)
    requires MayAnswer(k, network, chains', read', height, hash, answer')
    ensures answer == answer' || answer == Unsure || answer' == Unsure
         || exists a, b :: Held(kept, headers, a) && Held(kept', headers', b) && HeadersCollide(k, a, b)
  {
    if CheckpointFor(k, network, height).Some? && answer != Unsure && answer' != Unsure {
      var from, chain := AnswerOfChain(k, network, chains, kept, read, headers, height, hash, answer);
      var from', chain' := AnswerOfChain(k, network, chains', kept', read', headers', height, hash, answer');
      ChainsAgree(k, network, from, chain, from', chain', height);
    }
  }

  // ----- what is left to read --------------------------------------------

  /** Whether a confirmation at `height` needs a chain this session has not
      read. */
  predicate Needs(k: Consensus, network: Network, chains: Chains, height: u32)
    requires k.Valid()
  {
    CheckpointFor(k, network, height).Some? && ChainedBefore(chains, height).None?
  }

  /** The reads a sync is to make: one at most per period, in order, each
      from the lowest height that needs it to the end of the period. */
  ghost predicate ReadsFor(k: Consensus, network: Network, chains: Chains, proven: seq<Block>, list: seq<Range>)
    requires k.Valid()
  {
    && InOrder(list)
    && (forall i :: 0 <= i < |list| ==> Listed(k, network, chains, proven, list[i]))
    && (forall p :: p in proven && Needs(k, network, chains, p.height) ==> Covered(list, p.height))
  }

  ghost predicate InOrder(list: seq<Range>) {
    forall i, j :: 0 <= i < j < |list| ==> PeriodOf(list[i].from) < PeriodOf(list[j].from)
  }

  ghost predicate Listed(k: Consensus, network: Network, chains: Chains, proven: seq<Block>, read: Range)
    requires k.Valid()
  {
    && (exists p :: p in proven && p.height == read.from)
    && Needs(k, network, chains, read.from)
    && read.from + read.count == CheckpointFor(k, network, read.from).value.end + 1
  }

  ghost predicate Covered(list: seq<Range>, height: u32) {
    exists r :: r in list && PeriodOf(r.from) == PeriodOf(height) && r.from <= height
  }

  lemma {:induction false} PeriodsApart(k: Consensus, network: Network, chains: Chains, proven: seq<Block>,
      lowest: map<nat, u32>)
    requires k.Valid() && LowestOf(k, network, chains, proven, lowest)
    ensures forall end <- lowest :: end == EndOf(PeriodOf(lowest[end])) && lowest[end] <= end
    ensures forall end, end' :: end in lowest && end' in lowest && end != end' ==> lowest[end] != lowest[end']
  {
  }

  lemma {:induction false} ListedReads(k: Consensus, network: Network, chains: Chains, proven: seq<Block>,
      lowest: map<nat, u32>, list: seq<Range>)
    requires k.Valid() && LowestOf(k, network, chains, proven, lowest)
    requires forall end <- lowest :: end == EndOf(PeriodOf(lowest[end])) && lowest[end] <= end
    requires Sorted(list)
    requires forall r :: r in list <==> exists end :: end in lowest && r == ReadOf(lowest, end)
    ensures ReadsFor(k, network, chains, proven, list)
  {
    forall i, j | 0 <= i < j < |list| ensures PeriodOf(list[i].from) < PeriodOf(list[j].from) {
      assert list[i] in list && list[j] in list;
    }
    forall i | 0 <= i < |list| ensures Listed(k, network, chains, proven, list[i]) {
      assert list[i] in list;
      var end :| end in lowest && list[i] == ReadOf(lowest, end);
    }
    forall p | p in proven && Needs(k, network, chains, p.height) ensures Covered(list, p.height) {
      var end := CheckpointFor(k, network, p.height).value.end;
      assert ReadOf(lowest, end) in list;
    }
  }

  lemma {:induction false} LowestStep(k: Consensus, network: Network, chains: Chains, proven: seq<Block>,
      next: Block, lowest: map<nat, u32>)
    requires k.Valid() && LowestOf(k, network, chains, proven, lowest)
    ensures !Needs(k, network, chains, next.height) ==> LowestOf(k, network, chains, proven + [next], lowest)
    ensures Needs(k, network, chains, next.height) ==>
              var end := CheckpointFor(k, network, next.height).value.end;
              LowestOf(k, network, chains, proven + [next],
                       lowest[end := if end in lowest then Min(lowest[end], next.height) else next.height])
  {
    var all := proven + [next];
    assert next in all;
    assert forall p :: p in all <==> p in proven || p == next;
  }

  /** `chains_to_read`: the lowest height by the end of its period, then the
      sorted list of them. */
  method ChainsToRead(k: Consensus, network: Network, chains: Chains, proven: seq<Block>) returns (list: seq<Range>)
    requires k.Valid()
    ensures ReadsFor(k, network, chains, proven, list)
  {
    var lowest: map<nat, u32> := map[];
    for i := 0 to |proven|
      invariant LowestOf(k, network, chains, proven[..i], lowest)
    {
      var height := proven[i].height;
      assert proven[..i + 1] == proven[..i] + [proven[i]];
      LowestStep(k, network, chains, proven[..i], proven[i], lowest);
      match CheckpointFor(k, network, height)
      case None =>
      case Some(Checkpoint(end, _)) =>
        if ChainedBefore(chains, height).None? {
          lowest := lowest[end := if end in lowest then Min(lowest[end], height) else height];
        }
    }
    assert proven[..|proven|] == proven;
    PeriodsApart(k, network, chains, proven, lowest);
    list := SortedReads(lowest);
    ListedReads(k, network, chains, proven, lowest, list);
  }

  ghost predicate LowestOf(k: Consensus, network: Network, chains: Chains, proven: seq<Block>, lowest: map<nat, u32>)
    requires k.Valid()
  {
    && (forall end <- lowest ::
          && Needs(k, network, chains, lowest[end])
          && CheckpointFor(k, network, lowest[end]).value.end == end
          && exists p :: p in proven && p.height == lowest[end])
    && (forall p :: p in proven && Needs(k, network, chains, p.height) ==>
          var end := CheckpointFor(k, network, p.height).value.end;
          end in lowest && lowest[end] <= p.height)
  }

  /** The read the map asks for the period that ends at `end`. */
  function ReadOf(lowest: map<nat, u32>, end: nat): Range
    requires end in lowest && lowest[end] <= end
  {
    Range(lowest[end], end + 1 - lowest[end])
  }

  predicate Sorted(list: seq<Range>) {
    forall i, j :: 0 <= i < j < |list| ==> list[i].from < list[j].from
  }

  function Insert(list: seq<Range>, read: Range): (r: seq<Range>)
    ensures forall x :: x in r <==> x in list || x == read
  {
    if list == [] || read.from < list[0].from then [read] + list
    else [list[0]] + Insert(list[1..], read)
  }

  lemma {:induction false} InsertSorted(list: seq<Range>, read: Range)
    requires Sorted(list) && forall x :: x in list ==> x.from != read.from
    ensures Sorted(Insert(list, read))
  {
    if list != [] && list[0].from < read.from {
      var rest := Insert(list[1..], read);
      InsertSorted(list[1..], read);
      forall j | 0 <= j < |rest| ensures list[0].from < rest[j].from {
        assert rest[j] in list[1..] || rest[j] == read;
      }
    }
  }

  /** The values of the map, sorted, with the count of headers of each. */
  method SortedReads(lowest: map<nat, u32>) returns (list: seq<Range>)
    requires forall end <- lowest :: lowest[end] <= end
    requires forall end, end' :: end in lowest && end' in lowest && end != end' ==> lowest[end] != lowest[end']
    ensures Sorted(list)
    ensures forall r :: r in list <==> exists end :: end in lowest && r == ReadOf(lowest, end)
  {
    list := [];
    var left := lowest.Keys;
    while left != {}
      invariant left <= lowest.Keys
      invariant Sorted(list)
      invariant forall r :: r in list <==> exists end :: end in lowest.Keys - left && r == ReadOf(lowest, end)
      decreases left
    {
      var end :| end in left;
      InsertSorted(list, ReadOf(lowest, end));
      list := Insert(list, ReadOf(lowest, end));
      left := left - {end};
    }
  }
}
