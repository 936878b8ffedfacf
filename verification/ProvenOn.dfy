/** Taking a confirmation from an Electrum server, end to end
    (src/chain/electrum.rs, `proven_on`), against the session's cache of
    chains, which it reads and adds to, as other syncs do meanwhile: between
    two uses of it the cache may have become any that is valid.

    What the server answers is arbitrary: an answer of its own to each
    question the call asks. Within one call no question is asked twice, the
    header but for its second reading, so functions of the question cover
    every sequence of answers. */
module ProvenOn {
  import opened Wrappers
  import opened Merkle
  import opened Proof

  /** How a call fails: the server's false proof, or the way there. */
  datatype Failure = FalseProof | Transport

  datatype HeadersAnswer = Headers(headers: seq<Header>) | Refused | Failed

  /** The answers of a server to one `proven_on`: the branch, unless there
      is none to be had, the header at the height and the same read again,
      and so many headers from a height. */
  datatype Server = Server(
    branch: Option<BranchAnswer>,
    header: Option<Header>,
    again: Option<Header>,
    headersFrom: (nat, nat) -> HeadersAnswer)

  // ----- reading a chain -------------------------------------------------

  /** `headers_from`: the headers asked as many times as it takes. An empty
      answer ends it short, a refusal gives none. */
  function Gather(server: Server, from: nat, count: nat, got: seq<Header>): Result<Option<seq<Header>>, Failure>
    decreases count - |got|
  {
    if |got| >= count then Ok(Some(got[..count]))
    else match server.headersFrom(from + |got|, count - |got|)
      case Headers(headers) => if headers == [] then Ok(Some(got)) else Gather(server, from, count, got + headers)
      case Refused => Ok(None)
      case Failed => Err(Transport)
  }

  function Flat(parts: seq<seq<Header>>): seq<Header> {
    if parts == [] then [] else Flat(parts[..|parts| - 1]) + parts[|parts| - 1]
  }

  /** The headers asked for past these parts. */
  function AskedPast(server: Server, from: nat, count: nat, parts: seq<seq<Header>>): HeadersAnswer
    requires |Flat(parts)| < count
  {
    server.headersFrom(from + |Flat(parts)|, count - |Flat(parts)|)
  }

  /** The parts a server sends, each asked for past those before. */
  ghost predicate Sends(server: Server, from: nat, count: nat, parts: seq<seq<Header>>) {
    forall i :: 0 <= i < |parts| ==> SendsPart(server, from, count, parts[..i], parts[i])
  }

  predicate SendsPart(server: Server, from: nat, count: nat, before: seq<seq<Header>>, part: seq<Header>) {
    part != [] && |Flat(before)| < count && AskedPast(server, from, count, before) == Headers(part)
  }

  /** What the parts come to: as many headers as wanted, or all there are, or
      what the server says instead of more. */
  ghost predicate Gathers(server: Server, from: nat, count: nat, parts: seq<seq<Header>>,
      r: Result<Option<seq<Header>>, Failure>)
  {
    match r
    case Ok(Some(headers)) =>
      if |Flat(parts)| >= count then headers == Flat(parts)[..count]
      else headers == Flat(parts) && AskedPast(server, from, count, parts) == Headers([])
    case Ok(None) => |Flat(parts)| < count && AskedPast(server, from, count, parts) == Refused
    case Err(failure) =>
      failure == Transport && |Flat(parts)| < count && AskedPast(server, from, count, parts) == Failed
  }

  lemma {:induction false} SendsMore(server: Server, from: nat, count: nat, parts: seq<seq<Header>>, part: seq<Header>)
    requires Sends(server, from, count, parts) && SendsPart(server, from, count, parts, part)
    ensures Sends(server, from, count, parts + [part]) && Flat(parts + [part]) == Flat(parts) + part
  {
    hide SendsPart;
    var more := parts + [part];
    assert more[..|parts|] == parts;
    forall i | 0 <= i < |more| ensures SendsPart(server, from, count, more[..i], more[i]) {
      assert more[..i] == parts[..i];
      assert i < |parts| ==> SendsPart(server, from, count, parts[..i], parts[i]);
    }
  }

  lemma {:induction false} GatherParts(server: Server, from: nat, count: nat, before: seq<seq<Header>>)
    returns (parts: seq<seq<Header>>)
    requires Sends(server, from, count, before)
    ensures Sends(server, from, count, parts)
    ensures Gathers(server, from, count, parts, Gather(server, from, count, Flat(before)))
    decreases count - |Flat(before)|
  {
    hide Sends, Flat;
    parts := before;
    if |Flat(before)| < count {
      var answer := AskedPast(server, from, count, before);
      if answer.Headers? && answer.headers != [] {
        SendsMore(server, from, count, before, answer.headers);
        parts := GatherParts(server, from, count, before + [answer.headers]);
      }
    }
  }

  lemma {:induction false} NoParts(server: Server, from: nat, count: nat)
    ensures Sends(server, from, count, []) && Flat([]) == []
  {
  }

  method HeadersFrom(server: Server, from: nat, count: nat) returns (r: Result<Option<seq<Header>>, Failure>)
    ensures r == Gather(server, from, count, [])
    ensures exists parts :: Sends(server, from, count, parts) && Gathers(server, from, count, parts, r)
  {
    NoParts(server, from, count);
    var parts := GatherParts(server, from, count, []);
    var headers := [];
    while |headers| < count
      invariant Gather(server, from, count, headers) == Gather(server, from, count, [])
      decreases count - |headers|
    {
      match server.headersFrom(from + |headers|, count - |headers|)
      case Headers(answer) =>
        if answer == [] {
          return Ok(Some(headers));
        }
        headers := headers + answer;
      case Refused =>
        return Ok(None);
      case Failed =>
        return Err(Transport);
    }
    return Ok(Some(headers[..count]));
  }

  // ----- the whole decision ----------------------------------------------

  /** What the header and the branch come to, the header read again when the
      branch leads elsewhere. */
  function Judged(k: Consensus, c: Crypto, network: Network, txid: Hash, height: u32,
      server: Server): Result<Verdict, Failure>
    requires k.Valid() && server.branch.Some?
  {
    if server.header.None? then Err(Transport)
    else
      var first := Check(k, c, network, height, server.header.value, txid, server.branch.value);
      if first != Elsewhere then Ok(first)
      else if server.again.None? then Err(Transport)
      else Ok(Recheck(k, c, network, height, server.header.value, server.again.value, txid, server.branch.value))
  }

  /** The hashes of a chain read from the server, refused when its headers
      do not lead to the checkpoint; none when the server refuses them. */
  function ReadChain(k: Consensus, network: Network, from: u32, count: nat,
      server: Server): (r: Result<Option<seq<Hash>>, Failure>)
    requires k.Valid()
    ensures r.Ok? && r.value.Some? ==>
              && CheckpointFor(k, network, from).Some? && r.value.value != []
              && from + |r.value.value| == CheckpointFor(k, network, from).value.end + 1
  {
    match Gather(server, from, count, [])
    case Err(failure) => Err(failure)
    case Ok(None) => Ok(None)
    case Ok(Some(headers)) =>
      if ChainTo(k, network, from, headers) then Ok(Some(Hashes(k, headers))) else Err(FalseProof)
  }

  /** The session's cache as syncs leave it, beside the headers each chain was
      read from. */
  datatype Shared = Shared(chains: Chains, headers: map<nat, seq<Header>>)

  ghost predicate SharedValid(k: Consensus, network: Network, shared: Shared)
    requires k.Valid()
  {
    CacheValid(k, network, shared.chains, shared.headers)
  }

  /** What chaining makes of a block proven at `height`: a chain read from the
      server when the session holds none as the list is made, and else what the
      session holds as the answer is. */
  function Chaining(k: Consensus, network: Network, listed: Chains, answered: Chains, height: u32, hash: Hash,
      server: Server): Result<bool, Failure>
    requires k.Valid()
  {
    var kept := if CheckpointFor(k, network, height).None? then Holds else Judge(ChainedBefore(answered, height), hash);
    if !Needs(k, network, listed, height) then Settled(kept)
    else
      match ReadChain(k, network, height, CheckpointFor(k, network, height).value.end + 1 - height, server)
      case Err(failure) => Err(failure)
      case Ok(None) => Settled(kept)
      case Ok(Some(hashes)) => Settled(Judge(Some(hashes[0]), hash))
  }

  /** What a verdict comes to for the caller. */
  function Settled(verdict: Verdict): Result<bool, Failure> {
    match verdict
    case Holds => Ok(true)
    case Unsure => Ok(false)
    case _ => Err(FalseProof)
  }

  /** `listed` is the cache as the list of chains to read is made, `answered` as
      the block is looked up. */
  function Decide(k: Consensus, c: Crypto, network: Network, listed: Chains, answered: Chains, txid: Hash,
      height: u32, tip: u32, server: Server): Result<bool, Failure>
    requires k.Valid()
  {
    match AboveTheTip(height, tip)
    case Some(False) => Err(FalseProof)
    case Some(_) => Ok(false)
    case None =>
      if server.branch.None? then Ok(false)
      else match Judged(k, c, network, txid, height, server)
        case Err(failure) => Err(failure)
        case Ok(verdict) =>
          if verdict == Holds then
            Chaining(k, network, listed, answered, height, k.blockHash(server.header.value), server)
          else Settled(verdict)
  }

  /** The session: its chains, and for the proof the headers each was read
      from. */
  class Session {
    var chained: Chains
    ghost var kept: map<nat, seq<Header>>

    ghost predicate Valid(k: Consensus, network: Network)
      reads this
      requires k.Valid()
    {
      CacheValid(k, network, chained, kept)
    }

    constructor ()
      ensures chained == map[] && kept == map[]
    {
      chained, kept := map[], map[];
    }

    /** `remember_chained`: kept unless a chain that starts lower is, the
        whole cache cleared when it is full. */
    method RememberChained(from: u32, hashes: seq<Hash>, ghost headers: seq<Header>)
      modifies this
      ensures chained == Remember(old(chained), from, hashes)
      ensures kept == RememberHeaders(old(chained), old(kept), from, headers)
      ensures |old(chained)| <= CHAINED_MAX ==> |chained| <= CHAINED_MAX
    {
      RememberBounded(chained, from, hashes);
      var period := PeriodOf(from);
      if period in chained && chained[period].from <= from {
        return;
      }
      if |chained| >= CHAINED_MAX {
        chained, kept := map[], map[];
      }
      chained := chained[period := Chain(from, hashes)];
      kept := kept[period := headers];
    }

    /** `chain_to_checkpoint`. */
    method ChainToCheckpoint(k: Consensus, network: Network, from: u32, headers: seq<Header>)
        returns (r: Option<seq<Hash>>)
      requires k.Valid() && Valid(k, network)
      modifies this
      ensures Valid(k, network)
      ensures r == if ChainTo(k, network, from, headers) then Some(Hashes(k, headers)) else None
      ensures r.Some? ==> chained == Remember(old(chained), from, r.value)
      ensures r.None? ==> chained == old(chained) && kept == old(kept)
    {
      match CheckpointFor(k, network, from)
      case None =>
        return None;
      case Some(Checkpoint(end, endHash)) =>
        if |headers| != end - from + 1 {
          return None;
        }
        var hashes := Hashes(k, headers);
        var linked := Linked(k, headers);
        if !linked || hashes[|hashes| - 1] != endHash {
          return None;
        }
        RememberValid(k, network, chained, kept, from, headers);
        RememberChained(from, hashes, headers);
        return Some(hashes);
    }

    /** `chained`: the chains read in this sync are searched in whatever
        order the hash map gives them, then the session's. */
    method Chained(k: Consensus, network: Network, height: u32, hash: Hash, read: map<u32, seq<Hash>>)
        returns (r: Verdict)
      requires k.Valid() && forall from <- read :: read[from] != []
      ensures MayAnswer(k, network, chained, read, height, hash, r)
    {
      match CheckpointFor(k, network, height)
      case None =>
        return Holds;
      case Some(Checkpoint(end, _)) =>
        var left := read.Keys;
        while left != {}
          invariant left <= read.Keys
          invariant forall from: u32 :: from in read.Keys - left ==> !Serves(read, from, height, end)
          decreases left
        {
          var from: u32 :| from in left;
          if from <= height && from + |read[from]| - 1 == end {
            assert AnsweredBy(read, from, height, end, hash, Judge(Some(read[from][height - from]), hash));
            return Judge(Some(read[from][height - from]), hash);
          }
          left := left - {from};
        }
        return Judge(ChainedBefore(chained, height), hash);
    }

    /** Other syncs, which keep chains and clear them at any time. */
    method Others(k: Consensus, network: Network, shared: Shared)
      requires k.Valid() && SharedValid(k, network, shared)
      modifies this
      ensures Valid(k, network) && chained == shared.chains && kept == shared.headers
    {
      chained, kept := shared.chains, shared.headers;
    }

    /** `proven_on`, the cache being `before` as it makes its list, `meanwhile`
        as it keeps a chain it read, and `after` as it looks its block up. */
    method ProvenOn(k: Consensus, c: Crypto, network: Network, txid: Hash, height: u32, tip: u32, server: Server,
        before: Shared, meanwhile: Shared, after: Shared)
      returns (r: Result<bool, Failure>)
      requires k.Valid() && Valid(k, network)
      requires SharedValid(k, network, before) && SharedValid(k, network, meanwhile) && SharedValid(k, network, after)
      modifies this
      ensures Valid(k, network)
      ensures r == Decide(k, c, network, before.chains, after.chains, txid, height, tip, server)
    {
      match AboveTheTip(height, tip) {
        case Some(False) => return Err(FalseProof);
        case Some(_) => return Ok(false);
        case None =>
      }
      if server.branch.None? {
        return Ok(false);
      }
      if server.header.None? {
        return Err(Transport);
      }
      var header, branch := server.header.value, server.branch.value;
      var proof := Check(k, c, network, height, header, txid, branch);
      if proof == Elsewhere {
        if server.again.None? {
          return Err(Transport);
        }
        proof := Recheck(k, c, network, height, header, server.again.value, txid, branch);
      }
      match proof {
        case Holds =>
        case Unsure => return Ok(false);
        case _ => return Err(FalseProof);
      }
      Others(k, network, before);
      r := ChainOn(k, network, height, k.blockHash(header), server, meanwhile, after);
    }

    /** A chain the list names, read and kept. */
    method Read(k: Consensus, network: Network, from: u32, count: nat, server: Server)
        returns (r: Result<Option<seq<Hash>>, Failure>)
      requires k.Valid() && Valid(k, network)
      modifies this
      ensures Valid(k, network)
      ensures r == ReadChain(k, network, from, count, server)
      ensures chained == if r.Ok? && r.value.Some? then Remember(old(chained), from, r.value.value) else old(chained)
    {
      var answer := HeadersFrom(server, from, count);
      match answer {
        case Err(failure) => return Err(failure);
        case Ok(None) => return Ok(None);
        case Ok(Some(headers)) =>
          var hashes := ChainToCheckpoint(k, network, from, headers);
          return if hashes.None? then Err(FalseProof) else Ok(hashes);
      }
    }

    /** The end of `proven_on`: a block of a period whose headers cost little
        holds only once chained to the checkpoint that ends it. Of a single
        height, the list of chains to read has one entry at most. */
    method ChainOn(k: Consensus, network: Network, height: u32, hash: Hash, server: Server, meanwhile: Shared,
        after: Shared)
      returns (r: Result<bool, Failure>)
      requires k.Valid() && Valid(k, network)
      requires SharedValid(k, network, meanwhile) && SharedValid(k, network, after)
      modifies this
      ensures Valid(k, network)
      ensures r == Chaining(k, network, old(chained), after.chains, height, hash, server)
    {
      hide CacheValid, MayAnswer, ReadsFor, ReadChain, Gather, Remember, Judge, Settled, ChainedBefore, ChainTo;
      var list := ChainsToRead(k, network, chained, [Block(height, hash)]);
      OneReadAtMost(k, network, chained, height, hash, list);
      var read: map<u32, seq<Hash>> := map[];
      if list != [] {
        Others(k, network, meanwhile);
        var answer := Read(k, network, list[0].from, list[0].count, server);
        if answer.Err? {
          return Err(answer.error);
        }
        if answer.value.Some? {
          read := map[list[0].from := answer.value.value];
        }
      }
      Others(k, network, after);
      var verdict := Chained(k, network, height, hash, read);
      if height in read {
        AnswerOfRead(k, network, chained, height, hash, read[height], verdict);
      } else {
        AnswerOfNoRead(k, network, chained, height, hash, verdict);
      }
      r := Settled(verdict);
    }
  }

  lemma {:induction false} AnswerOfNoRead(k: Consensus, network: Network, chains: Chains, height: u32, hash: Hash,
      answer: Verdict)
    requires k.Valid() && MayAnswer(k, network, chains, map[], height, hash, answer)
    ensures answer == if CheckpointFor(k, network, height).None? then Holds
        else Judge(ChainedBefore(chains, height), hash)
  {
  }

  lemma {:induction false} AnswerOfRead(k: Consensus, network: Network, chains: Chains, height: u32, hash: Hash,
      hashes: seq<Hash>, answer: Verdict)
    requires k.Valid() && CheckpointFor(k, network, height).Some? && hashes != []
    requires height + |hashes| == CheckpointFor(k, network, height).value.end + 1
    requires MayAnswer(k, network, chains, map[height := hashes], height, hash, answer)
    ensures answer == Judge(Some(hashes[0]), hash)
  {
    assert Serves(map[height := hashes], height, height, CheckpointFor(k, network, height).value.end);
  }

  lemma {:induction false} OneHeight(k: Consensus, network: Network, chains: Chains, height: u32, hash: Hash,
      list: seq<Range>, i: nat)
    requires k.Valid() && ReadsFor(k, network, chains, [Block(height, hash)], list) && i < |list|
    ensures list[i].from == height && Needs(k, network, chains, height)
    ensures list[i].count == CheckpointFor(k, network, height).value.end + 1 - height
  {
    assert Listed(k, network, chains, [Block(height, hash)], list[i]);
  }

  lemma {:induction false} PeriodsDiffer(list: seq<Range>)
    requires InOrder(list) && |list| > 1
    ensures list[0].from != list[1].from
  {
  }

  lemma {:induction false} OneReadAtMost(k: Consensus, network: Network, chains: Chains, height: u32, hash: Hash,
      list: seq<Range>)
    requires k.Valid() && ReadsFor(k, network, chains, [Block(height, hash)], list)
    ensures list == if Needs(k, network, chains, height)
                    then [Range(height, CheckpointFor(k, network, height).value.end + 1 - height)] else []
  {
    if Needs(k, network, chains, height) {
      assert Block(height, hash) in [Block(height, hash)];
      assert Covered(list, height);
    }
    if |list| > 0 {
      OneHeight(k, network, chains, height, hash, list, 0);
    }
    if |list| > 1 {
      OneHeight(k, network, chains, height, hash, list, 1);
      PeriodsDiffer(list);
    }
  }
}
