/** What is said of a transaction before it is sent (src/broadcast.rs,
    `repeated_outpoint`, `build_preview`, `spent_caution`; src/chain/mod.rs,
    `outputs_within_max_money`): the fee, what it blocks on, and where it
    stands. Of the cautions, those that may block or decide are kept; the
    others never do. */
module Preview {
  import opened Wrappers

  const MAX_MONEY: nat := 21_000_000 * 100_000_000

  // ----- a coin spent twice ----------------------------------------------

  datatype OutPoint = OutPoint(txid: string, vout: u32)

  datatype Repeat = Repeat(later: nat, earlier: nat)

  ghost predicate Distinct(spent: seq<OutPoint>) { forall i, j :: 0 <= i < j < |spent| ==> spent[i] != spent[j] }

  /** The first input that spends a coin an earlier one spends. */
  method RepeatedOutpoint(spent: seq<OutPoint>) returns (repeat: Option<Repeat>)
    ensures repeat.None? <==> Distinct(spent)
    ensures repeat.Some? ==>
              && repeat.value.earlier < repeat.value.later < |spent|
              && spent[repeat.value.earlier] == spent[repeat.value.later]
              && Distinct(spent[..repeat.value.later])
  {
    var seen: map<OutPoint, nat> := map[];
    for i := 0 to |spent|
      invariant forall k :: 0 <= k < i ==> spent[k] in seen
      invariant forall outpoint :: outpoint in seen ==> seen[outpoint] < i && spent[seen[outpoint]] == outpoint
      invariant forall j, k :: 0 <= j < k < i ==> spent[j] != spent[k]
    {
      if spent[i] in seen {
        return Some(Repeat(i, seen[spent[i]]));
      }
      seen := seen[spent[i] := i];
    }
    repeat := None;
  }

  // ----- the coins and the amounts ---------------------------------------

  /** A transaction that spends a coin, as named by a wallet or the backend;
      verified when it was seen spending it. */
  datatype SpentBy = SpentBy(txid: string, confirmed: bool, verified: bool)

  /** An input: what the transaction or PSBT says of it, and what the manager
      learned. */
  datatype Coin = Coin(signed: bool, previous: Option<u64>, declared: Option<u64>, known: Option<u64>, listed: bool,
                       unknown: bool, unchecked: bool, spent: bool, spender: Option<SpentBy>)

  /** The previous transaction carried outweighs all, the PSBT's word stands
      in for what nobody knows. */
  function ValueOf(coin: Coin): Option<u64> {
    if coin.previous.Some? then coin.previous else if coin.known.Some? then coin.known else coin.declared
  }

  predicate Proven(coin: Coin) { (coin.known.Some? && !coin.listed) || coin.previous.Some? }

  predicate AllKnown(coins: seq<Coin>) { forall i :: 0 <= i < |coins| ==> ValueOf(coins[i]).Some? }

  predicate AllProven(coins: seq<Coin>) { forall i :: 0 <= i < |coins| ==> Proven(coins[i]) }

  predicate AllSigned(coins: seq<Coin>) { forall i :: 0 <= i < |coins| ==> coins[i].signed }

  /** Whose word a value is taken on: the transaction it comes from if that was
      carried, else what the manager learned, else what the PSBT says. */
  lemma {:induction false} ValueIs(coin: Coin, value: u64)
    ensures ValueOf(coin) == Some(value) <==>
              || coin.previous == Some(value)
              || (coin.previous.None? && coin.known == Some(value))
              || (coin.previous.None? && coin.known.None? && coin.declared == Some(value))
    ensures Proven(coin) && ValueOf(coin) == Some(value) <==>
              coin.previous == Some(value) || (coin.previous.None? && coin.known == Some(value) && !coin.listed)
  {
  }

  /** What the coins known bring, and the outputs pay, without bound. */
  function Brought(coins: seq<Coin>): nat {
    if coins == [] then 0
    else
      var value := ValueOf(coins[|coins| - 1]);
      Brought(coins[..|coins| - 1]) + if value.Some? then value.value else 0
  }

  function Paid(outputs: seq<u64>): nat {
    if outputs == [] then 0 else Paid(outputs[..|outputs| - 1]) + outputs[|outputs| - 1]
  }

  lemma {:induction false} PaidPart(outputs: seq<u64>, n: nat)
    requires n <= |outputs|
    ensures Paid(outputs[..n]) <= Paid(outputs)
    decreases |outputs|
  {
    if n < |outputs| {
      var front := outputs[..|outputs| - 1];
      assert front[..n] == outputs[..n];
      PaidPart(front, n);
    } else {
      assert outputs[..n] == outputs;
    }
  }

  lemma {:induction false} BroughtPart(coins: seq<Coin>, n: nat)
    requires n <= |coins|
    ensures Brought(coins[..n]) <= Brought(coins)
    decreases |coins|
  {
    if n < |coins| {
      var front := coins[..|coins| - 1];
      assert front[..n] == coins[..n];
      BroughtPart(front, n);
    } else {
      assert coins[..n] == coins;
    }
  }

  /** The sum in a word of 64 bits, if every value is known and it fits. */
  method InTotal(coins: seq<Coin>) returns (total: Option<u64>)
    ensures total == if AllKnown(coins) && Brought(coins) <= U64_MAX then Some(Brought(coins)) else None
  {
    var sum: u64 := 0;
    for i := 0 to |coins|
      invariant sum == Brought(coins[..i]) && AllKnown(coins[..i])
    {
      assert coins[..i + 1][..i] == coins[..i];
      BroughtPart(coins, i + 1);
      var value := ValueOf(coins[i]);
      if value.None? || sum + value.value > U64_MAX {
        return None;
      }
      sum := sum + value.value;
    }
    assert coins[..|coins|] == coins;
    total := Some(sum);
  }

  /** `outputs_within_max_money`. */
  method OutTotal(outputs: seq<u64>) returns (total: Option<u64>)
    ensures total == if Paid(outputs) <= MAX_MONEY then Some(Paid(outputs)) else None
  {
    var sum: u64 := 0;
    for i := 0 to |outputs|
      invariant sum == Paid(outputs[..i])
    {
      assert outputs[..i + 1][..i] == outputs[..i];
      PaidPart(outputs, i + 1);
      if sum + outputs[i] > U64_MAX {
        return None;
      }
      sum := sum + outputs[i];
    }
    assert outputs[..|outputs|] == outputs;
    total := if sum <= MAX_MONEY then Some(sum) else None;
  }

  // ----- the preview -----------------------------------------------------

  datatype Kind = Unsigned | InputUnknown | InputSpent | InMempool | FeeUnknown

  datatype Warning = Warning(kind: Kind, blocking: bool)

  datatype Readiness = Ready | Waiting | Unready | Refused

  datatype Preview = Preview(fee: Option<u64>, warnings: seq<Warning>, readiness: Readiness, ready: bool,
      hex: Option<string>)

  /** Nobody answered, or the backend did not know the coin. */
  predicate Unanswered(coin: Coin) { coin.unknown || coin.unchecked }

  /** The backend holds this very transaction, waiting. */
  predicate WaitsHere(coin: Coin, txid: string) {
    && !coin.unknown && !coin.unchecked
    && coin.spender.Some? && coin.spender.value.txid == txid && !coin.spender.value.confirmed
  }

  /** `spent_caution`: whether it blocks. */
  function SpentCaution(spender: Option<SpentBy>): Warning {
    Warning(InputSpent, spender.Some? && spender.value.confirmed && spender.value.verified)
  }

  /** A coin seen spent in a block. */
  predicate GoneFor(coin: Coin, txid: string) {
    && !coin.unknown && !coin.unchecked && coin.spent
    && coin.spender.Some? && coin.spender.value.confirmed && coin.spender.value.verified
  }

  predicate AnyGone(coins: seq<Coin>, txid: string) { exists i :: 0 <= i < |coins| && GoneFor(coins[i], txid) }

  predicate AnyWaits(coins: seq<Coin>, txid: string) { exists i :: 0 <= i < |coins| && WaitsHere(coins[i], txid) }

  /** A coin nothing is known of; one the backend has spent elsewhere. */
  ghost predicate AnyUnknown(coins: seq<Coin>) {
    exists i :: 0 <= i < |coins| && (coins[i].unknown || coins[i].unchecked)
  }

  ghost predicate SpentElse(coin: Coin, txid: string) {
    !coin.unknown && !coin.unchecked && coin.spent && !WaitsHere(coin, txid)
  }

  ghost predicate AnySpent(coins: seq<Coin>, txid: string) { exists i :: 0 <= i < |coins| && SpentElse(coins[i], txid) }

  ghost predicate Warns(warnings: seq<Warning>, kind: Kind) {
    exists i :: 0 <= i < |warnings| && warnings[i].kind == kind
  }

  /** The outputs pay more than all the bitcoin, or more than inputs whose
      every amount is proven bring. */
  predicate Overspends(coins: seq<Coin>, outputs: seq<u64>) {
    || Paid(outputs) > MAX_MONEY
    || (AllKnown(coins) && AllProven(coins) && Brought(coins) <= MAX_MONEY && Brought(coins) < Paid(outputs))
  }

  /** The same coins, but for what the PSBT declares of them. */
  ghost predicate Redeclared(coins: seq<Coin>, coins': seq<Coin>) {
    && |coins| == |coins'|
    && forall i :: 0 <= i < |coins| ==> coins'[i] == coins[i].(declared := coins'[i].declared)
  }

  lemma {:induction false} ProvenTold(coins: seq<Coin>)
    requires AllProven(coins)
    ensures AllKnown(coins)
  {
  }

  lemma {:induction false} BroughtTold(coins: seq<Coin>, coins': seq<Coin>)
    requires Redeclared(coins, coins') && AllProven(coins)
    ensures AllProven(coins') && Brought(coins) == Brought(coins')
  {
    if coins != [] {
      var last := |coins| - 1;
      assert Redeclared(coins[..last], coins'[..last]);
      BroughtTold(coins[..last], coins'[..last]);
      assert Proven(coins[last]) && ValueOf(coins[last]) == ValueOf(coins'[last]);
    }
  }

  /** Whatever a PSBT declares of its coins, that alone refuses nothing. */
  lemma {:induction false} DeclaringRefusesNothing(coins: seq<Coin>, coins': seq<Coin>, outputs: seq<u64>)
    requires Redeclared(coins, coins')
    ensures Overspends(coins, outputs) <==> Overspends(coins', outputs)
  {
    if AllProven(coins) {
      BroughtTold(coins, coins');
      ProvenTold(coins);
      ProvenTold(coins');
    } else {
      var i :| 0 <= i < |coins| && !Proven(coins[i]);
      assert !Proven(coins'[i]);
    }
  }

  predicate Blocks(warnings: seq<Warning>, unfixable: bool) {
    exists i :: 0 <= i < |warnings| && warnings[i].blocking && (unfixable ==> warnings[i].kind != Unsigned)
  }

  /** The cautions coin by coin. */
  method CoinCautions(coins: seq<Coin>, txid: string) returns (warnings: seq<Warning>, waiting: bool)
    ensures forall i :: 0 <= i < |warnings| ==> warnings[i].kind in {InputUnknown, InputSpent}
    ensures Blocks(warnings, false) <==> AnyGone(coins, txid)
    ensures waiting <==> AnyWaits(coins, txid)
    ensures Warns(warnings, InputUnknown) <==> AnyUnknown(coins)
    ensures Warns(warnings, InputSpent) <==> AnySpent(coins, txid)
  {
    warnings, waiting := [], false;
    for i := 0 to |coins|
      invariant forall k :: 0 <= k < |warnings| ==> warnings[k].kind in {InputUnknown, InputSpent}
      invariant Blocks(warnings, false) <==> AnyGone(coins[..i], txid)
      invariant waiting <==> AnyWaits(coins[..i], txid)
      invariant Warns(warnings, InputUnknown) <==> AnyUnknown(coins[..i])
      invariant Warns(warnings, InputSpent) <==> AnySpent(coins[..i], txid)
    {
      hide AnyGone, AnyWaits, AnyUnknown, AnySpent, Blocks, Warns;
      var coin := coins[i];
      More(coins, i, txid);
      if Unanswered(coin) {
        BlocksMore(warnings, Warning(InputUnknown, false), false);
        WarnsMore(warnings, Warning(InputUnknown, false));
        warnings := warnings + [Warning(InputUnknown, false)];
      } else if coin.spender.Some? && coin.spender.value.txid == txid && !coin.spender.value.confirmed {
        waiting := true;
      } else if coin.spent {
        BlocksMore(warnings, SpentCaution(coin.spender), false);
        WarnsMore(warnings, SpentCaution(coin.spender));
        warnings := warnings + [SpentCaution(coin.spender)];
      }
    }
    assert coins[..|coins|] == coins;
  }

  lemma {:induction false} More(coins: seq<Coin>, i: nat, txid: string)
    requires i < |coins|
    ensures AnyGone(coins[..i + 1], txid) <==> AnyGone(coins[..i], txid) || GoneFor(coins[i], txid)
    ensures AnyWaits(coins[..i + 1], txid) <==> AnyWaits(coins[..i], txid) || WaitsHere(coins[i], txid)
    ensures AnyUnknown(coins[..i + 1]) <==> AnyUnknown(coins[..i]) || coins[i].unknown || coins[i].unchecked
    ensures AnySpent(coins[..i + 1], txid) <==> AnySpent(coins[..i], txid) || SpentElse(coins[i], txid)
  {
    assert coins[..i + 1] == coins[..i] + [coins[i]];
  }

  lemma {:induction false} WarnsMore(warnings: seq<Warning>, warning: Warning)
    ensures forall kind: Kind :: Warns(warnings + [warning], kind) <==> Warns(warnings, kind) || kind == warning.kind
  {
    forall kind: Kind ensures Warns(warnings + [warning], kind) <==> Warns(warnings, kind) || kind == warning.kind {
      var more := warnings + [warning];
      assert more[|warnings|] == warning;
      assert forall i :: 0 <= i < |warnings| ==> more[i] == warnings[i];
    }
  }

  lemma {:induction false} BlocksMore(warnings: seq<Warning>, warning: Warning, unfixable: bool)
    ensures Blocks(warnings + [warning], unfixable) <==>
        Blocks(warnings, unfixable) || (warning.blocking && (unfixable ==> warning.kind != Unsigned))
  {
    var more := warnings + [warning];
    assert more[|warnings|] == warning;
    assert forall i :: 0 <= i < |warnings| ==> more[i] == warnings[i];
  }

  /** The cautions before the fee: the missing signatures first, unless the
      same transaction, signed, waits already. */
  function Gathered(cautions: seq<Warning>, signed: bool, waiting: bool): seq<Warning> {
    var head := if signed || waiting then [] else [Warning(Unsigned, true)];
    head + cautions + if waiting then [Warning(InMempool, false)] else []
  }

  lemma {:induction false} GatheredBlocks(cautions: seq<Warning>, signed: bool, waiting: bool)
    requires forall i :: 0 <= i < |cautions| ==> cautions[i].kind != Unsigned
    ensures Blocks(Gathered(cautions, signed, waiting), true) <==> Blocks(cautions, false)
    ensures Blocks(Gathered(cautions, signed, waiting), false) <==> Blocks(cautions, false) || !(signed || waiting)
  {
    var head: seq<Warning> := if signed || waiting then [] else [Warning(Unsigned, true)];
    var all := Gathered(cautions, signed, waiting);
    assert forall i :: 0 <= i < |cautions| ==> all[|head| + i] == cautions[i];
    if Blocks(cautions, false) {
      var i :| 0 <= i < |cautions| && cautions[i].blocking;
      assert all[|head| + i].blocking && all[|head| + i].kind != Unsigned;
    }
    if !(signed || waiting) {
      assert all[0].blocking;
    }
  }

  lemma {:induction false} GatheredWarns(cautions: seq<Warning>, signed: bool, waiting: bool)
    requires forall i :: 0 <= i < |cautions| ==> cautions[i].kind in {InputUnknown, InputSpent}
    ensures var all := Gathered(cautions, signed, waiting);
            && (Warns(all, Unsigned) <==> !signed && !waiting) && (Warns(all, InMempool) <==> waiting)
            && (Warns(all, InputUnknown) <==> Warns(cautions, InputUnknown))
            && (Warns(all, InputSpent) <==> Warns(cautions, InputSpent)) && !Warns(all, FeeUnknown)
  {
    var head: seq<Warning> := if signed || waiting then [] else [Warning(Unsigned, true)];
    var all := Gathered(cautions, signed, waiting);
    assert forall i :: 0 <= i < |cautions| ==> all[|head| + i] == cautions[i];
    assert !signed && !waiting ==> all[0].kind == Unsigned;
    assert waiting ==> all[|all| - 1].kind == InMempool;
    assert forall i :: 0 <= i < |all| ==>
        all[i] == if i < |head| then head[i] else if i < |head| + |cautions| then cautions[i - |head|]
                  else Warning(InMempool, false);
  }

  /** `build_preview`. */
  method Build(coins: seq<Coin>, outputs: seq<u64>, txid: string, bytes: string) returns (preview: Preview)
    // The fee, by sums without bound.
    ensures preview.fee.Some? <==>
            AllKnown(coins) && Brought(coins) <= MAX_MONEY && Paid(outputs) <= MAX_MONEY &&
                Paid(outputs) <= Brought(coins)
    ensures preview.fee.Some? ==> Brought(coins) == Paid(outputs) + preview.fee.value
    // Where it stands.
    ensures preview.readiness == Refused <==> Overspends(coins, outputs) || AnyGone(coins, txid)
    ensures preview.readiness == Unready <==>
            preview.readiness != Refused && exists i :: 0 <= i < |coins| && !coins[i].signed
    ensures preview.readiness in {Ready, Waiting} ==> (preview.readiness == Waiting <==> AnyWaits(coins, txid))
    // Ready, sent as hex, and signed with no caution that blocks, are one.
    ensures preview.ready <==> preview.readiness in {Ready, Waiting}
    ensures preview.ready <==>
            !Blocks(preview.warnings, false) && forall i :: 0 <= i < |coins| ==> coins[i].signed
    ensures preview.hex == if preview.ready then Some(bytes) else None
    // What is warned of.
    ensures Warns(preview.warnings, Unsigned) <==>
            !AnyWaits(coins, txid) && exists i :: 0 <= i < |coins| && !coins[i].signed
    ensures Warns(preview.warnings, InMempool) <==> AnyWaits(coins, txid)
    ensures Warns(preview.warnings, InputUnknown) <==> AnyUnknown(coins)
    ensures Warns(preview.warnings, InputSpent) <==> AnySpent(coins, txid)
    ensures Warns(preview.warnings, FeeUnknown) <==> preview.fee.None?
  {
    hide AllKnown, AllProven, AnyGone, AnyWaits, AnyUnknown, AnySpent, Blocks, Gathered, Warns, Brought, Paid;
    var signed, known, vouched := AllSigned(coins), AllKnown(coins), AllProven(coins);
    var cautions, waiting := CoinCautions(coins, txid);
    var warnings := Gathered(cautions, signed, waiting);
    GatheredBlocks(cautions, signed, waiting);
    GatheredWarns(cautions, signed, waiting);
    var inTotal := InTotal(coins);
    var outTotal := OutTotal(outputs);
    var outputsImpossible := outTotal.None?;
    var inputsImpossible := known && (inTotal.None? || inTotal.value > MAX_MONEY);
    var fee: Option<u64> := None;
    if inTotal.Some? && outTotal.Some? && !inputsImpossible && outTotal.value <= inTotal.value {
      fee := Some(inTotal.value - outTotal.value);
    }
    if fee.None? {
      var overspends := known && !outputsImpossible && !inputsImpossible;
      var caution := Warning(FeeUnknown, outputsImpossible || (overspends && vouched));
      BlocksMore(warnings, caution, false);
      BlocksMore(warnings, caution, true);
      WarnsMore(warnings, caution);
      warnings := warnings + [caution];
    }
    var readiness := if Blocks(warnings, true) then Refused
                     else if !signed then Unready else if waiting then Waiting else Ready;
    var ready := readiness in {Ready, Waiting};
    preview := Preview(fee, warnings, readiness, ready, if ready then Some(bytes) else None);
  }
}
