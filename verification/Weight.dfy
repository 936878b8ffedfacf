/** What a transaction weighs once signed (src/broadcast/signing.rs,
    `Satisfaction::of_final`, `weight_once_signed`), against the bytes BIP-144
    serializes and the weight BIP-141, "Transaction size calculations",
    defines. */
module Weight {
  import opened Wrappers

  datatype TxIn = TxIn(txid: seq<byte>, vout: u32, script: seq<byte>, sequence: u32, stack: seq<seq<byte>>)

  datatype TxOut = TxOut(value: u64, script: seq<byte>)

  datatype Transaction = Transaction(version: u32, inputs: seq<TxIn>, outputs: seq<TxOut>, lockTime: u32)

  // ----- the bytes -------------------------------------------------------

  function LittleEndian(n: nat, width: nat): (bytes: seq<byte>)
    ensures |bytes| == width
    decreases width
  {
    if width == 0 then [] else [(n % 256) as byte] + LittleEndian(n / 256, width - 1)
  }

  function CompactSize(n: nat): seq<byte> {
    if n < 0xfd then LittleEndian(n, 1)
    else if n <= 0xffff then [0xfd] + LittleEndian(n, 2)
    else if n <= 0xffff_ffff then [0xfe] + LittleEndian(n, 4)
    else [0xff] + LittleEndian(n, 8)
  }

  function Sized(bytes: seq<byte>): seq<byte> { CompactSize(|bytes|) + bytes }

  function InputBytes(input: TxIn): seq<byte> {
    input.txid + LittleEndian(input.vout, 4) + Sized(input.script) + LittleEndian(input.sequence, 4)
  }

  function InputsBytes(inputs: seq<TxIn>): seq<byte> {
    if inputs == [] then [] else InputBytes(inputs[0]) + InputsBytes(inputs[1..])
  }

  function OutputsBytes(outputs: seq<TxOut>): seq<byte> {
    if outputs == [] then []
    else LittleEndian(outputs[0].value, 8) + Sized(outputs[0].script) + OutputsBytes(outputs[1..])
  }

  function ItemsBytes(items: seq<seq<byte>>): seq<byte> {
    if items == [] then [] else Sized(items[0]) + ItemsBytes(items[1..])
  }

  function WitnessBytes(stack: seq<seq<byte>>): seq<byte> { CompactSize(|stack|) + ItemsBytes(stack) }

  function WitnessesBytes(inputs: seq<TxIn>): seq<byte> {
    if inputs == [] then [] else WitnessBytes(inputs[0].stack) + WitnessesBytes(inputs[1..])
  }

  function CoreBytes(tx: Transaction): seq<byte> {
    CompactSize(|tx.inputs|) + InputsBytes(tx.inputs) + CompactSize(|tx.outputs|) + OutputsBytes(tx.outputs)
  }

  /** Without witnesses, as before segregated witness. */
  function Stripped(tx: Transaction): seq<byte> {
    LittleEndian(tx.version, 4) + CoreBytes(tx) + LittleEndian(tx.lockTime, 4)
  }

  predicate HasWitness(inputs: seq<TxIn>) { exists i :: 0 <= i < |inputs| && inputs[i].stack != [] }

  /** As it is sent: marker, flag and witnesses when there are any. */
  function Serialized(tx: Transaction): seq<byte> {
    if HasWitness(tx.inputs) then
      LittleEndian(tx.version, 4) + [0, 1] + CoreBytes(tx) + WitnessesBytes(tx.inputs) + LittleEndian(tx.lockTime, 4)
    else Stripped(tx)
  }

  /** Three times the stripped size, and the whole. */
  function WeightOf(tx: Transaction): nat { 3 * |Stripped(tx)| + |Serialized(tx)| }

  function VbytesCeil(weight: nat): nat { (weight + 3) / 4 }

  /** Four units to a virtual byte, one begun counted whole. */
  lemma {:induction false} VbytesAre(weight: nat, vbytes: nat)
    ensures VbytesCeil(weight) == vbytes <==> 4 * vbytes - 4 < weight <= 4 * vbytes
  {
  }

  // ----- what is counted -------------------------------------------------

  function VarIntSize(n: nat): nat {
    if n < 0xfd then 1 else if n <= 0xffff then 3 else if n <= 0xffff_ffff then 5 else 9
  }

  function ItemsSize(items: seq<seq<byte>>): nat {
    if items == [] then 0 else VarIntSize(|items[0]|) + |items[0]| + ItemsSize(items[1..])
  }

  function WitnessSize(stack: seq<seq<byte>>): (n: nat)
    ensures n >= 1
  {
    VarIntSize(|stack|) + ItemsSize(stack)
  }

  datatype Satisfaction = Satisfaction(weight: nat, witnessed: bool)

  /** What a finalized input carries; either may be absent. */
  datatype Final = Final(script: Option<seq<byte>>, stack: Option<seq<seq<byte>>>)

  function OfFinal(final: Final): Satisfaction {
    var length := if final.script.Some? then |final.script.value| else 0;
    var scriptGrowth := length + VarIntSize(length) - 1;
    var witnessGrowth := if final.stack.Some? then WitnessSize(final.stack.value) - 1 else 0;
    Satisfaction(4 * scriptGrowth + witnessGrowth, final.stack.Some? && final.stack.value != [])
  }

  function WitnessesSize(inputs: seq<TxIn>): nat {
    if inputs == [] then 0 else WitnessSize(inputs[0].stack) + WitnessesSize(inputs[1..])
  }

  function Added(missing: seq<Option<Satisfaction>>): nat {
    if missing == [] then 0 else (if missing[0].Some? then missing[0].value.weight else 0) + Added(missing[1..])
  }

  predicate SaysWitness(missing: seq<Option<Satisfaction>>) {
    exists i :: 0 <= i < |missing| && missing[i].Some? && missing[i].value.witnessed
  }

  function WeightOnceSigned(tx: Transaction, missing: seq<Option<Satisfaction>>): nat {
    var segwit := HasWitness(tx.inputs) || SaysWitness(missing);
    var witnesses := if segwit then 2 + WitnessesSize(tx.inputs) else 0;
    4 * |Stripped(tx)| + witnesses + Added(missing)
  }

  // ----- the transaction completed ---------------------------------------

  function Signed(input: TxIn, final: Option<Final>): TxIn {
    if final.None? then input
    else
      input.(script := if final.value.script.Some? then final.value.script.value else [],
             stack := if final.value.stack.Some? then final.value.stack.value else [])
  }

  function SignedAll(inputs: seq<TxIn>, finals: seq<Option<Final>>): (signed: seq<TxIn>)
    requires |inputs| == |finals|
    ensures |signed| == |inputs|
  {
    if inputs == [] then [] else [Signed(inputs[0], finals[0])] + SignedAll(inputs[1..], finals[1..])
  }

  function Completed(tx: Transaction, finals: seq<Option<Final>>): Transaction
    requires |tx.inputs| == |finals|
  {
    tx.(inputs := SignedAll(tx.inputs, finals))
  }

  /** The inputs still to be signed carry nothing yet. */
  ghost predicate Empty(inputs: seq<TxIn>, finals: seq<Option<Final>>) {
    |inputs| == |finals| && forall i :: 0 <= i < |inputs| && finals[i].Some? ==>
        inputs[i].script == [] && inputs[i].stack == []
  }

  function Counted(finals: seq<Option<Final>>): (missing: seq<Option<Satisfaction>>)
    ensures |missing| == |finals|
  {
    if finals == [] then []
    else [if finals[0].Some? then Some(OfFinal(finals[0].value)) else None] + Counted(finals[1..])
  }

  lemma {:induction false} CompactSizeIs(n: nat)
    ensures |CompactSize(n)| == VarIntSize(n)
  {
  }

  /** The `i`-th byte of a number, from the least. */
  function ByteAt(n: nat, i: nat): byte { if i == 0 then (n % 256) as byte else ByteAt(n / 256, i - 1) }

  lemma {:induction false} LittleEndianAt(n: nat, width: nat, i: nat)
    requires i < width
    ensures LittleEndian(n, width)[i] == ByteAt(n, i)
    decreases width
  {
    if i > 0 {
      LittleEndianAt(n / 256, width - 1, i - 1);
    }
  }

  /** What a size is written as: its bytes from the least, one if it is small, and
      else two, four or eight, the fewest that hold it, after one that says
      how many. */
  lemma {:induction false} CompactSizeSpells(n: u64, i: nat)
    ensures var bytes := CompactSize(n);
            match |bytes|
            case 1 => n < 0xfd && bytes[0] == ByteAt(n, 0)
            case 3 => bytes[0] == 0xfd && 0xfd <= n < 0x1_0000 && (i < 2 ==> bytes[1 + i] == ByteAt(n, i))
            case 5 => bytes[0] == 0xfe && 0x1_0000 <= n < 0x1_0000_0000 && (i < 4 ==> bytes[1 + i] == ByteAt(n, i))
            case 9 => bytes[0] == 0xff && 0x1_0000_0000 <= n && (i < 8 ==> bytes[1 + i] == ByteAt(n, i))
            case _ => false
  {
    hide LittleEndian, ByteAt;
    var width := if n < 0xfd then 1 else if n <= 0xffff then 2 else if n <= 0xffff_ffff then 4 else 8;
    LittleEndianAt(n, width, 0);
    if i < width {
      LittleEndianAt(n, width, i);
    }
  }

  /** What inputs and outputs take of the stripped size: 40 bytes and a sized
      script each, and 8 and one. */
  function InputsSize(inputs: seq<TxIn>): nat {
    if inputs == [] then 0
    else 40 + VarIntSize(|inputs[0].script|) + |inputs[0].script| + InputsSize(inputs[1..])
  }

  function OutputsSize(outputs: seq<TxOut>): nat {
    if outputs == [] then 0
    else 8 + VarIntSize(|outputs[0].script|) + |outputs[0].script| + OutputsSize(outputs[1..])
  }

  lemma {:induction false} InputsSizeIs(inputs: seq<TxIn>)
    requires forall i :: 0 <= i < |inputs| ==> |inputs[i].txid| == 32
    ensures |InputsBytes(inputs)| == InputsSize(inputs)
  {
    if inputs != [] {
      CompactSizeIs(|inputs[0].script|);
      assert forall i :: 0 <= i < |inputs[1..]| ==> inputs[1..][i] == inputs[i + 1];
      InputsSizeIs(inputs[1..]);
    }
  }

  lemma {:induction false} OutputsSizeIs(outputs: seq<TxOut>)
    ensures |OutputsBytes(outputs)| == OutputsSize(outputs)
  {
    if outputs != [] {
      CompactSizeIs(|outputs[0].script|);
      OutputsSizeIs(outputs[1..]);
    }
  }

  /** The stripped size, field by field. */
  lemma {:induction false} StrippedSize(tx: Transaction)
    requires forall i :: 0 <= i < |tx.inputs| ==> |tx.inputs[i].txid| == 32
    ensures |Stripped(tx)| == 8 + VarIntSize(|tx.inputs|) + InputsSize(tx.inputs)
                              + VarIntSize(|tx.outputs|) + OutputsSize(tx.outputs)
  {
    hide CompactSize;
    CompactSizeIs(|tx.inputs|);
    CompactSizeIs(|tx.outputs|);
    InputsSizeIs(tx.inputs);
    OutputsSizeIs(tx.outputs);
  }

  lemma {:induction false} ItemsSizeIs(items: seq<seq<byte>>)
    ensures |ItemsBytes(items)| == ItemsSize(items)
  {
    if items != [] {
      CompactSizeIs(|items[0]|);
      ItemsSizeIs(items[1..]);
    }
  }

  lemma {:induction false} WitnessesSizeIs(inputs: seq<TxIn>)
    ensures |WitnessesBytes(inputs)| == WitnessesSize(inputs)
  {
    if inputs != [] {
      CompactSizeIs(|inputs[0].stack|);
      ItemsSizeIs(inputs[0].stack);
      WitnessesSizeIs(inputs[1..]);
    }
  }

  /** BIP-141's weight by what is counted. */
  lemma {:induction false} WeightCounts(tx: Transaction)
    ensures WeightOf(tx) == 4 * |Stripped(tx)| + if HasWitness(tx.inputs) then 2 + WitnessesSize(tx.inputs) else 0
  {
    WitnessesSizeIs(tx.inputs);
  }

  /** How much each part of the weight grows, input by input: the scripts
      four times over, the witnesses once. */
  function ScriptGrowth(finals: seq<Option<Final>>): nat {
    if finals == [] then 0
    else
      var script := if finals[0].Some? && finals[0].value.script.Some? then finals[0].value.script.value else [];
      |script| + VarIntSize(|script|) - 1 + ScriptGrowth(finals[1..])
  }

  function WitnessGrowth(finals: seq<Option<Final>>): nat {
    if finals == [] then 0
    else
      (if finals[0].Some? && finals[0].value.stack.Some? then WitnessSize(finals[0].value.stack.value) - 1 else 0)
      + WitnessGrowth(finals[1..])
  }

  lemma {:induction false} InputsGrow(inputs: seq<TxIn>, finals: seq<Option<Final>>)
    requires Empty(inputs, finals)
    ensures |InputsBytes(SignedAll(inputs, finals))| == |InputsBytes(inputs)| + ScriptGrowth(finals)
    ensures WitnessesSize(SignedAll(inputs, finals)) == WitnessesSize(inputs) + WitnessGrowth(finals)
  {
    if inputs != [] {
      hide CompactSize, VarIntSize, LittleEndian;
      InputsGrow(inputs[1..], finals[1..]);
      InputGrows(inputs[0], finals[0]);
    }
  }

  lemma {:induction false} InputGrows(input: TxIn, final: Option<Final>)
    requires final.Some? ==> input.script == [] && input.stack == []
    ensures var script := if final.Some? && final.value.script.Some? then final.value.script.value else [];
            |InputBytes(Signed(input, final))| == |InputBytes(input)| + |script| + VarIntSize(|script|) - 1
    ensures WitnessSize(Signed(input, final).stack) ==
            WitnessSize(input.stack)
            + if final.Some? && final.value.stack.Some? then WitnessSize(final.value.stack.value) - 1 else 0
  {
    CompactSizeIs(|Signed(input, final).script|);
  }

  lemma {:induction false} AddedIs(finals: seq<Option<Final>>)
    ensures Added(Counted(finals)) == 4 * ScriptGrowth(finals) + WitnessGrowth(finals)
  {
    if finals != [] {
      AddedIs(finals[1..]);
    }
  }

  lemma {:induction false} WitnessSaid(inputs: seq<TxIn>, finals: seq<Option<Final>>)
    requires Empty(inputs, finals)
    ensures HasWitness(SignedAll(inputs, finals)) <==> HasWitness(inputs) || SaysWitness(Counted(finals))
    ensures !HasWitness(SignedAll(inputs, finals)) ==> WitnessGrowth(finals) == 0
  {
    if inputs != [] {
      var signed, missing := SignedAll(inputs, finals), Counted(finals);
      WitnessSaid(inputs[1..], finals[1..]);
      HasFirst(signed);
      HasFirst(inputs);
      SaysFirst(missing);
      assert missing[0].Some? && missing[0].value.witnessed <==> finals[0].Some? && signed[0].stack != [];
    }
  }

  lemma {:induction false} HasFirst(inputs: seq<TxIn>)
    requires inputs != []
    ensures HasWitness(inputs) <==> inputs[0].stack != [] || HasWitness(inputs[1..])
  {
    if HasWitness(inputs[1..]) {
      var i :| 0 <= i < |inputs[1..]| && inputs[1..][i].stack != [];
      assert inputs[i + 1].stack != [];
    }
    if HasWitness(inputs) && inputs[0].stack == [] {
      var i :| 0 <= i < |inputs| && inputs[i].stack != [];
      assert inputs[1..][i - 1].stack != [];
    }
  }

  lemma {:induction false} SaysFirst(missing: seq<Option<Satisfaction>>)
    requires missing != []
    ensures SaysWitness(missing) <==> (missing[0].Some? && missing[0].value.witnessed) || SaysWitness(missing[1..])
  {
    if SaysWitness(missing[1..]) {
      var i :| 0 <= i < |missing[1..]| && missing[1..][i].Some? && missing[1..][i].value.witnessed;
      assert missing[i + 1].Some? && missing[i + 1].value.witnessed;
    }
    if SaysWitness(missing) && !(missing[0].Some? && missing[0].value.witnessed) {
      var i :| 0 <= i < |missing| && missing[i].Some? && missing[i].value.witnessed;
      assert missing[1..][i - 1].Some? && missing[1..][i - 1].value.witnessed;
    }
  }

  lemma {:induction false} StrippedGrows(tx: Transaction, finals: seq<Option<Final>>)
    requires Empty(tx.inputs, finals)
    ensures |Stripped(Completed(tx, finals))| == |Stripped(tx)| + ScriptGrowth(finals)
  {
    hide CompactSize, LittleEndian, InputsBytes, OutputsBytes, ScriptGrowth;
    InputsGrow(tx.inputs, finals);
  }

  /** Each input counted by what it is given in the end, the weight told
      beforehand is the weight of the transaction completed, to the unit. */
  lemma {:induction false} Exact(tx: Transaction, finals: seq<Option<Final>>)
    requires Empty(tx.inputs, finals)
    ensures WeightOnceSigned(tx, Counted(finals)) == WeightOf(Completed(tx, finals))
  {
    hide Stripped, HasWitness, SaysWitness, WitnessesSize, ScriptGrowth, WitnessGrowth, Added, Counted, SignedAll;
    StrippedGrows(tx, finals);
    InputsGrow(tx.inputs, finals);
    AddedIs(finals);
    WitnessSaid(tx.inputs, finals);
    WeightCounts(Completed(tx, finals));
  }

  /** An estimate that is never short: the weight, and the word that there is
      a witness. */
  ghost predicate Ample(missing: seq<Option<Satisfaction>>, finals: seq<Option<Final>>) {
    |missing| == |finals| && forall i :: 0 <= i < |finals| && finals[i].Some? ==>
      && missing[i].Some? && OfFinal(finals[i].value).weight <= missing[i].value.weight
      && (OfFinal(finals[i].value).witnessed ==> missing[i].value.witnessed)
  }

  lemma {:induction false} AmpleAdded(missing: seq<Option<Satisfaction>>, finals: seq<Option<Final>>)
    requires Ample(missing, finals)
    ensures Added(Counted(finals)) <= Added(missing)
    ensures SaysWitness(Counted(finals)) ==> SaysWitness(missing)
  {
    hide OfFinal;
    if finals != [] {
      AmpleAdded(missing[1..], finals[1..]);
      SaysFirst(missing);
      SaysFirst(Counted(finals));
    }
  }

  /** The size of the skeleton, of the transaction completed, and of the
      estimate are in this order: a rate by the skeleton is the most it can
      be, one by the estimate never too high. */
  lemma {:induction false} Between(tx: Transaction, missing: seq<Option<Satisfaction>>, finals: seq<Option<Final>>)
    requires Empty(tx.inputs, finals) && Ample(missing, finals)
    ensures VbytesCeil(WeightOf(tx)) <= VbytesCeil(WeightOf(Completed(tx, finals)))
            <= VbytesCeil(WeightOnceSigned(tx, missing))
  {
    hide Stripped, HasWitness, SaysWitness, WitnessesSize, ScriptGrowth, WitnessGrowth, Added, Counted, SignedAll,
        Ample, Empty, WeightOf;
    Exact(tx, finals);
    AmpleAdded(missing, finals);
    WeightCounts(tx);
  }
}
