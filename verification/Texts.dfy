/** Texts cut and read as Rust's `str` methods do: `split`, `split_once`, and
    unsigned decimal numbers. */
module Texts {
  import opened Wrappers

  // ----- split and split_once --------------------------------------------

  function Split(text: string, c: char): (parts: seq<string>)
    ensures |parts| > 0
  {
    if text == "" then [""]
    else
      var rest := Split(text[1..], c);
      if text[0] == c then [""] + rest else [[text[0]] + rest[0]] + rest[1..]
  }

  function Join(parts: seq<string>, c: char): string
    requires |parts| > 0
  {
    if |parts| == 1 then parts[0] else parts[0] + [c] + Join(parts[1..], c)
  }

  ghost predicate NoneHolds(parts: seq<string>, c: char) { forall i :: 0 <= i < |parts| ==> c !in parts[i] }

  lemma {:induction false} SplitJoins(text: string, c: char)
    ensures Join(Split(text, c), c) == text && NoneHolds(Split(text, c), c)
  {
    if text != "" {
      SplitJoins(text[1..], c);
      var rest := Split(text[1..], c);
      if text[0] == c {
        assert ([""] + rest)[1..] == rest;
        assert text == "" + [c] + text[1..];
      } else {
        JoinFirst([text[0]], rest, c);
        assert [text[0]] + text[1..] == text;
      }
    }
  }

  lemma {:induction false} JoinFirst(first: string, parts: seq<string>, c: char)
    requires |parts| > 0
    ensures Join([first + parts[0]] + parts[1..], c) == first + Join(parts, c)
  {
    if |parts| > 1 {
      assert ([first + parts[0]] + parts[1..])[1..] == parts[1..];
      assert first + parts[0] + [c] + Join(parts[1..], c) == first + (parts[0] + [c] + Join(parts[1..], c));
    }
  }

  lemma {:induction false} SplitNothing(c: char)
    ensures Split("", c) == [""]
  {
  }

  lemma {:induction false} SplitFirst(text: string, c: char)
    requires text != ""
    ensures Split(text, c) == if text[0] == c then [""] + Split(text[1..], c)
            else [[text[0]] + Split(text[1..], c)[0]] + Split(text[1..], c)[1..]
  {
  }

  lemma {:induction false} JoinSplits(parts: seq<string>, c: char)
    requires |parts| > 0 && NoneHolds(parts, c)
    ensures Split(Join(parts, c), c) == parts
    decreases |parts|, |parts[0]|
  {
    hide Split;
    if parts[0] != "" {
      var first := parts[0];
      var less := [first[1..]] + parts[1..];
      assert c !in first && forall i :: 0 <= i < |first[1..]| ==> first[1..][i] == first[i + 1];
      assert forall i :: 1 <= i < |parts| ==> less[i] == parts[i];
      JoinSplits(less, c);
      JoinFirst([first[0]], less, c);
      assert [first[0]] + first[1..] == first;
      assert less[1..] == parts[1..];
      assert [[first[0]] + less[0]] + less[1..] == parts;
      assert Join(parts, c) == [first[0]] + Join(less, c);
      assert Join(parts, c)[1..] == Join(less, c);
      SplitFirst(Join(parts, c), c);
    } else if |parts| > 1 {
      JoinSplits(parts[1..], c);
      assert Join(parts, c) == [c] + Join(parts[1..], c);
      assert Join(parts, c)[1..] == Join(parts[1..], c);
      assert parts == [""] + parts[1..];
      SplitFirst(Join(parts, c), c);
    } else {
      SplitNothing(c);
      assert parts == [""];
    }
  }

  /** `split_once`: what is before the first `c`, and after it if it is
      there. */
  function Before(text: string, c: char): string {
    if text == "" || text[0] == c then "" else [text[0]] + Before(text[1..], c)
  }

  function After(text: string, c: char): Option<string> {
    if text == "" then None else if text[0] == c then Some(text[1..]) else After(text[1..], c)
  }

  lemma {:induction false} CutOnce(text: string, c: char)
    ensures c !in Before(text, c)
    ensures text == Before(text, c) + if After(text, c).Some? then [c] + After(text, c).value else ""
    ensures After(text, c).Some? <==> c in text
  {
    if text == "" || text[0] == c {
      CutNow(text, c);
    } else {
      CutLater(text, c);
      hide Before, After;
      CutOnce(text[1..], c);
      assert text == [text[0]] + text[1..];
      var before, after := Before(text[1..], c), After(text[1..], c);
      var tail := if after.Some? then [c] + after.value else "";
      assert [text[0]] + (before + tail) == ([text[0]] + before) + tail;
    }
  }

  lemma {:induction false} CutNow(text: string, c: char)
    requires text == "" || text[0] == c
    ensures Before(text, c) == "" && After(text, c) == if text == "" then None else Some(text[1..])
    ensures text == "" || text == [c] + text[1..]
  {
  }

  lemma {:induction false} CutLater(text: string, c: char)
    requires text != "" && text[0] != c
    ensures Before(text, c) == [text[0]] + Before(text[1..], c) && After(text, c) == After(text[1..], c)
  {
  }

  lemma {:induction false} CutAt(before: string, rest: string, c: char)
    requires c !in before && (rest == "" || rest[0] == c)
    ensures Before(before + rest, c) == before
    ensures After(before + rest, c) == if rest == "" then None else Some(rest[1..])
  {
    if before == "" {
      assert before + rest == rest;
    } else {
      assert (before + rest)[1..] == before[1..] + rest;
      CutAt(before[1..], rest, c);
    }
  }

  // ----- decimal numbers -------------------------------------------------

  predicate IsDigit(c: char) { '0' <= c <= '9' }

  predicate AllDigits(text: string) { forall i :: 0 <= i < |text| ==> IsDigit(text[i]) }

  function DigitOf(n: nat): (c: char)
    requires n < 10
    ensures IsDigit(c)
  {
    (n + 48) as char
  }

  function Decimal(n: nat): string {
    if n < 10 then [DigitOf(n)] else Decimal(n / 10) + [DigitOf(n % 10)]
  }

  function Value(text: string): nat
    requires AllDigits(text)
  {
    if text == "" then 0 else Value(text[..|text| - 1]) * 10 + (text[|text| - 1] as int - 48)
  }

  /** Digits with no leading zero. */
  predicate Plain(text: string) { text != "" && AllDigits(text) && (|text| > 1 ==> text[0] != '0') }

  lemma {:induction false} DecimalValue(n: nat)
    ensures Plain(Decimal(n)) && Value(Decimal(n)) == n
    ensures n > 0 ==> Decimal(n)[0] != '0'
  {
    if n >= 10 {
      DecimalValue(n / 10);
      assert Decimal(n)[..|Decimal(n)| - 1] == Decimal(n / 10);
    } else {
      assert [DigitOf(n)][..0] == "";
    }
  }

  lemma {:induction false} ValueDecimal(text: string)
    requires Plain(text)
    ensures Decimal(Value(text)) == text
    ensures text[0] != '0' ==> Value(text) > 0
  {
    var front, last := text[..|text| - 1], text[|text| - 1];
    assert text == front + [last];
    if |text| > 1 {
      assert front[0] == text[0];
      ValueDecimal(front);
      var v := Value(front);
      assert Value(text) == v * 10 + (last as int - 48);
      assert Value(text) / 10 == v && Value(text) % 10 == last as int - 48;
    } else {
      assert Value(front) == 0;
    }
  }

  /** `number`: what fits of what is plain. */
  function Number(text: string): Option<u64> {
    if Plain(text) && Value(text) <= U64_MAX then Some(Value(text)) else None
  }

  lemma {:induction false} NumberIs(text: string, n: u64)
    ensures Number(text) == Some(n) <==> text == Decimal(n)
  {
    DecimalValue(n);
    if Number(text) == Some(n) {
      ValueDecimal(text);
    }
  }
}
