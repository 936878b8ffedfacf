/** Versions read, printed and ordered (src/updates.rs, `Version`), as
    Semantic Versioning 2.0.0, sections 9 to 11, has them. A text accepted is
    ASCII throughout, so its length in bytes is its length in characters. */
module Versions {
  import opened Wrappers
  import opened Texts

  const TAG_MAX: nat := 32

  datatype Identifier = Numeric(number: u64) | Alphanumeric(word: string)

  datatype Version = Version(numbers: seq<u64>, pre: seq<Identifier>)

  // ----- reading ---------------------------------------------------------

  predicate IsWordChar(c: char) { IsDigit(c) || 'a' <= c <= 'z' || 'A' <= c <= 'Z' || c == '-' }

  predicate IsWord(text: string) { text != "" && forall i :: 0 <= i < |text| ==> IsWordChar(text[i]) }

  function ReadIdentifier(text: string): Option<Identifier> {
    if !IsWord(text) then None
    else if AllDigits(text) then
      var number := Number(text);
      if number.None? then None else Some(Numeric(number.value))
    else Some(Alphanumeric(text))
  }

  function ReadIdentifiers(parts: seq<string>): Option<seq<Identifier>> {
    if parts == [] then Some([])
    else
      var first, rest := ReadIdentifier(parts[0]), ReadIdentifiers(parts[1..]);
      if first.None? || rest.None? then None else Some([first.value] + rest.value)
  }

  function ReadNumbers(parts: seq<string>): Option<seq<u64>> {
    if |parts| != 3 then None
    else
      var a, b, c := Number(parts[0]), Number(parts[1]), Number(parts[2]);
      if a.None? || b.None? || c.None? then None else Some([a.value, b.value, c.value])
  }

  function ReadBare(text: string): Option<Version> {
    var numbers := ReadNumbers(Split(Before(text, '-'), '.'));
    if numbers.None? then None
    else
      var after := After(text, '-');
      if after.None? then Some(Version(numbers.value, []))
      else
        var pre := ReadIdentifiers(Split(after.value, '.'));
        if pre.None? then None else Some(Version(numbers.value, pre.value))
  }

  /** One leading v taken off. */
  function Unmarked(text: string): string { if text != "" && text[0] == 'v' then text[1..] else text }

  predicate BuildReads(text: string) {
    var build := After(Unmarked(text), '+');
    build.Some? ==> AllWords(Split(build.value, '.'))
  }

  predicate AllWords(parts: seq<string>) { forall i :: 0 <= i < |parts| ==> IsWord(parts[i]) }

  /** What is read of a text: not its v, not its build metadata. */
  function Bare(text: string): string { Before(Unmarked(text), '+') }

  function Read(text: string): Option<Version> {
    if |text| > TAG_MAX || !BuildReads(text) then None else ReadBare(Bare(text))
  }

  /** `Version::parse`. */
  method Parse(text: string) returns (version: Option<Version>)
    ensures version == Read(text)
  {
    hide Split, Before, After, Number, ReadIdentifiers;
    if |text| > TAG_MAX {
      return None;
    }
    var unmarked := Unmarked(text);
    var build := After(unmarked, '+');
    if build.Some? {
      var words := Split(build.value, '.');
      if !AllWords(words) {
        return None;
      }
    }
    var bare := Before(unmarked, '+');
    var core, pre := Before(bare, '-'), After(bare, '-');
    var parts := Split(core, '.');
    var numbers: seq<u64> := [];
    while |numbers| < 3
      invariant |numbers| <= 3 && |numbers| <= |parts|
      invariant forall i :: 0 <= i < |numbers| ==> Number(parts[i]) == Some(numbers[i])
    {
      if |numbers| == |parts| || Number(parts[|numbers|]).None? {
        return None;
      }
      numbers := numbers + [Number(parts[|numbers|]).value];
    }
    if |parts| > 3 {
      return None;
    }
    assert numbers == [numbers[0], numbers[1], numbers[2]];
    assert ReadNumbers(parts) == Some(numbers);
    if pre.None? {
      return Some(Version(numbers, []));
    }
    var identifiers := ReadIdentifiers(Split(pre.value, '.'));
    version := if identifiers.None? then None else Some(Version(numbers, identifiers.value));
  }

  // ----- printing --------------------------------------------------------

  function PrintIdentifier(identifier: Identifier): string {
    match identifier
    case Numeric(number) => Decimal(number)
    case Alphanumeric(word) => word
  }

  function PrintAll(pre: seq<Identifier>): (texts: seq<string>)
    ensures |texts| == |pre|
  {
    seq(|pre|, i requires 0 <= i < |pre| => PrintIdentifier(pre[i]))
  }

  function PrintNumbers(numbers: seq<u64>): (texts: seq<string>)
    ensures |texts| == |numbers|
  {
    seq(|numbers|, i requires 0 <= i < |numbers| => Decimal(numbers[i]))
  }

  /** `Display`. */
  function Print(version: Version): string
    requires |version.numbers| == 3
  {
    Join(PrintNumbers(version.numbers), '.') + if version.pre == [] then "" else "-" + Join(PrintAll(version.pre), '.')
  }

  /** What a reading makes: three numbers, and words that are not numbers. */
  ghost predicate Proper(version: Version) {
    |version.numbers| == 3 && forall i :: 0 <= i < |version.pre| ==> ProperIdentifier(version.pre[i])
  }

  ghost predicate ProperIdentifier(identifier: Identifier) {
    identifier.Alphanumeric? ==> IsWord(identifier.word) && !AllDigits(identifier.word)
  }

  lemma {:induction false} IdentifierIs(text: string, identifier: Identifier)
    ensures ReadIdentifier(text) == Some(identifier) <==>
        ProperIdentifier(identifier) && text == PrintIdentifier(identifier)
  {
    if identifier.Numeric? {
      NumberIs(text, identifier.number);
      DecimalValue(identifier.number);
      PlainWord(Decimal(identifier.number));
    }
  }

  lemma {:induction false} PlainWord(text: string)
    requires Plain(text)
    ensures IsWord(text)
  {
  }

  lemma {:induction false} IdentifiersAre(parts: seq<string>, pre: seq<Identifier>)
    ensures ReadIdentifiers(parts) == Some(pre) <==>
            (forall i :: 0 <= i < |pre| ==> ProperIdentifier(pre[i])) && parts == PrintAll(pre)
  {
    hide ReadIdentifier, ProperIdentifier, PrintIdentifier;
    if parts != [] {
      if pre != [] {
        IdentifierIs(parts[0], pre[0]);
        IdentifiersAre(parts[1..], pre[1..]);
        assert PrintAll(pre) == [PrintIdentifier(pre[0])] + PrintAll(pre[1..]);
        assert parts == [parts[0]] + parts[1..] && pre == [pre[0]] + pre[1..];
        assert (forall i :: 0 <= i < |pre| ==> ProperIdentifier(pre[i])) <==>
          ProperIdentifier(pre[0]) && forall i :: 0 <= i < |pre[1..]| ==> ProperIdentifier(pre[1..][i]);
        assert parts == PrintAll(pre) <==> parts[0] == PrintIdentifier(pre[0]) && parts[1..] == PrintAll(pre[1..]);
        assert ReadIdentifiers(parts) == Some(pre) <==>
          ReadIdentifier(parts[0]) == Some(pre[0]) && ReadIdentifiers(parts[1..]) == Some(pre[1..]);
      }
    }
  }

  lemma {:induction false} NumbersAre(parts: seq<string>, numbers: seq<u64>)
    requires |numbers| == 3
    ensures ReadNumbers(parts) == Some(numbers) <==> parts == PrintNumbers(numbers)
  {
    hide Number, Decimal;
    if |parts| == 3 {
      NumberIs(parts[0], numbers[0]);
      NumberIs(parts[1], numbers[1]);
      NumberIs(parts[2], numbers[2]);
      assert numbers == [numbers[0], numbers[1], numbers[2]] && parts == [parts[0], parts[1], parts[2]];
    }
  }

  /** No part of a version holds what the parts are joined by. */
  lemma {:induction false} DecimalPlain(n: nat)
    ensures '.' !in Decimal(n) && '-' !in Decimal(n) && '+' !in Decimal(n) && 'v' !in Decimal(n)
  {
    DecimalValue(n);
  }

  lemma {:induction false} PrintedPlain(version: Version)
    requires Proper(version)
    ensures NoneHolds(PrintNumbers(version.numbers), '.') && NoneHolds(PrintAll(version.pre), '.')
    ensures NoneHolds(PrintNumbers(version.numbers), '-')
    ensures NoneHolds(PrintNumbers(version.numbers), '+') && NoneHolds(PrintAll(version.pre), '+')
  {
    hide Decimal;
    var numbers, pre := version.numbers, version.pre;
    forall i | 0 <= i < |numbers| ensures var t := PrintNumbers(numbers)[i]; '.' !in t && '-' !in t && '+' !in t {
      DecimalPlain(numbers[i]);
    }
    forall i | 0 <= i < |pre| ensures var t := PrintAll(pre)[i]; '.' !in t && '+' !in t {
      if pre[i].Numeric? {
        DecimalPlain(pre[i].number);
      }
    }
  }

  lemma {:induction false} JoinHolds(parts: seq<string>, glue: char, c: char)
    requires |parts| > 0 && NoneHolds(parts, c) && glue != c
    ensures c !in Join(parts, glue)
  {
    if |parts| > 1 {
      assert forall i :: 0 <= i < |parts[1..]| ==> parts[1..][i] == parts[i + 1];
      JoinHolds(parts[1..], glue, c);
    }
  }

  lemma {:induction false} BareIs(text: string, version: Version)
    requires |version.numbers| == 3
    ensures ReadBare(text) == Some(version) <==> Proper(version) && text == Print(version)
  {
    if Proper(version) && text == Print(version) {
      PrintReads(version);
    }
    if ReadBare(text) == Some(version) {
      ReadPrints(text, version);
    }
  }

  lemma {:induction false} PrintReads(version: Version)
    requires Proper(version)
    ensures ReadBare(Print(version)) == Some(version)
  {
    hide Split, Before, After, Number, Decimal, PrintIdentifier, ReadIdentifier, Join, ReadNumbers, ReadIdentifiers,
        ProperIdentifier;
    var numbers, pre := PrintNumbers(version.numbers), PrintAll(version.pre);
    PrintedPlain(version);
    JoinHolds(numbers, '.', '-');
    JoinSplits(numbers, '.');
    NumbersAre(numbers, version.numbers);
    if version.pre == [] {
      CutAt(Join(numbers, '.'), "", '-');
    } else {
      CutAt(Join(numbers, '.'), "-" + Join(pre, '.'), '-');
      assert ("-" + Join(pre, '.'))[1..] == Join(pre, '.');
      JoinSplits(pre, '.');
      IdentifiersAre(pre, version.pre);
    }
  }

  lemma {:induction false} ReadPrints(text: string, version: Version)
    requires |version.numbers| == 3 && ReadBare(text) == Some(version)
    ensures Proper(version) && text == Print(version)
  {
    hide Split, Before, After, Number, Decimal, PrintIdentifier, ReadIdentifier, Join, ReadNumbers, ReadIdentifiers,
        ProperIdentifier;
    CutOnce(text, '-');
    SplitJoins(Before(text, '-'), '.');
    NumbersAre(Split(Before(text, '-'), '.'), version.numbers);
    if After(text, '-').Some? {
      var pre := Split(After(text, '-').value, '.');
      SplitJoins(After(text, '-').value, '.');
      IdentifiersAre(pre, version.pre);
    }
  }

  lemma {:induction false} ReadThree(text: string)
    ensures Read(text).Some? ==> |Read(text).value.numbers| == 3
  {
  }

  /** A text reads as a version exactly when, without its v and its build
      metadata, it is that version printed. */
  lemma {:induction false} ReadIs(text: string, version: Version)
    requires |version.numbers| == 3
    ensures Read(text) == Some(version) <==>
            |text| <= TAG_MAX && BuildReads(text) && Proper(version) && Bare(text) == Print(version)
  {
    hide ReadBare, Print, Proper, BuildReads;
    BareIs(Bare(text), version);
  }

  lemma {:induction false} PrintBare(version: Version)
    requires Proper(version)
    ensures Bare(Print(version)) == Print(version) && BuildReads(Print(version))
  {
    hide Split, Decimal, PrintIdentifier, Join, ProperIdentifier, Before, After;
    var text, numbers, pre := Print(version), PrintNumbers(version.numbers), PrintAll(version.pre);
    PrintedPlain(version);
    JoinHolds(numbers, '.', '+');
    if version.pre != [] {
      JoinHolds(pre, '.', '+');
    }
    assert '+' !in text;
    PrintUnmarked(version);
    CutOnce(text, '+');
  }

  lemma {:induction false} PrintUnmarked(version: Version)
    requires |version.numbers| == 3
    ensures Unmarked(Print(version)) == Print(version)
  {
    var first := Decimal(version.numbers[0]);
    DecimalPlain(version.numbers[0]);
    DecimalValue(version.numbers[0]);
    JoinStarts(PrintNumbers(version.numbers));
    assert Print(version)[0] == first[0];
    assert first[0] in first;
  }

  lemma {:induction false} JoinStarts(parts: seq<string>)
    requires |parts| > 0 && parts[0] != ""
    ensures Join(parts, '.') != "" && Join(parts, '.')[0] == parts[0][0]
  {
  }

  lemma {:induction false} BareShorter(text: string)
    ensures |Bare(text)| <= |text|
  {
    CutOnce(Unmarked(text), '+');
  }

  /** What was read is kept and shown in one form, which reads as the same
      version. */
  lemma {:induction false} RoundTrip(text: string)
    requires Read(text).Some?
    ensures var version := Read(text).value;
            Proper(version) && Print(version) == Bare(text) && Read(Print(version)) == Some(version)
  {
    hide Read, Print, Proper, Bare, BuildReads;
    ReadThree(text);
    var version := Read(text).value;
    ReadIs(text, version);
    PrintBare(version);
    BareShorter(text);
    ReadIs(Print(version), version);
  }

  // ----- the grammar -----------------------------------------------------

  /** A digit, a letter of ASCII in either case, or a hyphen. */
  predicate Lettered(c: char) {
    var n := c as int;
    n == 45 || 48 <= n <= 57 || 65 <= n <= 90 || 97 <= n <= 122
  }

  ghost predicate Word(text: string) { text != "" && forall i :: 0 <= i < |text| ==> Lettered(text[i]) }

  lemma {:induction false} WordIs(text: string)
    ensures Word(text) <==> IsWord(text)
    ensures IsWord(text) ==> '.' !in text && '+' !in text
  {
    hide IsWordChar, Lettered;
    forall i | 0 <= i < |text| ensures Lettered(text[i]) <==> IsWordChar(text[i]) {
      LetteredIs(text[i]);
    }
    LetteredIs('.');
    LetteredIs('+');
  }

  lemma {:induction false} LetteredIs(c: char)
    ensures (Lettered(c) <==> IsWordChar(c)) && (IsWordChar(c) ==> c != '.' && c != '+')
  {
  }

  /** Section 10: a plus, and words between dots. */
  ghost predicate Build(text: string) {
    text == "" || exists words: seq<string> :: BuildOf(text, words)
  }

  ghost predicate BuildOf(text: string, words: seq<string>) {
    && |words| > 0 && text == "+" + Join(words, '.')
    && forall i :: 0 <= i < |words| ==> Word(words[i])
  }

  /** Sections 2 and 9: three numbers between dots, and what sets a pre-release
      apart after a hyphen. */
  ghost predicate Spells(text: string, version: Version) {
    && |version.numbers| == 3
    && text == Decimal(version.numbers[0]) + "." + Decimal(version.numbers[1]) + "." + Decimal(version.numbers[2])
               + (if version.pre == [] then "" else "-" + Join(PrintAll(version.pre), '.'))
    && forall i :: 0 <= i < |version.pre| && version.pre[i].Alphanumeric? ==>
         var word := version.pre[i].word;
         Word(word) && exists k :: 0 <= k < |word| && !('0' <= word[k] <= '9')
  }

  lemma {:induction false} SpellsIs(text: string, version: Version)
    ensures Spells(text, version) <==> Proper(version) && text == Print(version)
  {
    hide Decimal, Join, PrintAll, IsWord, Word;
    if |version.numbers| == 3 {
      JoinThree(version.numbers);
      forall i | 0 <= i < |version.pre| && version.pre[i].Alphanumeric?
        ensures ProperIdentifier(version.pre[i]) <==>
                var word := version.pre[i].word;
                Word(word) && exists k :: 0 <= k < |word| && !('0' <= word[k] <= '9')
      {
        WordIs(version.pre[i].word);
      }
    }
  }

  lemma {:induction false} JoinThree(numbers: seq<u64>)
    requires |numbers| == 3
    ensures Join(PrintNumbers(numbers), '.') ==
            Decimal(numbers[0]) + "." + Decimal(numbers[1]) + "." + Decimal(numbers[2])
  {
    hide Decimal;
    var parts := PrintNumbers(numbers);
    assert parts[1..][1..] == [parts[2]] && parts[1..][0] == parts[1];
    var a, b, c := parts[0], parts[1], parts[2];
    assert Join(parts[1..][1..], '.') == c;
    assert Join(parts[1..], '.') == b + ['.'] + c;
    assert Join(parts, '.') == a + ['.'] + (b + ['.'] + c);
    assert a + ['.'] + (b + ['.'] + c) == a + "." + b + "." + c;
  }

  lemma {:induction false} BuildIs(text: string)
    ensures Build("+" + text) <==> AllWords(Split(text, '.'))
  {
    hide Split, AllWords, BuildOf;
    if words: seq<string> :| BuildOf("+" + text, words) {
      BuildSplits(text, words);
    }
    if AllWords(Split(text, '.')) {
      SplitJoins(text, '.');
      WordsBuild(text, Split(text, '.'));
    }
  }

  lemma {:induction false} BuildSplits(text: string, words: seq<string>)
    requires BuildOf("+" + text, words)
    ensures AllWords(Split(text, '.'))
  {
    hide Split, Join, Word, IsWord;
    assert ("+" + text)[1..] == text && ("+" + Join(words, '.'))[1..] == Join(words, '.');
    forall i | 0 <= i < |words| ensures IsWord(words[i]) && '.' !in words[i] {
      WordIs(words[i]);
    }
    JoinSplits(words, '.');
  }

  lemma {:induction false} WordsBuild(text: string, words: seq<string>)
    requires AllWords(words) && |words| > 0 && text == Join(words, '.')
    ensures BuildOf("+" + text, words)
  {
    hide Join, Word, IsWord;
    forall i | 0 <= i < |words| ensures Word(words[i]) {
      WordIs(words[i]);
    }
  }

  /** What a text is cut into when it reads as a version: a v or none, the
      version, and what of the build there is. */
  ghost predicate Tagged(text: string, mark: string, core: string, build: string) {
    text == mark + core + build && mark in {"", "v"} && Build(build)
  }

  lemma {:induction false} TaggedReads(text: string, mark: string, version: Version, build: string)
    requires Proper(version) && Tagged(text, mark, Print(version), build)
    ensures Bare(text) == Print(version) && BuildReads(text)
  {
    hide Print, ProperIdentifier, Join, Split, Build, Before, After, Unmarked, AllWords;
    var core := Print(version);
    PrintStarts(version);
    MarkOff(mark, core, build);
    BuildStarts(build);
    CutAt(core, build, '+');
    if build != "" {
      assert build == "+" + build[1..];
      BuildIs(build[1..]);
    }
  }

  lemma {:induction false} BuildStarts(build: string)
    requires Build(build)
    ensures build == "" || build[0] == '+'
  {
  }

  lemma {:induction false} PrintStarts(version: Version)
    requires Proper(version)
    ensures Print(version) != "" && Print(version)[0] != 'v' && '+' !in Print(version)
  {
    hide Before, After, Join, Decimal, PrintIdentifier, ProperIdentifier;
    PrintBare(version);
    CutOnce(Unmarked(Print(version)), '+');
    DecimalPlain(version.numbers[0]);
    DecimalValue(version.numbers[0]);
    JoinStarts(PrintNumbers(version.numbers));
    var first := Decimal(version.numbers[0]);
    assert Print(version)[0] == first[0] && first[0] in first;
  }

  lemma {:induction false} MarkOff(mark: string, core: string, build: string)
    requires mark in {"", "v"} && core != "" && core[0] != 'v'
    ensures Unmarked(mark + core + build) == core + build
  {
    var text := mark + core + build;
    if mark == "" {
      assert text == core + build && text[0] == core[0];
    } else {
      assert text[0] == 'v' && text[1..] == core + build;
    }
  }

  lemma {:induction false} ReadsTagged(text: string)
    requires BuildReads(text)
    ensures exists mark, build :: Tagged(text, mark, Bare(text), build)
  {
    hide Before, After, Split, Build, AllWords;
    var unmarked := Unmarked(text);
    var mark := if text != "" && text[0] == 'v' then "v" else "";
    var after := After(unmarked, '+');
    var build := if after.Some? then "+" + after.value else "";
    CutOnce(unmarked, '+');
    if after.Some? {
      BuildIs(after.value);
    }
    NoBuild();
    assert text == mark + unmarked;
    assert text == mark + Bare(text) + build;
    assert Tagged(text, mark, Bare(text), build);
  }

  lemma {:induction false} NoBuild()
    ensures Build("")
  {
  }

  /** A text of 32 letters at most reads as a version exactly if it is one spelled
      as Semantic Versioning has it, a v before it or none, and perhaps build
      metadata after it. */
  lemma {:induction false} ReadsSpelled(text: string, version: Version)
    ensures Read(text) == Some(version) <==>
              |text| <= 32 && exists mark, core, build :: Tagged(text, mark, core, build) && Spells(core, version)
  {
    hide Read, Print, Proper, Bare, BuildReads, Spells, Tagged;
    ReadThree(text);
    SpellsThree(version);
    if |version.numbers| == 3 {
      ReadIs(text, version);
      if Read(text) == Some(version) {
        ReadsTagged(text);
        var mark, build :| Tagged(text, mark, Bare(text), build);
        SpellsIs(Bare(text), version);
      }
      if mark, core, build :| |text| <= 32 && Tagged(text, mark, core, build) && Spells(core, version) {
        SpellsIs(core, version);
        TaggedReads(text, mark, version, build);
      }
    }
  }

  lemma {:induction false} SpellsThree(version: Version)
    ensures forall core :: Spells(core, version) ==> |version.numbers| == 3
  {
  }

  // ----- the order -------------------------------------------------------

  datatype Ordering = Less | Equal | Greater

  function CompareNumbers(a: nat, b: nat): Ordering { if a < b then Less else if a == b then Equal else Greater }

  /** The order `str` has: by byte, and a prefix first. */
  function CompareWords(a: string, b: string): Ordering {
    if a == "" then if b == "" then Equal else Less
    else if b == "" then Greater
    else if a[0] != b[0] then if a[0] < b[0] then Less else Greater
    else CompareWords(a[1..], b[1..])
  }

  /** The order the source derives: a number before a word. */
  function CompareIdentifiers(a: Identifier, b: Identifier): Ordering {
    match (a, b)
    case (Numeric(m), Numeric(n)) => CompareNumbers(m, n)
    case (Numeric(_), Alphanumeric(_)) => Less
    case (Alphanumeric(_), Numeric(_)) => Greater
    case (Alphanumeric(v), Alphanumeric(w)) => CompareWords(v, w)
  }

  function CompareAll(a: seq<Identifier>, b: seq<Identifier>): Ordering {
    if a == [] then if b == [] then Equal else Less
    else if b == [] then Greater
    else
      var first := CompareIdentifiers(a[0], b[0]);
      if first != Equal then first else CompareAll(a[1..], b[1..])
  }

  function CompareCores(a: seq<u64>, b: seq<u64>): Ordering
    requires |a| == |b|
  {
    if a == [] then Equal
    else
      var first := CompareNumbers(a[0], b[0]);
      if first != Equal then first else CompareCores(a[1..], b[1..])
  }

  /** `cmp`. */
  function Compare(a: Version, b: Version): Ordering
    requires |a.numbers| == 3 && |b.numbers| == 3
  {
    var cores := CompareCores(a.numbers, b.numbers);
    if cores != Equal then cores
    else if a.pre == [] then if b.pre == [] then Equal else Greater
    else if b.pre == [] then Less
    else CompareAll(a.pre, b.pre)
  }

  /** A release. */
  predicate IsRelease(version: Version) { version.pre == [] }

  // ----- precedence as section 11 puts it --------------------------------

  /** Words in ASCII order: the first letter that differs, or what is left. */
  ghost predicate WordPrecedes(a: string, b: string) {
    (a < b) || exists k :: 0 <= k < |a| && k < |b| && a[..k] == b[..k] && a[k] < b[k]
  }

  /** Items 1, 2 and 3 of 11.4. */
  ghost predicate IdentifierPrecedes(a: Identifier, b: Identifier) {
    if a.Numeric? && b.Numeric? then a.number < b.number
    else if a.Alphanumeric? && b.Alphanumeric? then WordPrecedes(a.word, b.word)
    else a.Numeric?
  }

  /** 11.4: the first identifier that differs decides, or, none differing, a
      smaller set of them. */
  ghost predicate PrePrecedes(a: seq<Identifier>, b: seq<Identifier>) {
    (a < b) || exists k :: 0 <= k < |a| && k < |b| && a[..k] == b[..k] && IdentifierPrecedes(a[k], b[k])
  }

  /** 11.2: the first number that differs. */
  ghost predicate CorePrecedes(a: seq<u64>, b: seq<u64>) {
    exists k :: 0 <= k < |a| && k < |b| && a[..k] == b[..k] && a[k] < b[k]
  }

  /** Section 11, 11.3 for a release after its pre-releases. */
  ghost predicate Precedes(a: Version, b: Version) {
    || CorePrecedes(a.numbers, b.numbers)
    || (a.numbers == b.numbers && !IsRelease(a) && (IsRelease(b) || PrePrecedes(a.pre, b.pre)))
  }

  /** Two sequences agree up to a place as their heads and tails do. */
  lemma {:induction false} CutSame<T>(a: seq<T>, b: seq<T>, k: nat)
    requires 0 < k <= |a| && k <= |b|
    ensures a[..k] == b[..k] <==> a[0] == b[0] && a[1..][..k - 1] == b[1..][..k - 1]
  {
    assert a[..k] == [a[0]] + a[1..][..k - 1] && b[..k] == [b[0]] + b[1..][..k - 1];
  }

  lemma {:induction false} PrefixSame<T>(a: seq<T>, b: seq<T>)
    requires a != [] && b != []
    ensures a < b <==> a[0] == b[0] && a[1..] < b[1..]
    ensures a == b <==> a[0] == b[0] && a[1..] == b[1..]
  {
    assert a == [a[0]] + a[1..] && b == [b[0]] + b[1..];
  }

  lemma {:induction false} WordDiffers(a: string, b: string)
    requires a != "" && b != ""
    ensures WordPrecedes(a, b) <==> a[0] < b[0] || (a[0] == b[0] && WordPrecedes(a[1..], b[1..]))
  {
    PrefixSame(a, b);
    if WordPrecedes(a, b) && !(a < b) {
      var k :| 0 <= k < |a| && k < |b| && a[..k] == b[..k] && a[k] < b[k];
      if k > 0 {
        CutSame(a, b, k);
        assert a[1..][k - 1] < b[1..][k - 1];
      }
    }
    if a[0] < b[0] {
      assert a[..0] == b[..0];
    } else if a[0] == b[0] && WordPrecedes(a[1..], b[1..]) && !(a[1..] < b[1..]) {
      var k :| 0 <= k < |a[1..]| && k < |b[1..]| && a[1..][..k] == b[1..][..k] && a[1..][k] < b[1..][k];
      CutSame(a, b, k + 1);
      assert a[..k + 1] == b[..k + 1] && a[k + 1] < b[k + 1];
    }
  }

  lemma {:induction false} WordsCompare(a: string, b: string)
    ensures CompareWords(a, b) == Less <==> WordPrecedes(a, b)
    ensures CompareWords(a, b) == Equal <==> a == b
    ensures CompareWords(a, b) == Greater <==> CompareWords(b, a) == Less
  {
    if a != "" && b != "" {
      hide WordPrecedes;
      WordDiffers(a, b);
      PrefixSame(a, b);
      if a[0] == b[0] {
        WordsCompare(a[1..], b[1..]);
      }
    }
  }

  lemma {:induction false} IdentifiersCompare(a: Identifier, b: Identifier)
    ensures CompareIdentifiers(a, b) == Less <==> IdentifierPrecedes(a, b)
    ensures CompareIdentifiers(a, b) == Equal <==> a == b
    ensures CompareIdentifiers(a, b) == Greater <==> CompareIdentifiers(b, a) == Less
  {
    if a.Alphanumeric? && b.Alphanumeric? {
      WordsCompare(a.word, b.word);
    }
  }

  lemma {:induction false} AllCompare(a: seq<Identifier>, b: seq<Identifier>)
    ensures CompareAll(a, b) == Less <==> PrePrecedes(a, b)
    ensures CompareAll(a, b) == Equal <==> a == b
    ensures CompareAll(a, b) == Greater <==> CompareAll(b, a) == Less
  {
    hide CompareIdentifiers, IdentifierPrecedes;
    if a != [] && b != [] {
      IdentifiersCompare(a[0], b[0]);
      IdentifiersCompare(b[0], a[0]);
      IdentifiersCompare(a[0], a[0]);
      AllCompare(a[1..], b[1..]);
      FirstDiffers(a, b);
    }
  }

  lemma {:induction false} FirstDiffers(a: seq<Identifier>, b: seq<Identifier>)
    requires a != [] && b != [] && !IdentifierPrecedes(a[0], a[0])
    ensures PrePrecedes(a, b) <==> IdentifierPrecedes(a[0], b[0]) || (a[0] == b[0] && PrePrecedes(a[1..], b[1..]))
    ensures a == b <==> a[0] == b[0] && a[1..] == b[1..]
  {
    hide IdentifierPrecedes;
    PrefixSame(a, b);
    if PrePrecedes(a, b) && !(a < b) {
      var k :| 0 <= k < |a| && k < |b| && a[..k] == b[..k] && IdentifierPrecedes(a[k], b[k]);
      if k > 0 {
        CutSame(a, b, k);
        assert IdentifierPrecedes(a[1..][k - 1], b[1..][k - 1]);
      }
    }
    if IdentifierPrecedes(a[0], b[0]) {
      assert a[..0] == b[..0];
    } else if a[0] == b[0] && PrePrecedes(a[1..], b[1..]) && !(a[1..] < b[1..]) {
      var k :| 0 <= k < |a[1..]| && k < |b[1..]| && a[1..][..k] == b[1..][..k] &&
          IdentifierPrecedes(a[1..][k], b[1..][k]);
      CutSame(a, b, k + 1);
      assert a[..k + 1] == b[..k + 1] && IdentifierPrecedes(a[k + 1], b[k + 1]);
    }
  }

  lemma {:induction false} CoresCompare(a: seq<u64>, b: seq<u64>)
    requires |a| == |b| == 3
    ensures CompareCores(a, b) == Less <==> CorePrecedes(a, b)
    ensures CompareCores(a, b) == Equal <==> a == b
    ensures CompareCores(a, b) == Greater <==> CompareCores(b, a) == Less
  {
    CoresAt(a, b);
    CoresAt(b, a);
    assert a == [a[0], a[1], a[2]] && b == [b[0], b[1], b[2]];
    assert a[..0] == b[..0];
    assert a[..1] == [a[0]] && b[..1] == [b[0]];
    assert a[..2] == [a[0], a[1]] && b[..2] == [b[0], b[1]];
  }

  lemma {:induction false} CoresAt(a: seq<u64>, b: seq<u64>)
    requires |a| == |b| == 3
    ensures CompareCores(a, b) ==
            if a[0] != b[0] then CompareNumbers(a[0], b[0])
            else if a[1] != b[1] then CompareNumbers(a[1], b[1]) else CompareNumbers(a[2], b[2])
  {
    assert a[1..][0] == a[1] && b[1..][0] == b[1] && a[1..][1..] == [a[2]] && b[1..][1..] == [b[2]];
    assert [a[2]][1..] == [] && [b[2]][1..] == [];
    assert CompareCores([a[2]], [b[2]]) == CompareNumbers(a[2], b[2]);
  }

  /** `cmp` is section 11 to the letter, and tells apart all but equal
      versions. */
  lemma {:induction false} ComparePrecedes(a: Version, b: Version)
    requires |a.numbers| == 3 && |b.numbers| == 3
    ensures Compare(a, b) == Less <==> Precedes(a, b)
    ensures Compare(a, b) == Equal <==> a == b
    ensures Compare(a, b) == Greater <==> Precedes(b, a)
  {
    hide CompareCores, CorePrecedes, CompareAll, PrePrecedes;
    CoresCompare(a.numbers, b.numbers);
    CoresCompare(b.numbers, a.numbers);
    AllCompare(a.pre, b.pre);
    AllCompare(b.pre, a.pre);
  }

  lemma {:induction false} WordsChain(a: string, b: string, c: string)
    requires CompareWords(a, b) == Less && CompareWords(b, c) == Less
    ensures CompareWords(a, c) == Less
  {
    if a != "" && a[0] == b[0] && b[0] == c[0] {
      WordsChain(a[1..], b[1..], c[1..]);
    }
  }

  lemma {:induction false} IdentifiersChain(a: Identifier, b: Identifier, c: Identifier)
    requires CompareIdentifiers(a, b) == Less && CompareIdentifiers(b, c) == Less
    ensures CompareIdentifiers(a, c) == Less
  {
    if a.Alphanumeric? {
      WordsChain(a.word, b.word, c.word);
    }
  }

  lemma {:induction false} AllChain(a: seq<Identifier>, b: seq<Identifier>, c: seq<Identifier>)
    requires CompareAll(a, b) == Less && CompareAll(b, c) == Less
    ensures CompareAll(a, c) == Less
  {
    hide CompareIdentifiers;
    if a != [] {
      IdentifiersCompare(a[0], b[0]);
      IdentifiersCompare(b[0], c[0]);
      if a[0] == b[0] == c[0] {
        AllChain(a[1..], b[1..], c[1..]);
      } else if a[0] != b[0] && b[0] != c[0] {
        IdentifiersChain(a[0], b[0], c[0]);
      }
    }
  }

  /** Versions are totally ordered. */
  lemma {:induction false} CompareChain(a: Version, b: Version, c: Version)
    requires |a.numbers| == 3 && |b.numbers| == 3 && |c.numbers| == 3
    requires Compare(a, b) != Greater && Compare(b, c) != Greater
    ensures Compare(a, c) != Greater && (Compare(a, c) == Equal ==> a == b == c)
  {
    hide CompareCores, CompareAll, Precedes;
    ComparePrecedes(a, b);
    ComparePrecedes(b, c);
    if a != b && b != c {
      CoresChain(a.numbers, b.numbers, c.numbers);
      CoresCompare(a.numbers, b.numbers);
      CoresCompare(b.numbers, c.numbers);
      if a.pre != [] && b.pre != [] && c.pre != [] && CompareAll(a.pre, b.pre) == Less &&
          CompareAll(b.pre, c.pre) == Less {
        AllChain(a.pre, b.pre, c.pre);
      }
    }
  }

  lemma {:induction false} CoresChain(a: seq<u64>, b: seq<u64>, c: seq<u64>)
    requires |a| == |b| == |c| == 3
    ensures CompareCores(a, b) != Greater && CompareCores(b, c) != Greater ==>
              CompareCores(a, c) == if CompareCores(a, b) == Equal then CompareCores(b, c) else Less
  {
    hide CompareCores;
    CoresAt(a, b);
    CoresAt(b, c);
    CoresAt(a, c);
  }
}
