/** Lines read off a stream within a bound (src/chain/net.rs,
    `LineReader`). What comes of each read is arbitrary: some bytes, the end of
    the stream, a failure, or the call dropped while it waits, to be made
    again later. */
module LineReader {
  import opened Wrappers

  const LF: byte := 10
  const CR: byte := 13
  const CHUNK: nat := 4096

  datatype Reading = Bytes(data: seq<byte>) | Closed | Broken | Dropped

  /** What a call comes to; `Cancelled` when it is dropped at a read, the next
      reading on from there, or when nothing more comes. */
  datatype Answer = Line(line: seq<byte>) | End | TooLong | Failed | Cancelled

  // ----- splitting -------------------------------------------------------

  /** A text cut at its line ends: the pieces that have one, without it, and
      what follows the last. */
  datatype Pieces = Pieces(lines: seq<seq<byte>>, rest: seq<byte>)

  function Split(text: seq<byte>): Pieces {
    if text == [] then Pieces([], [])
    else
      var before, last := Split(text[..|text| - 1]), text[|text| - 1];
      if last == LF then Pieces(before.lines + [before.rest], []) else Pieces(before.lines, before.rest + [last])
  }

  function Joined(lines: seq<seq<byte>>): seq<byte> {
    if lines == [] then [] else Joined(lines[..|lines| - 1]) + lines[|lines| - 1] + [LF]
  }

  /** One trailing CR taken off. */
  function Trimmed(line: seq<byte>): seq<byte> {
    if line != [] && line[|line| - 1] == CR then line[..|line| - 1] else line
  }

  /** What a piece is handed out as: less one CR, if it ends in one. */
  predicate Stripped(piece: seq<byte>, line: seq<byte>) {
    piece == line + [CR] || (piece == line && (line == [] || line[|line| - 1] != CR))
  }

  lemma {:induction false} TrimmedIs(piece: seq<byte>, line: seq<byte>)
    ensures Stripped(piece, line) <==> line == Trimmed(piece)
  {
    if piece != [] && piece[|piece| - 1] == CR {
      assert piece == piece[..|piece| - 1] + [CR];
    }
  }

  /** The pieces are the only way to cut the text at its line ends. */
  lemma {:induction false} SplitIs(text: seq<byte>, lines: seq<seq<byte>>, rest: seq<byte>)
    ensures Split(text) == Pieces(lines, rest) <==>
            && Joined(lines) + rest == text && LF !in rest && (forall i :: 0 <= i < |lines| ==> LF !in lines[i])
  {
    SplitJoins(text);
    if Joined(lines) + rest == text && LF !in rest && (forall i :: 0 <= i < |lines| ==> LF !in lines[i]) {
      SplitOnly(lines, rest);
    }
  }

  lemma {:induction false} SplitJoins(text: seq<byte>)
    ensures var p := Split(text);
            Joined(p.lines) + p.rest == text && LF !in p.rest && forall i :: 0 <= i < |p.lines| ==> LF !in p.lines[i]
  {
    if text != [] {
      var before, last := Split(text[..|text| - 1]), text[|text| - 1];
      SplitJoins(text[..|text| - 1]);
      if last == LF {
        assert (before.lines + [before.rest])[..|before.lines|] == before.lines;
      }
      assert text == text[..|text| - 1] + [last];
    }
  }

  lemma {:induction false} SplitOnly(lines: seq<seq<byte>>, rest: seq<byte>)
    requires LF !in rest && forall i :: 0 <= i < |lines| ==> LF !in lines[i]
    ensures Split(Joined(lines) + rest) == Pieces(lines, rest)
    decreases |lines|, |rest|
  {
    var text := Joined(lines) + rest;
    if rest != [] {
      var front := rest[..|rest| - 1];
      SplitOnly(lines, front);
      assert text[..|text| - 1] == Joined(lines) + front;
      assert rest == front + [rest[|rest| - 1]];
    } else if lines != [] {
      var before, last := lines[..|lines| - 1], lines[|lines| - 1];
      SplitOnly(before, last);
      assert text[..|text| - 1] == Joined(before) + last;
      assert lines == before + [last];
    }
  }

  lemma {:induction false} Grouped(text: seq<byte>, front: seq<byte>, last: byte)
    ensures text + (front + [last]) == (text + front) + [last]
  {
  }

  lemma {:induction false} SplitLast(text: seq<byte>, last: byte)
    ensures Split(text + [last]) ==
            if last == LF then Pieces(Split(text).lines + [Split(text).rest], [])
            else Pieces(Split(text).lines, Split(text).rest + [last])
  {
    assert (text + [last])[..|text|] == text;
  }

  lemma {:induction false} SplitMore(text: seq<byte>, more: seq<byte>)
    requires LF !in more
    ensures Split(text + more) == Pieces(Split(text).lines, Split(text).rest + more)
  {
    if more == [] {
      assert text + more == text;
    } else {
      var front, last := more[..|more| - 1], more[|more| - 1];
      hide Split;
      assert more == front + [last] && last in more;
      SplitMore(text, front);
      SplitLast(text + front, last);
      Grouped(text, front, last);
      Grouped(Split(text).rest, front, last);
    }
  }

  /** Text that comes later only adds lines. */
  lemma {:induction false} SplitGrows(text: seq<byte>, more: seq<byte>)
    ensures Split(text).lines <= Split(text + more).lines
  {
    if more == [] {
      assert text + more == text;
    } else {
      var front := more[..|more| - 1];
      SplitGrows(text, front);
      assert (text + more)[..|text + more| - 1] == text + front;
    }
  }

  // ----- what a call answers ---------------------------------------------

  /** A call, by what it answers, the bytes received by then, and what the
      stream has yet to give. */
  datatype Call = Call(answer: Answer, received: seq<byte>, inner: seq<Reading>)

  /** With `handed` lines handed out: the next line received, or else the
      first thing to come of reading. */
  function Next(handed: nat, received: seq<byte>, inner: seq<Reading>, limit: nat): Call
    decreases |inner|
  {
    var Pieces(lines, rest) := Split(received);
    if handed < |lines| then Call(Line(Trimmed(lines[handed])), received, inner)
    else if |rest| > limit then Call(TooLong, received, inner)
    else if inner == [] then Call(Cancelled, received, inner)
    else
      match inner[0]
      case Broken => Call(Failed, received, inner[1..])
      case Dropped => Call(Cancelled, received, inner[1..])
      case Closed => Call(End, received, inner[1..])
      case Bytes(data) =>
        if data == [] then Call(End, received, inner[1..]) else Next(handed, received + data, inner[1..], limit)
  }

  /** No line to hand out, nor too much of one, is held. */
  predicate Wanting(handed: nat, received: seq<byte>, limit: nat) {
    |Split(received).lines| <= handed && |Split(received).rest| <= limit
  }

  predicate Gives(reading: Reading) { reading.Bytes? && reading.data != [] }

  /** What a call that reads `n` times comes to: it reads on only for want of a
      line, and the last reading says what it answers. */
  ghost predicate Reads(handed: nat, received: seq<byte>, inner: seq<Reading>, limit: nat, call: Call, n: nat) {
    && n <= |inner| && call.inner == inner[n..] && call.received == received + Data(inner[..n])
    && (forall k :: 0 <= k < n ==> Wanting(handed, received + Data(inner[..k]), limit))
    && (forall k :: 0 <= k < n - 1 ==> Gives(inner[k]))
    && match call.answer
       case Line(line) =>
         && (n > 0 ==> Gives(inner[n - 1])) && handed < |Split(call.received).lines|
         && Stripped(Split(call.received).lines[handed], line)
       case TooLong =>
         && (n > 0 ==> Gives(inner[n - 1])) && |Split(call.received).lines| <= handed
         && |Split(call.received).rest| > limit
       case End => n > 0 && (inner[n - 1].Closed? || inner[n - 1] == Bytes([]))
       case Failed => n > 0 && inner[n - 1].Broken?
       case Cancelled =>
         || (n > 0 && inner[n - 1].Dropped?)
         || (n == |inner| && (n > 0 ==> Gives(inner[n - 1])) && Wanting(handed, call.received, limit))
  }

  lemma {:induction false} NextReads(handed: nat, received: seq<byte>, inner: seq<Reading>, limit: nat)
    returns (n: nat)
    ensures Reads(handed, received, inner, limit, Next(handed, received, inner, limit), n)
    decreases |inner|
  {
    hide Split, Trimmed, Stripped;
    assert received + Data([]) == received && inner[..0] == [];
    if handed < |Split(received).lines| {
      n := 0;
      TrimmedIs(Split(received).lines[handed], Trimmed(Split(received).lines[handed]));
    } else if |Split(received).rest| > limit || inner == [] {
      n := 0;
    } else if !Gives(inner[0]) {
      n := 1;
      DataFirst(inner, 1);
    } else {
      var more := received + inner[0].data;
      var m := NextReads(handed, more, inner[1..], limit);
      n := m + 1;
      ReadsMore(handed, received, inner, limit, Next(handed, more, inner[1..], limit), m);
    }
  }

  lemma {:induction false} DataFirst(inner: seq<Reading>, k: nat)
    requires 0 < k <= |inner|
    ensures Data(inner[..k]) == (if inner[0].Bytes? then inner[0].data else []) + Data(inner[1..][..k - 1])
  {
    assert inner[..k][1..] == inner[1..][..k - 1];
  }

  lemma {:induction false} ReadsMore(handed: nat, received: seq<byte>, inner: seq<Reading>, limit: nat, call: Call,
      n: nat)
    requires inner != [] && Gives(inner[0]) && Wanting(handed, received, limit)
    requires Reads(handed, received + inner[0].data, inner[1..], limit, call, n)
    ensures Reads(handed, received, inner, limit, call, n + 1)
  {
    hide Split, Stripped, Data, Wanting;
    var data := inner[0].data;
    forall k | 0 < k <= n + 1 ensures received + Data(inner[..k]) == (received + data) + Data(inner[1..][..k - 1]) {
      DataFirst(inner, k);
      Regrouped(received, data, Data(inner[1..][..k - 1]));
    }
    DataNone();
    assert received + [] == received;
    forall k | 0 <= k < n + 1 ensures Wanting(handed, received + Data(inner[..k]), limit) {
      if k > 0 {
        assert Wanting(handed, (received + data) + Data(inner[1..][..k - 1]), limit);
      }
    }
    assert forall k :: 0 < k < |inner| ==> inner[k] == inner[1..][k - 1];
    assert inner[n + 1..] == inner[1..][n..];
  }

  lemma {:induction false} DataNone()
    ensures Data([]) == []
  {
  }

  /** What a call comes to for want of bytes. */
  function Ending(inner: seq<Reading>): Answer {
    if inner == [] || inner[0].Dropped? then Cancelled else if inner[0].Broken? then Failed else End
  }

  predicate InChunks(inner: seq<Reading>) {
    forall i :: 0 <= i < |inner| && inner[i].Bytes? ==> |inner[i].data| <= CHUNK
  }

  class LineReader {
    var inner: seq<Reading>
    var buffer: seq<byte>
    var start: nat
    var scanned: nat
    const limit: nat
    /** All that was received, how much of it left the buffer, and how many
        lines were handed out. */
    ghost var received: seq<byte>
    ghost var gone: nat
    ghost var handed: nat
    /** Bytes examined for a line end, and bytes moved down the buffer: how
        many, and up to which one. */
    ghost var examined: nat
    ghost var moved: nat
    ghost var movedTo: nat

    /** The buffer searched for a line end from `start` up to `searched`. */
    ghost predicate Searched(searched: nat)
      reads this
    {
      && gone <= |received| && buffer == received[gone..] && start <= searched <= |buffer|
      && LF !in buffer[start..searched]
      && Split(received[..gone + start]).rest == [] && |Split(received[..gone + start]).lines| == handed
      && |buffer| <= limit + CHUNK && InChunks(inner)
      && examined == gone + searched
      && moved <= movedTo <= gone + (if start == 0 then searched else start)
    }

    ghost predicate Valid()
      reads this
    {
      Searched(scanned)
    }

    constructor (inner: seq<Reading>, limit: nat)
      requires InChunks(inner)
      ensures Valid() && received == [] && handed == 0
      ensures this.inner == inner && this.limit == limit
    {
      this.inner, this.limit := inner, limit;
      buffer, start, scanned := [], 0, 0;
      received, gone, handed, examined, moved, movedTo := [], 0, 0, 0, 0, 0;
    }

    /** `position` of the first line end from `scanned` on. */
    method Position() returns (offset: Option<nat>)
      requires scanned <= |buffer|
      modifies this`examined
      ensures offset.Some? ==>
                && scanned + offset.value < |buffer| && buffer[scanned + offset.value] == LF
                && LF !in buffer[scanned..scanned + offset.value] && examined == old(examined) + offset.value + 1
      ensures offset.None? ==> LF !in buffer[scanned..] && examined == old(examined) + |buffer| - scanned
    {
      for i := scanned to |buffer|
        invariant LF !in buffer[scanned..i] && examined == old(examined) + i - scanned
      {
        examined := examined + 1;
        if buffer[i] == LF {
          return Some(i - scanned);
        }
        assert buffer[scanned..i + 1] == buffer[scanned..i] + [buffer[i]];
      }
      offset := None;
      assert buffer[scanned..|buffer|] == buffer[scanned..];
    }

    /** The lines handed out go, and what follows them is moved down. */
    method Drain()
      requires Searched(|buffer|)
      modifies this
      ensures Valid() && start == 0 && scanned == |buffer| && buffer == old(buffer[start..])
      ensures received == old(received) && handed == old(handed) && inner == old(inner)
    {
      if start > 0 {
        moved := moved + |buffer| - start;
        movedTo := |received|;
      }
      assert received[..gone + start][..] == received[..gone + start];
      gone := gone + start;
      buffer := buffer[start..];
      start := 0;
      scanned := |buffer|;
    }

    /** The next line, if the end of one is held. */
    method Held() returns (line: Option<seq<byte>>)
      requires Valid()
      modifies this
      ensures received == old(received) && inner == old(inner)
      ensures line.Some? ==> Valid() && handed == old(handed) + 1 && old(handed) < |Split(received).lines|
                             && line.value == Trimmed(Split(received).lines[old(handed)])
      ensures line.None? ==> Searched(|buffer|) && handed == old(handed) && |Split(received).lines| == handed
                             && Split(received).rest == buffer[start..] && LF !in buffer[start..]
    {
      hide Split;
      var offset := Position();
      if offset.None? {
        Unended(buffer, start, scanned);
        NoneFound(received, gone + start, handed);
        return None;
      }
      var end := scanned + offset.value;
      var whole := buffer[start..end];
      HeldWhole(received, buffer, gone, start, scanned, end);
      Found(received, gone + start, gone + end, handed);
      line := Some(Trimmed(whole));
      Advance(end + 1);
    }

    /** On to the line that starts at `next`. */
    method Advance(next: nat)
      requires gone <= |received| && buffer == received[gone..] && start <= scanned < next <= |buffer|
      requires |buffer| <= limit + CHUNK && InChunks(inner)
      requires Split(received[..gone + next]).rest == [] && |Split(received[..gone + next]).lines| == handed + 1
      requires examined == gone + next && moved <= movedTo <= gone + (if start == 0 then scanned else start)
      modifies this
      ensures Valid() && handed == old(handed) + 1 && received == old(received) && inner == old(inner)
    {
      hide Split;
      start := next;
      scanned := next;
      handed := handed + 1;
    }

    /** More of the stream, or what the call comes to without. */
    method Read() returns (answer: Option<Answer>)
      requires Valid() && start == 0 && scanned == |buffer| <= limit
      modifies this
      ensures Valid() && handed == old(handed) && |inner| <= |old(inner)|
      ensures answer.Some? ==> received == old(received)
      ensures answer.Some? ==> answer.value == Ending(old(inner))
      ensures old(inner) == [] ==> answer.Some? && inner == []
      ensures old(inner) != [] ==>
                var reading := old(inner)[0];
                && inner == old(inner)[1..] && (answer.None? <==> reading.Bytes? && reading.data != [])
                && (answer.None? ==> received == old(received) + reading.data)
    {
      if inner == [] {
        return Some(Cancelled);
      }
      var reading := inner[0];
      inner := inner[1..];
      match reading {
        case Broken => return Some(Failed);
        case Dropped => return Some(Cancelled);
        case Closed => return Some(End);
        case Bytes(data) =>
          if data == [] {
            return Some(End);
          }
          assert (received + data)[gone..] == buffer + data && (received + data)[..gone] == received[..gone];
          assert (buffer + data)[..|buffer|] == buffer[..|buffer|];
          buffer := buffer + data;
          received := received + data;
          return None;
      }
    }

    /** The next line without its end. */
    method NextLine() returns (answer: Answer)
      requires Valid()
      modifies this
      ensures Valid()
      ensures Call(answer, received, inner) == Next(old(handed), old(received), old(inner), limit)
      ensures handed == old(handed) + if answer.Line? then 1 else 0
      ensures exists n :: Reads(old(handed), old(received), old(inner), limit, Call(answer, received, inner), n)
    {
      hide Split, Searched, Reads;
      var n := NextReads(handed, received, inner, limit);
      while true
        invariant Valid() && handed == old(handed)
        invariant Next(handed, received, inner, limit) == Next(old(handed), old(received), old(inner), limit)
        decreases |inner|
      {
        var line := Held();
        if line.Some? {
          return Line(line.value);
        }
        Drain();
        if |buffer| > limit {
          return TooLong;
        }
        var ended := Read();
        if ended.Some? {
          return ended.value;
        }
      }
    }
  }

  lemma {:induction false} HeldWhole(received: seq<byte>, buffer: seq<byte>, gone: nat, start: nat, scanned: nat,
      end: nat)
    requires gone <= |received| && buffer == received[gone..] && start <= scanned <= end <= |buffer|
    requires LF !in buffer[start..scanned] && LF !in buffer[scanned..end]
    ensures buffer[start..end] == received[gone + start..gone + end] && LF !in buffer[start..end]
  {
    assert buffer[start..end] == buffer[start..scanned] + buffer[scanned..end];
  }

  lemma {:induction false} Unended(buffer: seq<byte>, start: nat, scanned: nat)
    requires start <= scanned <= |buffer| && LF !in buffer[start..scanned] && LF !in buffer[scanned..]
    ensures LF !in buffer[start..] && buffer[start..|buffer|] == buffer[start..]
  {
    assert buffer[start..] == buffer[start..scanned] + buffer[scanned..];
  }

  lemma {:induction false} Found(received: seq<byte>, from: nat, end: nat, handed: nat)
    requires from <= end < |received| && received[end] == LF && LF !in received[from..end]
    requires Split(received[..from]).rest == [] && |Split(received[..from]).lines| == handed
    ensures handed < |Split(received).lines| && Split(received).lines[handed] == received[from..end]
    ensures Split(received[..end + 1]).rest == [] && |Split(received[..end + 1]).lines| == handed + 1
  {
    hide Split;
    assert received[..end] == received[..from] + received[from..end];
    SplitMore(received[..from], received[from..end]);
    assert received[..end + 1] == received[..end] + [LF];
    SplitLast(received[..end], LF);
    assert received == received[..end + 1] + received[end + 1..];
    SplitGrows(received[..end + 1], received[end + 1..]);
    assert Split(received[..end + 1]).lines[handed] == received[from..end];
  }

  lemma {:induction false} NoneFound(received: seq<byte>, from: nat, handed: nat)
    requires from <= |received| && LF !in received[from..]
    requires Split(received[..from]).rest == [] && |Split(received[..from]).lines| == handed
    ensures |Split(received).lines| == handed && Split(received).rest == received[from..]
  {
    hide Split;
    assert received == received[..from] + received[from..];
    SplitMore(received[..from], received[from..]);
  }

  // ----- over every run --------------------------------------------------

  /** All the bytes a stream gives. */
  function Data(inner: seq<Reading>): seq<byte> {
    if inner == [] then []
    else (if inner[0].Bytes? then inner[0].data else []) + Data(inner[1..])
  }

  /** The first `n` calls of a reader, and where they leave it. */
  datatype Session = Session(answers: seq<Answer>, handed: nat, received: seq<byte>, inner: seq<Reading>)

  function Then(s: Session, limit: nat): Session {
    var Call(answer, received, left) := Next(s.handed, s.received, s.inner, limit);
    Session(s.answers + [answer], s.handed + (if answer.Line? then 1 else 0), received, left)
  }

  function After(inner: seq<Reading>, limit: nat, n: nat): Session {
    if n == 0 then Session([], 0, [], inner) else Then(After(inner, limit, n - 1), limit)
  }

  function LinesOf(answers: seq<Answer>): seq<seq<byte>> {
    if answers == [] then []
    else
      var last := answers[|answers| - 1];
      LinesOf(answers[..|answers| - 1]) + if last.Line? then [last.line] else []
  }

  /** The lines are what the pieces are handed out as, one for one. */
  ghost predicate Strips(pieces: seq<seq<byte>>, lines: seq<seq<byte>>) {
    |pieces| == |lines| && forall i :: 0 <= i < |lines| ==> Stripped(pieces[i], lines[i])
  }

  /** A call takes from the stream, in order, all that it adds to what was
      received, and hands out lines that were. */
  lemma {:induction false} NextTakes(handed: nat, received: seq<byte>, inner: seq<Reading>, limit: nat)
    ensures var c := Next(handed, received, inner, limit);
            && c.received + Data(c.inner) == received + Data(inner) && received <= c.received
            && (c.answer.Line? ==>
                  handed < |Split(c.received).lines| && Stripped(Split(c.received).lines[handed], c.answer.line))
            && (!c.answer.Line? ==> |Split(c.received).lines| <= handed)
    decreases |inner|
  {
    hide Split, Trimmed, Stripped, Data;
    if handed < |Split(received).lines| {
      TrimmedIs(Split(received).lines[handed], Trimmed(Split(received).lines[handed]));
    } else if inner != [] {
      DataStep(inner);
      if Gives(inner[0]) {
        Regrouped(received, inner[0].data, Data(inner[1..]));
        NextTakes(handed, received + inner[0].data, inner[1..], limit);
      }
    }
  }

  lemma {:induction false} DataStep(inner: seq<Reading>)
    requires inner != []
    ensures Data(inner) == if Gives(inner[0]) then inner[0].data + Data(inner[1..]) else Data(inner[1..])
  {
    assert [] + Data(inner[1..]) == Data(inner[1..]);
  }

  lemma {:induction false} Regrouped(a: seq<byte>, b: seq<byte>, c: seq<byte>)
    ensures (a + b) + c == a + (b + c)
  {
  }

  /** The lines handed out so far are the first of those of `all`. */
  ghost predicate First(s: Session, all: seq<byte>) {
    match s
    case Session(answers, handed, received, inner) =>
      && received + Data(inner) == all && handed <= |Split(received).lines| && handed <= |Split(all).lines|
      && Strips(Split(all).lines[..handed], LinesOf(answers))
  }

  lemma {:induction false} FirstKept(s: Session, all: seq<byte>, limit: nat)
    requires First(s, all)
    ensures First(Then(s, limit), all)
  {
    hide Split, Data, Next, Strips, LinesOf;
    var t := Then(s, limit);
    NextTakes(s.handed, s.received, s.inner, limit);
    GrownTwice(s.received, t.received, Data(t.inner));
    LinesOfMore(s.answers, t.answers[|s.answers|]);
    if t.handed > s.handed {
      var lines, next := Split(all).lines, Split(t.received).lines;
      assert lines[s.handed] == next[s.handed];
      StripsMore(lines, s.handed, LinesOf(s.answers), t.answers[|s.answers|].line);
    } else {
      assert LinesOf(s.answers) + [] == LinesOf(s.answers);
    }
  }

  lemma {:induction false} LinesOfMore(answers: seq<Answer>, answer: Answer)
    ensures LinesOf(answers + [answer]) == LinesOf(answers) + if answer.Line? then [answer.line] else []
  {
    assert (answers + [answer])[..|answers|] == answers;
  }

  /** The lines handed out, one call after another, are the first pieces of
      the stream, whatever it is cut into and wherever calls were given up. */
  lemma {:induction false} LinesInOrder(inner: seq<Reading>, limit: nat, n: nat)
    ensures First(After(inner, limit, n), Data(inner))
  {
    if n > 0 {
      hide First, Then;
      LinesInOrder(inner, limit, n - 1);
      FirstKept(After(inner, limit, n - 1), Data(inner), limit);
    }
  }

  lemma {:induction false} GrownTwice(text: seq<byte>, more: seq<byte>, rest: seq<byte>)
    requires text <= more
    ensures Split(text).lines <= Split(more).lines <= Split(more + rest).lines
  {
    hide Split;
    assert more == text + more[|text|..];
    SplitGrows(text, more[|text|..]);
    SplitGrows(more, rest);
  }

  lemma {:induction false} StripsMore(pieces: seq<seq<byte>>, n: nat, lines: seq<seq<byte>>, line: seq<byte>)
    requires n < |pieces| && Strips(pieces[..n], lines) && Stripped(pieces[n], line)
    ensures Strips(pieces[..n + 1], lines + [line])
  {
  }

  /** A call that answers no line leaves none that was received. */
  lemma {:induction false} NoneWithheld(inner: seq<Reading>, limit: nat, n: nat)
    requires n > 0 && !After(inner, limit, n).answers[|After(inner, limit, n).answers| - 1].Line?
    ensures var s := After(inner, limit, n); Strips(Split(s.received).lines, LinesOf(s.answers))
  {
    hide Split, Data, Next, Strips, LinesOf;
    var before, s := After(inner, limit, n - 1), After(inner, limit, n);
    LinesInOrder(inner, limit, n);
    NextTakes(before.handed, before.received, before.inner, limit);
    SplitGrows(s.received, Data(s.inner));
    assert Split(Data(inner)).lines[..s.handed] == Split(s.received).lines;
  }

  /** Cancel safety: a call dropped at a read and made again comes to what it
      would have come to in one go, and loses nothing. */
  lemma {:induction false} DroppedAndMadeAgain(handed: nat, received: seq<byte>, before: seq<Reading>,
      rest: seq<Reading>, limit: nat)
    requires forall i :: 0 <= i < |before| ==> !before[i].Dropped?
    ensures var dropped := Next(handed, received, before + [Dropped] + rest, limit);
            var whole := Next(handed, received, before + rest, limit);
            if dropped.answer.Cancelled? then Next(handed, dropped.received, dropped.inner, limit) == whole
            else dropped.answer == whole.answer && dropped.received == whole.received
    decreases |before|
  {
    hide Split;
    if before == [] {
      assert [Dropped] + rest == before + [Dropped] + rest && rest == before + rest;
      assert ([Dropped] + rest)[1..] == rest;
    } else {
      var front := before[1..];
      assert (before + [Dropped] + rest)[1..] == front + [Dropped] + rest && (before + rest)[1..] == front + rest;
      assert forall i :: 0 <= i < |front| ==> front[i] == before[i + 1];
      if before[0].Bytes? && before[0].data != [] {
        DroppedAndMadeAgain(handed, received + before[0].data, front, rest, limit);
      }
    }
  }

  /** No piece longer than `most`. */
  ghost predicate Within(text: seq<byte>, most: nat) {
    |Split(text).rest| <= most && forall i :: 0 <= i < |Split(text).lines| ==> |Split(text).lines[i]| <= most
  }

  lemma {:induction false} WithinMore(text: seq<byte>, more: seq<byte>, most: nat)
    requires Within(text, most) && |Split(text).rest| + |more| <= most
    ensures Within(text + more, most) && |Split(text + more).rest| <= |Split(text).rest| + |more|
  {
    if more == [] {
      assert text + more == text;
    } else {
      hide Split;
      var front, last := more[..|more| - 1], more[|more| - 1];
      WithinMore(text, front, most);
      SplitLast(text + front, last);
      assert more == front + [last];
      Grouped(text, front, last);
      WithinLetter(Split(text + front), Split(text + more), last, most);
    }
  }

  lemma {:induction false} WithinLetter(p: Pieces, q: Pieces, last: byte, most: nat)
    requires q == if last == LF then Pieces(p.lines + [p.rest], []) else Pieces(p.lines, p.rest + [last])
    requires |p.rest| < most && forall i :: 0 <= i < |p.lines| ==> |p.lines[i]| <= most
    ensures |q.rest| <= most && |q.rest| <= |p.rest| + 1
    ensures forall i :: 0 <= i < |q.lines| ==> |q.lines[i]| <= most
  {
  }

  /** A part of the stream no longer has a piece longer than the stream has. */
  lemma {:induction false} WithinPart(text: seq<byte>, more: seq<byte>, most: nat)
    requires Within(text + more, most)
    ensures Within(text, most)
  {
    if more == [] {
      assert text + more == text;
    } else {
      hide Split;
      var front, last := more[..|more| - 1], more[|more| - 1];
      SplitLast(text + front, last);
      assert more == front + [last];
      Grouped(text, front, last);
      WithinFront(Split(text + front), Split(text + more), last, most);
      WithinPart(text, front, most);
    }
  }

  lemma {:induction false} WithinFront(p: Pieces, q: Pieces, last: byte, most: nat)
    requires q == if last == LF then Pieces(p.lines + [p.rest], []) else Pieces(p.lines, p.rest + [last])
    requires |q.rest| <= most && forall i :: 0 <= i < |q.lines| ==> |q.lines[i]| <= most
    ensures |p.rest| <= most && forall i :: 0 <= i < |p.lines| ==> |p.lines[i]| <= most
  {
    assert last == LF ==> q.lines[|p.lines|] == p.rest;
    assert forall i :: 0 <= i < |p.lines| ==> q.lines[i] == p.lines[i];
  }

  /** Whatever the server sends, no more than the limit and one read is ever
      held of a line; and one whose lines all keep to the limit is never cut
      off. */
  lemma {:induction false} NextBounded(handed: nat, received: seq<byte>, inner: seq<Reading>, limit: nat)
    requires InChunks(inner) && Within(received, limit + CHUNK)
    ensures var c := Next(handed, received, inner, limit);
            && Within(c.received, limit + CHUNK) && InChunks(c.inner)
            && (c.answer.TooLong? ==> !Within(received + Data(inner), limit))
            && (c.answer.Line? ==> |c.answer.line| <= limit + CHUNK)
    decreases |inner|
  {
    hide Split;
    if handed < |Split(received).lines| {
    } else if |Split(received).rest| > limit {
      if Within(received + Data(inner), limit) {
        WithinPart(received, Data(inner), limit);
      }
    } else if inner != [] && inner[0].Bytes? && inner[0].data != [] {
      WithinMore(received, inner[0].data, limit + CHUNK);
      NextBounded(handed, received + inner[0].data, inner[1..], limit);
      Regrouped(received, inner[0].data, Data(inner[1..]));
    }
  }

  lemma {:induction false} Bounded(inner: seq<Reading>, limit: nat, n: nat)
    requires InChunks(inner)
    ensures var s := After(inner, limit, n);
            && Within(s.received, limit + CHUNK) && InChunks(s.inner)
            && forall i :: 0 <= i < |s.answers| ==>
                 && (s.answers[i].TooLong? ==> !Within(Data(inner), limit))
                 && (s.answers[i].Line? ==> |s.answers[i].line| <= limit + CHUNK)
  {
    if n > 0 {
      hide Next, Split, Data, Within;
      var s := After(inner, limit, n - 1);
      Bounded(inner, limit, n - 1);
      LinesInOrder(inner, limit, n - 1);
      NextBounded(s.handed, s.received, s.inner, limit);
    } else {
      hide Next, Data;
    }
  }
}
