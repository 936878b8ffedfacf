/** Which release is announced (src/updates.rs, `UpdateRecord`;
    src/manager/updates.rs, `check_update_at`, `dismiss_update`). */
module Updates {
  import opened Wrappers
  import opened Versions

  /** What the vault keeps of it, as text. */
  datatype Record = Record(latest: Option<string>, dismissed: Option<string>)

  /** What the apps are told. */
  datatype Status = Status(announce: Option<string>, available: Option<string>)

  function ReadKept(text: Option<string>): Option<Version> { if text.None? then None else Read(text.value) }

  /** The release a tag names. */
  function ReleaseOf(tag: string): (release: Option<Version>) {
    var version := Read(tag);
    if version.Some? && IsRelease(version.value) then version else None
  }

  /** The tag names a release: a version spelled, with no pre-release. */
  lemma {:induction false} ReleaseIs(tag: string, version: Version)
    ensures ReleaseOf(tag) == Some(version) <==>
              && version.pre == [] && |tag| <= 32
              && exists mark, core, build :: Tagged(tag, mark, core, build) && Spells(core, version)
  {
    hide Read, Tagged, Spells;
    ReadsSpelled(tag, version);
  }

  function Shown(version: Option<Version>): Option<string>
    requires version.Some? ==> |version.value.numbers| == 3
  {
    if version.None? then None else Some(Print(version.value))
  }

  predicate Later(a: Version, b: Version) {
    |a.numbers| == 3 && |b.numbers| == 3 && Compare(a, b) == Greater
  }

  function Dismissed(r: Record, version: Version): Record
    requires |version.numbers| == 3
  {
    var closed := ReadKept(r.dismissed);
    if closed.None? || Later(version, closed.value) then r.(dismissed := Some(Print(version))) else r
  }

  function Answered(r: Record, tag: string): Record {
    ReadThree(tag);
    r.(latest := Shown(ReleaseOf(tag)))
  }

  class UpdateRecord {
    var latest: Option<string>
    var dismissed: Option<string>

    ghost function State(): Record
      reads this
    {
      Record(latest, dismissed)
    }

    constructor ()
      ensures State() == Record(None, None)
    {
      latest, dismissed := None, None;
    }

    method Answer(tag: string)
      modifies this
      ensures State() == Answered(old(State()), tag)
    {
      ReadThree(tag);
      var version := Parse(tag);
      latest := if version.Some? && IsRelease(version.value) then Some(Print(version.value)) else None;
    }

    method Dismiss(version: Version)
      requires |version.numbers| == 3
      modifies this
      ensures State() == Dismissed(old(State()), version)
    {
      var closed: Option<Version> := None;
      if dismissed.Some? {
        ReadThree(dismissed.value);
        closed := Parse(dismissed.value);
      }
      if closed.None? || Compare(version, closed.value) == Greater {
        dismissed := Some(Print(version));
      }
    }

    /** `status`. */
    method Tell(running: string) returns (status: Status)
      ensures status == StatusOf(State(), running)
    {
      var mine := Parse(running);
      var known: Option<Version> := None;
      if mine.Some? && latest.Some? {
        known := Parse(latest.value);
        if known.Some? && !(IsRelease(known.value) && Later(known.value, mine.value)) {
          known := None;
        }
      }
      if latest.Some? {
        ReadThree(latest.value);
      }
      var closed: Option<Version> := None;
      if dismissed.Some? {
        closed := Parse(dismissed.value);
      }
      var said := if known.Some? && (closed.None? || Later(known.value, closed.value)) then known else None;
      status := Status(Shown(said), Shown(known));
    }
  }

  function Available(r: Record, running: string): (version: Option<Version>)
    ensures version.Some? ==> |version.value.numbers| == 3
  {
    var mine, known := Read(running), ReadKept(r.latest);
    if mine.Some? && known.Some? && IsRelease(known.value) && Later(known.value, mine.value) then known else None
  }

  function StatusOf(r: Record, running: string): Status {
    var known, closed := Available(r, running), ReadKept(r.dismissed);
    var said := if known.Some? && (closed.None? || Later(known.value, closed.value)) then known else None;
    Status(Shown(said), Shown(known))
  }

  // ----- over every run --------------------------------------------------

  /** A check of the app's own, one from the button, which also closes what
      it names, and a notice closed. */
  datatype Step = Checked(tag: string) | Pressed(tag: string) | Closed(text: string)

  function Closing(r: Record, version: Option<Version>): Record
    requires version.Some? ==> |version.value.numbers| == 3
  {
    if version.None? then r else Dismissed(r, version.value)
  }

  function Next(r: Record, step: Step): Record {
    match step
    case Checked(tag) => Answered(r, tag)
    case Pressed(tag) =>
      var answered := Answered(r, tag);
      ReadKeptThree(answered.latest);
      Closing(answered, ReadKept(answered.latest))
    case Closed(text) =>
      ReadThree(text);
      Closing(r, Read(text))
  }

  function Run(steps: seq<Step>): Record {
    if steps == [] then Record(None, None) else Next(Run(steps[..|steps| - 1]), steps[|steps| - 1])
  }

  /** The release the last answer named. */
  function LastAnswer(steps: seq<Step>): Option<Version> {
    if steps == [] then None
    else
      match steps[|steps| - 1]
      case Closed(_) => LastAnswer(steps[..|steps| - 1])
      case Checked(tag) => ReleaseOf(tag)
      case Pressed(tag) => ReleaseOf(tag)
  }

  /** Every version ever closed. */
  function Closings(steps: seq<Step>): seq<Version> {
    if steps == [] then []
    else
      var closed := match steps[|steps| - 1] {
          case Checked(_) => None
          case Pressed(tag) => ReleaseOf(tag)
          case Closed(text) => Read(text)
        };
      Closings(steps[..|steps| - 1]) + if closed.Some? then [closed.value] else []
  }

  lemma {:induction false} ReadKeptThree(text: Option<string>)
    ensures ReadKept(text).Some? ==> |ReadKept(text).value.numbers| == 3
  {
    if text.Some? {
      ReadThree(text.value);
    }
  }

  /** What is kept of a version reads as that version. */
  ghost predicate Keeps(text: Option<string>, version: Version) {
    |version.numbers| == 3 && text == Some(Print(version)) && ReadKept(text) == Some(version)
  }

  ghost predicate KeepsLatest(r: Record, last: Option<Version>) {
    if last.None? then r.latest == None else Keeps(r.latest, last.value) && IsRelease(last.value)
  }

  /** What is kept of the closings is the latest of them. */
  ghost predicate KeepsClosed(r: Record, closings: seq<Version>) {
    && (closings == [] ==> r.dismissed == None)
    && (closings != [] ==>
          exists i :: 0 <= i < |closings| && Keeps(r.dismissed, closings[i]) && Latest(closings, closings[i]))
  }

  ghost predicate Latest(closings: seq<Version>, latest: Version) {
    |latest.numbers| == 3 && forall i :: 0 <= i < |closings| ==>
        |closings[i].numbers| == 3 && Compare(closings[i], latest) != Greater
  }

  lemma {:induction false} KeptReads(text: string)
    requires Read(text).Some?
    ensures Keeps(Some(Print(Read(text).value)), Read(text).value)
  {
    hide Read, Print;
    RoundTrip(text);
  }

  lemma {:induction false} ClosingKept(r: Record, closings: seq<Version>, text: string)
    requires KeepsClosed(r, closings) && Read(text).Some?
    ensures |Read(text).value.numbers| == 3
    ensures KeepsClosed(Dismissed(r, Read(text).value), closings + [Read(text).value])
  {
    hide Read, Print, Compare;
    var version := Read(text).value;
    KeptReads(text);
    var after, r' := closings + [version], Dismissed(r, version);
    ComparePrecedes(version, version);
    if closings == [] {
      assert after[0] == version && Latest(after, version);
    } else {
      var i :| 0 <= i < |closings| && Keeps(r.dismissed, closings[i]) && Latest(closings, closings[i]);
      LatestWith(closings, closings[i], version);
      if Later(version, closings[i]) {
        assert after[|closings|] == version;
      } else {
        assert after[i] == closings[i];
      }
    }
  }

  lemma {:induction false} LatestWith(closings: seq<Version>, latest: Version, version: Version)
    requires Latest(closings, latest) && |version.numbers| == 3
    ensures Latest(closings + [version], if Later(version, latest) then version else latest)
  {
    hide Compare;
    ComparePrecedes(version, version);
    ComparePrecedes(version, latest);
    ComparePrecedes(latest, version);
    if Later(version, latest) {
      forall i | 0 <= i < |closings| ensures Compare(closings[i], version) != Greater {
        CompareChain(closings[i], latest, version);
      }
    }
  }

  lemma {:induction false} RunKept(steps: seq<Step>)
    ensures KeepsLatest(Run(steps), LastAnswer(steps)) && KeepsClosed(Run(steps), Closings(steps))
  {
    hide Read, Print, Dismissed, KeepsClosed;
    if steps == [] {
      NoneClosed();
    } else {
      var before, step := steps[..|steps| - 1], steps[|steps| - 1];
      RunKept(before);
      var r := Run(before);
      match step
      case Closed(text) =>
        if Read(text).Some? {
          ClosingKept(r, Closings(before), text);
          LatestAside(r, Read(text).value);
        } else {
          assert Closings(steps) == Closings(before);
        }
      case Checked(tag) =>
        AnswerKept(r, tag);
        ClosedAside(r, Answered(r, tag), Closings(before));
        assert Closings(steps) == Closings(before);
      case Pressed(tag) =>
        AnswerKept(r, tag);
        ClosedAside(r, Answered(r, tag), Closings(before));
        if ReleaseOf(tag).Some? {
          ClosingKept(Answered(r, tag), Closings(before), tag);
          LatestAside(Answered(r, tag), Read(tag).value);
        } else {
          assert Closings(steps) == Closings(before);
        }
    }
  }

  lemma {:induction false} NoneClosed()
    ensures KeepsClosed(Record(None, None), [])
  {
  }

  lemma {:induction false} LatestAside(r: Record, version: Version)
    requires |version.numbers| == 3
    ensures Dismissed(r, version).latest == r.latest
  {
  }

  lemma {:induction false} ClosedAside(r: Record, r': Record, closings: seq<Version>)
    requires KeepsClosed(r, closings) && r'.dismissed == r.dismissed
    ensures KeepsClosed(r', closings)
  {
  }

  lemma {:induction false} AnswerKept(r: Record, tag: string)
    ensures KeepsLatest(Answered(r, tag), ReleaseOf(tag)) && Answered(r, tag).dismissed == r.dismissed
    ensures ReadKept(Answered(r, tag).latest) == ReleaseOf(tag)
  {
    hide Read, Print;
    if ReleaseOf(tag).Some? {
      KeptReads(tag);
    }
  }

  /** What is announced, after any run of checks and closings: the release the
      last answer named, if it is after the version running and after every
      version ever closed; never a pre-release. */
  lemma {:induction false} Announced(steps: seq<Step>, running: string)
    ensures var last, status := LastAnswer(steps), StatusOf(Run(steps), running);
            && (last.Some? ==> IsRelease(last.value) && |last.value.numbers| == 3)
            && (status.available.Some? <==>
                last.Some? && Read(running).Some? && Precedes(Read(running).value, last.value))
            && (status.announce.Some? <==>
                && status.available.Some?
                && forall i :: 0 <= i < |Closings(steps)| ==> Precedes(Closings(steps)[i], last.value))
            && (status.available.Some? ==> status.available == Some(Print(last.value)))
            && (status.announce.Some? ==> status.announce == status.available)
  {
    hide Read, Print, Compare, Precedes, KeepsClosed;
    RunKept(steps);
    var r, last, closings := Run(steps), LastAnswer(steps), Closings(steps);
    ReadThree(running);
    if last.Some? && Read(running).Some? {
      ComparePrecedes(last.value, Read(running).value);
      ClosedBefore(r, closings, last.value);
    }
  }

  lemma {:induction false} ClosedBefore(r: Record, closings: seq<Version>, version: Version)
    requires KeepsClosed(r, closings) && |version.numbers| == 3
    ensures var closed := ReadKept(r.dismissed);
            (closed.None? || Later(version, closed.value)) <==>
                forall i :: 0 <= i < |closings| ==> Precedes(closings[i], version)
  {
    hide Read, Print, Compare, Precedes;
    if closings != [] {
      var k :| 0 <= k < |closings| && Keeps(r.dismissed, closings[k]) && Latest(closings, closings[k]);
      ComparePrecedes(version, closings[k]);
      forall i | 0 <= i < |closings| && Later(version, closings[k]) ensures Precedes(closings[i], version) {
        ComparePrecedes(closings[k], version);
        CompareChain(closings[i], closings[k], version);
        ComparePrecedes(closings[i], version);
      }
    }
  }
}
