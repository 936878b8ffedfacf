/** Guesses at the application lock, slowed down (src/lock.rs,
    `LockAttempts`; src/manager/app_lock.rs, where a guess is refused while
    `retry_after` is not zero). An `Instant` is nanoseconds of a clock that
    only goes forward; the clock on the wall reads whole seconds, and reads
    anything. Each writing of the file succeeds whole. */
module Lock {
  import opened Wrappers

  const FREE_ATTEMPTS: nat := 3
  const FIRST_DELAY: nat := 5
  const MAX_DELAY: nat := 300

  function Doubled(n: nat, doublings: nat): nat
    decreases doublings
  {
    if doublings == 0 then n else Doubled(2 * n, doublings - 1)
  }

  /** `delay_after`, in seconds. */
  function DelayAfter(failures: u32): nat {
    if failures < FREE_ATTEMPTS then 0 else Min(Doubled(FIRST_DELAY, Min(failures - FREE_ATTEMPTS, 16)), MAX_DELAY)
  }

  lemma {:induction false} DoubledPast(n: nat, doublings: nat)
    ensures n <= Doubled(n, doublings)
    decreases doublings
  {
    if doublings > 0 {
      DoubledPast(2 * n, doublings - 1);
    }
  }

  /** Nothing for the first failures, then five seconds doubling up to five
      minutes. */
  lemma {:induction false} DelaysAre(failures: u32)
    ensures DelayAfter(failures) ==
            if failures < 3 then 0 else if failures == 3 then 5 else if failures == 4 then 10
            else if failures == 5 then 20 else if failures == 6 then 40 else if failures == 7 then 80
            else if failures == 8 then 160 else 300
  {
    if failures >= 9 {
      DoubledPast(320, Min(failures - 3, 16) - 6);
      DoubledSix(Min(failures - 3, 16));
    } else if failures >= 3 {
      DoubledSix(failures - 3);
    }
  }

  lemma {:induction false} DoubledSix(n: nat)
    ensures n >= 6 ==> Doubled(5, n) == Doubled(320, n - 6)
    ensures n < 6 ==> Doubled(5, n) == [5, 10, 20, 40, 80, 160][n]
  {
    if n > 0 {
      assert Doubled(5, n) == Doubled(10, n - 1);
      if n > 1 {
        assert Doubled(10, n - 1) == Doubled(20, n - 2);
        if n > 2 {
          assert Doubled(20, n - 2) == Doubled(40, n - 3);
          if n > 3 {
            assert Doubled(40, n - 3) == Doubled(80, n - 4);
            if n > 4 {
              assert Doubled(80, n - 4) == Doubled(160, n - 5);
              if n > 5 {
                assert Doubled(160, n - 5) == Doubled(320, n - 6);
              }
            }
          }
        }
      }
    }
  }

  function Seconds(n: nat): nat { n * 1_000_000_000 }

  /** The record as its file holds it, the block by the clock on the wall. */
  datatype Stored = Stored(failures: u32, blockedUntilUnix: Option<nat>)

  /** The record, and its file if there is one. */
  datatype Attempts = Attempts(failures: u32, blockedUntil: Option<nat>, file: Option<Stored>)

  /** Whole milliseconds, rounded up to seconds. */
  function SecondsLeft(left: nat): nat { (left / 1_000_000 + 999) / 1000 }

  function StoredOf(failures: u32, blockedUntil: Option<nat>, wall: nat, now: nat): Stored {
    var blocked := blockedUntil.Some? && blockedUntil.value > now;
    Stored(failures, if blocked then Some(wall + SecondsLeft(blockedUntil.value - now)) else None)
  }

  /** `restore`: what the file says, or an empty record. */
  function Restored(file: Option<Stored>, wall: nat, now: nat): Attempts {
    var stored := if file.Some? then file.value else Stored(0, None);
    if stored.blockedUntilUnix.None? then Attempts(stored.failures, None, file)
    else
      var left := Min(Max(stored.blockedUntilUnix.value - wall, 0), MAX_DELAY);
      var remaining := if stored.failures >= FREE_ATTEMPTS then Max(left, FIRST_DELAY) else left;
      Attempts(stored.failures, if remaining > 0 then Some(now + Seconds(remaining)) else None, file)
  }

  /** `fail` at `now`, its file written at `later` by the clocks of then. */
  function Failed(a: Attempts, now: nat, wall: nat, later: nat): Attempts {
    var failures := Min(a.failures + 1, U32_MAX);
    var delay := DelayAfter(failures);
    var blockedUntil := if delay > 0 then Some(now + Seconds(delay)) else None;
    Attempts(failures, blockedUntil, Some(StoredOf(failures, blockedUntil, wall, later)))
  }

  /** `retry_after`, in seconds. */
  function RetryAfter(a: Attempts, now: nat): nat {
    if a.blockedUntil.Some? && a.blockedUntil.value > now then
      Max((a.blockedUntil.value - now) / 1_000_000_000, 1)
    else 0
  }

  /** A guess is refused exactly while the block lasts, and the seconds told are
      the whole ones left of it, one at least. */
  lemma {:induction false} WaitTold(a: Attempts, now: nat, told: nat)
    ensures RetryAfter(a, now) == told <==>
              if a.blockedUntil.Some? && now < a.blockedUntil.value then
                var left := a.blockedUntil.value - now;
                if left < 2_000_000_000 then told == 1
                else told * 1_000_000_000 <= left < (told + 1) * 1_000_000_000
              else told == 0
  {
  }

  /** What is waited after a restart: what the file says is left, by the clock
      on the wall, five minutes at most, and from the third failure on five
      seconds at least. */
  lemma {:induction false} WaitRestored(failures: u32, until: nat, wall: nat, now: nat)
    ensures var told := RetryAfter(Restored(Some(Stored(failures, Some(until))), wall, now), now);
            told == if failures >= 3 && until < wall + 5 then 5
                    else if until <= wall then 0 else if until - wall < 300 then until - wall else 300
    ensures RetryAfter(Restored(Some(Stored(failures, None)), wall, now), now) == 0
  {
  }

  /** A block over as it is written is not carried across a restart. */
  lemma {:induction false} OverAsWritten(failures: u32, until: nat, wall: nat, written: nat, back: nat, now: nat)
    requires until <= written
    ensures Restored(Some(StoredOf(failures, Some(until), wall, written)), back, now).blockedUntil == None
  {
  }

  class LockAttempts {
    var failures: u32
    var blockedUntil: Option<nat>
    var file: Option<Stored>

    ghost function State(): Attempts
      reads this
    {
      Attempts(failures, blockedUntil, file)
    }

    constructor Load(file: Option<Stored>, wall: nat, now: nat)
      ensures State() == Restored(file, wall, now)
    {
      var stored := if file.Some? then file.value else Stored(0, None);
      var until: Option<nat> := None;
      if stored.blockedUntilUnix.Some? {
        var remaining := Min(Max(stored.blockedUntilUnix.value - wall, 0), MAX_DELAY);
        if stored.failures >= FREE_ATTEMPTS {
          remaining := Max(remaining, FIRST_DELAY);
        }
        if remaining > 0 {
          until := Some(now + Seconds(remaining));
        }
      }
      failures, blockedUntil, this.file := stored.failures, until, file;
    }

    method Fail(now: nat, wall: nat, later: nat)
      modifies this
      ensures State() == Failed(old(State()), now, wall, later)
    {
      failures := Min(failures + 1, U32_MAX);
      var delay := DelayAfter(failures);
      blockedUntil := if delay > 0 then Some(now + Seconds(delay)) else None;
      file := Some(StoredOf(failures, blockedUntil, wall, later));
    }

    method Succeed()
      modifies this
      ensures State() == Attempts(0, None, None)
    {
      failures, blockedUntil, file := 0, None, None;
    }
  }

  // ----- a restart -------------------------------------------------------

  /** By a clock on the wall that is right, `ahead` nanoseconds ahead of the
      instants, a block carried across a restart ends at most a second and a
      millisecond early, however long the app stayed closed. */
  lemma {:induction false} RestoredAlmost(failures: u32, until: nat, ahead: nat, written: nat, back: nat)
    requires written < until <= written + Seconds(MAX_DELAY) && written <= back
    ensures var stored := StoredOf(failures, Some(until), (written + ahead) / 1_000_000_000, written);
            var a := Restored(Some(stored), (back + ahead) / 1_000_000_000, back);
            && a.failures == failures
            && (if a.blockedUntil.Some? then a.blockedUntil.value else back) + 1_000_999_999 > until
  {
    var left := until - written;
    assert left < SecondsLeft(left) * 1_000_000_000 + 1_000_000;
    assert SecondsLeft(left) <= MAX_DELAY;
  }

  /** How far past a second the wall clock stands. */
  function Past(at: nat, ahead: nat): nat { (at + ahead) % 1_000_000_000 }

  /** When a restart keeps a block whole, by a right clock: exactly when the
      rounding up makes up for the part of its second the clock stood past as
      the block was written, less that it stands past now; or when what was
      left is no more than the first delay, which is armed again. */
  lemma {:induction false} RestoredWhole(failures: u32, until: nat, ahead: nat, written: nat, back: nat)
    requires failures >= FREE_ATTEMPTS
    requires written < until <= written + Seconds(MAX_DELAY) && written <= back
    ensures var stored := StoredOf(failures, Some(until), (written + ahead) / 1_000_000_000, written);
            var a := Restored(Some(stored), (back + ahead) / 1_000_000_000, back);
            var left := until - written;
            && a.blockedUntil.Some?
            && (until <= a.blockedUntil.value <==>
                || left + Past(written, ahead) <= Seconds(SecondsLeft(left)) + Past(back, ahead)
                || until <= back + Seconds(FIRST_DELAY))
  {
    var left := until - written;
    assert left < SecondsLeft(left) * 1_000_000_000 + 1_000_000;
    assert SecondsLeft(left) <= MAX_DELAY;
  }

  /** What the end of a block restored is. */
  function EndOf(failures: u32, until: nat, ahead: nat, written: nat, back: nat): nat
    requires written < until && written <= back
  {
    var a := Restored(Some(StoredOf(failures, Some(until), (written + ahead) / 1_000_000_000, written)),
                      (back + ahead) / 1_000_000_000, back);
    if a.blockedUntil.Some? then a.blockedUntil.value else back
  }

  /** What can be told as a block is written: that no restart will shorten it,
      if the rounding up makes up for the part of its second the clock stands
      past. Otherwise a restart as the clock next turns a second does, exactly
      if more than the first delay is left then. */
  lemma {:induction false} NeverShortened(failures: u32, until: nat, ahead: nat, written: nat, back: nat)
    requires failures >= FREE_ATTEMPTS
    requires written < until <= written + Seconds(MAX_DELAY) && written <= back
    ensures var left := until - written;
            if left + Past(written, ahead) <= Seconds(SecondsLeft(left)) then
              until <= EndOf(failures, until, ahead, written, back)
            else
              var turn := written + (1_000_000_000 - Past(written, ahead)) % 1_000_000_000;
              EndOf(failures, until, ahead, written, turn) < until <==> turn + Seconds(FIRST_DELAY) < until
  {
    hide Seconds, SecondsLeft, StoredOf, Restored;
    RestoredWhole(failures, until, ahead, written, back);
    var turn := written + (1_000_000_000 - Past(written, ahead)) % 1_000_000_000;
    Turns(written, ahead);
    RestoredWhole(failures, until, ahead, written, turn);
  }

  lemma {:induction false} Turns(written: nat, ahead: nat)
    ensures var turn := written + (1_000_000_000 - Past(written, ahead)) % 1_000_000_000;
            Past(turn, ahead) == 0 && written <= turn
  {
  }

  // ----- over every run --------------------------------------------------

  /** The lock at an instant, when each guess since it last opened failed, and
      whether the app restarted since. */
  datatype World = World(now: nat, a: Attempts, fails: seq<nat>, restarted: bool)

  /** A guess, checked at `at`, failing at `failed`, written at `written`; or
      the app started again. The walls are what the clock then reads. */
  datatype Step =
    | Guess(at: nat, right: bool, failed: nat, written: nat, wall: nat)
    | Restart(at: nat, wall: nat)

  function Next(w: World, step: Step): World {
    match step
    case Restart(at, wall) => if at < w.now then w else World(at, Restored(w.a.file, wall, at), w.fails, true)
    case Guess(at, right, failed, written, wall) =>
      if !(w.now <= at <= failed <= written) then w
      else if RetryAfter(w.a, at) > 0 then w.(now := at)
      else if right then World(written, Attempts(0, None, None), [], false)
      else World(written, Failed(w.a, failed, wall, written), w.fails + [failed], w.restarted)
  }

  function Run(start: nat, steps: seq<Step>): World {
    if steps == [] then World(start, Attempts(0, None, None), [], false)
    else Next(Run(start, steps[..|steps| - 1]), steps[|steps| - 1])
  }

  ghost predicate Counted(w: World) {
    && w.a.failures == Min(|w.fails|, U32_MAX)
    && (if w.a.file.Some? then w.a.file.value.failures == w.a.failures else w.fails == [])
    && (w.fails != [] ==> w.fails[|w.fails| - 1] <= w.now)
  }

  /** From the third failure on: waiting for five seconds after the last, or
      past them, here and in the file. */
  ghost predicate Slowed(w: World) {
    |w.fails| >= FREE_ATTEMPTS ==>
      var due := w.fails[|w.fails| - 1] + Seconds(FIRST_DELAY);
      && (due <= w.now || (w.a.blockedUntil.Some? && due <= w.a.blockedUntil.value))
      && (due <= w.now || (w.a.file.Some? && w.a.file.value.blockedUntilUnix.Some?))
  }

  ghost predicate Bounded(w: World) {
    w.a.blockedUntil.Some? ==> w.a.blockedUntil.value <= w.now + Seconds(MAX_DELAY)
  }

  ghost predicate FiveApart(fails: seq<nat>) {
    forall i, j :: 2 <= i < j < |fails| && j == i + 1 ==> fails[i] + Seconds(FIRST_DELAY) <= fails[j]
  }

  /** Never restarted: the whole delay was waited every time, and stands. */
  ghost predicate Delayed(w: World) {
    !w.restarted ==>
      && (forall i, j :: 0 <= i < j < |w.fails| && j == i + 1 ==>
            w.fails[i] + Seconds(DelayAfter(Min(j, U32_MAX))) <= w.fails[j])
      && (w.fails != [] ==>
            var due := w.fails[|w.fails| - 1] + Seconds(DelayAfter(w.a.failures));
            due <= w.now || (w.a.blockedUntil.Some? && due <= w.a.blockedUntil.value))
  }

  ghost predicate Invariant(w: World) {
    match w
    case World(_, _, fails, _) => Counted(w) && Slowed(w) && Bounded(w) && FiveApart(fails) && Delayed(w)
  }

  /** A guess evaluated and failed, from what the last one left due. */
  ghost predicate Fails(w: World, step: Step) {
    step.Guess? && !step.right && w.now <= step.at <= step.failed <= step.written && RetryAfter(w.a, step.at) == 0
  }

  lemma {:induction false} FailSlowed(w: World, step: Step)
    requires Fails(w, step) && Counted(w)
    ensures Counted(Next(w, step)) && Slowed(Next(w, step)) && Bounded(Next(w, step))
  {
    hide DelayAfter, StoredOf;
    var failures := Min(w.a.failures + 1, U32_MAX);
    DelaysAre(failures);
    FileKept(failures, step.failed + Seconds(DelayAfter(failures)), step.wall, step.written);
  }

  lemma {:induction false} Unblocked(w: World, step: Step, due: nat)
    requires Fails(w, step) && (due <= w.now || (w.a.blockedUntil.Some? && due <= w.a.blockedUntil.value))
    ensures due <= step.failed
  {
  }

  lemma {:induction false} FailApart(w: World, step: Step)
    requires Fails(w, step) && Slowed(w) && FiveApart(w.fails)
    ensures FiveApart(Next(w, step).fails)
  {
    hide DelayAfter, StoredOf;
    if |w.fails| >= FREE_ATTEMPTS {
      Unblocked(w, step, w.fails[|w.fails| - 1] + Seconds(FIRST_DELAY));
    }
  }

  lemma {:induction false} FailDelayed(w: World, step: Step)
    requires Fails(w, step) && Counted(w) && Delayed(w)
    ensures Delayed(Next(w, step))
  {
    hide DelayAfter, StoredOf;
    if w.fails != [] && !w.restarted {
      Unblocked(w, step, w.fails[|w.fails| - 1] + Seconds(DelayAfter(w.a.failures)));
    }
  }

  lemma {:induction false} FailKept(w: World, step: Step)
    requires Invariant(w) && step.Guess? && !step.right
    ensures Invariant(Next(w, step))
  {
    if Fails(w, step) {
      hide Next, Fails, Counted, Slowed, Bounded, FiveApart, Delayed;
      FailSlowed(w, step);
      FailApart(w, step);
      FailDelayed(w, step);
    }
  }

  lemma {:induction false} FileKept(failures: u32, until: nat, wall: nat, now: nat)
    ensures StoredOf(failures, Some(until), wall, now).failures == failures ==
        StoredOf(failures, None, wall, now).failures
    ensures until > now ==> StoredOf(failures, Some(until), wall, now).blockedUntilUnix.Some?
  {
  }

  lemma {:induction false} RestartKept(w: World, at: nat, wall: nat)
    requires Invariant(w)
    ensures Invariant(Next(w, Restart(at, wall)))
  {
    hide DelayAfter;
  }

  lemma {:induction false} RunKept(start: nat, steps: seq<Step>)
    ensures Invariant(Run(start, steps))
  {
    hide Next, Invariant;
    if steps == [] {
      Begun(start);
    } else {
      var step := steps[|steps| - 1];
      RunKept(start, steps[..|steps| - 1]);
      var w := Run(start, steps[..|steps| - 1]);
      if step.Restart? {
        RestartKept(w, step.at, step.wall);
      } else if step.right {
        RightKept(w, step);
      } else {
        FailKept(w, step);
      }
    }
  }

  lemma {:induction false} Begun(start: nat)
    ensures Invariant(World(start, Attempts(0, None, None), [], false))
  {
  }

  lemma {:induction false} RightKept(w: World, step: Step)
    requires Invariant(w) && step.Guess? && step.right
    ensures Invariant(Next(w, step))
  {
    hide DelayAfter;
  }

  // ----- what is promised of every run -----------------------------------

  /** Whatever the clock on the wall reads and however often the app restarts:
      no failure is forgotten, guesses from the third failure on are five
      seconds apart, and no wait is longer than five minutes. */
  lemma {:induction false} Guarded(start: nat, steps: seq<Step>)
    ensures var w := Run(start, steps);
            && w.a.failures == Min(|w.fails|, U32_MAX)
            && FiveApart(w.fails)
            && RetryAfter(w.a, w.now) <= MAX_DELAY
            && (|w.fails| >= FREE_ATTEMPTS && w.now < w.fails[|w.fails| - 1] + Seconds(FIRST_DELAY) ==>
                RetryAfter(w.a, w.now) > 0)
  {
    RunKept(start, steps);
  }

  /** Without a restart, ten failed guesses take more than ten minutes, and
      every one past them five minutes more. */
  lemma {:induction false} TakesAtLeast(start: nat, steps: seq<Step>, n: nat)
    requires var w := Run(start, steps); !w.restarted && 10 <= n <= |w.fails|
    ensures var w := Run(start, steps); w.fails[n - 1] >= w.fails[0] + Seconds(315 + 300 * (n - 9))
  {
    RunKept(start, steps);
    Slow(Run(start, steps), n);
  }

  lemma {:induction false} Slow(w: World, n: nat)
    requires Delayed(w) && !w.restarted && 10 <= n <= |w.fails|
    ensures w.fails[n - 1] >= w.fails[0] + Seconds(315 + 300 * (n - 9))
  {
    hide DelayAfter;
    if n > 10 {
      Slow(w, n - 1);
      DelaysAre(Min(n - 1, U32_MAX));
      assert w.fails[n - 2] + Seconds(DelayAfter(Min(n - 1, U32_MAX))) <= w.fails[n - 1];
    } else {
      FirstTen(w);
    }
  }

  lemma {:induction false} Gap(w: World, i: nat)
    requires Delayed(w) && !w.restarted && 0 < i < |w.fails|
    ensures w.fails[i - 1] + Seconds(DelayAfter(Min(i, U32_MAX))) <= w.fails[i]
  {
  }

  lemma {:induction false} FirstTen(w: World)
    requires Delayed(w) && !w.restarted && 10 <= |w.fails|
    ensures w.fails[9] >= w.fails[0] + Seconds(615)
  {
    hide DelayAfter, Delayed;
    for i := 1 to 10
      invariant w.fails[i - 1] >= w.fails[0] + Seconds([0, 0, 0, 5, 15, 35, 75, 155, 315, 615][i - 1])
    {
      Gap(w, i);
      DelaysAre(i);
    }
  }

  /** In every run a block is one of the third failure or a later. */
  lemma {:induction false} BlockedFromThird(start: nat, steps: seq<Step>)
    ensures var a := Run(start, steps).a;
            && (a.blockedUntil.Some? ==> a.failures >= FREE_ATTEMPTS)
            && (a.file.Some? && a.file.value.blockedUntilUnix.Some? ==> a.file.value.failures >= FREE_ATTEMPTS)
  {
    if steps != [] {
      BlockedFromThird(start, steps[..|steps| - 1]);
    }
  }

  // ----- blocks a restart shortens ---------------------------------------

  lemma {:induction false} RunMore(start: nat, steps: seq<Step>, step: Step)
    ensures Run(start, steps + [step]) == Next(Run(start, steps), step)
  {
    assert (steps + [step])[..|steps|] == steps;
  }

  /** Failures one after the other, the wall clock `ahead` of the instants. */
  function Wrong(at: nat, written: nat, ahead: nat): Step {
    Guess(at, false, at, written, (written + ahead) / 1_000_000_000)
  }

  /** Three failures at an instant and a fourth five seconds later. */
  function Four(at: nat, written: nat, ahead: nat): seq<Step> {
    var one := [Wrong(at, at, ahead)];
    one + one + one + [Wrong(at + 5_000_000_000, written, ahead)]
  }

  lemma {:induction false} AfterFour(at: nat, written: nat, ahead: nat)
    requires at + 5_000_000_000 <= written
    ensures var a, due := Run(at, Four(at, written, ahead)).a, at + 15_000_000_000;
            a == Attempts(4, Some(due), Some(StoredOf(4, Some(due), (written + ahead) / 1_000_000_000, written)))
    ensures Run(at, Four(at, written, ahead)).now == written
  {
    var one := [Wrong(at, at, ahead)];
    RunMore(at, [], Wrong(at, at, ahead));
    assert [] + one == one;
    RunMore(at, one, Wrong(at, at, ahead));
    RunMore(at, one + one, Wrong(at, at, ahead));
    RunMore(at, one + one + one, Wrong(at + 5_000_000_000, written, ahead));
    DelaysAre(1);
    DelaysAre(2);
    DelaysAre(3);
    DelaysAre(4);
  }

  /** Neither rounding is always up. The part of a millisecond is dropped: a
      block written with 9.0005 seconds left, as the wall clock turns a second,
      comes back as nine. And the part of a second the wall clock stands past
      is lost: one of ten seconds written nine tenths into a second ends nine
      tenths early for an app that restarts as the next one begins. */
  lemma {:induction false} RestoredShort()
    ensures var w := Run(0, Four(0, 5_999_500_000, 500_000));
            && w.a.blockedUntil == Some(15_000_000_000)
            && Next(w, Restart(5_999_500_000, 6)).a.blockedUntil == Some(14_999_500_000)
    ensures var w := Run(900_000_000, Four(900_000_000, 5_900_000_000, 0));
            && w.a.blockedUntil == Some(15_900_000_000)
            && Next(w, Restart(6_000_000_000, 6)).a.blockedUntil == Some(15_000_000_000)
  {
    hide Run, Four;
    AfterFour(0, 5_999_500_000, 500_000);
    AfterFour(900_000_000, 5_900_000_000, 0);
  }
}
