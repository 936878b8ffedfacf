/** The race itself (src/chain/dial.rs, `race` and `race_async`): every
    property below is of the log of a whole race, whatever the peers did. */
module Race {
  import opened Wrappers
  import opened Dial

  /** An attempt, from when it started to when it ended: connected, failed,
      or never begun for want of a thread. */
  datatype Attempt = Attempt(address: Address, start: nat, end: Option<nat>)

  datatype Ending = Ending(id: nat, at: nat, connected: bool)

  /** How long after it begins an attempt is heard of, and whether it has
      connected. */
  datatype Fate = Fate(after: nat, connected: bool)

  /** What the peers and the machine do: whether attempt `i` can be started;
      its fate, if it is ever to be heard of; of two heard of at one time,
      which is first; and whether it comes after a wait that is over then.
      `race_async` is the case where every attempt can be started. */
  datatype World = World(spawns: nat -> bool, fate: nat -> Option<Fate>, ahead: (nat, nat) -> bool, late: nat -> bool)

  datatype Outcome = Connected(id: nat) | TimedOut | Failed(id: nat) | Nowhere

  /** The end of an attempt is the one its fate has for it, heard as soon as it
      comes; of those that connect only the one kept is heard. One never begun
      ends then and there. */
  ghost predicate HeededAt(world: World, attempt: Attempt, id: nat, now: nat, kept: Option<nat>) {
    if !world.spawns(id) then attempt.end == Some(attempt.start)
    else
      match world.fate(id)
      case None => attempt.end.None?
      case Some(Fate(after, connected)) =>
        if attempt.end.None? then now <= attempt.start + after
        else attempt.end.value == attempt.start + after <= now && (connected ==> kept == Some(id))
  }

  ghost predicate Heeded(world: World, log: seq<Attempt>, now: nat, kept: Option<nat>) {
    forall id :: 0 <= id < |log| ==> HeededAt(world, log[id], id, now, kept)
  }

  /** No attempt yet to be heard of is before `at`. */
  ghost predicate NoneSooner(world: World, log: seq<Attempt>, at: nat) {
    forall id :: 0 <= id < |log| && log[id].end.None? && world.fate(id).Some? ==>
      at <= log[id].start + world.fate(id).value.after
  }

  /** The attempt kept has connected, just now. */
  ghost predicate Kept(world: World, log: seq<Attempt>, id: nat, finish: nat) {
    && id < |log| && log[id].end == Some(finish) && log[id].start <= finish
    && world.fate(id) == Some(Fate(finish - log[id].start, true))
  }

  lemma {:induction false} HeededStart(world: World, log: seq<Attempt>, now: nat, attempt: Attempt)
    requires Heeded(world, log, now, None) && attempt.start == now
    requires attempt.end == if world.spawns(|log|) then None else Some(now)
    ensures Heeded(world, log + [attempt], now, None)
  {
  }

  lemma {:induction false} HeededEnd(world: World, log: seq<Attempt>, now: nat, ending: Ending)
    requires Heeded(world, log, now, None) && Ends(world, log, ending) && NoneSooner(world, log, ending.at)
    requires now <= ending.at
    ensures Heeded(world, Ended(log, ending.id, ending.at), ending.at,
        if ending.connected then Some(ending.id) else None)
    ensures ending.connected ==> Kept(world, Ended(log, ending.id, ending.at), ending.id, ending.at)
  {
  }

  lemma {:induction false} HeededWake(world: World, log: seq<Attempt>, now: nat, wake: nat)
    requires Heeded(world, log, now, None) && NoneSooner(world, log, wake) && now <= wake
    ensures Heeded(world, log, wake, None)
  {
  }

  function SlotsOf(log: seq<Attempt>): Slots {
    seq(|log|, i requires 0 <= i < |log| => if log[i].end.Some? then None else Some(log[i].start))
  }

  // ----- what is said of a race ------------------------------------------

  /** How many attempts were alive at `t`, or alive and younger than the
      time after which one gives its place. */
  function Count(log: seq<Attempt>, t: nat, young: bool): (n: nat)
    ensures n <= |log|
  {
    if log == [] then 0
    else
      var last := log[|log| - 1];
      var counts := last.start <= t && (last.end.Some? ==> t < last.end.value) && (young ==> t < last.start + STALL);
      Count(log[..|log| - 1], t, young) + if counts then 1 else 0
  }

  ghost predicate History(log: seq<Attempt>, now: nat) {
    && (forall i :: 0 <= i < |log| ==>
        log[i].start <= now && (log[i].end.Some? ==> log[i].start <= log[i].end.value <= now))
    && (forall i, j :: 0 <= i < j < |log| ==> log[i].start <= log[j].start)
  }

  /** At no time up to `now` were more than AT_ONCE attempts waiting on an
      answer that can still come, nor more than MOST alive. */
  ghost predicate Capped(log: seq<Attempt>, now: nat) {
    forall t: nat :: t <= now ==> Count(log, t, true) <= AT_ONCE && Count(log, t, false) <= MOST
  }

  /** An attempt starts a STAGGER after the one before, or once that one has
      ended. */
  ghost predicate Apart(log: seq<Attempt>) {
    forall i, j :: 0 <= i < j < |log| && j == i + 1 ==>
      || log[i].start + STAGGER <= log[j].start
      || (log[i].end.Some? && log[i].end.value <= log[j].start)
  }

  /** No attempt may start at `t`, however long the one before has gone. */
  ghost predicate Full(log: seq<Attempt>, t: nat) {
    Count(log, t, true) >= AT_ONCE || Count(log, t, false) >= MOST
  }

  ghost predicate Busy(log: seq<Attempt>, from: nat, until: nat) {
    forall t: nat :: from <= t < until ==> Full(log, t)
  }

  /** When the attempt after the first `n` is due: at the very start, a
      STAGGER after the last of them, or at once when that one ends. */
  function Due(log: seq<Attempt>, n: nat): nat
    requires n <= |log|
  {
    if n == 0 then 0
    else
      var before := log[n - 1];
      if before.end.Some? then Min(before.start + STAGGER, before.end.value) else before.start + STAGGER
  }

  ghost predicate PromptAt(log: seq<Attempt>, n: nat) {
    n < |log| ==> Busy(log, Due(log, n), log[n].start)
  }

  /** No attempt starts later than it might: from when it is due to when it
      starts, no place is free. */
  ghost predicate Prompt(log: seq<Attempt>) {
    forall n: nat :: n < |log| ==> PromptAt(log, n)
  }

  /** The latest the `i`-th address is tried while the race goes on: a
      STALL for every AT_ONCE before it, and a STAGGER for each of the rest. */
  function Bound(i: nat): nat {
    if i < AT_ONCE then i * STAGGER else Bound(i - AT_ONCE) + STALL
  }

  lemma {:induction false} BoundIs(i: nat)
    ensures Bound(i) == i / AT_ONCE * STALL + i % AT_ONCE * STAGGER
  {
    if i >= AT_ONCE {
      BoundIs(i - AT_ONCE);
    }
  }

  ghost predicate Timely(log: seq<Attempt>) {
    forall i :: 0 <= i < |log| && i < MOST ==> log[i].start <= Bound(i)
  }

  /** What a race does for its addresses: it tries them in order, within the
      caps and apart, and none of the first MOST waits past its bound while
      the race goes on. */
  ghost predicate Fair(order: seq<Address>, timeout: nat, log: seq<Attempt>, finish: nat) {
    && |log| <= |order| && (forall i :: 0 <= i < |log| ==> log[i].address == order[i] && log[i].start < timeout)
    && History(log, finish) && Capped(log, finish) && Apart(log)
    && Prompt(log) && (|log| < |order| ==> Busy(log, Due(log, |log|), finish))
    && (forall i :: 0 <= i < |order| && i < MOST ==> (i < |log| && log[i].start <= Bound(i)) || finish <= Bound(i))
  }

  ghost predicate LastFailed(log: seq<Attempt>, last: Option<nat>) {
    match last
    case None => forall i :: 0 <= i < |log| ==> log[i].end.None?
    case Some(id) =>
      && id < |log| && log[id].end.Some?
      && forall i :: 0 <= i < |log| && log[i].end.Some? ==> log[i].end.value <= log[id].end.value
  }

  // ----- between two turns of the loop -----------------------------------

  ghost predicate Paced(log: seq<Attempt>, now: nat, next: nat) {
    if log == [] then next == 0
    else
      var last := log[|log| - 1];
      && (last.start + STAGGER <= next || (last.end.Some? && last.end.value <= now))
      && next <= if last.end.Some? then now else Max(now, last.start + STAGGER)
  }

  /** The variables of the loop, and the log. */
  datatype Run = Run(log: seq<Attempt>, now: nat, next: nat, last: Option<nat>)

  ghost predicate Going(order: seq<Address>, timeout: nat, run: Run) {
    match run
    case Run(log, now, next, last) =>
      && History(log, now) && Capped(log, now) && Apart(log) && Timely(log) && Paced(log, now, next) &&
          LastFailed(log, last)
      && Prompt(log) && (|log| < |order| ==> Busy(log, Due(log, |log|), now))
      && |log| <= |order|
      && (forall i :: 0 <= i < |log| ==> log[i].address == order[i] && log[i].start < timeout)
      && (|log| < |order| && |log| < MOST ==> now <= Bound(|log|))
  }

  function Ended(log: seq<Attempt>, id: nat, at: nat): seq<Attempt>
    requires id < |log|
  {
    log[id := log[id].(end := Some(at))]
  }

  lemma {:induction false} SlotsFront(log: seq<Attempt>)
    requires log != []
    ensures var slots, last := SlotsOf(log), log[|log| - 1];
            && |slots| == |log| && slots[..|slots| - 1] == SlotsOf(log[..|log| - 1])
            && slots[|slots| - 1] == if last.end.Some? then None else Some(last.start)
  {
  }

  lemma {:induction false} CountNow(log: seq<Attempt>, now: nat)
    requires History(log, now)
    ensures Count(log, now, false) == Alive(SlotsOf(log))
    ensures Count(log, now, true) == |Waiting(SlotsOf(log), now)|
  {
    if log != [] {
      var front := log[..|log| - 1];
      assert forall i :: 0 <= i < |front| ==> front[i] == log[i];
      CountNow(front, now);
      SlotsFront(log);
    }
  }

  /** Time passing, no attempt starting, only ever lowers the counts. */
  lemma {:induction false} CountLater(log: seq<Attempt>, now: nat, t: nat, young: bool)
    requires History(log, now) && now <= t
    ensures Count(log, t, young) <= Count(log, now, young)
  {
    if log != [] {
      CountLater(log[..|log| - 1], now, t, young);
    }
  }

  lemma {:induction false} CountEnded(log: seq<Attempt>, id: nat, at: nat, t: nat, young: bool)
    requires id < |log| && log[id].end.None?
    ensures Count(log[id := log[id].(end := Some(at))], t, young) <= Count(log, t, young)
  {
    var log' := log[id := log[id].(end := Some(at))];
    if id < |log| - 1 {
      CountEnded(log[..|log| - 1], id, at, t, young);
      assert log'[..|log| - 1] == log[..|log| - 1][id := log[id].(end := Some(at))];
    } else {
      assert log'[..|log| - 1] == log[..|log| - 1];
    }
  }

  lemma {:induction false} CappedStart(log: seq<Attempt>, now: nat, attempt: Attempt)
    requires History(log, now) && Capped(log, now) && attempt.start == now
    requires Count(log, now, true) < AT_ONCE && Count(log, now, false) < MOST
    ensures Capped(log + [attempt], now)
  {
    var log' := log + [attempt];
    assert log'[..|log|] == log;
    forall t: nat | t <= now ensures Count(log', t, true) <= AT_ONCE && Count(log', t, false) <= MOST {
      assert Count(log', t, true) <= Count(log, t, true) + if t == now then 1 else 0;
      assert Count(log', t, false) <= Count(log, t, false) + if t == now then 1 else 0;
    }
  }

  lemma {:induction false} CappedEnd(log: seq<Attempt>, now: nat, id: nat, at: nat)
    requires Capped(log, now) && id < |log| && log[id].end.None?
    ensures Capped(log[id := log[id].(end := Some(at))], now)
  {
    var log' := log[id := log[id].(end := Some(at))];
    forall t: nat | t <= now ensures Count(log', t, true) <= AT_ONCE && Count(log', t, false) <= MOST {
      CountEnded(log, id, at, t, true);
      CountEnded(log, id, at, t, false);
    }
  }

  lemma {:induction false} CappedWait(log: seq<Attempt>, now: nat, later: nat)
    requires History(log, now) && Capped(log, now) && now <= later
    ensures Capped(log, later)
  {
    forall t: nat | t <= later ensures Count(log, t, true) <= AT_ONCE && Count(log, t, false) <= MOST {
      if t > now {
        CountLater(log, now, t, true);
        CountLater(log, now, t, false);
      }
    }
  }

  // ----- no place left idle ----------------------------------------------

  lemma {:induction false} CountBefore(log: seq<Attempt>, attempt: Attempt, t: nat, young: bool)
    requires t < attempt.start
    ensures Count(log + [attempt], t, young) == Count(log, t, young)
  {
    assert (log + [attempt])[..|log|] == log;
  }

  lemma {:induction false} CountUnended(log: seq<Attempt>, id: nat, at: nat, t: nat, young: bool)
    requires id < |log| && log[id].end.None? && t < at
    ensures Count(log[id := log[id].(end := Some(at))], t, young) == Count(log, t, young)
  {
    var log' := log[id := log[id].(end := Some(at))];
    if id < |log| - 1 {
      CountUnended(log[..|log| - 1], id, at, t, young);
      assert log'[..|log| - 1] == log[..|log| - 1][id := log[id].(end := Some(at))];
    } else {
      assert log'[..|log| - 1] == log[..|log| - 1];
    }
  }

  lemma {:induction false} BusyStart(log: seq<Attempt>, attempt: Attempt, from: nat, until: nat)
    requires Busy(log, from, until) && until <= attempt.start
    ensures Busy(log + [attempt], from, until)
  {
    forall t: nat | from <= t < until ensures Full(log + [attempt], t) {
      assert Full(log, t);
      CountBefore(log, attempt, t, true);
      CountBefore(log, attempt, t, false);
    }
  }

  lemma {:induction false} BusyEnd(log: seq<Attempt>, id: nat, at: nat, from: nat, until: nat)
    requires Busy(log, from, until) && until <= at && id < |log| && log[id].end.None?
    ensures Busy(Ended(log, id, at), from, until)
  {
    forall t: nat | from <= t < until ensures Full(Ended(log, id, at), t) {
      assert Full(log, t);
      CountUnended(log, id, at, t, true);
      CountUnended(log, id, at, t, false);
    }
  }

  /** Until the time `opening` gives, no place is free. */
  lemma {:induction false} BusyWaiting(log: seq<Attempt>, now: nat, next: nat, t: nat)
    requires History(log, now) && now <= t && next <= t
    requires var opening := Opening(SlotsOf(log), now, next); opening.Some? ==> t < opening.value
    ensures Full(log, t)
  {
    CountNow(log, t);
    SlotsInOrder(log, now);
    if Alive(SlotsOf(log)) < MOST {
      OpeningIsFirst(SlotsOf(log), now, next, t);
    }
  }

  lemma {:induction false} SlotsInOrder(log: seq<Attempt>, now: nat)
    requires History(log, now)
    ensures InOrder(SlotsOf(log))
  {
  }

  lemma {:induction false} PacedDue(log: seq<Attempt>, now: nat, next: nat)
    requires Paced(log, now, next)
    ensures next <= now || next <= Due(log, |log|)
  {
  }

  /** Waiting, the loop keeps no free place idle. */
  lemma {:induction false} BusyWait(log: seq<Attempt>, now: nat, next: nat, wake: nat)
    requires History(log, now) && Paced(log, now, next) && Busy(log, Due(log, |log|), now)
    requires var opening := Opening(SlotsOf(log), now, next); opening.Some? ==> wake <= opening.value
    ensures Busy(log, Due(log, |log|), wake)
  {
    hide History, Paced, Opening, Full;
    PacedDue(log, now, next);
    forall t: nat | Due(log, |log|) <= t < wake ensures Full(log, t) {
      if t >= now {
        BusyWaiting(log, now, next, t);
      }
    }
  }

  lemma {:induction false} PromptStart(log: seq<Attempt>, now: nat, attempt: Attempt)
    requires History(log, now) && Prompt(log) && Busy(log, Due(log, |log|), now) && attempt.start == now
    ensures Prompt(log + [attempt])
  {
    hide Busy;
    forall n: nat | n <= |log| ensures PromptAt(log + [attempt], n) {
      assert n < |log| ==> PromptAt(log, n);
      assert Due(log + [attempt], n) == Due(log, n);
      BusyStart(log, attempt, Due(log, n), if n < |log| then log[n].start else now);
    }
  }

  /** An attempt that ends once the next has started was due it no sooner
      for that. */
  lemma {:induction false} DueEnded(log: seq<Attempt>, now: nat, id: nat, at: nat, n: nat)
    requires History(log, now) && Apart(log) && id < |log| && log[id].end.None? && now <= at && n <= |log|
    ensures Due(Ended(log, id, at), n) == if n == |log| && id + 1 == n then Min(Due(log, n), at) else Due(log, n)
  {
    if n == id + 1 && n < |log| {
      assert log[id].start + STAGGER <= log[n].start;
    }
  }

  lemma {:induction false} PromptEnd(log: seq<Attempt>, now: nat, id: nat, at: nat)
    requires History(log, now) && Apart(log) && Prompt(log) && id < |log| && log[id].end.None? && now <= at
    ensures Prompt(Ended(log, id, at))
    ensures Busy(log, Due(log, |log|), at) ==> Busy(Ended(log, id, at), Due(Ended(log, id, at), |log|), at)
  {
    hide Busy, Due, Apart;
    forall n: nat | n < |log| ensures PromptAt(Ended(log, id, at), n) {
      assert PromptAt(log, n);
      DueEnded(log, now, id, at, n);
      BusyEnd(log, id, at, Due(log, n), log[n].start);
    }
    DueEnded(log, now, id, at, |log|);
    if Busy(log, Due(log, |log|), at) {
      BusyEnd(log, id, at, Due(log, |log|), at);
      BusyLess(Ended(log, id, at), Due(log, |log|), at);
    }
  }

  lemma {:induction false} BusyLess(log: seq<Attempt>, from: nat, until: nat)
    requires Busy(log, from, until)
    ensures Busy(log, Min(from, until), until)
  {
  }

  // ----- no starvation ---------------------------------------------------

  lemma {:induction false} BoundStep(i: nat)
    ensures Bound(i) + STAGGER <= Bound(i + 1)
  {
    if i >= AT_ONCE {
      BoundStep(i - AT_ONCE);
    }
  }

  lemma {:induction false} BoundRises(i: nat, j: nat)
    requires i <= j
    ensures Bound(i) <= Bound(j)
    decreases j
  {
    if i < j {
      BoundRises(i, j - 1);
      BoundStep(j - 1);
    }
  }

  /** The `k`-th last of those waiting is no later attempt than the `k`-th
      last of all. */
  lemma {:induction false} WaitingOld(log: seq<Attempt>, now: nat, k: nat) returns (id: nat)
    requires 0 < k <= |Waiting(SlotsOf(log), now)|
    ensures id + k <= |log| && Waiting(SlotsOf(log), now)[|Waiting(SlotsOf(log), now)| - k] == log[id].start
  {
    var slots := SlotsOf(log);
    var front := log[..|log| - 1];
    assert slots[..|slots| - 1] == SlotsOf(front);
    var last := slots[|slots| - 1];
    if last.Some? && now < last.value + STALL {
      if k == 1 {
        id := |log| - 1;
      } else {
        id := WaitingOld(front, now, k - 1);
      }
    } else {
      assert Waiting(slots, now) == Waiting(SlotsOf(front), now);
      id := WaitingOld(front, now, k);
    }
  }

  /** The next address may be tried by its bound, if no attempt ends before:
      the heart of there being no starvation. */
  lemma {:induction false} OpeningDue(order: seq<Address>, timeout: nat, run: Run)
    requires Going(order, timeout, run) && |run.log| < |order| && |run.log| < MOST
    ensures var opening := Opening(SlotsOf(run.log), run.now, run.next);
            opening.Some? && opening.value <= Bound(|run.log|)
  {
    hide Capped, Apart, Prompt, Busy, Due, LastFailed;
    var log := run.log;
    if log != [] {
      BoundStep(|log| - 1);
      BoundStep(|log|);
      var waiting := Waiting(SlotsOf(log), run.now);
      if |waiting| >= AT_ONCE {
        var id := WaitingOld(log, run.now, AT_ONCE);
        BoundRises(id, |log| - AT_ONCE);
      }
    }
  }

  // ----- the turns of the loop -------------------------------------------

  lemma {:induction false} Startable(log: seq<Attempt>, now: nat, next: nat)
    requires History(log, now)
    requires var opening := Opening(SlotsOf(log), now, next); opening.Some? && opening.value <= now
    ensures next <= now && Count(log, now, true) < AT_ONCE && Count(log, now, false) < MOST
  {
    CountNow(log, now);
    var waiting := Waiting(SlotsOf(log), now);
    if |waiting| >= AT_ONCE {
      WaitingYoung(SlotsOf(log), now);
    }
  }

  lemma {:induction false} WaitingYoung(slots: Slots, now: nat)
    ensures forall i :: 0 <= i < |Waiting(slots, now)| ==> now < Waiting(slots, now)[i] + STALL
  {
    if slots != [] {
      WaitingYoung(slots[..|slots| - 1], now);
    }
  }

  lemma {:induction false} LogStarts(log: seq<Attempt>, now: nat, next: nat, attempt: Attempt)
    requires History(log, now) && Apart(log) && Timely(log) && Paced(log, now, next)
    requires attempt.start == now && next <= now && (attempt.end.Some? ==> attempt.end.value == now)
    requires |log| < MOST ==> now <= Bound(|log|)
    ensures History(log + [attempt], now) && Apart(log + [attempt]) && Timely(log + [attempt])
  {
  }

  lemma {:induction false} StepLog(order: seq<Address>, timeout: nat, run: Run, attempt: Attempt)
    requires run.now < timeout
    requires Going(order, timeout, run) && |run.log| < |order|
    requires var opening := Opening(SlotsOf(run.log), run.now, run.next); opening.Some? && opening.value <= run.now
    requires attempt.start == run.now && attempt.address == order[|run.log|]
    requires attempt.end.Some? ==> attempt.end.value == run.now
    ensures var log := run.log + [attempt];
            History(log, run.now) && Capped(log, run.now) && Apart(log) && Timely(log) && Prompt(log) &&
                run.next <= run.now
  {
    hide History, Capped, Apart, Timely, Paced, LastFailed, Opening, Bound, Prompt, Busy, Due;
    PromptStart(run.log, run.now, attempt);
    Startable(run.log, run.now, run.next);
    LogStarts(run.log, run.now, run.next, attempt);
    CappedStart(run.log, run.now, attempt);
  }

  lemma {:induction false} StepStart(order: seq<Address>, timeout: nat, run: Run)
    requires run.now < timeout
    requires Going(order, timeout, run) && |run.log| < |order|
    requires var opening := Opening(SlotsOf(run.log), run.now, run.next); opening.Some? && opening.value <= run.now
    ensures Going(order, timeout,
        Run(run.log + [Attempt(order[|run.log|], run.now, None)], run.now, run.now + STAGGER, run.last))
  {
    hide History, Capped, Apart, Timely, Opening, Prompt;
    StepLog(order, timeout, run, Attempt(order[|run.log|], run.now, None));
    BoundStep(|run.log|);
  }

  lemma {:induction false} StepUnstarted(order: seq<Address>, timeout: nat, run: Run)
    requires run.now < timeout
    requires Going(order, timeout, run) && |run.log| < |order|
    requires var opening := Opening(SlotsOf(run.log), run.now, run.next); opening.Some? && opening.value <= run.now
    ensures Going(order, timeout,
        Run(run.log + [Attempt(order[|run.log|], run.now, Some(run.now))], run.now, run.next, Some(|run.log|)))
  {
    hide Capped, Apart, Timely, Opening, Prompt;
    StepLog(order, timeout, run, Attempt(order[|run.log|], run.now, Some(run.now)));
    BoundStep(|run.log|);
  }

  lemma {:induction false} LogEnds(log: seq<Attempt>, now: nat, next: nat, last: Option<nat>, id: nat, at: nat)
    requires History(log, now) && Apart(log) && Timely(log) && Paced(log, now, next) && LastFailed(log, last)
    requires id < |log| && log[id].end.None? && now <= at
    ensures History(Ended(log, id, at), at) && Apart(Ended(log, id, at)) && Timely(Ended(log, id, at))
    ensures Paced(Ended(log, id, at), at, if id + 1 == |log| then at else next) &&
        LastFailed(Ended(log, id, at), Some(id))
  {
  }

  lemma {:induction false} StepEnd(order: seq<Address>, timeout: nat, run: Run, id: nat, at: nat)
    requires Going(order, timeout, run)
    requires id < |run.log| && run.log[id].end.None? && run.now <= at
    requires |run.log| < |order| && |run.log| < MOST ==> at <= Bound(|run.log|)
    requires var opening := Opening(SlotsOf(run.log), run.now, run.next);
             |run.log| < |order| && opening.Some? ==> at <= opening.value
    ensures Going(order, timeout,
        Run(Ended(run.log, id, at), at, if id + 1 == |run.log| then at else run.next, Some(id)))
  {
    hide History, Capped, Apart, Timely, Paced, LastFailed, Bound, Prompt, Busy, Due, Opening;
    if |run.log| < |order| {
      BusyWait(run.log, run.now, run.next, at);
    }
    PromptEnd(run.log, run.now, id, at);
    LogEnds(run.log, run.now, run.next, run.last, id, at);
    CappedWait(run.log, run.now, at);
    CappedEnd(run.log, at, id, at);
  }

  lemma {:induction false} StepWake(order: seq<Address>, timeout: nat, run: Run, wake: nat)
    requires Going(order, timeout, run) && run.now <= wake
    requires |run.log| < |order| && |run.log| < MOST ==> wake <= Bound(|run.log|)
    requires var opening := Opening(SlotsOf(run.log), run.now, run.next);
             |run.log| < |order| && opening.Some? ==> wake <= opening.value
    ensures Going(order, timeout, run.(now := wake))
  {
    hide Capped, Apart, Prompt, Busy, Due, Opening;
    if |run.log| < |order| {
      BusyWait(run.log, run.now, run.next, wake);
    }
    CappedWait(run.log, run.now, wake);
  }

  lemma {:induction false} AliveEnded(slots: Slots, id: nat)
    requires id < |slots| && slots[id].Some?
    ensures Alive(slots[id := None]) + 1 == Alive(slots)
  {
    var front := slots[..|slots| - 1];
    if id < |slots| - 1 {
      AliveEnded(front, id);
      assert slots[id := None][..|slots| - 1] == front[id := None];
    } else {
      assert slots[id := None][..|slots| - 1] == front;
    }
  }

  lemma {:induction false} SomeAlive(slots: Slots)
    ensures Alive(slots) == 0 <==> forall i :: 0 <= i < |slots| ==> slots[i].None?
  {
    if slots != [] {
      var front := slots[..|slots| - 1];
      SomeAlive(front);
      assert forall i :: 0 <= i < |front| ==> front[i] == slots[i];
    }
  }

  // ----- the race --------------------------------------------------------

  /** An attempt going on ends so by its fate. */
  ghost predicate Ends(world: World, log: seq<Attempt>, ending: Ending) {
    && ending.id < |log| && log[ending.id].end.None? && log[ending.id].start <= ending.at
    && world.fate(ending.id) == Some(Fate(ending.at - log[ending.id].start, ending.connected))
  }

  /** A wait for what the attempts hand back, until `wake`: the first to be
      heard of, if it is by then. */
  method Receive(world: World, slots: Slots, wake: nat, ghost log: seq<Attempt>) returns (first: Option<Ending>)
    requires slots == SlotsOf(log)
    ensures first.None? ==> NoneSooner(world, log, wake)
    ensures first.Some? ==>
              Ends(world, log, first.value) && first.value.at <= wake && NoneSooner(world, log, first.value.at)
  {
    first := None;
    for id := 0 to |slots|
      invariant first.None? ==> NoneSooner(world, log[..id], wake)
      invariant first.Some? ==> Ends(world, log, first.value) && first.value.at <= wake
      invariant first.Some? ==> NoneSooner(world, log[..id], first.value.at)
    {
      SlotsAt(log, id);
      if slots[id].Some? && world.fate(id).Some? {
        var Fate(after, connected) := world.fate(id).value;
        var at := slots[id].value + after;
        if at < wake || (at == wake && !world.late(id)) {
          if first.None? || at < first.value.at || (at == first.value.at && world.ahead(id, first.value.id)) {
            first := Some(Ending(id, at, connected));
          }
        }
      }
    }
    assert log[..|slots|] == log;
  }

  lemma {:induction false} OpeningNone(slots: Slots, now: nat, next: nat)
    ensures Alive(slots) == 0 ==> Opening(slots, now, next).Some?
  {
  }

  lemma {:induction false} SlotsAt(log: seq<Attempt>, id: nat)
    ensures |SlotsOf(log)| == |log|
    ensures id < |log| ==> SlotsOf(log)[id] == if log[id].end.None? then Some(log[id].start) else None
  {
  }

  lemma {:induction false} SlotsStart(log: seq<Attempt>, attempt: Attempt)
    ensures SlotsOf(log + [attempt]) == SlotsOf(log) + [if attempt.end.Some? then None else Some(attempt.start)]
  {
  }

  lemma {:induction false} SlotsEnd(log: seq<Attempt>, id: nat, at: nat)
    requires id < |log|
    ensures SlotsOf(Ended(log, id, at)) == SlotsOf(log)[id := None]
    ensures Ended(log, id, at) == log[id := log[id].(end := Some(at))]
  {
  }

  lemma {:induction false} OrderLength(addresses: seq<Address>)
    ensures |OrderOf(addresses)| == |addresses|
  {
    OrderAlternates(addresses, 0);
    assert |multiset(OrderOf(addresses))| == |multiset(addresses)|;
  }

  lemma {:induction false} Begun(order: seq<Address>, timeout: nat, world: World)
    ensures SlotsOf([]) == [] && InTurn(order, timeout, world, Run([], 0, 0, None))
  {
  }

  /** What the log of a race that is over says. */
  lemma {:induction false} Over(order: seq<Address>, timeout: nat, run: Run)
    requires Going(order, timeout, run)
    ensures Fair(order, timeout, run.log, run.now) && LastFailed(run.log, run.last) && |run.log| <= |order|
  {
    forall i | |run.log| <= i < |order| && i < MOST ensures run.now <= Bound(i) {
      BoundRises(|run.log|, i);
    }
  }

  /** Whether an attempt was left is what the slots say. */
  lemma {:induction false} Left(log: seq<Attempt>, last: Option<nat>)
    requires LastFailed(log, last)
    ensures Alive(SlotsOf(log)) > 0 ==> exists i :: 0 <= i < |log| && log[i].end.None?
    ensures Alive(SlotsOf(log)) == 0 ==>
        (forall i :: 0 <= i < |log| ==> log[i].end.Some?) && (last.None? <==> log == [])
  {
    var slots := SlotsOf(log);
    SomeAlive(slots);
    assert forall i :: 0 <= i < |log| ==> (slots[i].None? <==> log[i].end.Some?);
  }

  /** With every attempt over, the last was just now. */
  ghost predicate EndedNow(order: seq<Address>, log: seq<Attempt>, now: nat, last: Option<nat>) {
    |log| == |order| && (forall i :: 0 <= i < |log| ==> log[i].end.Some?) ==>
      if last.None? then log == [] && now == 0 else last.value < |log| && log[last.value].end == Some(now)
  }

  lemma {:induction false} EndedStart(order: seq<Address>, log: seq<Attempt>, attempt: Attempt, last: Option<nat>)
    requires |log| < |order| && (attempt.end.Some? ==> attempt.end.value == attempt.start && last == Some(|log|))
    ensures EndedNow(order, log + [attempt], attempt.start, last)
  {
    assert (log + [attempt])[|log|] == attempt;
  }

  lemma {:induction false} EndedEnd(order: seq<Address>, log: seq<Attempt>, id: nat, at: nat)
    requires id < |log|
    ensures EndedNow(order, Ended(log, id, at), at, Some(id))
  {
  }

  lemma {:induction false} EndedWake(order: seq<Address>, log: seq<Attempt>, now: nat, last: Option<nat>, wake: nat)
    requires LastFailed(log, last) && (|log| < |order| || Alive(SlotsOf(log)) > 0)
    ensures EndedNow(order, log, wake, last)
  {
    Left(log, last);
  }

  lemma {:induction false} OverNow(order: seq<Address>, log: seq<Attempt>, now: nat, last: Option<nat>)
    requires EndedNow(order, log, now, last) && |log| == |order| && forall i :: 0 <= i < |log| ==> log[i].end.Some?
    ensures if last.None? then log == [] && now == 0 else last.value < |log| && log[last.value].end == Some(now)
  {
  }

  /** Between two turns. */
  ghost predicate InTurn(order: seq<Address>, timeout: nat, world: World, run: Run) {
    && Going(order, timeout, run) && Heeded(world, run.log, run.now, None)
    && EndedNow(order, run.log, run.now, run.last)
  }

  /** What an attempt started, or one that could not be, makes of a turn. */
  function Began(run: Run, address: Address, begun: bool): Run {
    if begun then Run(run.log + [Attempt(address, run.now, None)], run.now, run.now + STAGGER, run.last)
    else Run(run.log + [Attempt(address, run.now, Some(run.now))], run.now, run.next, Some(|run.log|))
  }

  lemma {:induction false} TurnBegins(order: seq<Address>, timeout: nat, world: World, run: Run)
    requires run.now < timeout && InTurn(order, timeout, world, run) && |run.log| < |order|
    requires var opening := Opening(SlotsOf(run.log), run.now, run.next); opening.Some? && opening.value <= run.now
    ensures var begun := world.spawns(|run.log|);
            var run' := Began(run, order[|run.log|], begun);
            && InTurn(order, timeout, world, run') && |run'.log| == |run.log| + 1
            && SlotsOf(run'.log) == SlotsOf(run.log) + [if begun then Some(run.now) else None]
  {
    hide Going, Heeded, EndedNow, Opening, SlotsOf;
    var begun := world.spawns(|run.log|);
    var attempt := Attempt(order[|run.log|], run.now, if begun then None else Some(run.now));
    if begun {
      StepStart(order, timeout, run);
    } else {
      StepUnstarted(order, timeout, run);
    }
    HeededStart(world, run.log, run.now, attempt);
    SlotsStart(run.log, attempt);
    EndedStart(order, run.log, attempt, if begun then run.last else Some(|run.log|));
  }

  /** What an ending makes of a turn. */
  function After(run: Run, ending: Ending): Run
    requires ending.id < |run.log|
  {
    var latest := ending.id + 1 == |run.log|;
    Run(Ended(run.log, ending.id, ending.at), ending.at, if latest then ending.at else run.next, Some(ending.id))
  }

  lemma {:induction false} TurnEnds(order: seq<Address>, timeout: nat, world: World, run: Run, ending: Ending)
    requires InTurn(order, timeout, world, run) && Ends(world, run.log, ending)
    requires NoneSooner(world, run.log, ending.at)
    requires |run.log| < |order| && |run.log| < MOST ==> ending.at <= Bound(|run.log|)
    requires var opening := Opening(SlotsOf(run.log), run.now, run.next);
             |run.log| < |order| && opening.Some? ==> ending.at <= opening.value
    ensures var run' := After(run, ending);
            && (if ending.connected then
                  && Fair(order, timeout, run'.log, run'.now) && Heeded(world, run'.log, run'.now, Some(ending.id))
                  && Kept(world, run'.log, ending.id, run'.now)
                else InTurn(order, timeout, world, run'))
            && SlotsOf(run'.log) == SlotsOf(run.log)[ending.id := None] && |run'.log| == |run.log|
            && Alive(SlotsOf(run'.log)) < Alive(SlotsOf(run.log))
  {
    hide Going, Heeded, EndedNow, Opening, SlotsOf, Alive, Bound, NoneSooner, Fair, Kept;
    var log := run.log;
    InTime(world, log, run.now, ending);
    SlotsAt(log, ending.id);
    StepEnd(order, timeout, run, ending.id, ending.at);
    AliveEnded(SlotsOf(log), ending.id);
    SlotsEnd(log, ending.id, ending.at);
    HeededEnd(world, log, run.now, ending);
    EndedEnd(order, log, ending.id, ending.at);
    Over(order, timeout, After(run, ending));
  }

  lemma {:induction false} EndsOne(world: World, log: seq<Attempt>, ending: Ending)
    requires Ends(world, log, ending)
    ensures ending.id < |log|
  {
  }

  lemma {:induction false} InTime(world: World, log: seq<Attempt>, now: nat, ending: Ending)
    requires Heeded(world, log, now, None) && Ends(world, log, ending)
    ensures now <= ending.at
  {
  }

  lemma {:induction false} TurnWakes(order: seq<Address>, timeout: nat, world: World, run: Run, wake: nat)
    requires InTurn(order, timeout, world, run) && run.now <= wake && NoneSooner(world, run.log, wake)
    requires |run.log| < |order| || Alive(SlotsOf(run.log)) > 0
    requires |run.log| < |order| && |run.log| < MOST ==> wake <= Bound(|run.log|)
    requires var opening := Opening(SlotsOf(run.log), run.now, run.next);
             |run.log| < |order| && opening.Some? ==> wake <= opening.value
    ensures InTurn(order, timeout, world, run.(now := wake))
  {
    hide Going, Heeded, EndedNow, Opening, SlotsOf, Alive, Bound, NoneSooner;
    StepWake(order, timeout, run, wake);
    HeededWake(world, run.log, run.now, wake);
    LastSoFar(order, timeout, run);
    EndedWake(order, run.log, run.now, run.last, wake);
  }

  lemma {:induction false} LastSoFar(order: seq<Address>, timeout: nat, run: Run)
    requires Going(order, timeout, run)
    ensures LastFailed(run.log, run.last)
  {
  }

  lemma {:induction false} TurnDue(order: seq<Address>, timeout: nat, world: World, run: Run)
    requires InTurn(order, timeout, world, run) && |run.log| < |order| && |run.log| < MOST
    ensures var opening := Opening(SlotsOf(run.log), run.now, run.next);
            opening.Some? && opening.value <= Bound(|run.log|)
  {
    hide Going;
    OpeningDue(order, timeout, run);
  }

  /** The race over with no attempt that connected. */
  lemma {:induction false} TurnsOver(order: seq<Address>, timeout: nat, world: World, run: Run)
    requires InTurn(order, timeout, world, run)
    ensures Fair(order, timeout, run.log, run.now) && Heeded(world, run.log, run.now, None)
    ensures Alive(SlotsOf(run.log)) > 0 ==> exists i :: 0 <= i < |run.log| && run.log[i].end.None?
    ensures |run.log| == |order| && Alive(SlotsOf(run.log)) == 0 ==>
              && (forall i :: 0 <= i < |run.log| ==> run.log[i].end.Some?)
              && (run.last.None? <==> order == []) && (run.last.None? ==> run.now == 0)
              && (run.last.Some? ==>
                  && LastFailed(run.log, run.last) && run.last.value < |run.log|
                  && run.log[run.last.value].end == Some(run.now))
  {
    hide Going, Heeded, EndedNow, SlotsOf, Alive, LastFailed, Fair;
    Over(order, timeout, run);
    Left(run.log, run.last);
    if |run.log| == |order| && Alive(SlotsOf(run.log)) == 0 {
      OverNow(order, run.log, run.now, run.last);
    }
  }

  /** `race`, and `race_async` when every attempt can be started: the log is
      what it did, `finish` when it was over. */
  method Race(addresses: seq<Address>, allowed: nat, world: World)
    returns (outcome: Outcome, timeout: nat, ghost log: seq<Attempt>, ghost finish: nat)
    ensures timeout == if allowed <= LONGEST then allowed else LONGEST
    ensures finish <= timeout
    ensures Fair(OrderOf(addresses), timeout, log, finish) && |OrderOf(addresses)| == |addresses|
    // Whatever is heard is heard at once, and the first to connect is kept.
    ensures Heeded(world, log, finish, if outcome.Connected? then Some(outcome.id) else None)
    ensures outcome.Connected? ==> Kept(world, log, outcome.id, finish)
    // A failure is told as the last attempt ends.
    ensures outcome.Failed? ==>
              && |log| == |addresses| && (forall i :: 0 <= i < |log| ==> log[i].end.Some?)
              && LastFailed(log, Some(outcome.id)) && finish == log[outcome.id].end.value
    ensures outcome == TimedOut ==>
              && finish == timeout
              && (|log| < |addresses| || exists i :: 0 <= i < |log| && log[i].end.None?)
    ensures outcome == Nowhere <==> addresses == []
    ensures outcome == Nowhere ==> finish == 0
  {
    hide InTurn, Fair, Heeded, Kept, Opening, Alive, SlotsOf, LastFailed, OrderOf, Ends, NoneSooner, Bound;
    timeout := if allowed <= LONGEST then allowed else LONGEST;
    var order := Ordered(addresses);
    OrderLength(addresses);
    Begun(order, timeout, world);
    var flights := new Flights();
    var next: nat, last: Option<nat>, now: nat := 0, None, 0;
    var tried: nat := 0;
    log := [];
    while now < timeout
      invariant now <= timeout && fresh(flights)
      invariant InTurn(order, timeout, world, Run(log, now, next, last))
      invariant flights.slots == SlotsOf(log) && tried == |log| == |flights.slots| <= |order|
      decreases |order| - tried, Alive(flights.slots), timeout - now
    {
      ghost var run := Run(log, now, next, last);
      var opening := if tried == |order| then None else Opening(flights.slots, now, next);
      if opening.Some? && opening.value <= now {
        TurnBegins(order, timeout, world, run);
        var address := order[tried];
        var id := flights.Start(now);
        if world.spawns(id) {
          next := now + STAGGER;
        } else {
          var _ := flights.End(id);
          last := Some(id);
        }
        log := Began(run, address, world.spawns(id)).log;
        tried := tried + 1;
        continue;
      }
      OpeningNone(flights.slots, now, next);
      if Alive(flights.slots) == 0 && opening.None? {
        break;
      }
      var wake: nat := if opening.None? then timeout else if opening.value <= timeout then opening.value else timeout;
      if tried < |order| && tried < MOST {
        TurnDue(order, timeout, world, run);
      }
      var first := Receive(world, flights.slots, wake, log);
      if first.Some? {
        var Ending(id, at, connected) := first.value;
        EndsOne(world, log, first.value);
        TurnEnds(order, timeout, world, run, first.value);
        var latest := flights.End(id);
        log := After(run, first.value).log;
        now := at;
        if connected {
          return Connected(id), timeout, log, now;
        }
        last := Some(id);
        if latest {
          next := now;
        }
      } else {
        TurnWakes(order, timeout, world, run, wake);
        now := wake;
      }
    }
    TurnsOver(order, timeout, world, Run(log, now, next, last));
    finish := now;
    outcome := if Alive(flights.slots) > 0 || tried < |order| then TimedOut
               else if last.None? then Nowhere else Failed(last.value);
  }
}
