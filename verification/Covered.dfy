/** What the syncs of the live watch were asked (src/live.rs, `Asked::and`,
    `relay`, `ask`, `look`), over every run: a sync stands for each ask counted
    done by it, but for scripts it misses; and what the watch does of its own
    accord it does at most once an hour for each wallet. */
module Covered {
  import opened Wrappers
  import opened Asks
  import opened Relay
  import opened Conserved

  /** A wallet asked for by a look of the watch's own accord, and when. */
  datatype Own = Own(wallet: Wallet, at: nat)

  /** The scheduler; what each ask that arrived asked of which wallet, and each
      task spawned was given; the time of the last look, and what looks asked of their own
      accord since the last new configuration: complete syncs, and payments
      looked at again. */
  datatype Ledger = Ledger(b: Book, asked: seq<Due>, jobs: seq<Ask>, clock: nat, days: seq<Own>, looks: seq<Own>)

  // ----- a run -----------------------------------------------------------

  function JobOf(t: Table, task: nat): Ask {
    if task in t.walletOf then t.walletOf[task] else Ask(0, Job(Asked(NewBlock, None, []), {}))
  }

  /** With the jobs of the tasks spawned since. */
  function Recorded(jobs: seq<Ask>, t: Table): (all: seq<Ask>)
    requires |jobs| <= t.spawned
    ensures |all| == t.spawned && jobs <= all
  {
    jobs + seq(t.spawned - |jobs|, i requires 0 <= i < t.spawned - |jobs| => JobOf(t, |jobs| + i))
  }

  function OwnAsked(asks: seq<Ask>): (asked: seq<Due>)
    ensures |asked| == |asks|
  {
    seq(|asks|, i requires 0 <= i < |asks| => Due(asks[i].wallet, asks[i].job.asked))
  }

  function Owned(asks: seq<Ask>, at: nat): (owned: seq<Own>)
    ensures |owned| == |asks|
  {
    seq(|asks|, i requires 0 <= i < |asks| => Own(asks[i].wallet, at))
  }

  /** The complete syncs a look picks, and the payments it looks at again. */
  function DaysOf(b: Book, step: Step): Picked
    requires step.Look?
  {
    Pick(Lately(b.t.tried, step.now), DueComplete(step.complete), step.now, |b.places|)
  }

  function LooksOf(b: Book, step: Step): Picked
    requires step.Look?
  {
    Pick(Lately(b.t.rechecked, step.now), DueRechecks(step.rechecks), step.now, |b.places| + |DaysOf(b, step).asks|)
  }

  /** Instants only rise: a look of before the last is none. */
  ghost predicate Happens(l: Ledger, step: Step) {
    step.Look? ==> l.clock <= step.now && Drains(l.b.t.owed, step.order)
  }

  ghost function Next(l: Ledger, step: Step): Ledger {
    if !Happens(l, step) then l
    else
      var b := Conserved.Next(l.b, step);
      var jobs := if |l.jobs| <= b.t.spawned then Recorded(l.jobs, b.t) else l.jobs;
      match step
      case Tell(wallet, event) => l.(b := b, asked := l.asked + [Due(wallet, AskedBy(event))], jobs := jobs)
      case Finish(_, _) => l.(b := b, jobs := jobs)
      case Reconfigure => l.(b := b, jobs := jobs, days := [], looks := [])
      case Look(_, _, _, now) =>
        var days, looks := DaysOf(l.b, step), LooksOf(l.b, step);
        Ledger(b, l.asked + OwnAsked(days.asks + looks.asks), jobs, now,
               l.days + Owned(days.asks, now), l.looks + Owned(looks.asks, now))
  }

  ghost function Run(steps: seq<Step>): Ledger {
    if steps == [] then Ledger(Conserved.Run([]), [], [], 0, [], [])
    else Next(Run(steps[..|steps| - 1]), steps[|steps| - 1])
  }

  // ----- what the tables hold --------------------------------------------

  /** What a wallet is asked includes what each of its asks asked of it. */
  ghost predicate Keeps(ask: Ask, asked: seq<Due>) {
    && StandIn(ask.job.asked)
    && forall id :: id in ask.job.asks ==>
         id < |asked| && asked[id].wallet == ask.wallet && Includes(ask.job.asked, asked[id].asked)
  }

  ghost predicate AllKeep(t: Table, asked: seq<Due>) {
    && (forall task :: task in t.walletOf ==> Keeps(t.walletOf[task], asked))
    && (forall wallet :: wallet in t.again && t.again[wallet].Some? ==>
        Keeps(Ask(wallet, t.again[wallet].value), asked))
    && (forall wallet :: wallet in t.owed ==> Keeps(Ask(wallet, t.owed[wallet]), asked))
  }

  lemma {:induction false} BothKeeps(wallet: Wallet, earlier: Option<Job>, job: Job, asked: seq<Due>)
    requires Keeps(Ask(wallet, job), asked) && (earlier.Some? ==> Keeps(Ask(wallet, earlier.value), asked))
    ensures Keeps(Ask(wallet, Both(earlier, job)), asked)
  {
    if earlier.Some? {
      var a, b := earlier.value.asked, job.asked;
      AndIncludes(a, b);
      AndStandsIn(a, b);
      forall id | id in earlier.value.asks + job.asks
        ensures id < |asked| && asked[id].wallet == wallet && Includes(And(a, b), asked[id].asked)
      {
        if id in earlier.value.asks {
          IncludesChain(And(a, b), a, asked[id].asked);
        } else {
          IncludesChain(And(a, b), b, asked[id].asked);
        }
      }
    }
  }

  lemma {:induction false} AskingKeeps(t: Table, ask: Ask, asked: seq<Due>)
    requires AllKeep(t, asked) && Keeps(ask, asked)
    ensures AllKeep(Asking(t, ask), asked)
  {
    hide Keeps, Both;
    if ask.wallet in t.again {
      BothKeeps(ask.wallet, t.again[ask.wallet], ask.job, asked);
    }
  }

  lemma {:induction false} AskedAllKeeps(t: Table, asks: seq<Ask>, asked: seq<Due>)
    requires AllKeep(t, asked) && forall i :: 0 <= i < |asks| ==> Keeps(asks[i], asked)
    ensures AllKeep(AskedAll(t, asks), asked)
    decreases |asks|
  {
    hide AllKeep, Keeps, Asking;
    if asks != [] {
      AskingKeeps(t, asks[0], asked);
      assert forall i :: 0 <= i < |asks[1..]| ==> asks[1..][i] == asks[i + 1];
      AskedAllKeeps(Asking(t, asks[0]), asks[1..], asked);
    }
  }

  lemma {:induction false} FinishedKeeps(t: Table, task: nat, ok: bool, asked: seq<Due>)
    requires AllKeep(t, asked)
    ensures AllKeep(Finished(t, task, ok), asked)
  {
    hide Keeps, Both;
    if task in t.tasks && task in t.walletOf {
      var Ask(wallet, job) := t.walletOf[task];
      BothKeeps(wallet, if wallet in t.owed then Some(t.owed[wallet]) else None, job, asked);
      var next := Since(t, wallet);
      EndedKeeps(t, task, ok, asked);
      if next.Some? {
        AskingKeeps(Ended(t, task, ok), Ask(wallet, next.value), asked);
      }
    }
  }

  lemma {:induction false} EndedKeeps(t: Table, task: nat, ok: bool, asked: seq<Due>)
    requires AllKeep(t, asked) && task in t.walletOf
    ensures AllKeep(Ended(t, task, ok), asked)
  {
    hide Keeps, Both;
    var Ask(wallet, job) := t.walletOf[task];
    BothKeeps(wallet, if wallet in t.owed then Some(t.owed[wallet]) else None, job, asked);
  }

  lemma {:induction false} KeepsMore(ask: Ask, asked: seq<Due>, more: seq<Due>)
    requires Keeps(ask, asked)
    ensures Keeps(ask, asked + more)
  {
  }

  lemma {:induction false} AllKeepMore(t: Table, asked: seq<Due>, more: seq<Due>)
    requires AllKeep(t, asked)
    ensures AllKeep(t, asked + more)
  {
    hide Keeps;
    forall ask: Ask | Keeps(ask, asked) ensures Keeps(ask, asked + more) {
      KeepsMore(ask, asked, more);
    }
  }

  /** A look makes asks of its own that keep what they ask, and those owed. */
  lemma {:induction false} PickKeeps(seen: map<Wallet, nat>, due: seq<Due>, now: nat, first: nat, k: nat)
    requires k < |Pick(seen, due, now, first).asks| && forall i :: 0 <= i < |due| ==> StandIn(due[i].asked)
    ensures StandIn(Pick(seen, due, now, first).asks[k].job.asked)
  {
    var front := due[..|due| - 1];
    if k < |Pick(seen, front, now, first).asks| {
      PickKeeps(seen, front, now, first, k);
    }
  }

  lemma {:induction false} DueStandIn(step: Step)
    requires step.Look?
    ensures forall i :: 0 <= i < |step.complete| ==> StandIn(DueComplete(step.complete)[i].asked)
    ensures forall i :: 0 <= i < |step.rechecks| ==> StandIn(DueRechecks(step.rechecks)[i].asked)
  {
    hide StandIn, Of;
    forall reason, scripts ensures StandIn(Of(reason, scripts)) {
      AskedStandsIn(WalletChanged(reason, scripts));
      assert AskedBy(WalletChanged(reason, scripts)) == Of(reason, scripts);
    }
  }

  lemma {:induction false} IncludesItself(asked: Asked)
    ensures Includes(asked, asked)
  {
  }

  lemma {:induction false} LookKeeps(l: Ledger, step: Step)
    requires step.Look? && Drains(l.b.t.owed, step.order) && AllKeep(l.b.t, l.asked) && |l.asked| == |l.b.places|
    ensures var own := DaysOf(l.b, step).asks + LooksOf(l.b, step).asks;
            var sight := Looking(l.b.t, step.order, DueComplete(step.complete), DueRechecks(step.rechecks), step.now,
                                 |l.b.places|);
            AllKeep(Looked(l.b.t, sight), l.asked + OwnAsked(own))
  {
    hide Keeps, Pick, Drains, DueComplete, DueRechecks, OwedAsks, Lately, AskedAll;
    var days, looks := DaysOf(l.b, step), LooksOf(l.b, step);
    var own := days.asks + looks.asks;
    var asked := l.asked + OwnAsked(own);
    OwedAt(l.b.t.owed, step.order, 0);
    AllKeepMore(l.b.t, l.asked, OwnAsked(own));
    var owedAsks := OwedAsks(l.b.t.owed, step.order);
    var asks := owedAsks + days.asks + looks.asks;
    forall i | 0 <= i < |asks| ensures Keeps(asks[i], asked) {
      if i < |owedAsks| {
        OwedAt(l.b.t.owed, step.order, i);
      } else {
        OwnKeeps(l, step, i - |owedAsks|);
        assert asks[i] == own[i - |owedAsks|];
      }
    }
    AskedAllKeeps(l.b.t.(owed := map[], tried := days.seen, rechecked := looks.seen), asks, asked);
  }

  lemma {:induction false} OwnKeeps(l: Ledger, step: Step, k: nat)
    requires step.Look? && |l.asked| == |l.b.places|
    requires var own := DaysOf(l.b, step).asks + LooksOf(l.b, step).asks; k < |own|
    ensures var own := DaysOf(l.b, step).asks + LooksOf(l.b, step).asks;
            Keeps(own[k], l.asked + OwnAsked(own))
  {
    hide Pick, DueComplete, DueRechecks, Lately, StandIn, Includes;
    var days, looks := DaysOf(l.b, step), LooksOf(l.b, step);
    var own := days.asks + looks.asks;
    DueStandIn(step);
    if k < |days.asks| {
      PickNumbers(Lately(l.b.t.tried, step.now), DueComplete(step.complete), step.now, |l.b.places|, k);
      PickKeeps(Lately(l.b.t.tried, step.now), DueComplete(step.complete), step.now, |l.b.places|, k);
    } else {
      var first := |l.b.places| + |days.asks|;
      PickNumbers(Lately(l.b.t.rechecked, step.now), DueRechecks(step.rechecks), step.now, first, k - |days.asks|);
      PickKeeps(Lately(l.b.t.rechecked, step.now), DueRechecks(step.rechecks), step.now, first, k - |days.asks|);
    }
    IncludesItself(own[k].job.asked);
    assert own[k].job.asks == {|l.b.places| + k};
    assert (l.asked + OwnAsked(own))[|l.b.places| + k] == Due(own[k].wallet, own[k].job.asked);
  }

  // ----- what every step keeps -------------------------------------------

  /** The tasks running, and those an ask was done by, were given that ask. */
  ghost predicate Given(l: Ledger) {
    && |l.jobs| == l.b.t.spawned
    && (forall task :: task in l.b.t.walletOf ==> task < |l.jobs| && l.jobs[task] == l.b.t.walletOf[task])
    && (forall id :: 0 <= id < |l.b.places| && l.b.places[id].Done? ==>
          var task := l.b.places[id].task; task < |l.jobs| && id in l.jobs[task].job.asks)
    && (forall task :: 0 <= task < |l.jobs| ==> Keeps(l.jobs[task], l.asked))
  }

  ghost predicate Standing(l: Ledger) {
    match l
    case Ledger(b, asked, _, _, _, _) => Invariant(b, []) && |asked| == |b.places| && AllKeep(b.t, asked) && Given(l)
  }

  /** No task already spawned is given anything else. */
  ghost predicate Stays(t: Table, t': Table) {
    && t.spawned <= t'.spawned
    && forall task :: task in t'.walletOf && task < t.spawned ==>
        task in t.walletOf && t.walletOf[task] == t'.walletOf[task]
  }

  lemma {:induction false} AskedAllStays(t: Table, asks: seq<Ask>)
    ensures Stays(t, AskedAll(t, asks))
    decreases |asks|
  {
    if asks != [] {
      AskedAllStays(Asking(t, asks[0]), asks[1..]);
    }
  }

  lemma {:induction false} FinishedStays(t: Table, task: nat, ok: bool)
    ensures Stays(t, Finished(t, task, ok))
  {
    hide Both;
  }

  lemma {:induction false} TableStays(b: Book, step: Step)
    ensures Stays(b.t, Conserved.Next(b, step).t)
  {
    hide Asking, Finished, AskedAll, Looking, Conserved.Next;
    RunsTheRelay(b, step);
    match step
    case Tell(wallet, event) => AskedAllStays(b.t, [Ask(wallet, Job(AskedBy(event), {|b.places|}))]);
      TellOnce(b.t, Ask(wallet, Job(AskedBy(event), {|b.places|})));
    case Finish(task, ok) => FinishedStays(b.t, task, ok);
    case Reconfigure =>
    case Look(order, complete, rechecks, now) =>
      if Drains(b.t.owed, order) {
        var sight := Looking(b.t, order, DueComplete(complete), DueRechecks(rechecks), now, |b.places|);
        AskedAllStays(b.t.(owed := map[], tried := sight.tried, rechecked := sight.rechecked), sight.asks);
      }
  }

  lemma {:induction false} TellOnce(t: Table, ask: Ask)
    ensures AskedAll(t, [ask]) == Asking(t, ask)
  {
    assert [ask][1..] == [];
  }

  lemma {:induction false} NextLong(l: Ledger, step: Step)
    requires Happens(l, step) && |l.asked| == |l.b.places|
    ensures |Next(l, step).asked| == |Next(l, step).b.places|
  {
    hide Looking, Pick, Finished, Asking, AskedAll, Settled;
    match step
    case Tell(wallet, event) =>
    case Finish(task, ok) => SettledLong(l.b, task, ok);
    case Reconfigure =>
    case Look(order, complete, rechecks, now) =>
      var sight := SightOf(l.b, order, DueComplete(complete), DueRechecks(rechecks), now);
      LookLong(l.b, sight);
      SightOwn(l.b, step);
  }

  lemma {:induction false} SightOwn(b: Book, step: Step)
    requires step.Look? && Drains(b.t.owed, step.order)
    ensures SightOf(b, step.order, DueComplete(step.complete), DueRechecks(step.rechecks), step.now).own
            == |DaysOf(b, step).asks| + |LooksOf(b, step).asks|
  {
  }

  lemma {:induction false} NextKeeps(l: Ledger, step: Step)
    requires Happens(l, step) && AllKeep(l.b.t, l.asked) && |l.asked| == |l.b.places|
    ensures AllKeep(Next(l, step).b.t, Next(l, step).asked)
  {
    hide AllKeep, Keeps, Looking, Finished, Asking, AskedAll, Conserved.Next;
    RunsTheRelay(l.b, step);
    match step
    case Tell(wallet, event) =>
      AllKeepMore(l.b.t, l.asked, [Due(wallet, AskedBy(event))]);
      ToldKeeps(l, wallet, event);
      AskingKeeps(l.b.t, Ask(wallet, Job(AskedBy(event), {|l.b.places|})), l.asked + [Due(wallet, AskedBy(event))]);
    case Finish(task, ok) => FinishedKeeps(l.b.t, task, ok, l.asked);
    case Reconfigure => ReconfiguredKeeps(l.b.t, l.asked);
    case Look(order, complete, rechecks, now) => LookKeeps(l, step);
  }

  lemma {:induction false} ToldKeeps(l: Ledger, wallet: Wallet, event: Event)
    requires |l.asked| == |l.b.places|
    ensures Keeps(Ask(wallet, Job(AskedBy(event), {|l.b.places|})), l.asked + [Due(wallet, AskedBy(event))])
  {
    AskedStandsIn(event);
    IncludesItself(AskedBy(event));
  }

  lemma {:induction false} ReconfiguredKeeps(t: Table, asked: seq<Due>)
    ensures AllKeep(Reconfigured(t), asked)
  {
  }

  lemma {:induction false} NextGiven(l: Ledger, step: Step)
    requires Happens(l, step) && Standing(l) && AllKeep(Next(l, step).b.t, Next(l, step).asked)
    requires l.asked <= Next(l, step).asked
    ensures Given(Next(l, step))
  {
    hide AllKeep, Keeps, Invariant, Conserved.Next, Recorded, DaysOf, LooksOf, OwnAsked, Owned, Happens, Stays;
    var l' := Next(l, step);
    TableStays(l.b, step);
    NextKept(l.b, step);
    JobsRecorded(l, l'.b);
    assert l'.jobs == Recorded(l.jobs, l'.b.t);
    forall task | 0 <= task < |l'.jobs| ensures Keeps(l'.jobs[task], l'.asked) {
      if task < |l.jobs| {
        KeepsMore(l.jobs[task], l.asked, l'.asked[|l.asked|..]);
        assert l.asked + l'.asked[|l.asked|..] == l'.asked;
      } else {
        JobKeeps(l'.b.t, task, l'.asked);
      }
    }
    forall id | 0 <= id < |l'.b.places| && l'.b.places[id].Done?
      ensures var task := l'.b.places[id].task; task < |l'.jobs| && id in l'.jobs[task].job.asks
    {
      NextDone(l, step, id);
      assert l'.jobs[l'.b.places[id].task] == l.jobs[l'.b.places[id].task];
    }
  }

  lemma {:induction false} JobsRecorded(l: Ledger, b: Book)
    requires Standing(l) && Stays(l.b.t, b.t) && Invariant(b, [])
    ensures |l.jobs| <= b.t.spawned
    ensures var jobs := Recorded(l.jobs, b.t);
            && |jobs| == b.t.spawned && (forall task :: 0 <= task < |l.jobs| ==> jobs[task] == l.jobs[task])
            && (forall task :: |l.jobs| <= task < |jobs| ==> jobs[task] == JobOf(b.t, task))
            && (forall task :: task in b.t.walletOf ==> task < |jobs| && jobs[task] == b.t.walletOf[task])
  {
    hide AllKeep, Keeps, Invariant;
    AllSpawned(b);
    var jobs := Recorded(l.jobs, b.t);
    forall task | task in b.t.walletOf ensures task < |jobs| && jobs[task] == b.t.walletOf[task] {
      if task < |l.jobs| {
        assert jobs[task] == l.jobs[task] && l.b.t.walletOf[task] == b.t.walletOf[task];
      } else {
        assert jobs[task] == JobOf(b.t, task);
      }
    }
  }

  lemma {:induction false} AllSpawned(b: Book)
    requires Invariant(b, [])
    ensures forall task :: task in b.t.walletOf ==> task < b.t.spawned
  {
  }

  lemma {:induction false} JobKeeps(t: Table, task: nat, asked: seq<Due>)
    requires AllKeep(t, asked)
    ensures Keeps(JobOf(t, task), asked)
  {
  }

  lemma {:induction false} NextDone(l: Ledger, step: Step, id: nat)
    requires Standing(l) && id < |Conserved.Next(l.b, step).places| && Conserved.Next(l.b, step).places[id].Done?
    ensures var task := Conserved.Next(l.b, step).places[id].task; task < |l.jobs| && id in l.jobs[task].job.asks
  {
    hide AllKeep, Conserved.Next, OneEach, Located, InTime;
    if id < |l.b.places| {
      MovesOn(l.b, step, id);
      if l.b.places[id].Running? {
        LocatedAt(l.b.t, [], l.b.places, l.b.places[id], id);
      }
    } else {
      Arrives(l.b, step, id);
    }
  }

  lemma {:induction false} NextStanding(l: Ledger, step: Step)
    requires Standing(l)
    ensures Standing(Next(l, step))
  {
    hide AllKeep, Given, Invariant;
    if Happens(l, step) {
      NextLong(l, step);
      NextKeeps(l, step);
      NextKept(l.b, step);
      NextGiven(l, step);
    }
  }

  lemma {:induction false} RunStanding(steps: seq<Step>)
    ensures Standing(Run(steps))
  {
    hide Next;
    if steps == [] {
      hide Standing;
      NoneStanding();
    } else {
      RunStanding(steps[..|steps| - 1]);
      NextStanding(Run(steps[..|steps| - 1]), steps[|steps| - 1]);
    }
  }

  lemma {:induction false} NoneStanding()
    ensures Standing(Ledger(Conserved.Run([]), [], [], 0, [], []))
  {
    RunKept([]);
  }

  // ----- what is promised of every run -----------------------------------

  /** An ask done was done by a sync of its wallet given at least what it asked,
      whatever else was merged into the same: it read every script the ask's
      own would have, unless it misses some the ask names. */
  lemma {:induction false} DoneStoodFor(steps: seq<Step>, id: nat, index: Index)
    requires id < |Run(steps).b.places| && Run(steps).b.places[id].Done?
    requires Sound(index)
    ensures var l := Run(steps);
            var task := l.b.places[id].task;
            && |l.asked| == |l.b.places| && task < |l.jobs| && id in l.jobs[task].job.asks
            && l.jobs[task].wallet == l.asked[id].wallet
            && Includes(l.jobs[task].job.asked, l.asked[id].asked)
            && (StandsFor(l.jobs[task].job.asked, l.asked[id].asked, index) <==>
                !Misses(l.jobs[task].job.asked, l.asked[id].asked, index))
  {
    RunStanding(steps);
    var l := Run(steps);
    var task := l.b.places[id].task;
    assert Keeps(l.jobs[task], l.asked);
    IncludedStandsFor(l.jobs[task].job.asked, l.asked[id].asked, index);
  }

  /** Whatever a sync is given, its proofs stand for exactly the scripts it names,
      which are read if the wallet cannot take them. */
  lemma {:induction false} GivenStandsIn(steps: seq<Step>, task: nat)
    requires task < |Run(steps).jobs|
    ensures StandIn(Run(steps).jobs[task].job.asked)
  {
    RunStanding(steps);
    assert Keeps(Run(steps).jobs[task], Run(steps).asked);
  }

  // ----- at most once an hour --------------------------------------------

  /** One wallet's asks are DUE_RETRY apart. */
  ghost predicate Spaced(owned: seq<Own>) {
    forall i, j :: 0 <= i < j < |owned| && owned[i].wallet == owned[j].wallet ==> owned[i].at + DUE_RETRY <= owned[j].at
  }

  /** Each is remembered, or long enough ago. */
  ghost predicate Remembered(owned: seq<Own>, seen: map<Wallet, nat>, clock: nat) {
    forall i :: 0 <= i < |owned| ==>
      && owned[i].at <= clock
      && ((owned[i].wallet in seen && owned[i].at <= seen[owned[i].wallet]) || owned[i].at + DUE_RETRY <= clock)
  }

  lemma {:induction false} PickSpaced(owned: seq<Own>, seen: map<Wallet, nat>, clock: nat, due: seq<Due>, now: nat,
      first: nat)
    requires Spaced(owned) && Remembered(owned, seen, clock) && clock <= now
    ensures var p := Pick(Lately(seen, now), due, now, first);
            Spaced(owned + Owned(p.asks, now)) && Remembered(owned + Owned(p.asks, now), p.seen, now)
  {
    hide Pick;
    PickSeen(Lately(seen, now), due, now, first);
  }

  ghost predicate Unhurried(l: Ledger) {
    && Spaced(l.days) && Remembered(l.days, l.b.t.tried, l.clock)
    && Spaced(l.looks) && Remembered(l.looks, l.b.t.rechecked, l.clock)
  }

  lemma {:induction false} AskedAllSeen(t: Table, asks: seq<Ask>)
    ensures AskedAll(t, asks).tried == t.tried && AskedAll(t, asks).rechecked == t.rechecked
    decreases |asks|
  {
    if asks != [] {
      AskedAllSeen(Asking(t, asks[0]), asks[1..]);
    }
  }

  lemma {:induction false} SeenStays(t: Table, ask: Ask, task: nat, ok: bool)
    ensures Asking(t, ask).tried == t.tried && Asking(t, ask).rechecked == t.rechecked
    ensures Finished(t, task, ok).tried == t.tried && Finished(t, task, ok).rechecked == t.rechecked
  {
  }

  lemma {:induction false} LookUnhurried(l: Ledger, step: Step)
    requires Unhurried(l) && step.Look? && Happens(l, step)
    ensures Unhurried(Next(l, step))
  {
    hide Spaced, Remembered, Pick, AskedAll, Conserved.Next, Lately, DueComplete, DueRechecks, Drains, OwedAsks,
        Recorded;
    RunsTheRelay(l.b, step);
    var Look(order, complete, rechecks, now) := step;
    OwedAt(l.b.t.owed, order, 0);
    var sight := Looking(l.b.t, order, DueComplete(complete), DueRechecks(rechecks), now, |l.b.places|);
    AskedAllSeen(l.b.t.(owed := map[], tried := sight.tried, rechecked := sight.rechecked), sight.asks);
    PickSpaced(l.days, l.b.t.tried, l.clock, DueComplete(complete), now, |l.b.places|);
    PickSpaced(l.looks, l.b.t.rechecked, l.clock, DueRechecks(rechecks), now, |l.b.places| + |DaysOf(l.b, step).asks|);
  }

  lemma {:induction false} NextUnhurried(l: Ledger, step: Step)
    requires Unhurried(l)
    ensures Unhurried(Next(l, step))
  {
    if Happens(l, step) {
      hide Spaced, Remembered, Conserved.Next, Asking, Finished, Looking, AskedAll, Recorded, Happens;
      RunsTheRelay(l.b, step);
      match step
      case Tell(wallet, event) => SeenStays(l.b.t, Ask(wallet, Job(AskedBy(event), {|l.b.places|})), 0, true);
      case Finish(task, ok) => SeenStays(l.b.t, Ask(0, Job(Of(NewBlock, []), {})), task, ok);
      case Reconfigure => NoneHurried(l.clock);
      case Look(_, _, _, _) => LookUnhurried(l, step);
    }
  }

  lemma {:induction false} NoneHurried(clock: nat)
    ensures Spaced([]) && Remembered([], map[], clock)
  {
  }

  /** Between new configurations, a wallet is asked for by a look, for either
      reason, at most once an hour. */
  lemma {:induction false} OncePerHour(steps: seq<Step>)
    ensures Spaced(Run(steps).days) && Spaced(Run(steps).looks)
    ensures Unhurried(Run(steps))
  {
    if steps == [] {
      NoneHurried(0);
    } else {
      hide Next;
      OncePerHour(steps[..|steps| - 1]);
      NextUnhurried(Run(steps[..|steps| - 1]), steps[|steps| - 1]);
    }
  }

  // ----- whenever due ----------------------------------------------------

  /** Whatever was asked for, and when, is written down. */
  ghost predicate Recalled(owned: seq<Own>, seen: map<Wallet, nat>) {
    forall wallet :: wallet in seen ==> Own(wallet, seen[wallet]) in owned
  }

  /** What is newly asked for has an ask. */
  lemma {:induction false} PickRecalls(seen: map<Wallet, nat>, due: seq<Due>, now: nat, first: nat, wallet: Wallet)
    requires var p := Pick(seen, due, now, first); wallet in p.seen && wallet !in seen
    ensures var p := Pick(seen, due, now, first);
            p.seen[wallet] == now && exists k :: 0 <= k < |p.asks| && p.asks[k].wallet == wallet
  {
    var last, before := due[|due| - 1], Pick(seen, due[..|due| - 1], now, first);
    if wallet in before.seen {
      PickRecalls(seen, due[..|due| - 1], now, first, wallet);
      var k :| 0 <= k < |before.asks| && before.asks[k].wallet == wallet;
      assert Pick(seen, due, now, first).asks[k] == before.asks[k];
    } else {
      assert Pick(seen, due, now, first).asks[|before.asks|].wallet == wallet;
    }
  }

  lemma {:induction false} PickRecalled(owned: seq<Own>, seen: map<Wallet, nat>, due: seq<Due>, now: nat, first: nat)
    requires Recalled(owned, seen)
    ensures var p := Pick(Lately(seen, now), due, now, first); Recalled(owned + Owned(p.asks, now), p.seen)
  {
    hide Pick;
    var p := Pick(Lately(seen, now), due, now, first);
    PickSeen(Lately(seen, now), due, now, first);
    forall wallet | wallet in p.seen ensures Own(wallet, p.seen[wallet]) in owned + Owned(p.asks, now) {
      if wallet !in Lately(seen, now) {
        PickRecalls(Lately(seen, now), due, now, first, wallet);
        var k :| 0 <= k < |p.asks| && p.asks[k].wallet == wallet;
        assert Owned(p.asks, now)[k] == Own(wallet, now);
      }
    }
  }

  ghost predicate AllRecalled(l: Ledger) {
    Recalled(l.days, l.b.t.tried) && Recalled(l.looks, l.b.t.rechecked)
  }

  lemma {:induction false} LookRecalled(l: Ledger, step: Step)
    requires AllRecalled(l) && step.Look? && Happens(l, step)
    ensures AllRecalled(Next(l, step))
  {
    hide Recalled, Pick, AskedAll, Conserved.Next, Lately, DueComplete, DueRechecks, Drains, OwedAsks, Recorded;
    RunsTheRelay(l.b, step);
    var Look(order, complete, rechecks, now) := step;
    OwedAt(l.b.t.owed, order, 0);
    var sight := Looking(l.b.t, order, DueComplete(complete), DueRechecks(rechecks), now, |l.b.places|);
    AskedAllSeen(l.b.t.(owed := map[], tried := sight.tried, rechecked := sight.rechecked), sight.asks);
    PickRecalled(l.days, l.b.t.tried, DueComplete(complete), now, |l.b.places|);
    PickRecalled(l.looks, l.b.t.rechecked, DueRechecks(rechecks), now, |l.b.places| + |DaysOf(l.b, step).asks|);
  }

  lemma {:induction false} NextRecalled(l: Ledger, step: Step)
    requires AllRecalled(l)
    ensures AllRecalled(Next(l, step))
  {
    if Happens(l, step) {
      hide Recalled, Conserved.Next, Asking, Finished, Looking, AskedAll, Recorded, Happens;
      RunsTheRelay(l.b, step);
      match step
      case Tell(wallet, event) => SeenStays(l.b.t, Ask(wallet, Job(AskedBy(event), {|l.b.places|})), 0, true);
      case Finish(task, ok) => SeenStays(l.b.t, Ask(0, Job(Of(NewBlock, []), {})), task, ok);
      case Reconfigure => NoneRecalled();
      case Look(_, _, _, _) => LookRecalled(l, step);
    }
  }

  lemma {:induction false} NoneRecalled()
    ensures Recalled([], map[])
  {
  }

  lemma {:induction false} RunRecalled(steps: seq<Step>)
    ensures AllRecalled(Run(steps))
  {
    if steps != [] {
      hide Next;
      RunRecalled(steps[..|steps| - 1]);
      NextRecalled(Run(steps[..|steps| - 1]), steps[|steps| - 1]);
    }
  }

  /** The wallet was not asked for within the hour. */
  ghost predicate Spared(owned: seq<Own>, wallet: Wallet, now: nat) {
    forall i :: 0 <= i < |owned| && owned[i].wallet == wallet ==> owned[i].at + DUE_RETRY <= now
  }

  lemma {:induction false} SparedIs(owned: seq<Own>, seen: map<Wallet, nat>, clock: nat, wallet: Wallet, now: nat)
    requires Remembered(owned, seen, clock) && Recalled(owned, seen) && clock <= now
    ensures Spared(owned, wallet, now) <==> wallet !in Lately(seen, now)
  {
    if wallet in Lately(seen, now) {
      var i :| 0 <= i < |owned| && owned[i] == Own(wallet, seen[wallet]);
      assert owned[i].wallet == wallet;
    }
  }

  lemma {:induction false} FirstOf(due: seq<Due>, i: nat) returns (j: nat)
    requires i < |due|
    ensures j <= i && due[j].wallet == due[i].wallet && forall n :: 0 <= n < j ==> due[n].wallet != due[j].wallet
  {
    if n: nat :| n < i && due[n].wallet == due[i].wallet {
      j := FirstOf(due, n);
    } else {
      j := i;
    }
  }

  lemma {:induction false} PickedAt(seen: map<Wallet, nat>, due: seq<Due>, now: nat, first: nat, i: nat)
      returns (k: nat)
    requires FirstDue(seen, due, i)
    ensures var p := Pick(seen, due, now, first);
            k < |p.asks| && p.asks[k] == Ask(due[i].wallet, Job(due[i].asked, {first + k}))
  {
    hide Pick;
    var at := PickChosen(seen, due, now, first);
    k :| 0 <= k < |at| && at[k] == i;
  }

  /** Ask `id` runs, or is queued behind a sync, for the wallet. */
  ghost predicate Underway(b: Book, wallet: Wallet, id: nat) {
    && id < |b.places|
    && match b.places[id]
       case Running(task) => task in b.t.walletOf && b.t.walletOf[task].wallet == wallet
       case Queued(whose) => whose == wallet
       case _ => false
  }

  /** The step asks that, and it is now under way. */
  ghost predicate NowAsked(l: Ledger, l': Ledger, due: Due) {
    exists id :: |l.asked| <= id < |l'.asked| && l'.asked[id] == due && Underway(l'.b, due.wallet, id)
  }

  lemma {:induction false} UnderwayNow(l: Ledger, step: Step, id: nat)
    requires Standing(l) && step.Look? && Happens(l, step) && |l.asked| <= id < |Next(l, step).asked|
    ensures Underway(Next(l, step).b, Next(l, step).asked[id].wallet, id)
  {
    hide OneEach, Located, InTime, AllKeep, Given, Conserved.Next, DaysOf, LooksOf, Happens;
    var l' := Next(l, step);
    NextStanding(l, step);
    Arrives(l.b, step, id);
    LocatedAt(l'.b.t, [], l'.b.places, l'.b.places[id], id);
    HeldKeeps(l', id);
  }

  lemma {:induction false} HeldKeeps(l: Ledger, id: nat)
    requires AllKeep(l.b.t, l.asked) && id < |l.asked| == |l.b.places|
    requires Holds(l.b.t, [], l.b.places[id], id) && (l.b.places[id].Running? || l.b.places[id].Queued?)
    ensures Underway(l.b, l.asked[id].wallet, id)
  {
  }

  lemma {:induction false} DayIs(l: Ledger, step: Step, k: nat)
    requires step.Look? && k < |DaysOf(l.b, step).asks|
    ensures var ask := DaysOf(l.b, step).asks[k];
            && ask.wallet in step.complete && ask.wallet !in Lately(l.b.t.tried, step.now)
            && ask.job.asked == Asked(Started, None, [])
  {
    hide Pick;
    var at := PickChosen(Lately(l.b.t.tried, step.now), DueComplete(step.complete), step.now, |l.b.places|);
    assert at[k] in at;
    assert DueComplete(step.complete)[at[k]] == Due(step.complete[at[k]], Of(Started, []));
  }

  lemma {:induction false} LookIs(l: Ledger, step: Step, k: nat) returns (i: nat)
    requires step.Look? && k < |LooksOf(l.b, step).asks|
    ensures i < |step.rechecks| && forall j :: 0 <= j < i ==> step.rechecks[j].wallet != step.rechecks[i].wallet
    ensures var ask, recheck := LooksOf(l.b, step).asks[k], step.rechecks[i];
            && ask.wallet == recheck.wallet && ask.wallet !in Lately(l.b.t.rechecked, step.now)
            && ask.job.asked == Of(NewBlock, recheck.scripts)
  {
    hide Pick, Of;
    var first := |l.b.places| + |DaysOf(l.b, step).asks|;
    var due := DueRechecks(step.rechecks);
    var at := PickChosen(Lately(l.b.t.rechecked, step.now), due, step.now, first);
    i := at[k];
    assert at[k] in at;
    forall j | 0 <= j < i ensures step.rechecks[j].wallet != step.rechecks[i].wallet {
      assert due[j].wallet != due[i].wallet;
    }
  }

  /** The asks of a look, in the ledger after it. */
  lemma {:induction false} AskedNow(l: Ledger, step: Step, id: nat)
    requires step.Look? && Happens(l, step) && |l.asked| <= id < |Next(l, step).asked|
    ensures var k, days, looks := id - |l.asked|, DaysOf(l.b, step).asks, LooksOf(l.b, step).asks;
            && |Next(l, step).asked| == |l.asked| + |days| + |looks|
            && var ask := if k < |days| then days[k] else looks[k - |days|];
               Next(l, step).asked[id] == Due(ask.wallet, ask.job.asked)
  {
    hide Conserved.Next, DaysOf, LooksOf, Recorded, Owned;
  }

  lemma {:induction false} AskedCount(l: Ledger, step: Step)
    requires step.Look? && Happens(l, step)
    ensures |Next(l, step).asked| == |l.asked| + |DaysOf(l.b, step).asks| + |LooksOf(l.b, step).asks|
  {
    hide Conserved.Next, DaysOf, LooksOf, Recorded, Owned;
  }

  /** What a run so far says of a look to come. */
  lemma {:induction false} LookReady(steps: seq<Step>, step: Step, wallet: Wallet)
    requires step.Look? && Happens(Run(steps), step)
    ensures var l := Run(steps);
            && Standing(l)
            && (Spared(l.days, wallet, step.now) <==> wallet !in Lately(l.b.t.tried, step.now))
            && (Spared(l.looks, wallet, step.now) <==> wallet !in Lately(l.b.t.rechecked, step.now))
  {
    hide Next, Spared, Standing, Drains, Remembered, Recalled, Lately;
    var l := Run(steps);
    RunStanding(steps);
    OncePerHour(steps);
    RunRecalled(steps);
    SparedIs(l.days, l.b.t.tried, l.clock, wallet, step.now);
    SparedIs(l.looks, l.b.t.rechecked, l.clock, wallet, step.now);
  }

  /** A look starts a complete sync of a wallet, or queues it, exactly if the
      wallet is due one and was not asked one within the hour. */
  lemma {:induction false} DayAsked(steps: seq<Step>, step: Step, wallet: Wallet)
    requires step.Look? && Happens(Run(steps), step)
    ensures var l := Run(steps);
            NowAsked(l, Next(l, step), Due(wallet, Asked(Started, None, []))) <==>
              wallet in step.complete && Spared(l.days, wallet, step.now)
  {
    hide Run, Next, Happens, Spared, Standing, DaysOf, LooksOf, Lately, Of, Underway;
    var l := Run(steps);
    var l' := Next(l, step);
    LookReady(steps, step, wallet);
    AskedCount(l, step);
    if id :| |l.asked| <= id < |l'.asked| && l'.asked[id] == Due(wallet, Asked(Started, None, [])) {
      AskedNow(l, step, id);
      if id - |l.asked| < |DaysOf(l.b, step).asks| {
        DayIs(l, step, id - |l.asked|);
      } else {
        var i := LookIs(l, step, id - |l.asked| - |DaysOf(l.b, step).asks|);
        OfReason(NewBlock, step.rechecks[i].scripts);
      }
    }
    if wallet in step.complete && Spared(l.days, wallet, step.now) {
      var k := DayPicked(l, step, wallet);
      AskedNow(l, step, |l.asked| + k);
      DayIs(l, step, k);
      UnderwayNow(l, step, |l.asked| + k);
    }
  }

  lemma {:induction false} OfReason(reason: ChangeReason, scripts: seq<string>)
    ensures Of(reason, scripts).reason == reason
  {
  }

  lemma {:induction false} DayPicked(l: Ledger, step: Step, wallet: Wallet) returns (k: nat)
    requires step.Look? && wallet in step.complete && wallet !in Lately(l.b.t.tried, step.now)
    ensures k < |DaysOf(l.b, step).asks| && DaysOf(l.b, step).asks[k].wallet == wallet
  {
    hide Pick, Lately;
    var due := DueComplete(step.complete);
    var i: nat :| i < |step.complete| && step.complete[i] == wallet;
    var j := FirstOf(due, i);
    k := PickedAt(Lately(l.b.t.tried, step.now), due, step.now, |l.b.places|, j);
  }

  /** And the look at a payment seen to vanish, of the first it lists of each
      wallet, exactly if none was made for the wallet within the hour. */
  lemma {:induction false} RecheckAsked(steps: seq<Step>, step: Step, i: nat)
    requires step.Look? && Happens(Run(steps), step)
    requires i < |step.rechecks| && forall j :: 0 <= j < i ==> step.rechecks[j].wallet != step.rechecks[i].wallet
    ensures var l, recheck := Run(steps), step.rechecks[i];
            NowAsked(l, Next(l, step), Due(recheck.wallet, Of(NewBlock, recheck.scripts))) <==>
              Spared(l.looks, recheck.wallet, step.now)
  {
    hide Run, Next, Happens, Spared, Standing, DaysOf, LooksOf, Lately, Of, Underway;
    var l, recheck := Run(steps), step.rechecks[i];
    var l' := Next(l, step);
    LookReady(steps, step, recheck.wallet);
    AskedCount(l, step);
    OfReason(NewBlock, recheck.scripts);
    if id :| |l.asked| <= id < |l'.asked| && l'.asked[id] == Due(recheck.wallet, Of(NewBlock, recheck.scripts)) {
      AskedNow(l, step, id);
      if id - |l.asked| < |DaysOf(l.b, step).asks| {
        DayIs(l, step, id - |l.asked|);
      } else {
        var _ := LookIs(l, step, id - |l.asked| - |DaysOf(l.b, step).asks|);
      }
    }
    if Spared(l.looks, recheck.wallet, step.now) {
      var k := LookPicked(l, step, i);
      var id := |l.asked| + |DaysOf(l.b, step).asks| + k;
      AskedNow(l, step, id);
      UnderwayNow(l, step, id);
    }
  }

  lemma {:induction false} LookPicked(l: Ledger, step: Step, i: nat) returns (k: nat)
    requires step.Look? && i < |step.rechecks| && step.rechecks[i].wallet !in Lately(l.b.t.rechecked, step.now)
    requires forall j :: 0 <= j < i ==> step.rechecks[j].wallet != step.rechecks[i].wallet
    ensures k < |LooksOf(l.b, step).asks|
    ensures LooksOf(l.b, step).asks[k].wallet == step.rechecks[i].wallet
    ensures LooksOf(l.b, step).asks[k].job.asked == Of(NewBlock, step.rechecks[i].scripts)
  {
    hide Pick, Lately, Of;
    var due := DueRechecks(step.rechecks);
    k := PickedAt(Lately(l.b.t.rechecked, step.now), due, step.now, |l.b.places| + |DaysOf(l.b, step).asks|, i);
  }
}
