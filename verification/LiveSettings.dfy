/** Which settings reach the live watch (src/live.rs, `live_start_with`,
    `live_refresh`, `watch_setup`, `live_stop`): changes, refreshes, starts
    and stops run at the same time, each in the steps its locks leave it. */
module LiveSettings {
  import opened Wrappers

  /** Both are only ever copied, and compared whole. */
  datatype Config = Config(network: nat, backend: string, electrumCerts: string, tor: string, keepalive: Option<u32>)

  datatype WatchedWallet = WatchedWallet(id: string, scripts: seq<string>)

  datatype Settings = Settings(config: Config, wallets: seq<WatchedWallet>)

  // ----- one running watch -----------------------------------------------

  datatype Command = Reconfigure(settings: Settings) | SetWallets(wallets: seq<WatchedWallet>)

  /** What a watch started with `first` follows once it has taken
      `commands`. */
  function Followed(first: Settings, commands: seq<Command>): Settings {
    if commands == [] then first
    else
      match commands[|commands| - 1]
      case Reconfigure(settings) => settings
      case SetWallets(wallets) => Settings(Followed(first, commands[..|commands| - 1]).config, wallets)
  }

  datatype Watch = Watch(id: nat, first: Settings, commands: seq<Command>, held: Settings, applied: nat,
      reconfigured: nat)

  function Handed(watch: Watch, settings: Settings, reading: nat): Watch {
    if reading <= watch.applied then watch
    else if settings.config != watch.held.config then
      watch.(commands := watch.commands + [Reconfigure(settings)], held := settings, applied := reading,
      reconfigured := watch.reconfigured + 1)
    else if settings.wallets != watch.held.wallets then
      watch.(commands := watch.commands + [SetWallets(settings.wallets)], held := settings, applied := reading)
    else watch.(applied := reading)
  }

  /** `Running`, the watch the manager keeps. */
  class Running {
    const id: nat
    const first: Settings
    var commands: seq<Command>
    var config: Config
    var wallets: seq<WatchedWallet>
    var applied: nat
    var reconfigured: nat

    ghost function State(): Watch
      reads this
    {
      Watch(id, first, commands, Settings(config, wallets), applied, reconfigured)
    }

    constructor (id: nat, settings: Settings, reading: nat)
      ensures State() == Watch(id, settings, [], settings, reading, 0)
    {
      this.id, first, commands := id, settings, [];
      config, wallets, applied, reconfigured := settings.config, settings.wallets, reading, 0;
    }

    /** The end of `live_refresh`, under the lock of the slot. */
    method Hand(newConfig: Config, newWallets: seq<WatchedWallet>, reading: nat)
      modifies this
      ensures State() == Handed(old(State()), Settings(newConfig, newWallets), reading)
    {
      if reading <= applied {
        return;
      }
      applied := reading;
      if newConfig != config {
        config := newConfig;
        wallets := newWallets;
        commands := commands + [Reconfigure(Settings(newConfig, newWallets))];
        reconfigured := reconfigured + 1;
      } else if newWallets != wallets {
        wallets := newWallets;
        commands := commands + [SetWallets(newWallets)];
      }
    }
  }

  /** What the manager believes the watch holds is what its commands lead it
      to follow, and every new configuration was counted. */
  ghost predicate Faithful(watch: Watch) {
    Followed(watch.first, watch.commands) == watch.held && watch.reconfigured == Reconfigurations(watch.commands)
  }

  function Reconfigurations(commands: seq<Command>): nat {
    if commands == [] then 0
    else Reconfigurations(commands[..|commands| - 1]) + if commands[|commands| - 1].Reconfigure? then 1 else 0
  }

  lemma {:induction false} HandedFaithful(watch: Watch, settings: Settings, reading: nat)
    requires Faithful(watch)
    ensures var handed := Handed(watch, settings, reading);
            && Faithful(handed) && handed.id == watch.id
            && handed.applied == Max(watch.applied, reading)
            && handed.held == (if reading > watch.applied then settings else watch.held)
            && (handed.reconfigured == watch.reconfigured <==> handed.held.config == watch.held.config)
  {
    var handed := Handed(watch, settings, reading);
    if |handed.commands| > |watch.commands| {
      assert handed.commands[..|handed.commands| - 1] == watch.commands;
    }
  }

  // ----- the manager, and what is in flight ------------------------------

  /** Where a call stands: a refresh about to look at the slot, about to read
      the settings, about to hand what it read; a start about to read, about
      to install the watch it started. */
  datatype Op =
    | Look
    | Read
    | Hand(settings: Settings, reading: nat)
    | StartRead
    | Install(settings: Settings, reading: nat)

  /** What a watch was handed, its first settings included. */
  datatype Handing = Handing(id: nat, reading: nat, settings: Settings)

  /** A change that no refresh follows, and how many readings came before. */
  datatype Slip = Slip(at: nat, settings: Settings)

  /** `readings`, `handings` and `slips` are the history: what each reading
      found, what each watch was handed, and the changes no refresh followed;
      `changed` is how many readings came before the last change, `told` before
      the last that a refresh follows. */
  datatype Manager = Manager(current: Settings, changed: nat, told: nat, slips: seq<Slip>, readings: seq<Settings>,
                             slot: Option<Watch>, starts: nat, ops: map<nat, Op>, handings: seq<Handing>)

  /** `Reorder` stands for every change no refresh follows: the wallets put in
      another order, an address revealed as it is shown. */
  datatype Step =
    | Change(call: nat, settings: Settings)
    | Reorder(settings: Settings)
    | Refresh(call: nat)
    | Start(call: nat)
    | Go(call: nat)
    | Stop

  /** The rank of a reading is given under the lock of the settings. */
  function Reading(m: Manager): nat { |m.readings| + 1 }

  function Ended(m: Manager, call: nat): Manager { m.(ops := m.ops - {call}) }

  function Next(m: Manager, step: Step): Manager {
    match step
    case Change(call, settings) =>
      if call in m.ops then m
      else m.(current := settings, changed := |m.readings|, told := |m.readings|, ops := m.ops[call := Look])
    case Reorder(settings) =>
      m.(current := settings, changed := |m.readings|, slips := m.slips + [Slip(|m.readings|, settings)])
    case Refresh(call) => if call in m.ops then m else m.(ops := m.ops[call := Look])
    case Start(call) => if call in m.ops then m else m.(ops := m.ops[call := StartRead])
    case Stop => m.(slot := None)
    case Go(call) => if call !in m.ops then m else Went(m, call)
  }

  function Went(m: Manager, call: nat): Manager
    requires call in m.ops
  {
    match m.ops[call]
    case Look => if m.slot.None? then Ended(m, call) else m.(ops := m.ops[call := Read])
    case Read =>
      m.(readings := m.readings + [m.current], ops := m.ops[call := Hand(m.current, Reading(m))])
    case Hand(settings, reading) =>
      if m.slot.None? || reading <= m.slot.value.applied then Ended(m, call)
      else
        Ended(m, call).(slot := Some(Handed(m.slot.value, settings, reading)),
        handings := m.handings + [Handing(m.slot.value.id, reading, settings)])
    case StartRead =>
      m.(readings := m.readings + [m.current], ops := m.ops[call := Install(m.current, Reading(m))])
    case Install(settings, reading) =>
      m.(slot := Some(Watch(m.starts, settings, [], settings, reading, 0)), starts := m.starts + 1,
      ops := m.ops[call := Look], handings := m.handings + [Handing(m.starts, reading, settings)])
  }

  function Run(m: Manager, steps: seq<Step>): Manager {
    if steps == [] then m else Next(Run(m, steps[..|steps| - 1]), steps[|steps| - 1])
  }

  function Opened(settings: Settings): Manager { Manager(settings, 0, 0, [], [], None, 0, map[], []) }

  // ----- what every step keeps -------------------------------------------

  ghost predicate Was(readings: seq<Settings>, reading: nat, settings: Settings) {
    0 < reading <= |readings| && readings[reading - 1] == settings
  }

  /** Every reading since the last change found the current settings. */
  ghost predicate Fresh(m: Manager) {
    m.told <= m.changed <= |m.readings| && forall r :: m.changed <= r < |m.readings| ==> m.readings[r] == m.current
  }

  /** The last change was told of, unless a slip came after. */
  ghost predicate Slipped(m: Manager) {
    && (m.changed > m.told ==> m.slips != [] && m.slips[|m.slips| - 1] == Slip(m.changed, m.current))
    && (forall i :: 0 <= i < |m.slips| ==> m.slips[i].at <= m.changed)
  }

  ghost predicate Carries(readings: seq<Settings>, op: Op) {
    match op
    case Hand(settings, reading) => Was(readings, reading, settings)
    case Install(settings, reading) => Was(readings, reading, settings)
    case _ => true
  }

  ghost predicate OpsCarry(m: Manager) {
    forall call :: call in m.ops ==> Carries(m.readings, m.ops[call])
  }

  ghost predicate SlotHolds(m: Manager) {
    m.slot.Some? ==>
      var watch := m.slot.value;
      Faithful(watch) && watch.id < m.starts && Was(m.readings, watch.applied, watch.held)
  }

  /** A call that will hand the watch the settings as last told of, or later,
      unless another does first. */
  ghost predicate Brings(op: Op, told: nat) {
    match op
    case Look => true
    case Read => true
    case Hand(_, reading) => told < reading
    case _ => false
  }

  /** A watch behind the last change told of has a call in flight for it. */
  ghost predicate Awaited(m: Manager) {
    m.slot.Some? && m.slot.value.applied <= m.told ==>
      exists call :: call in m.ops && Brings(m.ops[call], m.told)
  }

  ghost predicate Rising(handings: seq<Handing>) {
    forall i, j :: 0 <= i < j < |handings| && handings[i].id == handings[j].id ==>
        handings[i].reading < handings[j].reading
  }

  ghost predicate HandingsTrue(m: Manager) {
    forall i :: 0 <= i < |m.handings| ==>
      && m.handings[i].id < m.starts && Was(m.readings, m.handings[i].reading, m.handings[i].settings)
      && (m.slot.Some? && m.handings[i].id == m.slot.value.id ==> m.handings[i].reading <= m.slot.value.applied)
  }

  ghost predicate Invariant(m: Manager) {
    match m
    case Manager(_, _, _, _, _, _, _, _, handings) =>
      Fresh(m) && Slipped(m) && OpsCarry(m) && SlotHolds(m) && Awaited(m) && Rising(handings) && HandingsTrue(m)
  }

  lemma {:induction false} StillAwaited(m: Manager, m': Manager, call: nat)
    requires Awaited(m) && m.slot == m'.slot && m.told == m'.told
    requires forall c :: c in m.ops && c != call ==> c in m'.ops && m'.ops[c] == m.ops[c]
    requires call in m.ops && Brings(m.ops[call], m.told) ==>
               (m.slot.Some? && m.slot.value.applied <= m.told ==> call in m'.ops && Brings(m'.ops[call], m.told))
    ensures Awaited(m')
  {
    if m.slot.Some? && m.slot.value.applied <= m.told {
      var c :| c in m.ops && Brings(m.ops[c], m.told);
      assert c in m'.ops && Brings(m'.ops[c], m'.told);
    }
  }

  lemma {:induction false} ReadingKept(m: Manager, call: nat, op: Op)
    requires Invariant(m) && call in m.ops
    requires op == if m.ops[call].Read? then Hand(m.current, Reading(m)) else Install(m.current, Reading(m))
    requires m.ops[call].Read? || m.ops[call].StartRead?
    ensures Invariant(m.(readings := m.readings + [m.current], ops := m.ops[call := op]))
  {
    var m' := m.(readings := m.readings + [m.current], ops := m.ops[call := op]);
    StillAwaited(m, m', call);
    assert forall r, s :: Was(m.readings, r, s) ==> Was(m'.readings, r, s);
    assert Was(m'.readings, Reading(m), m.current);
  }

  lemma {:induction false} HandKept(m: Manager, call: nat)
    requires Invariant(m) && call in m.ops && m.ops[call].Hand?
    requires m.slot.Some? && m.ops[call].reading > m.slot.value.applied
    ensures Invariant(Went(m, call))
  {
    var op, watch := m.ops[call], m.slot.value;
    HandedFaithful(watch, op.settings, op.reading);
    var m' := Went(m, call);
    assert Carries(m.readings, op);
    if op.reading <= m.told {
      var c :| c in m.ops && Brings(m.ops[c], m.told);
      assert c in m'.ops && Brings(m'.ops[c], m'.told);
    }
  }

  lemma {:induction false} InstallKept(m: Manager, call: nat)
    requires Invariant(m) && call in m.ops && m.ops[call].Install?
    ensures Invariant(Went(m, call))
  {
    var op, m' := m.ops[call], Went(m, call);
    assert Carries(m.readings, op);
    assert call in m'.ops && Brings(m'.ops[call], m'.told);
  }

  lemma {:induction false} WentKept(m: Manager, call: nat)
    requires Invariant(m) && call in m.ops
    ensures Invariant(Went(m, call))
  {
    match m.ops[call]
    case Look => StillAwaited(m, Went(m, call), call);
    case Read => ReadingKept(m, call, Hand(m.current, Reading(m)));
    case StartRead => ReadingKept(m, call, Install(m.current, Reading(m)));
    case Hand(_, reading) =>
      if m.slot.None? || reading <= m.slot.value.applied {
        StillAwaited(m, Went(m, call), call);
      } else {
        HandKept(m, call);
      }
    case Install(_, _) => InstallKept(m, call);
  }

  lemma {:induction false} NextKept(m: Manager, step: Step)
    requires Invariant(m)
    ensures Invariant(Next(m, step))
  {
    match step
    case Go(call) =>
      if call in m.ops {
        WentKept(m, call);
      }
    case Change(call, settings) =>
      var m' := Next(m, step);
      if call !in m.ops {
        assert call in m'.ops && Brings(m'.ops[call], m'.told);
      }
    case Reorder(_) => StillAwaited(m, Next(m, step), 0);
    case Refresh(call) => StillAwaited(m, Next(m, step), call);
    case Start(call) => StillAwaited(m, Next(m, step), call);
    case Stop =>
  }

  lemma {:induction false} RunKept(settings: Settings, steps: seq<Step>)
    ensures Invariant(Run(Opened(settings), steps))
  {
    if steps != [] {
      RunKept(settings, steps[..|steps| - 1]);
      NextKept(Run(Opened(settings), steps[..|steps| - 1]), steps[|steps| - 1]);
    }
  }

  // ----- what is promised of every run -----------------------------------

  /** Of two calls that race the later reading wins: what one watch is handed
      rises strictly in reading, and each is what that reading found. */
  lemma {:induction false} LaterReadingWins(settings: Settings, steps: seq<Step>, i: nat, j: nat)
    requires var handings := Run(Opened(settings), steps).handings;
             i < j < |handings| && handings[i].id == handings[j].id
    ensures var m := Run(Opened(settings), steps);
            && m.handings[i].reading < m.handings[j].reading
            && Was(m.readings, m.handings[i].reading, m.handings[i].settings)
            && Was(m.readings, m.handings[j].reading, m.handings[j].settings)
  {
    RunKept(settings, steps);
  }

  /** A running watch never follows anything but what the reading last handed
      to it found, configuration and wallets together. */
  lemma {:induction false} NeverMixed(settings: Settings, steps: seq<Step>)
    ensures var m := Run(Opened(settings), steps);
            m.slot.Some? ==> Was(m.readings, m.slot.value.applied, Followed(m.slot.value.first, m.slot.value.commands))
  {
    RunKept(settings, steps);
  }

  /** Once nothing is in flight, however the calls interleaved, a running watch
      follows the current settings, unless a change no refresh followed came
      after the reading it was handed; then it follows them exactly if the last
      such change put back what was read. */
  lemma {:induction false} SettledIsCurrent(settings: Settings, steps: seq<Step>)
    ensures var m := Run(Opened(settings), steps);
            m.slot.Some? && m.ops == map[] ==>
              var applied, followed := m.slot.value.applied, Followed(m.slot.value.first, m.slot.value.commands);
              && Was(m.readings, applied, followed)
              && if forall i :: 0 <= i < |m.slips| ==> m.slips[i].at < applied then followed == m.current
                 else followed == m.current <==> m.slips[|m.slips| - 1].settings == m.readings[applied - 1]
  {
    RunKept(settings, steps);
  }

  lemma {:induction false} RunMore(m: Manager, steps: seq<Step>, step: Step)
    ensures Run(m, steps + [step]) == Next(Run(m, steps), step)
  {
    assert (steps + [step])[..|steps|] == steps;
  }

  /** A watch started and settled. */
  function Started(): seq<Step> { [Start(0)] + [Go(0)] + [Go(0)] + [Go(0)] + [Go(0)] + [Go(0)] }

  lemma {:induction false} StartedSettles(settings: Settings)
    ensures var m := Run(Opened(settings), Started());
            && m.ops == map[] && m.current == settings && m.slips == [] && m.slot.Some?
            && Followed(m.slot.value.first, m.slot.value.commands) == settings
  {
    var m, one := Opened(settings), [Start(0)];
    RunMore(m, [], Start(0));
    assert [] + one == one;
    RunMore(m, one, Go(0));
    RunMore(m, one + [Go(0)], Go(0));
    RunMore(m, one + [Go(0)] + [Go(0)], Go(0));
    RunMore(m, one + [Go(0)] + [Go(0)] + [Go(0)], Go(0));
    RunMore(m, one + [Go(0)] + [Go(0)] + [Go(0)] + [Go(0)], Go(0));
  }

  /** Settings with the same wallets in another order. */
  ghost predicate Reordered(settings: Settings, reordered: Settings) {
    && reordered.config == settings.config && reordered.wallets != settings.wallets
    && multiset(reordered.wallets) == multiset(settings.wallets)
  }

  /** Putting the wallets in another order is not followed: the watch goes on
      with the old list and nothing is in flight to tell it. */
  lemma {:induction false} ReorderUnfollowed(settings: Settings, reordered: Settings)
    ensures var m := Run(Opened(settings), Started() + [Reorder(reordered)]);
            && m.ops == map[] && m.slot.Some? && m.current == reordered
            && Followed(m.slot.value.first, m.slot.value.commands) == settings
            && (Reordered(settings, reordered) ==> Followed(m.slot.value.first, m.slot.value.commands) != m.current)
  {
    hide Run, Started;
    StartedSettles(settings);
    RunMore(Opened(settings), Started(), Reorder(reordered));
  }

  lemma {:induction false} TwoWalletsReordered(config: Config, one: WatchedWallet, two: WatchedWallet)
    requires one != two
    ensures Reordered(Settings(config, [one, two]), Settings(config, [two, one]))
  {
    assert [one, two][0] != [two, one][0];
  }

  lemma {:induction false} SlotsRise(m: Manager, more: seq<Step>)
    requires m.slot.None?
    ensures var m' := Run(m, more);
            && m.starts <= m'.starts && (m'.slot.Some? ==> m.starts <= m'.slot.value.id)
            && m.handings <= m'.handings
            && forall i :: |m.handings| <= i < |m'.handings| ==> m.starts <= m'.handings[i].id
  {
    if more != [] {
      SlotsRise(m, more[..|more| - 1]);
    }
  }

  /** A stop leaves no watch, and whatever was in flight or comes after, no watch
      started before is handed anything more: only one started since. */
  lemma {:induction false} StoppedForGood(settings: Settings, steps: seq<Step>, more: seq<Step>)
    ensures var m := Run(Opened(settings), steps + [Stop]);
            var m' := Run(m, more);
            && m.slot.None? && m.handings == Run(Opened(settings), steps).handings && m.handings <= m'.handings
            && (forall i :: 0 <= i < |m.handings| ==> m.handings[i].id < m.starts)
            && (forall i :: |m.handings| <= i < |m'.handings| ==> m.starts <= m'.handings[i].id)
            && (m'.slot.Some? ==> m.starts <= m'.slot.value.id)
  {
    hide Run;
    RunMore(Opened(settings), steps, Stop);
    RunKept(settings, steps + [Stop]);
    SlotsRise(Run(Opened(settings), steps + [Stop]), more);
  }

  /** A refresh left to itself once nothing else is in flight leaves a running
      watch following the current settings, whatever came before. */
  lemma {:induction false} RefreshFollows(settings: Settings, steps: seq<Step>, call: nat)
    requires Run(Opened(settings), steps).ops == map[]
    ensures var before := Run(Opened(settings), steps);
            var m := Run(before, [Refresh(call)] + [Go(call)] + [Go(call)] + [Go(call)]);
            && m.current == before.current && m.slot.Some? == before.slot.Some? && m.ops == map[]
            && (m.slot.Some? ==> Followed(m.slot.value.first, m.slot.value.commands) == m.current)
  {
    hide Run;
    var before, one := Run(Opened(settings), steps), [Refresh(call)];
    RunKept(settings, steps);
    RunNone(before);
    RunMore(before, [], Refresh(call));
    assert [] + one == one;
    RunMore(before, one, Go(call));
    RunMore(before, one + [Go(call)], Go(call));
    RunMore(before, one + [Go(call)] + [Go(call)], Go(call));
    if before.slot.Some? {
      HandedFaithful(before.slot.value, before.current, Reading(before));
    }
  }

  lemma {:induction false} RunNone(m: Manager)
    ensures Run(m, []) == m
  {
  }

  /** How many more steps a call takes at most. */
  function Left(op: Op): nat {
    match op
    case Look => 3
    case Read => 2
    case Hand(_, _) => 1
    case StartRead => 5
    case Install(_, _) => 4
  }

  /** Every call in flight ends within five steps of its own, whatever the
      others do: no change waits for ever. */
  lemma {:induction false} CallsEnd(m: Manager, call: nat)
    requires call in m.ops
    ensures Left(m.ops[call]) <= 5
    ensures var m' := Next(m, Go(call));
            && (call in m'.ops ==> Left(m'.ops[call]) < Left(m.ops[call]))
            && (forall c :: c in m.ops && c != call ==> c in m'.ops && m'.ops[c] == m.ops[c])
  {
  }
}
