/** No ask of the live watch is lost, doubled, or counted done too soon
    (src/live.rs, `relay`, `ask`, `look`), over every run of the scheduler. */
module Conserved {
  import opened Wrappers
  import opened Asks
  import opened Relay

  /** Where an ask is: with a sync running, queued behind one, owed after a
      failure, on its way through a look, done by a sync, or dropped with the
      configuration it was asked under. */
  datatype Place = Running(task: nat) | Queued(wallet: Wallet) | Owed(wallet: Wallet) | Arriving
                 | Done(task: nat) | Dropped

  /** The scheduler, where each ask that arrived is, and how many had arrived
      when each task was spawned. */
  datatype Book = Book(t: Table, places: seq<Place>, begun: seq<nat>)

  datatype Step =
    | Tell(wallet: Wallet, event: Event)
    | Finish(task: nat, ok: bool)
    | Reconfigure
    | Look(order: seq<Wallet>, complete: seq<Wallet>, rechecks: seq<Recheck>, now: nat)

  // ----- how a step moves the asks ---------------------------------------

  function Shift(places: seq<Place>, from: Place, to: Place): (moved: seq<Place>)
    ensures |moved| == |places|
  {
    seq(|places|, i requires 0 <= i < |places| => if places[i] == from then to else places[i])
  }

  function PutAll(places: seq<Place>, asks: set<nat>, to: Place): (moved: seq<Place>)
    ensures |moved| == |places|
  {
    seq(|places|, i requires 0 <= i < |places| => if i in asks then to else places[i])
  }

  function Taken(b: Book, ask: Ask): Book {
    var queued := ask.wallet in b.t.again;
    Book(
      Asking(b.t, ask),
      PutAll(b.places, ask.job.asks, if queued then Queued(ask.wallet) else Running(b.t.spawned)),
      if queued then b.begun else b.begun + [|b.places|])
  }

  function TakenAll(b: Book, asks: seq<Ask>): Book
    decreases |asks|
  {
    if asks == [] then b else TakenAll(Taken(b, asks[0]), asks[1..])
  }

  /** A sync's asks done or owed, and those queued behind it set out. */
  function Ending(b: Book, task: nat, ok: bool): Book
    requires task in b.t.walletOf
  {
    var wallet := b.t.walletOf[task].wallet;
    var places := Shift(b.places, Running(task), if ok then Done(task) else Owed(wallet));
    Book(Ended(b.t, task, ok), Shift(places, Queued(wallet), Arriving), b.begun)
  }

  function Settled(b: Book, task: nat, ok: bool): Book {
    if task !in b.t.tasks || task !in b.t.walletOf then b.(t := Finished(b.t, task, ok))
    else
      var wallet := b.t.walletOf[task].wallet;
      var next := Since(b.t, wallet);
      if next.None? then Ending(b, task, ok) else Taken(Ending(b, task, ok), Ask(wallet, next.value))
  }

  function Swept(places: seq<Place>): (swept: seq<Place>)
    ensures |swept| == |places|
  {
    seq(|places|, i requires 0 <= i < |places| => if places[i].Done? then places[i] else Dropped)
  }

  /** What is owed set out to be asked again, with `own` asks more. */
  function SetOut(places: seq<Place>, own: nat): (out: seq<Place>)
    ensures |out| == |places| + own
  {
    seq(|places| + own, i requires 0 <= i < |places| + own =>
      if i < |places| && !places[i].Owed? then places[i] else Arriving)
  }

  function SightOf(b: Book, order: seq<Wallet>, complete: seq<Due>, rechecks: seq<Due>, now: nat): Sight
    requires forall i :: 0 <= i < |order| ==> order[i] in b.t.owed
  {
    Looking(b.t, order, complete, rechecks, now, |b.places|)
  }

  function Setting(b: Book, sight: Sight): Book {
    Book(b.t.(owed := map[], tried := sight.tried, rechecked := sight.rechecked), SetOut(b.places, sight.own), b.begun)
  }

  ghost function Next(b: Book, step: Step): Book {
    match step
    case Tell(wallet, event) =>
      Taken(b.(places := b.places + [Arriving]), Ask(wallet, Job(AskedBy(event), {|b.places|})))
    case Finish(task, ok) => Settled(b, task, ok)
    case Reconfigure => Book(Reconfigured(b.t), Swept(b.places), b.begun)
    case Look(order, complete, rechecks, now) =>
      if !Drains(b.t.owed, order) then b
      else
        var sight := SightOf(b, order, DueComplete(complete), DueRechecks(rechecks), now);
        TakenAll(Setting(b, sight), sight.asks)
  }

  ghost function Run(steps: seq<Step>): Book {
    if steps == [] then Book(Table({}, 0, 0, map[], map[], map[], map[], map[]), [], [])
    else Next(Run(steps[..|steps| - 1]), steps[|steps| - 1])
  }

  lemma {:induction false} TakenAllTable(b: Book, asks: seq<Ask>)
    ensures TakenAll(b, asks).t == AskedAll(b.t, asks)
    decreases |asks|
  {
    if asks != [] {
      TakenAllTable(Taken(b, asks[0]), asks[1..]);
    }
  }

  /** A run does to the tables what the methods of `Relay` do. */
  lemma {:induction false} RunsTheRelay(b: Book, step: Step)
    ensures Next(b, step).t ==
            match step
            case Tell(wallet, event) => Asking(b.t, Ask(wallet, Job(AskedBy(event), {|b.places|})))
            case Finish(task, ok) => Finished(b.t, task, ok)
            case Reconfigure => Reconfigured(b.t)
            case Look(order, complete, rechecks, now) =>
              if Drains(b.t.owed, order) then
                Looked(b.t, Looking(b.t, order, DueComplete(complete), DueRechecks(rechecks), now, |b.places|))
              else b.t
  {
    if step.Look? && Drains(b.t.owed, step.order) {
      var sight := SightOf(b, step.order, DueComplete(step.complete), DueRechecks(step.rechecks), step.now);
      TakenAllTable(Setting(b, sight), sight.asks);
    }
  }

  // ----- what every step keeps -------------------------------------------

  /** The sync running for a wallet is one, and the wallets with one are the
      keys of `again`. */
  ghost predicate OneEach(t: Table) {
    && (forall task :: task in t.walletOf ==>
        task in t.tasks && t.aborted <= task && t.walletOf[task].wallet in t.again)
    && (forall task :: task in t.tasks ==> task < t.spawned && (t.aborted <= task ==> task in t.walletOf))
    && (forall wallet :: wallet in t.again ==> Syncing(t, wallet))
    && (forall a, b :: a in t.walletOf && b in t.walletOf && t.walletOf[a].wallet == t.walletOf[b].wallet ==> a == b)
    && t.aborted <= t.spawned
  }

  ghost predicate Syncing(t: Table, wallet: Wallet) {
    exists task :: task in t.walletOf && t.walletOf[task].wallet == wallet
  }

  /** Whether the tables hold an ask at a place, `pending` being the asks a
      look has yet to make. */
  ghost predicate Holds(t: Table, pending: seq<Ask>, place: Place, id: nat) {
    match place
    case Running(task) => task in t.walletOf && id in t.walletOf[task].job.asks
    case Queued(wallet) => wallet in t.again && t.again[wallet].Some? && id in t.again[wallet].value.asks
    case Owed(wallet) => wallet in t.owed && id in t.owed[wallet].asks
    case Arriving => exists k :: 0 <= k < |pending| && id in pending[k].job.asks
    case _ => false
  }

  ghost predicate Held(place: Place) { !place.Done? && !place.Dropped? }

  /** The tables hold each ask where it is, and nowhere else. */
  ghost predicate Located(t: Table, pending: seq<Ask>, places: seq<Place>) {
    forall place, id: nat :: Held(place) ==> (Holds(t, pending, place, id) <==> id < |places| && places[id] == place)
  }

  ghost predicate Apart(pending: seq<Ask>) {
    forall i, j :: 0 <= i < j < |pending| ==> pending[i].job.asks !! pending[j].job.asks
  }

  /** A sync has only asks that had arrived when it began. */
  ghost predicate InTime(b: Book) {
    && |b.begun| == b.t.spawned
    && (forall task :: 0 <= task < |b.begun| ==> b.begun[task] <= |b.places|)
    && (forall id :: 0 <= id < |b.places| && (b.places[id].Running? || b.places[id].Done?) ==>
          b.places[id].task < |b.begun| && id < b.begun[b.places[id].task])
  }

  ghost predicate Invariant(b: Book, pending: seq<Ask>) {
    match b
    case Book(t, places, _) => OneEach(t) && Located(t, pending, places) && Apart(pending) && InTime(b)
  }

  lemma {:induction false} SpawnedOneEach(t: Table, again: map<Wallet, Option<Job>>, ask: Ask)
    requires OneEach(t) && again == t.again[ask.wallet := None]
    requires ask.wallet !in t.again
    ensures OneEach(Spawned(t.(again := again), ask))
  {
    var t' := Spawned(t.(again := again), ask);
    forall wallet | wallet in t'.again ensures Syncing(t', wallet) {
      if wallet == ask.wallet {
        assert t'.walletOf[t.spawned].wallet == wallet;
      } else {
        var task :| task in t.walletOf && t.walletOf[task].wallet == wallet;
        assert t'.walletOf[task].wallet == wallet;
      }
    }
  }

  lemma {:induction false} TakenKept(b: Book, ask: Ask, rest: seq<Ask>)
    requires Invariant(b, [ask] + rest)
    ensures Invariant(Taken(b, ask), rest)
  {
    hide OneEach, Located, InTime, Spawned;
    var pending := [ask] + rest;
    TakenOneEach(b.t, ask);
    TakenLocated(b, ask, rest);
    TakenInTime(b, ask, rest);
    assert forall i :: 0 <= i < |rest| ==> rest[i] == pending[i + 1];
  }

  lemma {:induction false} TakenOneEach(t: Table, ask: Ask)
    requires OneEach(t)
    ensures OneEach(Asking(t, ask))
  {
    if ask.wallet in t.again {
      var t' := Asking(t, ask);
      forall wallet | wallet in t'.again ensures Syncing(t', wallet) {
        assert Syncing(t, wallet);
      }
    } else {
      SpawnedOneEach(t, t.again[ask.wallet := None], ask);
    }
  }

  lemma {:induction false} TakenInTime(b: Book, ask: Ask, rest: seq<Ask>)
    requires InTime(b)
    ensures InTime(Taken(b, ask))
  {
  }

  /** What an ask being made is the first of those pending to have. */
  lemma {:induction false} PendingFirst(t: Table, ask: Ask, rest: seq<Ask>, id: nat)
    requires Apart([ask] + rest)
    ensures Holds(t, [ask] + rest, Arriving, id) <==> id in ask.job.asks || Holds(t, rest, Arriving, id)
    ensures !(id in ask.job.asks && Holds(t, rest, Arriving, id))
  {
    var pending := [ask] + rest;
    assert pending[0] == ask && forall k :: 0 <= k < |rest| ==> pending[k + 1] == rest[k];
    if Holds(t, rest, Arriving, id) {
      var k :| 0 <= k < |rest| && id in rest[k].job.asks;
      assert id in pending[k + 1].job.asks;
    }
    if Holds(t, pending, Arriving, id) && id !in ask.job.asks {
      var k :| 0 <= k < |pending| && id in pending[k].job.asks;
      assert id in rest[k - 1].job.asks;
    }
  }

  lemma {:induction false} TakenLocated(b: Book, ask: Ask, rest: seq<Ask>)
    requires OneEach(b.t) && Located(b.t, [ask] + rest, b.places) && Apart([ask] + rest)
    ensures Located(Taken(b, ask).t, rest, Taken(b, ask).places)
  {
    var b' := Taken(b, ask);
    forall place, id: nat | Held(place)
      ensures Holds(b'.t, rest, place, id) <==> id < |b'.places| && b'.places[id] == place
    {
      PendingFirst(b.t, ask, rest, id);
      assert Holds(b.t, [ask] + rest, place, id) <==> id < |b.places| && b.places[id] == place;
      assert Holds(b.t, [ask] + rest, Arriving, id) <==> id < |b.places| && b.places[id] == Arriving;
    }
  }

  lemma {:induction false} TakenAllKept(b: Book, asks: seq<Ask>)
    requires Invariant(b, asks)
    ensures Invariant(TakenAll(b, asks), [])
    decreases |asks|
  {
    hide Invariant, Taken;
    if asks != [] {
      assert asks == [asks[0]] + asks[1..];
      TakenKept(b, asks[0], asks[1..]);
      TakenAllKept(Taken(b, asks[0]), asks[1..]);
    }
  }

  // ----- a sync that ends, and a new configuration -----------------------

  lemma {:induction false} EndedOneEach(t: Table, task: nat, ok: bool)
    requires OneEach(t) && task in t.walletOf
    ensures OneEach(Ended(t, task, ok))
  {
    var t' := Ended(t, task, ok);
    forall other | other in t'.again ensures Syncing(t', other) {
      var its :| its in t.walletOf && t.walletOf[its].wallet == other;
      assert t'.walletOf[its].wallet == other;
    }
  }

  lemma {:induction false} LocatedSo(t: Table, pending: seq<Ask>, places: seq<Place>)
    requires forall place, id: nat :: Held(place) ==>
        (Holds(t, pending, place, id) <==> id < |places| && places[id] == place)
    ensures Located(t, pending, places)
  {
  }

  lemma {:induction false} LocatedAt(t: Table, pending: seq<Ask>, places: seq<Place>, place: Place, id: nat)
    requires Located(t, pending, places) && Held(place)
    ensures Holds(t, pending, place, id) <==> id < |places| && places[id] == place
  {
  }

  function NextAsk(t: Table, task: nat): seq<Ask>
    requires task in t.walletOf
  {
    var wallet := t.walletOf[task].wallet;
    var next := Since(t, wallet);
    if next.None? then [] else [Ask(wallet, next.value)]
  }

  lemma {:induction false} NextHeld(t: Table, task: nat, id: nat)
    requires OneEach(t) && task in t.walletOf
    ensures Holds(Ended(t, task, true), NextAsk(t, task), Arriving, id) <==>
        Holds(t, [], Queued(t.walletOf[task].wallet), id)
  {
    if Holds(t, [], Queued(t.walletOf[task].wallet), id) {
      assert id in NextAsk(t, task)[0].job.asks;
    }
  }

  lemma {:induction false} EndingAt(b: Book, task: nat, ok: bool, place: Place, id: nat)
    requires OneEach(b.t) && Located(b.t, [], b.places) && task in b.t.walletOf && Held(place)
    ensures Holds(Ending(b, task, ok).t, NextAsk(b.t, task), place, id)
            <==> id < |Ending(b, task, ok).places| && Ending(b, task, ok).places[id] == place
  {
    var wallet := b.t.walletOf[task].wallet;
    NextHeld(b.t, task, id);
    assert forall other :: other in b.t.walletOf && b.t.walletOf[other].wallet == wallet ==> other == task;
    hide OneEach, Located, Since;
    LocatedAt(b.t, [], b.places, place, id);
    LocatedAt(b.t, [], b.places, Running(task), id);
    LocatedAt(b.t, [], b.places, Queued(wallet), id);
    LocatedAt(b.t, [], b.places, Arriving, id);
  }

  lemma {:induction false} EndingKept(b: Book, task: nat, ok: bool)
    requires Invariant(b, []) && task in b.t.walletOf
    ensures Invariant(Ending(b, task, ok), NextAsk(b.t, task))
  {
    hide OneEach, Located, InTime;
    var b' := Ending(b, task, ok);
    EndedOneEach(b.t, task, ok);
    EndingInTime(b, task, ok);
    forall place, id: nat | Held(place)
      ensures Holds(b'.t, NextAsk(b.t, task), place, id) <==> id < |b'.places| && b'.places[id] == place
    {
      EndingAt(b, task, ok, place, id);
    }
    LocatedSo(b'.t, NextAsk(b.t, task), b'.places);
  }

  lemma {:induction false} EndingInTime(b: Book, task: nat, ok: bool)
    requires InTime(b) && task in b.t.walletOf
    ensures InTime(Ending(b, task, ok))
  {
  }

  lemma {:induction false} SettledKept(b: Book, task: nat, ok: bool)
    requires Invariant(b, [])
    ensures Invariant(Settled(b, task, ok), [])
  {
    hide OneEach, Located, InTime, Ending, Taken;
    if task in b.t.tasks {
      if task in b.t.walletOf {
        EndingKept(b, task, ok);
        var wallet := b.t.walletOf[task].wallet;
        if Since(b.t, wallet).Some? {
          assert NextAsk(b.t, task) == [Ask(wallet, Since(b.t, wallet).value)] + [];
          TakenKept(Ending(b, task, ok), Ask(wallet, Since(b.t, wallet).value), []);
        }
      } else {
        Joined(b, task);
      }
    }
  }

  /** An aborted task handing back its failure changes nothing. */
  lemma {:induction false} Joined(b: Book, task: nat)
    requires Invariant(b, []) && task !in b.t.walletOf
    ensures Invariant(b.(t := b.t.(tasks := b.t.tasks - {task})), [])
  {
    hide Located;
    var t' := b.t.(tasks := b.t.tasks - {task});
    forall wallet | wallet in t'.again ensures Syncing(t', wallet) {
      var its :| its in b.t.walletOf && b.t.walletOf[its].wallet == wallet;
      assert t'.walletOf[its].wallet == wallet;
    }
    forall place, id: nat | Held(place) ensures Holds(t', [], place, id) <==> id < |b.places| && b.places[id] == place {
      LocatedAt(b.t, [], b.places, place, id);
    }
    LocatedSo(t', [], b.places);
  }

  lemma {:induction false} SweptKept(b: Book)
    requires Invariant(b, [])
    ensures Invariant(Book(Reconfigured(b.t), Swept(b.places), b.begun), [])
  {
  }

  // ----- a look ----------------------------------------------------------

  lemma {:induction false} PickNumbers(seen: map<Wallet, nat>, due: seq<Due>, now: nat, first: nat, k: nat)
    requires k < |Pick(seen, due, now, first).asks|
    ensures Pick(seen, due, now, first).asks[k].job.asks == {first + k}
  {
    var front := due[..|due| - 1];
    if k < |Pick(seen, front, now, first).asks| {
      PickNumbers(seen, front, now, first, k);
    }
  }

  lemma {:induction false} SightAt(b: Book, order: seq<Wallet>, complete: seq<Due>, rechecks: seq<Due>, now: nat,
      k: nat)
    requires Drains(b.t.owed, order)
    requires k < |SightOf(b, order, complete, rechecks, now).asks|
    ensures var sight := SightOf(b, order, complete, rechecks, now);
            && |sight.asks| == |order| + sight.own
            && sight.asks[k].job.asks ==
               if k < |order| then b.t.owed[order[k]].asks else {|b.places| + k - |order|}
  {
    hide Pick, Drains, OwedAsks;
    var days := Pick(Lately(b.t.tried, now), complete, now, |b.places|);
    var looks := Pick(Lately(b.t.rechecked, now), rechecks, now, |b.places| + |days.asks|);
    OwedAt(b.t.owed, order, k);
    if k >= |order| + |days.asks| {
      PickNumbers(Lately(b.t.rechecked, now), rechecks, now, |b.places| + |days.asks|, k - |order| - |days.asks|);
    } else if k >= |order| {
      PickNumbers(Lately(b.t.tried, now), complete, now, |b.places|, k - |order|);
    }
  }

  lemma {:induction false} OwedAt(owed: map<Wallet, Job>, order: seq<Wallet>, k: nat)
    requires Drains(owed, order)
    ensures forall i :: 0 <= i < |order| ==> order[i] in owed
    ensures k < |order| ==> OwedAsks(owed, order)[k] == Ask(order[k], owed[order[k]])
  {
  }

  lemma {:induction false} SettingApart(b: Book, order: seq<Wallet>, complete: seq<Due>, rechecks: seq<Due>, now: nat)
    requires Invariant(b, []) && Drains(b.t.owed, order)
    ensures Apart(SightOf(b, order, complete, rechecks, now).asks)
  {
    hide OneEach, InTime, Looking, Located;
    var asks := SightOf(b, order, complete, rechecks, now).asks;
    forall i, j | 0 <= i < j < |asks| ensures asks[i].job.asks !! asks[j].job.asks {
      SightAt(b, order, complete, rechecks, now, i);
      SightAt(b, order, complete, rechecks, now, j);
      forall id: nat | id in asks[i].job.asks && id in asks[j].job.asks ensures false {
        if i < |order| {
          LocatedAt(b.t, [], b.places, Owed(order[i]), id);
        }
        if j < |order| {
          LocatedAt(b.t, [], b.places, Owed(order[j]), id);
        }
      }
    }
  }

  lemma {:induction false} SettingArriving(b: Book, order: seq<Wallet>, complete: seq<Due>, rechecks: seq<Due>,
      now: nat, id: nat)
    requires Located(b.t, [], b.places) && Drains(b.t.owed, order)
    ensures var sight := SightOf(b, order, complete, rechecks, now);
            Holds(Setting(b, sight).t, sight.asks, Arriving, id)
            <==> id < |b.places| + sight.own && SetOut(b.places, sight.own)[id] == Arriving
  {
    hide Looking, Located;
    var sight := SightOf(b, order, complete, rechecks, now);
    LocatedAt(b.t, [], b.places, Arriving, id);
    if Holds(Setting(b, sight).t, sight.asks, Arriving, id) {
      var k :| 0 <= k < |sight.asks| && id in sight.asks[k].job.asks;
      SightAt(b, order, complete, rechecks, now, k);
      if k < |order| {
        LocatedAt(b.t, [], b.places, Owed(order[k]), id);
      }
    }
    if id < |b.places| && b.places[id].Owed? {
      LocatedAt(b.t, [], b.places, b.places[id], id);
      var k :| 0 <= k < |order| && order[k] == b.places[id].wallet;
      SightLong(b, order, complete, rechecks, now);
      SightAt(b, order, complete, rechecks, now, k);
      assert id in sight.asks[k].job.asks;
    } else if |b.places| <= id < |b.places| + sight.own {
      var k := id - |b.places| + |order|;
      SightLong(b, order, complete, rechecks, now);
      SightAt(b, order, complete, rechecks, now, k);
      assert id in sight.asks[k].job.asks;
    }
  }

  lemma {:induction false} SightLong(b: Book, order: seq<Wallet>, complete: seq<Due>, rechecks: seq<Due>, now: nat)
    requires Drains(b.t.owed, order)
    ensures var sight := SightOf(b, order, complete, rechecks, now); |sight.asks| == |order| + sight.own
  {
    hide Pick;
  }

  lemma {:induction false} SettingLocated(b: Book, order: seq<Wallet>, complete: seq<Due>, rechecks: seq<Due>, now: nat)
    requires Located(b.t, [], b.places) && Drains(b.t.owed, order)
    ensures var sight := SightOf(b, order, complete, rechecks, now);
            Located(Setting(b, sight).t, sight.asks, Setting(b, sight).places)
  {
    hide Looking, Located;
    var sight := SightOf(b, order, complete, rechecks, now);
    var b' := Setting(b, sight);
    forall place, id: nat | Held(place)
      ensures Holds(b'.t, sight.asks, place, id) <==> id < |b'.places| && b'.places[id] == place
    {
      LocatedAt(b.t, [], b.places, place, id);
      SettingArriving(b, order, complete, rechecks, now, id);
    }
    LocatedSo(b'.t, sight.asks, b'.places);
  }

  lemma {:induction false} SettingKept(b: Book, order: seq<Wallet>, complete: seq<Due>, rechecks: seq<Due>, now: nat)
    requires Invariant(b, []) && Drains(b.t.owed, order)
    ensures var sight := SightOf(b, order, complete, rechecks, now); Invariant(Setting(b, sight), sight.asks)
  {
    var sight := SightOf(b, order, complete, rechecks, now);
    SettingApart(b, order, complete, rechecks, now);
    SettingLocated(b, order, complete, rechecks, now);
    OneEachSet(b.t, Setting(b, sight).t);
    InTimeSet(b, sight);
  }

  lemma {:induction false} LookKept(b: Book, order: seq<Wallet>, complete: seq<Due>, rechecks: seq<Due>, now: nat)
    requires Invariant(b, []) && Drains(b.t.owed, order)
    ensures var sight := SightOf(b, order, complete, rechecks, now);
            Invariant(TakenAll(Setting(b, sight), sight.asks), [])
  {
    hide Looking;
    var sight := SightOf(b, order, complete, rechecks, now);
    SettingKept(b, order, complete, rechecks, now);
    TakenAllKept(Setting(b, sight), sight.asks);
  }

  lemma {:induction false} OneEachSet(t: Table, t': Table)
    requires OneEach(t) && t' == t.(owed := t'.owed, tried := t'.tried, rechecked := t'.rechecked)
    ensures OneEach(t')
  {
    forall wallet | wallet in t'.again ensures Syncing(t', wallet) {
      var task :| task in t.walletOf && t.walletOf[task].wallet == wallet;
      assert t'.walletOf[task].wallet == wallet;
    }
  }

  lemma {:induction false} InTimeSet(b: Book, sight: Sight)
    requires InTime(b)
    ensures InTime(Setting(b, sight))
  {
  }

  lemma {:induction false} TellKept(b: Book, ask: Ask)
    requires Invariant(b, []) && ask.job.asks == {|b.places|}
    ensures Invariant(Taken(b.(places := b.places + [Arriving]), ask), [])
  {
    var b' := b.(places := b.places + [Arriving]);
    forall place, id: nat | Held(place)
      ensures Holds(b.t, [ask] + [], place, id) <==> id < |b'.places| && b'.places[id] == place
    {
      LocatedAt(b.t, [], b.places, place, id);
      PendingFirst(b.t, ask, [], id);
    }
    LocatedSo(b'.t, [ask] + [], b'.places);
    TakenKept(b', ask, []);
  }

  lemma {:induction false} NextKept(b: Book, step: Step)
    requires Invariant(b, [])
    ensures Invariant(Next(b, step), [])
  {
    match step
    case Tell(wallet, event) => TellKept(b, Ask(wallet, Job(AskedBy(event), {|b.places|})));
    case Finish(task, ok) => SettledKept(b, task, ok);
    case Reconfigure => SweptKept(b);
    case Look(order, complete, rechecks, now) =>
      if Drains(b.t.owed, order) {
        LookKept(b, order, DueComplete(complete), DueRechecks(rechecks), now);
      }
  }

  lemma {:induction false} RunKept(steps: seq<Step>)
    ensures Invariant(Run(steps), [])
  {
    hide Next;
    if steps != [] {
      RunKept(steps[..|steps| - 1]);
      NextKept(Run(steps[..|steps| - 1]), steps[|steps| - 1]);
    }
  }

  // ----- what is promised of every run -----------------------------------

  /** Each ask that arrived is in exactly one place: held by one of the
      tables, or done, or dropped. */
  lemma {:induction false} Conserved(steps: seq<Step>, id: nat, place: Place)
    requires Held(place)
    ensures Holds(Run(steps).t, [], place, id) <==> id < |Run(steps).places| && Run(steps).places[id] == place
    ensures id < |Run(steps).places| ==> Run(steps).places[id] != Arriving
  {
    RunKept(steps);
    LocatedAt(Run(steps).t, [], Run(steps).places, place, id);
    LocatedAt(Run(steps).t, [], Run(steps).places, Arriving, id);
  }

  /** The keys of `again` are the wallets with a sync running that was not
      aborted, and each has one. */
  lemma {:induction false} OneSyncPerWallet(steps: seq<Step>, wallet: Wallet)
    ensures var t := Run(steps).t;
            && (wallet in t.again <==>
                exists task :: task in t.tasks && t.aborted <= task && task in t.walletOf &&
                    t.walletOf[task].wallet == wallet)
            && (forall a, b :: a in t.walletOf && b in t.walletOf && t.walletOf[a].wallet == t.walletOf[b].wallet ==>
                a == b)
            && (forall task :: task in t.walletOf <==> task in t.tasks && t.aborted <= task)
  {
    RunKept(steps);
    var t := Run(steps).t;
    if wallet in t.again {
      assert Syncing(t, wallet);
    }
  }

  /** No ask is counted done by a sync that started before it arrived. */
  lemma {:induction false} NeverTooSoon(steps: seq<Step>, id: nat)
    requires id < |Run(steps).places| && Run(steps).places[id].Done?
    ensures var task := Run(steps).places[id].task; task < |Run(steps).begun| && id < Run(steps).begun[task]
  {
    RunKept(steps);
  }

  // ----- how an ask moves on ---------------------------------------------

  /** Making asks moves those on their way, into a queue or a sync, and no
      other. */
  lemma {:induction false} TakenMoves(b: Book, ask: Ask, rest: seq<Ask>, id: nat)
    requires Invariant(b, [ask] + rest) && id < |b.places|
    ensures var to := Taken(b, ask).places[id];
            if id in ask.job.asks then b.places[id] == Arriving && (to.Queued? || to.Running?) else to == b.places[id]
  {
    hide Located, InTime, OneEach;
    PendingFirst(b.t, ask, rest, id);
    LocatedAt(b.t, [ask] + rest, b.places, Arriving, id);
  }

  lemma {:induction false} TakenAllMoves(b: Book, asks: seq<Ask>, id: nat)
    requires Invariant(b, asks) && id < |b.places|
    ensures |TakenAll(b, asks).places| == |b.places|
    ensures var to := TakenAll(b, asks).places[id];
            if b.places[id] == Arriving then to.Queued? || to.Running? else to == b.places[id]
    decreases |asks|
  {
    hide Invariant, Taken;
    if asks == [] {
      NoneArriving(b, id);
    } else {
      assert asks == [asks[0]] + asks[1..];
      TakenKept(b, asks[0], asks[1..]);
      TakenLong(b, asks[0]);
      TakenMoves(b, asks[0], asks[1..], id);
      TakenAllMoves(Taken(b, asks[0]), asks[1..], id);
    }
  }

  lemma {:induction false} NoneArriving(b: Book, id: nat)
    requires Invariant(b, []) && id < |b.places|
    ensures b.places[id] != Arriving
  {
    hide OneEach, Located, InTime;
    LocatedAt(b.t, [], b.places, Arriving, id);
  }

  lemma {:induction false} TakenLong(b: Book, ask: Ask)
    ensures |Taken(b, ask).places| == |b.places|
  {
  }

  /** A sync that ends moves its own asks, and those queued behind it. */
  lemma {:induction false} SettledMoves(b: Book, task: nat, ok: bool, id: nat)
    requires Invariant(b, []) && id < |b.places| && task in b.t.tasks && task in b.t.walletOf
    ensures |Settled(b, task, ok).places| == |b.places|
    ensures var wallet, to := b.t.walletOf[task].wallet, Settled(b, task, ok).places[id];
            if b.places[id] == Running(task) then to == if ok then Done(task) else Owed(wallet)
            else if b.places[id] == Queued(wallet) then to == Running(b.t.spawned)
            else to == b.places[id]
  {
    hide OneEach, Located, InTime;
    var wallet := b.t.walletOf[task].wallet;
    var b' := Ending(b, task, ok);
    EndingKept(b, task, ok);
    NoneArriving(b, id);
    LocatedAt(b.t, [], b.places, Queued(wallet), id);
    if Since(b.t, wallet).Some? {
      var ask := Ask(wallet, Since(b.t, wallet).value);
      assert NextAsk(b.t, task) == [ask] + [];
      TakenMoves(b', ask, [], id);
      PendingFirst(b'.t, ask, [], id);
      LocatedAt(b'.t, [ask] + [], b'.places, Arriving, id);
    }
  }

  /** From the moment it arrives an ask moves on: what is done stays done, and
      only a new configuration drops any. */
  lemma {:induction false} MovesOn(b: Book, step: Step, id: nat)
    requires Invariant(b, []) && id < |b.places|
    ensures |b.places| <= |Next(b, step).places|
    ensures var from, to := b.places[id], Next(b, step).places[id];
            && (from.Done? || from.Dropped? ==> to == from)
            && (to.Dropped? ==> from.Dropped? || step.Reconfigure?)
            && (to.Done? ==> to == from || (step.Finish? && step.ok && from == Running(to.task)))
            && (from.Queued? ==> to == from || to.Running? || step.Reconfigure?)
            && (from.Running? ==> to == from || step.Reconfigure? ||
                                  (step.Finish? && step.task == from.task &&
                                      if step.ok then to == Done(from.task) else to.Owed?))
            && (from.Owed? ==> to == from || to.Queued? || to.Running? || step.Reconfigure?)
  {
    hide OneEach, Located, InTime, Settled, Taken;
    NoneArriving(b, id);
    match step
    case Tell(wallet, event) =>
      TellMoves(b, Ask(wallet, Job(AskedBy(event), {|b.places|})), id);
    case Finish(task, ok) =>
      FinishMoves(b, task, ok, id);
    case Reconfigure =>
    case Look(order, complete, rechecks, now) =>
      if Drains(b.t.owed, order) {
        LookMoves(b, order, DueComplete(complete), DueRechecks(rechecks), now, id);
      }
  }

  lemma {:induction false} TellMoves(b: Book, ask: Ask, id: nat)
    requires Invariant(b, []) && ask.job.asks == {|b.places|}
    requires id < |b.places|
    ensures var b' := Taken(b.(places := b.places + [Arriving]), ask);
            |b'.places| == |b.places| + 1 && b'.places[id] == b.places[id]
  {
  }

  lemma {:induction false} FinishMoves(b: Book, task: nat, ok: bool, id: nat)
    requires Invariant(b, []) && id < |b.places|
    ensures |Settled(b, task, ok).places| == |b.places|
    ensures var from, to := b.places[id], Settled(b, task, ok).places[id];
            || to == from || (from.Queued? && to.Running?)
            || (from == Running(task) && if ok then to == Done(task) else to.Owed?)
  {
    hide OneEach, Located, InTime;
    if task in b.t.tasks && task in b.t.walletOf {
      hide Settled;
      SettledMoves(b, task, ok, id);
    }
  }

  /** An ask that arrives runs or is queued. */
  lemma {:induction false} Arrives(b: Book, step: Step, id: nat)
    requires Invariant(b, []) && |b.places| <= id < |Next(b, step).places|
    ensures Next(b, step).places[id].Queued? || Next(b, step).places[id].Running?
  {
    hide OneEach, Located, InTime, Settled;
    match step
    case Tell(wallet, event) =>
    case Finish(task, ok) =>
      SettledLong(b, task, ok);
    case Reconfigure =>
    case Look(order, complete, rechecks, now) =>
      if Drains(b.t.owed, order) {
        hide Looking, DueComplete, DueRechecks;
        var sight := SightOf(b, order, DueComplete(complete), DueRechecks(rechecks), now);
        SettingKept(b, order, DueComplete(complete), DueRechecks(rechecks), now);
        LookLong(b, sight);
        if id < |b.places| + sight.own {
          TakenAllMoves(Setting(b, sight), sight.asks, id);
        }
      }
  }

  lemma {:induction false} SettledLong(b: Book, task: nat, ok: bool)
    ensures |Settled(b, task, ok).places| == |b.places|
  {
  }

  lemma {:induction false} LookLong(b: Book, sight: Sight)
    ensures |TakenAll(Setting(b, sight), sight.asks).places| == |b.places| + sight.own
  {
    TakenAllLong(Setting(b, sight), sight.asks);
  }

  lemma {:induction false} TakenAllLong(b: Book, asks: seq<Ask>)
    ensures |TakenAll(b, asks).places| == |b.places|
    decreases |asks|
  {
    if asks != [] {
      TakenAllLong(Taken(b, asks[0]), asks[1..]);
    }
  }

  /** A look asks again all that is owed. */
  lemma {:induction false} LookMoves(b: Book, order: seq<Wallet>, complete: seq<Due>, rechecks: seq<Due>, now: nat,
      id: nat)
    requires Invariant(b, []) && Drains(b.t.owed, order) && id < |b.places|
    ensures var sight := SightOf(b, order, complete, rechecks, now); var b' := TakenAll(Setting(b, sight), sight.asks);
            && |b'.places| == |b.places| + sight.own
            && if b.places[id].Owed? then b'.places[id].Queued? || b'.places[id].Running?
               else b'.places[id] == b.places[id]
  {
    hide OneEach, Located, InTime, Looking;
    var sight := SightOf(b, order, complete, rechecks, now);
    NoneArriving(b, id);
    SettingKept(b, order, complete, rechecks, now);
    TakenAllMoves(Setting(b, sight), sight.asks, id);
  }

  /** What is picked is not asked lately, and no wallet is picked twice. */
  ghost predicate Once(seen: map<Wallet, nat>, p: Picked, now: nat) {
    && (forall wallet :: wallet in seen ==> wallet in p.seen && p.seen[wallet] == seen[wallet])
    && (forall i :: 0 <= i < |p.asks| ==> p.asks[i].wallet in p.seen && p.seen[p.asks[i].wallet] == now)
    && (forall i :: 0 <= i < |p.asks| ==> p.asks[i].wallet !in seen)
    && (forall i, j :: 0 <= i < j < |p.asks| ==> p.asks[i].wallet != p.asks[j].wallet)
  }

  lemma {:induction false} OnceMore(seen: map<Wallet, nat>, p: Picked, ask: Ask, now: nat)
    requires Once(seen, p, now) && ask.wallet !in p.seen
    ensures Once(seen, Picked(p.seen[ask.wallet := now], p.asks + [ask]), now)
  {
  }

  lemma {:induction false} PickSeen(seen: map<Wallet, nat>, due: seq<Due>, now: nat, first: nat)
    ensures Once(seen, Pick(seen, due, now, first), now)
  {
    if due != [] {
      var before, last := Pick(seen, due[..|due| - 1], now, first), due[|due| - 1];
      PickSeen(seen, due[..|due| - 1], now, first);
      if last.wallet !in before.seen {
        OnceMore(seen, before, Ask(last.wallet, Job(last.asked, {first + |before.asks|})), now);
      }
    }
  }

  /** One look asks of its own accord nothing asked within the hour, and nothing
      twice. */
  lemma {:induction false} PickOnce(seen: map<Wallet, nat>, due: seq<Due>, now: nat, first: nat, i: nat, j: nat)
    requires var asks := Pick(Lately(seen, now), due, now, first).asks; i <= j < |asks|
    ensures var asks := Pick(Lately(seen, now), due, now, first).asks;
            && (asks[i].wallet in seen ==> seen[asks[i].wallet] + DUE_RETRY <= now)
            && (i < j ==> asks[i].wallet != asks[j].wallet)
  {
    hide Pick;
    PickSeen(Lately(seen, now), due, now, first);
  }
}
