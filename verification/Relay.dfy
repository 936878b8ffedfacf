/** The scheduler of the live watch (src/live.rs, `relay`, `ask`, `look`):
    one sync at a time per wallet, what is asked meanwhile merged and kept,
    what fails owed until the next look. Each ask is followed by the number
    of its arrival, carried beside it. */
module Relay {
  import opened Wrappers
  import opened Asks

  const DUE_RETRY: nat := 3600

  /** The identifiers of wallets are only ever compared. */
  type Wallet = nat

  /** What a sync is asked, and the asks it stands for. */
  datatype Job = Job(asked: Asked, asks: set<nat>)

  datatype Ask = Ask(wallet: Wallet, job: Job)

  function Both(earlier: Option<Job>, job: Job): Job {
    match earlier
    case None => job
    case Some(before) => Job(And(before.asked, job.asked), before.asks + job.asks)
  }

  /** The variables of `relay`. Tasks are numbered in the order spawned;
      those below `aborted` are aborted, and may still hand something back. */
  datatype Table = Table(tasks: set<nat>, aborted: nat, spawned: nat, walletOf: map<nat, Ask>,
                         again: map<Wallet, Option<Job>>,
                         owed: map<Wallet, Job>, tried: map<Wallet, nat>, rechecked: map<Wallet, nat>)

  function Spawned(t: Table, ask: Ask): Table {
    t.(tasks := t.tasks + {t.spawned}, walletOf := t.walletOf[t.spawned := ask], spawned := t.spawned + 1)
  }

  function Asking(t: Table, ask: Ask): Table {
    if ask.wallet in t.again then t.(again := t.again[ask.wallet := Some(Both(t.again[ask.wallet], ask.job))])
    else Spawned(t.(again := t.again[ask.wallet := None]), ask)
  }

  /** What was asked of a wallet while its sync ran. */
  function Since(t: Table, wallet: Wallet): Option<Job> { if wallet in t.again then t.again[wallet] else None }

  /** A sync taken off the tables, and owed if it failed. */
  function Ended(t: Table, task: nat, ok: bool): Table
    requires task in t.walletOf
  {
    var Ask(wallet, job) := t.walletOf[task];
    var earlier := if wallet in t.owed then Some(t.owed[wallet]) else None;
    t.(tasks := t.tasks - {task}, walletOf := t.walletOf - {task}, again := t.again - {wallet},
    owed := if ok then t.owed else t.owed[wallet := Both(earlier, job)])
  }

  function Finished(t: Table, task: nat, ok: bool): Table {
    if task !in t.tasks then t
    else if task !in t.walletOf then t.(tasks := t.tasks - {task})
    else
      var wallet := t.walletOf[task].wallet;
      var next := Since(t, wallet);
      if next.None? then Ended(t, task, ok) else Asking(Ended(t, task, ok), Ask(wallet, next.value))
  }

  function Reconfigured(t: Table): Table {
    Table(t.tasks, t.spawned, t.spawned, map[], map[], map[], map[], map[])
  }

  function AskedAll(t: Table, asks: seq<Ask>): Table
    decreases |asks|
  {
    if asks == [] then t else AskedAll(Asking(t, asks[0]), asks[1..])
  }

  /** A wallet due something of the watch's own accord. */
  datatype Due = Due(wallet: Wallet, asked: Asked)

  /** A complete sync a day old. */
  function DueComplete(wallets: seq<Wallet>): (due: seq<Due>)
    ensures |due| == |wallets|
  {
    seq(|wallets|, i requires 0 <= i < |wallets| => Due(wallets[i], Of(Started, [])))
  }

  /** The scripts of payments seen to vanish, to be looked at again. */
  datatype Recheck = Recheck(wallet: Wallet, scripts: seq<string>)

  function DueRechecks(rechecks: seq<Recheck>): (due: seq<Due>)
    ensures |due| == |rechecks|
  {
    seq(|rechecks|, i requires 0 <= i < |rechecks| => Due(rechecks[i].wallet, Of(NewBlock, rechecks[i].scripts)))
  }

  datatype Picked = Picked(seen: map<Wallet, nat>, asks: seq<Ask>)

  /** Of those due, the ones not asked for lately, numbered from `first`. */
  function Pick(seen: map<Wallet, nat>, due: seq<Due>, now: nat, first: nat): (p: Picked)
    ensures |p.asks| <= |due|
  {
    if due == [] then Picked(seen, [])
    else
      var last, before := due[|due| - 1], Pick(seen, due[..|due| - 1], now, first);
      if last.wallet in before.seen then before
      else
        Picked(before.seen[last.wallet := now],
            before.asks + [Ask(last.wallet, Job(last.asked, {first + |before.asks|}))])
  }

  /** The first entry of a wallet not asked for lately. */
  predicate FirstDue(seen: map<Wallet, nat>, due: seq<Due>, i: nat) {
    i < |due| && due[i].wallet !in seen && forall j :: 0 <= j < i ==> due[j].wallet != due[i].wallet
  }

  /** Of each wallet due and not asked for lately, its first entry is asked, at
      `at`, in order, and nothing else; and it is now asked for. */
  ghost predicate Chosen(seen: map<Wallet, nat>, due: seq<Due>, now: nat, first: nat, p: Picked, at: seq<nat>) {
    && |at| == |p.asks| && (forall a, b :: 0 <= a < b < |at| ==> at[a] < at[b])
    && (forall i: nat :: FirstDue(seen, due, i) <==> i in at)
    && (forall k :: 0 <= k < |at| ==>
          at[k] < |due| && p.asks[k] == Ask(due[at[k]].wallet, Job(due[at[k]].asked, {first + k})))
    && (forall wallet :: wallet in p.seen <==> wallet in seen || exists i :: 0 <= i < |due| && due[i].wallet == wallet)
    && (forall wallet :: wallet in p.seen ==> p.seen[wallet] == if wallet in seen then seen[wallet] else now)
  }

  lemma {:induction false} FirstDueMore(seen: map<Wallet, nat>, due: seq<Due>, last: Due, i: nat)
    ensures i < |due| ==> (FirstDue(seen, due + [last], i) <==> FirstDue(seen, due, i))
    ensures FirstDue(seen, due + [last], |due|) <==>
            last.wallet !in seen && forall j :: 0 <= j < |due| ==> due[j].wallet != last.wallet
  {
    var more := due + [last];
    assert forall j :: 0 <= j < |due| ==> more[j] == due[j];
  }

  lemma {:induction false} ChosenNot(seen: map<Wallet, nat>, due: seq<Due>, last: Due, now: nat, first: nat, p: Picked,
      at: seq<nat>)
    requires Chosen(seen, due, now, first, p, at) && last.wallet in p.seen
    ensures Chosen(seen, due + [last], now, first, p, at)
  {
    hide FirstDue;
    var more := due + [last];
    assert more[|due|] == last && forall j :: 0 <= j < |due| ==> more[j] == due[j];
    forall i: nat ensures FirstDue(seen, more, i) <==> i in at {
      FirstDueMore(seen, due, last, i);
      assert FirstDue(seen, due, i) <==> i in at;
      FirstWithin(seen, more, i);
      FirstWithin(seen, due, i);
    }
  }

  lemma {:induction false} FirstWithin(seen: map<Wallet, nat>, due: seq<Due>, i: nat)
    ensures FirstDue(seen, due, i) ==> i < |due|
  {
  }

  lemma {:induction false} ChosenMore(seen: map<Wallet, nat>, due: seq<Due>, last: Due, now: nat, first: nat,
      p: Picked, at: seq<nat>)
    requires Chosen(seen, due, now, first, p, at) && last.wallet !in p.seen
    ensures Chosen(seen, due + [last], now, first,
                   Picked(p.seen[last.wallet := now], p.asks + [Ask(last.wallet, Job(last.asked, {first + |p.asks|}))]),
                   at + [|due|])
  {
    hide FirstDue;
    var more := due + [last];
    forall i: nat ensures FirstDue(seen, more, i) <==> i in at + [|due|] {
      FirstDueMore(seen, due, last, i);
      assert FirstDue(seen, due, i) <==> i in at;
      FirstWithin(seen, more, i);
      FirstWithin(seen, due, i);
    }
    assert more[|due|] == last && forall j :: 0 <= j < |due| ==> more[j] == due[j];
    forall a, b | 0 <= a < b < |at| + 1 ensures (at + [|due|])[a] < (at + [|due|])[b] {
      assert at[a] < |due|;
    }
  }

  lemma {:induction false} ChosenNone(seen: map<Wallet, nat>, now: nat, first: nat)
    ensures Chosen(seen, [], now, first, Picked(seen, []), [])
  {
  }

  lemma {:induction false} PickChosen(seen: map<Wallet, nat>, due: seq<Due>, now: nat, first: nat)
    returns (at: seq<nat>)
    ensures Chosen(seen, due, now, first, Pick(seen, due, now, first), at)
  {
    hide Chosen, FirstDue;
    if due == [] {
      at := [];
      ChosenNone(seen, now, first);
    } else {
      var front, last := due[..|due| - 1], due[|due| - 1];
      var before := Pick(seen, front, now, first);
      at := PickChosen(seen, front, now, first);
      assert due == front + [last];
      if last.wallet in before.seen {
        ChosenNot(seen, front, last, now, first, before, at);
      } else {
        ChosenMore(seen, front, last, now, first, before, at);
        at := at + [|due| - 1];
      }
    }
  }

  function Lately(seen: map<Wallet, nat>, now: nat): map<Wallet, nat> {
    map wallet | wallet in seen && now < seen[wallet] + DUE_RETRY :: seen[wallet]
  }

  function OwedAsks(owed: map<Wallet, Job>, order: seq<Wallet>): (asks: seq<Ask>)
    requires forall i :: 0 <= i < |order| ==> order[i] in owed
    ensures |asks| == |order|
  {
    seq(|order|, i requires 0 <= i < |order| => Ask(order[i], owed[order[i]]))
  }

  /** A draining of what is owed: every wallet once, in whatever order. */
  ghost predicate Drains(owed: map<Wallet, Job>, order: seq<Wallet>) {
    && (forall i :: 0 <= i < |order| ==> order[i] in owed)
    && (forall i, j :: 0 <= i < j < |order| ==> order[i] != order[j])
    && (forall wallet :: wallet in owed ==> wallet in order)
  }

  /** All a look asks, its own first asks numbered from `first`. */
  datatype Sight = Sight(asks: seq<Ask>, tried: map<Wallet, nat>, rechecked: map<Wallet, nat>, own: nat)

  function Looking(t: Table, order: seq<Wallet>, complete: seq<Due>, rechecks: seq<Due>, now: nat, first: nat): Sight
    requires forall i :: 0 <= i < |order| ==> order[i] in t.owed
  {
    var days := Pick(Lately(t.tried, now), complete, now, first);
    var looks := Pick(Lately(t.rechecked, now), rechecks, now, first + |days.asks|);
    Sight(OwedAsks(t.owed, order) + days.asks + looks.asks, days.seen, looks.seen, |days.asks| + |looks.asks|)
  }

  function Looked(t: Table, sight: Sight): Table {
    AskedAll(t.(owed := map[], tried := sight.tried, rechecked := sight.rechecked), sight.asks)
  }

  /** The local state of `relay`, and what changes it. */
  class Relay {
    var tasks: set<nat>
    var aborted: nat
    var spawned: nat
    var walletOf: map<nat, Ask>
    var again: map<Wallet, Option<Job>>
    var owed: map<Wallet, Job>
    var tried: map<Wallet, nat>
    var rechecked: map<Wallet, nat>

    ghost function State(): Table
      reads this
    {
      Table(tasks, aborted, spawned, walletOf, again, owed, tried, rechecked)
    }

    constructor ()
      ensures State() == Table({}, 0, 0, map[], map[], map[], map[], map[])
    {
      tasks, aborted, spawned, walletOf := {}, 0, 0, map[];
      again, owed, tried, rechecked := map[], map[], map[], map[];
    }

    method Spawn(ask: Ask)
      modifies this
      ensures State() == Spawned(old(State()), ask)
    {
      tasks := tasks + {spawned};
      walletOf := walletOf[spawned := ask];
      spawned := spawned + 1;
    }

    /** `ask`. */
    method Take(ask: Ask)
      modifies this
      ensures State() == Asking(old(State()), ask)
    {
      if ask.wallet in again {
        again := again[ask.wallet := Some(Both(again[ask.wallet], ask.job))];
      } else {
        again := again[ask.wallet := None];
        Spawn(ask);
      }
    }

    /** The arm of a task that was joined. */
    method Finish(task: nat, ok: bool)
      requires task in tasks
      modifies this
      ensures State() == Finished(old(State()), task, ok)
    {
      tasks := tasks - {task};
      if task !in walletOf {
        return;
      }
      var Ask(wallet, job) := walletOf[task];
      walletOf := walletOf - {task};
      if !ok {
        var asked := job;
        if wallet in owed {
          asked := Both(Some(owed[wallet]), job);
        }
        owed := owed[wallet := asked];
      }
      var next: Option<Job> := None;
      if wallet in again {
        next := again[wallet];
        again := again - {wallet};
      }
      if next.Some? {
        again := again[wallet := None];
        Spawn(Ask(wallet, next.value));
      }
    }

    /** The arm of a new configuration. */
    method Reconfigure()
      modifies this
      ensures State() == Reconfigured(old(State()))
    {
      aborted := spawned;
      walletOf, again, owed, tried, rechecked := map[], map[], map[], map[], map[];
    }

    method TakeAll(asks: seq<Ask>)
      modifies this
      ensures State() == AskedAll(old(State()), asks)
    {
      hide Asking;
      var i := 0;
      while i < |asks|
        invariant i <= |asks| && AskedAll(State(), asks[i..]) == AskedAll(old(State()), asks)
      {
        assert asks[i..][0] == asks[i] && asks[i..][1..] == asks[i + 1..];
        Take(asks[i]);
        i := i + 1;
      }
    }

    method Drain() returns (asks: seq<Ask>, ghost order: seq<Wallet>)
      modifies this`owed
      ensures owed == map[] && Drains(old(owed), order) && asks == OwedAsks(old(owed), order)
    {
      asks, order := [], [];
      while owed != map[]
        invariant forall wallet :: wallet in old(owed) <==> wallet in owed || wallet in order
        invariant forall wallet :: wallet in owed ==> wallet !in order && old(owed)[wallet] == owed[wallet]
        invariant forall i :: 0 <= i < |order| ==> order[i] in old(owed)
        invariant forall i, j :: 0 <= i < j < |order| ==> order[i] != order[j]
        invariant asks == OwedAsks(old(owed), order)
        decreases owed.Keys
      {
        var wallet :| wallet in owed;
        asks := asks + [Ask(wallet, owed[wallet])];
        order := order + [wallet];
        owed := owed - {wallet};
      }
    }

    /** Either loop of `look` over what is due. */
    method Choose(seen: map<Wallet, nat>, due: seq<Due>, now: nat, first: nat) returns (picked: map<Wallet, nat>,
        asks: seq<Ask>)
      ensures Picked(picked, asks) == Pick(seen, due, now, first)
      ensures exists at :: Chosen(seen, due, now, first, Picked(picked, asks), at)
    {
      var at := PickChosen(seen, due, now, first);
      picked, asks := seen, [];
      for i := 0 to |due|
        invariant Picked(picked, asks) == Pick(seen, due[..i], now, first)
      {
        assert due[..i + 1][..i] == due[..i];
        var Due(wallet, asked) := due[i];
        if wallet in picked {
          continue;
        }
        picked := picked[wallet := now];
        asks := asks + [Ask(wallet, Job(asked, {first + |asks|}))];
      }
      assert due[..|due|] == due;
    }

    /** `look`; `order` is the one the hash map drained in. */
    method Look(serving: bool, complete: seq<Wallet>, rechecks: seq<Recheck>, now: nat, first: nat)
        returns (ghost order: seq<Wallet>)
      modifies this
      ensures serving ==> Drains(old(owed), order) &&
                          State() == Looked(old(State()),
                              Looking(old(State()), order, DueComplete(complete), DueRechecks(rechecks), now, first))
      ensures !serving ==> State() == old(State())
    {
      hide AskedAll, Pick, OwedAsks, Lately, Drains;
      if !serving {
        return [];
      }
      tried := Lately(tried, now);
      rechecked := Lately(rechecked, now);
      var asks;
      asks, order := Drain();
      var picked, days := Choose(tried, DueComplete(complete), now, first);
      tried := picked;
      var again', looks := Choose(rechecked, DueRechecks(rechecks), now, first + |days|);
      rechecked := again';
      asks := asks + days + looks;
      TakeAll(asks);
    }
  }
}
