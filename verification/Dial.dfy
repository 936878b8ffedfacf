/** Opening a connection to a host of several addresses (src/chain/dial.rs),
    as RFC 8305 (Happy Eyeballs), sections 4 and 5, asks.

    Time is counted in milliseconds since the opening began, and a wait ends
    exactly at its wake-up or at the attempt that ends in it. What the peers
    and this machine do is arbitrary: for each wait, which attempt ends in
    it, when, and how; for each attempt, whether it can be started at all. */
module Dial {
  import opened Wrappers

  const STAGGER: nat := 250
  const STALL: nat := 2000
  const AT_ONCE: nat := 5
  const MOST: nat := 16
  const LONGEST: nat := 24 * 3600 * 1000

  datatype Address = Address(v6: bool, ip: nat, port: u32)

  // ----- the order addresses are tried in --------------------------------

  function Family(addresses: seq<Address>, v6: bool): seq<Address> {
    if addresses == [] then []
    else (if addresses[0].v6 == v6 then [addresses[0]] else []) + Family(addresses[1..], v6)
  }

  function Alternate(lead: seq<Address>, other: seq<Address>): seq<Address>
    decreases |lead| + |other|
  {
    if lead == [] then other
    else if other == [] then lead
    else [lead[0], other[0]] + Alternate(lead[1..], other[1..])
  }

  function OrderOf(addresses: seq<Address>): seq<Address> {
    if addresses == [] then []
    else Alternate(Family(addresses, addresses[0].v6), Family(addresses, !addresses[0].v6))
  }

  /** `ordered`: the two families parted, then taken one of each a turn. */
  method Ordered(addresses: seq<Address>) returns (order: seq<Address>)
    ensures order == OrderOf(addresses)
  {
    hide *;
    AlternateEnd();
    OrderStart(addresses);
    if addresses == [] {
      return [];
    }
    var leading := addresses[0].v6;
    var lead, other := Family(addresses, leading), Family(addresses, !leading);
    order := [];
    while lead != [] || other != []
      invariant order + Alternate(lead, other) == OrderOf(addresses)
      decreases |lead| + |other|
    {
      var one := if lead == [] then [] else [lead[0]];
      var two := if other == [] then [] else [other[0]];
      AlternateTurn(lead, other, one, two);
      Regroup(order, one + two, Alternate(lead[|one|..], other[|two|..]));
      lead := lead[|one|..];
      other := other[|two|..];
      order := order + (one + two);
    }
  }

  lemma {:induction false} AlternateEnd()
    ensures Alternate([], []) == []
  {
  }

  lemma {:induction false} OrderStart(addresses: seq<Address>)
    ensures if addresses == [] then OrderOf(addresses) == []
            else OrderOf(addresses)
                 == Alternate(Family(addresses, addresses[0].v6), Family(addresses, !addresses[0].v6))
  {
  }

  lemma {:induction false} Regroup(a: seq<Address>, b: seq<Address>, c: seq<Address>)
    ensures a + (b + c) == (a + b) + c
  {
  }

  lemma {:induction false} AlternateTurn(lead: seq<Address>, other: seq<Address>, one: seq<Address>, two: seq<Address>)
    requires one == if lead == [] then [] else [lead[0]]
    requires two == if other == [] then [] else [other[0]]
    ensures |one| <= |lead| && |two| <= |other|
    ensures Alternate(lead, other) == one + two + Alternate(lead[|one|..], other[|two|..])
  {
    if lead == [] && other != [] {
      assert other == [other[0]] + other[1..];
    } else if other == [] && lead != [] {
      assert lead == [lead[0]] + lead[1..];
    }
  }

  lemma {:induction false} FamilyAppend(s: seq<Address>, t: seq<Address>, v6: bool)
    ensures Family(s + t, v6) == Family(s, v6) + Family(t, v6)
  {
    if s == [] {
      assert s + t == t;
    } else {
      assert (s + t)[0] == s[0] && (s + t)[1..] == s[1..] + t;
      FamilyAppend(s[1..], t, v6);
    }
  }

  lemma {:induction false} FamilyAll(s: seq<Address>, v6: bool)
    ensures forall i :: 0 <= i < |Family(s, v6)| ==> Family(s, v6)[i].v6 == v6
    ensures (forall i :: 0 <= i < |s| ==> s[i].v6 == v6) ==> Family(s, v6) == s && Family(s, !v6) == []
    ensures |Family(s, v6)| + |Family(s, !v6)| == |s|
  {
    if s != [] {
      FamilyAll(s[1..], v6);
    }
  }

  lemma {:induction false} FamilyMultiset(s: seq<Address>)
    ensures multiset(s) == multiset(Family(s, true)) + multiset(Family(s, false))
  {
    if s != [] {
      FamilyMultiset(s[1..]);
      assert s == [s[0]] + s[1..];
    }
  }

  lemma {:induction false} AlternateFamilies(lead: seq<Address>, other: seq<Address>, v6: bool)
    requires forall i :: 0 <= i < |lead| ==> lead[i].v6 == v6
    requires forall i :: 0 <= i < |other| ==> other[i].v6 != v6
    ensures Family(Alternate(lead, other), v6) == lead && Family(Alternate(lead, other), !v6) == other
    decreases |lead| + |other|
  {
    if lead == [] {
      FamilyAll(other, !v6);
    } else if other == [] {
      FamilyAll(lead, v6);
    } else {
      AlternateFamilies(lead[1..], other[1..], v6);
      FamilyAppend([lead[0], other[0]], Alternate(lead[1..], other[1..]), v6);
      FamilyAppend([lead[0], other[0]], Alternate(lead[1..], other[1..]), !v6);
      assert [lead[0], other[0]][1..] == [other[0]];
    }
  }

  lemma {:induction false} AlternateAt(lead: seq<Address>, other: seq<Address>, i: nat)
    requires i < |lead| && i < |other|
    ensures 2 * i + 1 < |Alternate(lead, other)|
    ensures Alternate(lead, other)[2 * i] == lead[i] && Alternate(lead, other)[2 * i + 1] == other[i]
    decreases i
  {
    if i > 0 {
      AlternateAt(lead[1..], other[1..], i - 1);
    }
  }

  lemma {:induction false} OrderFamilies(addresses: seq<Address>)
    requires addresses != []
    ensures var v6 := addresses[0].v6;
            Family(OrderOf(addresses), v6) == Family(addresses, v6) &&
                Family(OrderOf(addresses), !v6) == Family(addresses, !v6)
  {
    var v6 := addresses[0].v6;
    FamilyAll(addresses, v6);
    FamilyAll(addresses, !v6);
    AlternateFamilies(Family(addresses, v6), Family(addresses, !v6), v6);
  }

  /** The order is a permutation of the addresses, keeps the resolver's
      order within each family, and takes the families in turn from the
      first address's until one runs out. */
  lemma {:induction false} OrderAlternates(addresses: seq<Address>, i: nat)
    ensures multiset(OrderOf(addresses)) == multiset(addresses)
    ensures Family(OrderOf(addresses), true) == Family(addresses, true)
    ensures Family(OrderOf(addresses), false) == Family(addresses, false)
    ensures i < |Family(addresses, true)| && i < |Family(addresses, false)| ==>
              && 2 * i + 1 < |OrderOf(addresses)|
              && OrderOf(addresses)[2 * i].v6 == addresses[0].v6
              && OrderOf(addresses)[2 * i + 1].v6 != addresses[0].v6
  {
    hide Alternate, Family;
    FamilyAll(addresses, true);
    if addresses != [] {
      OrderFamilies(addresses);
      FamilyMultiset(addresses);
      FamilyMultiset(OrderOf(addresses));
      var v6 := addresses[0].v6;
      FamilyAll(addresses, v6);
      FamilyAll(addresses, !v6);
      if i < |Family(addresses, true)| && i < |Family(addresses, false)| {
        AlternateAt(Family(addresses, v6), Family(addresses, !v6), i);
      }
    }
  }

  // ----- the attempts ----------------------------------------------------

  /** When each attempt started, while it is alive. */
  type Slots = seq<Option<nat>>

  function Alive(slots: Slots): (n: nat)
    ensures n <= |slots|
  {
    if slots == [] then 0
    else Alive(slots[..|slots| - 1]) + if slots[|slots| - 1].Some? then 1 else 0
  }

  /** The starts of the attempts an answer can still come from, oldest
      first. */
  function Waiting(slots: Slots, now: nat): (w: seq<nat>)
    ensures |w| <= |slots|
  {
    if slots == [] then []
    else
      var last := slots[|slots| - 1];
      Waiting(slots[..|slots| - 1], now) + if last.Some? && now < last.value + STALL then [last.value] else []
  }

  /** When the next attempt may start, at `next` at the earliest. */
  function Opening(slots: Slots, now: nat, next: nat): Option<nat> {
    if Alive(slots) >= MOST then None
    else
      var waiting := Waiting(slots, now);
      if |waiting| < AT_ONCE then Some(next)
      else Some(Max(next, waiting[|waiting| - AT_ONCE] + STALL))
  }

  class Flights {
    var slots: Slots

    constructor ()
      ensures slots == []
    {
      slots := [];
    }

    method Start(at: nat) returns (id: nat)
      modifies this
      ensures slots == old(slots) + [Some(at)] && id == |old(slots)|
    {
      slots := slots + [Some(at)];
      id := |slots| - 1;
    }

    /** Whether the attempt that ended was the last one started. */
    method End(id: nat) returns (latest: bool)
      requires id < |slots|
      modifies this
      ensures slots == old(slots)[id := None]
      ensures latest == (id + 1 == |slots|)
    {
      slots := slots[id := None];
      latest := id + 1 == |slots|;
    }
  }

  ghost predicate InOrder(slots: Slots) {
    forall i, j :: 0 <= i < j < |slots| && slots[i].Some? && slots[j].Some? ==> slots[i].value <= slots[j].value
  }

  ghost predicate Ascending(s: seq<nat>) {
    forall i, j :: 0 <= i < j < |s| ==> s[i] <= s[j]
  }

  lemma {:induction false} WaitingInSlots(slots: Slots, now: nat)
    ensures forall w :: w in Waiting(slots, now) ==> Some(w) in slots
  {
    if slots != [] {
      WaitingInSlots(slots[..|slots| - 1], now);
    }
  }

  lemma {:induction false} WaitingInOrder(slots: Slots, now: nat)
    requires InOrder(slots)
    ensures Ascending(Waiting(slots, now))
  {
    if slots != [] {
      var front := slots[..|slots| - 1];
      var w := Waiting(front, now);
      WaitingInOrder(front, now);
      WaitingInSlots(front, now);
      forall i | 0 <= i < |w| && slots[|slots| - 1].Some? ensures w[i] <= slots[|slots| - 1].value {
        assert w[i] in w;
        var j :| 0 <= j < |front| && front[j] == Some(w[i]);
        assert slots[j] == front[j];
      }
    }
  }

  /** Of those waiting, the ones still waiting at `later`. */
  function Still(waiting: seq<nat>, later: nat): (s: seq<nat>)
    ensures |s| <= |waiting|
  {
    if waiting == [] then []
    else
      var last := waiting[|waiting| - 1];
      Still(waiting[..|waiting| - 1], later) + if later < last + STALL then [last] else []
  }

  lemma {:induction false} WaitingLater(slots: Slots, now: nat, later: nat)
    requires now <= later
    ensures Waiting(slots, later) == Still(Waiting(slots, now), later)
  {
    if slots != [] {
      var front := slots[..|slots| - 1];
      WaitingLater(front, now, later);
      var last := slots[|slots| - 1];
      if last.Some? && now < last.value + STALL {
        var waiting := Waiting(slots, now);
        assert waiting[..|waiting| - 1] == Waiting(front, now);
      } else {
        assert Waiting(slots, now) == Waiting(front, now);
        assert Waiting(slots, later) == Waiting(front, later);
      }
    }
  }

  /** In order of start, as many as `k` still wait when the `k`-th last
      does. */
  lemma {:induction false} StillAtLeast(waiting: seq<nat>, later: nat, k: nat)
    requires Ascending(waiting) && 0 < k <= |waiting|
    ensures |Still(waiting, later)| >= k <==> later < waiting[|waiting| - k] + STALL
  {
    var front := waiting[..|waiting| - 1];
    assert forall i :: 0 <= i < |front| ==> front[i] == waiting[i];
    if k > 1 {
      StillAtLeast(front, later, k - 1);
      assert waiting[|waiting| - k] <= waiting[|waiting| - 1];
    } else if later >= waiting[|waiting| - 1] + STALL {
      NoneStill(front, later, waiting[|waiting| - 1]);
    }
  }

  lemma {:induction false} NoneStill(waiting: seq<nat>, later: nat, latest: nat)
    requires forall i :: 0 <= i < |waiting| ==> waiting[i] <= latest
    requires latest + STALL <= later
    ensures Still(waiting, later) == []
  {
    if waiting != [] {
      NoneStill(waiting[..|waiting| - 1], later, latest);
    }
  }

  /** Whether an attempt may start at `at`: not before `next`, and a place
      free then, if no attempt ends before. */
  predicate MayStart(slots: Slots, next: nat, at: nat) {
    next <= at && |Waiting(slots, at)| < AT_ONCE
  }

  /** `opening` misses no wake-up: below the most attempts, what it answers
      is exactly the first time from now on at which an attempt may start if
      none ends meanwhile. */
  lemma {:induction false} OpeningIsFirst(slots: Slots, now: nat, next: nat, at: nat)
    requires InOrder(slots) && Alive(slots) < MOST && now <= at
    ensures MayStart(slots, next, at) <==> Opening(slots, now, next).value <= at
  {
    var waiting := Waiting(slots, now);
    WaitingLater(slots, now, at);
    WaitingInOrder(slots, now);
    if |waiting| >= AT_ONCE {
      StillAtLeast(waiting, at, AT_ONCE);
    }
  }
}
