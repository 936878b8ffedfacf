/** What the live watch asks of a wallet (src/live.rs, `Asked`), and how much
    of the wallet a sync then reads (src/manager/sync.rs, `Reach`, `plan_for`).
    A script is the hex text the watch hands over. */
module Asks {
  import opened Wrappers

  /** In the order the source derives. */
  datatype ChangeReason = NewBlock | Activity | Started | Reconnected

  function Rank(reason: ChangeReason): nat {
    match reason
    case NewBlock => 0
    case Activity => 1
    case Started => 2
    case Reconnected => 3
  }

  function Stronger(a: ChangeReason, b: ChangeReason): ChangeReason { if Rank(a) <= Rank(b) then b else a }

  datatype Proven = Proven(script: string, status: string)

  datatype Asked = Asked(reason: ChangeReason, scripts: Option<set<string>>, proven: seq<Proven>)

  datatype Reach = Scripts(scripts: set<string>) | Pending | Checked | Complete | Full

  function Named(scripts: seq<string>): set<string> { set i | 0 <= i < |scripts| :: scripts[i] }

  function ScriptsOf(proven: seq<Proven>): set<string> { set i | 0 <= i < |proven| :: proven[i].script }

  function Of(reason: ChangeReason, scripts: seq<string>): Asked {
    Asked(reason, if scripts == [] then None else Some(Named(scripts)), [])
  }

  function Confirmed(scripts: seq<string>, proven: seq<Proven>): Asked {
    if proven == [] then Of(Activity, scripts) else Asked(Activity, Some(ScriptsOf(proven)), proven)
  }

  /** What the watch says that asks for a sync. */
  datatype Event =
    | WalletChanged(reason: ChangeReason, scripts: seq<string>)
    | WatchConfirmed(scripts: seq<string>, proven: seq<Proven>)

  function AskedBy(event: Event): Asked {
    match event
    case WalletChanged(reason, scripts) => Of(reason, scripts)
    case WatchConfirmed(scripts, proven) => Confirmed(scripts, proven)
  }

  function And(a: Asked, b: Asked): Asked {
    Asked(
      Stronger(a.reason, b.reason),
      if a.scripts.Some? && b.scripts.Some? then Some(a.scripts.value + b.scripts.value) else None,
      if a.proven == [] || b.proven == [] then [] else a.proven + b.proven)
  }

  /** Of two reasons the one that reads more is kept. */
  lemma {:induction false} ReasonMerged(a: Asked, b: Asked)
    ensures var reasons, merged := {a.reason, b.reason}, And(a, b).reason;
            && merged in reasons
            && (merged == Reconnected <==> Reconnected in reasons)
            && (merged == Started <==> Started in reasons && Reconnected !in reasons)
            && (merged == NewBlock <==> reasons == {NewBlock})
  {
    assert And(a, b).reason == NewBlock ==> a.reason == b.reason == NewBlock;
  }

  /** What an event asks: its scripts, or the whole wallet if it names none; and
      the proofs it brings as they are, for the scripts they prove. */
  lemma {:induction false} EventAsks(event: Event, script: string)
    ensures var asked := AskedBy(event);
            match event
            case WalletChanged(reason, scripts) =>
              && asked.reason == reason && asked.proven == [] && (asked.scripts.None? <==> scripts == [])
              && (asked.scripts.Some? ==> (script in asked.scripts.value <==> script in scripts))
            case WatchConfirmed(scripts, proven) =>
              && asked.reason == Activity && asked.proven == proven
              && (asked.scripts.None? <==> proven == [] && scripts == [])
              && (asked.scripts.Some? ==>
                    (script in asked.scripts.value <==>
                     if proven == [] then script in scripts
                     else exists i :: 0 <= i < |proven| && proven[i].script == script))
  {
  }

  function ReachOf(asked: Asked): Reach {
    if asked.scripts.Some? then Scripts(asked.scripts.value)
    else
      match asked.reason
      case NewBlock => Pending
      case Activity => Checked
      case _ => Complete
  }

  // ----- what a sync reads ------------------------------------------------

  /** The scripts of a wallet: those its index knows, by looking ahead too;
      those revealed; what the walk of the receive addresses past them reads,
      and what a full scan does, each as far as its gap takes it; and those that
      wait for a block. */
  datatype Index = Index(known: set<string>, revealed: set<string>, ahead: set<string>, scanned: set<string>,
                         pending: set<string>)

  /** A transaction held reveals the scripts it touches, and what is revealed is
      known. */
  ghost predicate Sound(index: Index) { index.pending <= index.revealed <= index.known }

  /** The reach a sync comes to: a script the wallet does not know is only found
      by a full scan, and a wallet waiting on no block has nothing pending. */
  function Planned(reach: Reach, index: Index): Reach {
    match reach
    case Scripts(scripts) => if scripts <= index.known then reach else Full
    case Pending => if index.pending == {} then Checked else Scripts(index.pending)
    case _ => reach
  }

  function Plan(asked: Asked, index: Index): (plan: Reach)
    ensures !plan.Pending?
  {
    Planned(ReachOf(asked), index)
  }

  /** The scripts read: those named; those revealed and the receive addresses
      past them; or what a full scan comes to. */
  function ReadBy(plan: Reach, index: Index): set<string>
    requires !plan.Pending?
  {
    match plan
    case Scripts(scripts) => scripts
    case Full => index.scanned
    case _ => index.revealed + index.ahead
  }

  /** Whether each is read closely, its unconfirmed transactions listed whatever
      its counters say; an Esplora server tells the difference. */
  predicate Closely(plan: Reach) { !plan.Checked? }

  // ----- what a sync that stands in for several asks misses ---------------

  /** What an ask merged from others keeps of each: the strongest reason, and
      the scripts named, or the whole wallet. */
  predicate Includes(merged: Asked, ask: Asked) {
    && Rank(ask.reason) <= Rank(merged.reason)
    && (merged.scripts.Some? ==> ask.scripts.Some? && ask.scripts.value <= merged.scripts.value)
  }

  lemma {:induction false} AndIncludes(a: Asked, b: Asked)
    ensures Includes(And(a, b), a) && Includes(And(a, b), b)
  {
  }

  lemma {:induction false} IncludesChain(a: Asked, b: Asked, c: Asked)
    requires Includes(a, b) && Includes(b, c)
    ensures Includes(a, c)
  {
  }

  /** Whether the sync of one ask reads every script that of another would. */
  predicate StandsFor(one: Asked, other: Asked, index: Index) {
    ReadBy(Plan(other, index), index) <= ReadBy(Plan(one, index), index)
  }

  /** What a sync that names no script reads. */
  function Whole(reason: ChangeReason, index: Index): set<string> {
    if reason == NewBlock && index.pending != {} then index.pending else index.revealed + index.ahead
  }

  /** What a sync that names these reads. */
  function OfNamed(scripts: set<string>, index: Index): set<string> {
    if scripts <= index.known then scripts else index.scanned
  }

  /** Where a merged sync leaves out what one of its asks names: it names none,
      and does not come to what the ask's own would; or it names one the wallet
      does not know, and its full scan does not come to those it does. */
  predicate Misses(merged: Asked, ask: Asked, index: Index) {
    && ask.scripts.Some?
    && if merged.scripts.None? then !(OfNamed(ask.scripts.value, index) <= Whole(merged.reason, index))
       else !(merged.scripts.value <= index.known) && ask.scripts.value <= index.known
            && !(ask.scripts.value <= index.scanned)
  }

  /** A merged ask stands for one of those merged into it, however many there
      were, exactly unless it misses what that one names. */
  lemma {:induction false} IncludedStandsFor(merged: Asked, ask: Asked, index: Index)
    requires Sound(index) && Includes(merged, ask)
    ensures StandsFor(merged, ask, index) <==> !Misses(merged, ask, index)
  {
  }

  /** Of the scripts an ask names themselves, a merged sync reads every one
      exactly if they are among what a sync of the whole wallet, or at a block
      of what waits, reads; or, naming scripts, it needs no full scan, or its
      full scan comes to them. */
  lemma {:induction false} IncludedNamesRead(merged: Asked, ask: Asked, index: Index)
    requires Sound(index) && Includes(merged, ask) && ask.scripts.Some?
    ensures var named := ask.scripts.value;
            named <= ReadBy(Plan(merged, index), index) <==>
              if merged.scripts.None? then named <= Whole(merged.reason, index)
              else merged.scripts.value <= index.known || named <= index.scanned
  {
  }

  /** And it reads them less closely than the ask's own sync exactly if it only
      checks the whole wallet, where the ask names scripts, or those that wait
      for a block. */
  lemma {:induction false} IncludedReadsClosely(merged: Asked, ask: Asked, index: Index)
    requires Includes(merged, ask)
    ensures (Closely(Plan(ask, index)) ==> Closely(Plan(merged, index))) <==>
            !(&& merged.scripts.None?
              && (merged.reason == Activity || (merged.reason == NewBlock && index.pending == {}))
              && (ask.scripts.Some? || (ask.reason == NewBlock && index.pending != {})))
  {
  }

  /** `b` names scripts that a sync merged with `a` leaves out. */
  predicate MergeMisses(a: Asked, b: Asked, index: Index) {
    && b.scripts.Some?
    && if a.scripts.None? then !(OfNamed(b.scripts.value, index) <= Whole(Stronger(a.reason, b.reason), index))
       else !(a.scripts.value <= index.known) && b.scripts.value <= index.known && !(b.scripts.value <= index.scanned)
  }

  /** When one sync stands in for two asks. */
  lemma {:induction false} AndCovers(a: Asked, b: Asked, index: Index)
    requires Sound(index)
    ensures StandsFor(And(a, b), a, index) && StandsFor(And(a, b), b, index)
            <==> !MergeMisses(a, b, index) && !MergeMisses(b, a, index)
  {
    AndIncludes(a, b);
    IncludedStandsFor(And(a, b), a, index);
    IncludedStandsFor(And(a, b), b, index);
  }

  /** The sync of `one` reads the script, and merged with `other` it does not. */
  ghost predicate Loses(one: Asked, other: Asked, script: string, index: Index) {
    && Sound(index) && one.scripts == Some({script})
    && script in ReadBy(Plan(one, index), index) && script !in ReadBy(Plan(And(one, other), index), index)
  }

  lemma {:induction false} NamedOne(script: string)
    ensures Named([script]) == {script}
  {
    assert [script][0] == script;
  }

  /** Four asks lost: the second look at a payment seen to vanish, queued beside
      a block another payment waits for; a change script known by looking ahead
      and not revealed, pushed beside a whole-wallet sync; a script only a full
      scan comes to, beside the same; and one the wallet knows past where a full
      scan stops, named beside one it does not. */
  lemma {:induction false} AndMisses(script: string, other: string)
    requires script != other
    ensures Loses(Of(NewBlock, [script]), Of(NewBlock, []), script,
                  Index({script, other}, {script, other}, {}, {script, other}, {other}))
    ensures Loses(Of(Activity, [script]), Of(Started, []), script,
                  Index({script, other}, {other}, {}, {script, other}, {}))
    ensures Loses(Of(Activity, [script]), Of(Started, []), script, Index({other}, {other}, {}, {script, other}, {}))
    ensures Loses(Of(Activity, [script]), Of(Activity, [other]), script, Index({script}, {script}, {}, {other}, {}))
  {
    NamedOne(script);
    NamedOne(other);
    assert other in {script} + {other};
  }

  /** Confirmations stand for the scripts a sync would read without them. */
  predicate StandIn(asked: Asked) {
    asked.proven != [] ==> asked.reason == Activity && asked.scripts == Some(ScriptsOf(asked.proven))
  }

  lemma {:induction false} ScriptsOfBoth(a: seq<Proven>, b: seq<Proven>)
    ensures ScriptsOf(a + b) == ScriptsOf(a) + ScriptsOf(b)
  {
    forall script ensures script in ScriptsOf(a + b) <==> script in ScriptsOf(a) + ScriptsOf(b) {
      if script in ScriptsOf(a) {
        var i :| 0 <= i < |a| && a[i].script == script;
        assert (a + b)[i].script == script;
      } else if script in ScriptsOf(b) {
        var i :| 0 <= i < |b| && b[i].script == script;
        assert (a + b)[|a| + i].script == script;
      }
    }
  }

  lemma {:induction false} AskedStandsIn(event: Event)
    ensures StandIn(AskedBy(event))
  {
  }

  /** Proofs are kept only with nothing else asked, and otherwise what they stand
      for is named to the sync that stands in, or that is of the whole wallet. */
  lemma {:induction false} AndStandsIn(a: Asked, b: Asked)
    requires StandIn(a) && StandIn(b)
    ensures StandIn(And(a, b))
    ensures And(a, b).proven != [] <==> a.proven != [] && b.proven != []
    ensures And(a, b).proven == [] && a.proven != [] ==>
              ReachOf(And(a, b)) in {Checked, Complete} ||
              (ReachOf(And(a, b)).Scripts? && ScriptsOf(a.proven) <= ReachOf(And(a, b)).scripts)
  {
    ScriptsOfBoth(a.proven, b.proven);
  }
}
