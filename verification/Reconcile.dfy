/** The reconciler: one pass drives every gauge of an organisation to the authoritative
    count.  The pass runs while nothing else touches the organisation's gauges. */
module Reconcile {
  import opened CounterStore
  import opened Listing
  import opened Activations
  import opened ActivationProtocol
  import opened EngineAcquire

  const LIST_LIMIT := 100000

  /** The truth provider: not wired, failing, or its counts (a missing key is unknown). */
  datatype Provider = LedgerOnly | Silent | Observes(counts: map<string, int>)

  datatype Alert = Alert(rk: string, source: string, was: real, target: real, unsettleable: int)

  datatype Refusal = NonDurable | NoGuard

  // ----- counting the open rows -----

  function Tally(counts: map<string, nat>, rk: string): nat {
    if rk in counts then counts[rk] else 0
  }

  /** How many of the first n listed rows spend this resource. */
  function CountIn(rows: map<string, Row>, listed: seq<string>, n: nat, rk: string): nat
    requires n <= |listed|
  {
    if n == 0 then 0
    else CountIn(rows, listed, n - 1, rk) + (if listed[n - 1] in rows && rk in rows[listed[n - 1]].spend then 1 else 0)
  }

  /** The same rows, summing what they spend. */
  function SumIn(rows: map<string, Row>, listed: seq<string>, n: nat, rk: string): real
    requires n <= |listed|
  {
    if n == 0 then 0.0
    else
      var id := listed[n - 1];
      SumIn(rows, listed, n - 1, rk) + (if id in rows && rk in rows[id].spend then rows[id].spend[rk] else 0.0)
  }

  /** Open rows of the organisation that spend the resource. */
  function Holding(rows: map<string, Row>, org: string, rk: string): set<string> {
    set id | id in rows && rows[id].org == org && rows[id].state == State.Open && rk in rows[id].spend
  }

  method AddRow(counts: map<string, nat>, spent: set<string>) returns (r: map<string, nat>)
    ensures forall rk :: Tally(r, rk) == Tally(counts, rk) + (if rk in spent then 1 else 0)
  {
    r := counts;
    var todo := spent;
    while todo != {}
      invariant todo <= spent
      invariant forall rk :: Tally(r, rk) == Tally(counts, rk) + (if rk in spent && rk !in todo then 1 else 0)
    {
      var rk :| rk in todo;
      r := r[rk := Tally(r, rk) + 1];
      todo := todo - {rk};
    }
  }

  method CountOpen(rows: map<string, Row>, listed: seq<string>) returns (counts: map<string, nat>)
    requires forall i :: 0 <= i < |listed| ==> listed[i] in rows
    ensures forall rk :: Tally(counts, rk) == CountIn(rows, listed, |listed|, rk)
  {
    counts := map[];
    for i := 0 to |listed|
      invariant forall rk :: Tally(counts, rk) == CountIn(rows, listed, i, rk)
    {
      counts := AddRow(counts, rows[listed[i]].spend.Keys);
    }
  }

  /** Those rows themselves. */
  function Spenders(rows: map<string, Row>, listed: seq<string>, n: nat, rk: string): set<string>
    requires n <= |listed|
  {
    if n == 0 then {}
    else
      Spenders(rows, listed, n - 1, rk)
      + (if listed[n - 1] in rows && rk in rows[listed[n - 1]].spend then {listed[n - 1]} else {})
  }

  lemma {:induction false} SpendersAre(rows: map<string, Row>, listed: seq<string>, n: nat, rk: string, id: string)
    requires n <= |listed|
    ensures id in Spenders(rows, listed, n, rk) <==> id in listed[..n] && id in rows && rk in rows[id].spend
  {
    if n > 0 {
      SpendersAre(rows, listed, n - 1, rk, id);
      assert listed[..n] == listed[..n - 1] + [listed[n - 1]];
    }
  }

  /** Counting a duplicate-free list is counting the set of its rows that spend. */
  lemma {:induction false} CountIsSet(rows: map<string, Row>, listed: seq<string>, n: nat, rk: string)
    requires n <= |listed| && forall i, j :: 0 <= i < j < |listed| ==> listed[i] != listed[j]
    ensures CountIn(rows, listed, n, rk) == |Spenders(rows, listed, n, rk)|
  {
    if n > 0 {
      CountIsSet(rows, listed, n - 1, rk);
      LastIsNew(listed, n);
      SpendersGrow(rows, listed, n, rk);
    }
  }

  lemma SpendersGrow(rows: map<string, Row>, listed: seq<string>, n: nat, rk: string)
    requires 0 < n <= |listed| && listed[n - 1] !in listed[..n - 1]
    ensures |Spenders(rows, listed, n, rk)|
         == |Spenders(rows, listed, n - 1, rk)|
            + (if listed[n - 1] in rows && rk in rows[listed[n - 1]].spend then 1 else 0)
  {
    SpendersAre(rows, listed, n - 1, rk, listed[n - 1]);
  }

  lemma LastIsNew(listed: seq<string>, n: nat)
    requires 0 < n <= |listed| && forall i, j :: 0 <= i < j < |listed| ==> listed[i] != listed[j]
    ensures listed[n - 1] !in listed[..n - 1]
  {
  }

  /** The listed count never exceeds the truth, and is the truth exactly when every open
      row that spends the resource was listed. */
  lemma ListedCountVsTruth(rows: map<string, Row>, org: string, listed: seq<string>, rk: string)
    requires Lists(rows, OpenFor(org), Age(), listed)
    ensures CountIn(rows, listed, |listed|, rk) <= |Holding(rows, org, rk)|
    ensures CountIn(rows, listed, |listed|, rk) == |Holding(rows, org, rk)| <==>
            forall id :: id in Holding(rows, org, rk) ==> id in listed
  {
    CountIsSet(rows, listed, |listed|, rk);
    ListedPart(rows, org, listed, rk);
    SubsetCounts(Spenders(rows, listed, |listed|, rk), Holding(rows, org, rk));
  }

  lemma ListedPart(rows: map<string, Row>, org: string, listed: seq<string>, rk: string)
    requires Lists(rows, OpenFor(org), Age(), listed)
    ensures var a, h := Spenders(rows, listed, |listed|, rk), Holding(rows, org, rk);
            a <= h && (a == h <==> forall id :: id in h ==> id in listed)
  {
    var a, h := Spenders(rows, listed, |listed|, rk), Holding(rows, org, rk);
    assert listed[..|listed|] == listed;
    forall id ensures id in a <==> id in listed && id in h {
      SpendersAre(rows, listed, |listed|, rk, id);
    }
    hide Spenders, Holding;
    if forall id :: id in h ==> id in listed {
      assert a == h;
    }
  }

  lemma SubsetCounts(a: set<string>, h: set<string>)
    requires a <= h
    ensures |a| <= |h| && (|a| == |h| <==> a == h)
  {
    assert h == a + (h - a);
    if |a| == |h| {
      assert h - a == {};
    }
  }

  /** A listing that leaves out an open row of the resource undercounts it. */
  lemma CutListingUndercounts(rows: map<string, Row>, org: string, listed: seq<string>, rk: string, id: string)
    requires Lists(rows, OpenFor(org), Age(), listed) && id in Holding(rows, org, rk) && id !in listed
    ensures CountIn(rows, listed, |listed|, rk) < |Holding(rows, org, rk)|
  {
    ListedCountVsTruth(rows, org, listed, rk);
  }

  function Name(i: nat): string {
    seq(i, _ => 'a')
  }

  /** n + 1 open rows of one organisation, all spending one resource. */
  function Crowd(n: nat): map<string, Row> {
    map i | 0 <= i <= n :: Name(i) := Row("o", None, "", None, 0, Open, map["r" := 1.0], None, None)
  }

  function FirstNames(n: nat): seq<string> {
    seq(n, i requires 0 <= i < n => Name(i))
  }

  lemma CrowdLists(n: nat)
    ensures Lists(Crowd(n), OpenFor("o"), Age(), FirstNames(n))
    ensures Name(n) in Holding(Crowd(n), "o", "r") && Name(n) !in FirstNames(n)
  {
    forall i, j: nat ensures Name(i) == Name(j) <==> i == j {
      assert |Name(i)| == i && |Name(j)| == j;
    }
    forall i | 0 <= i <= n ensures Name(i) in Chosen(Crowd(n), OpenFor("o")) {
    }
  }

  /** Beyond the listing limit it happens: a ledger of 100001 open rows, of which the
      listing returns 100000, and the pass counts too few. */
  lemma LimitUndercounts()
    ensures var rows, listed := Crowd(LIST_LIMIT), FirstNames(LIST_LIMIT);
            && Lists(rows, OpenFor("o"), Age(), listed) && |listed| == LIST_LIMIT
            && CountIn(rows, listed, |listed|, "r") < |Holding(rows, "o", "r")|
  {
    CrowdLists(LIST_LIMIT);
    CutListingUndercounts(Crowd(LIST_LIMIT), "o", FirstNames(LIST_LIMIT), "r", Name(LIST_LIMIT));
  }

  /** Acquire always spends 1, so counting rows is summing their spend. */
  lemma {:induction false} CountingIsSumming(rows: map<string, Row>, listed: seq<string>, n: nat, rk: string)
    requires n <= |listed| && forall id :: id in rows ==> WfRow(rows[id])
    ensures SumIn(rows, listed, n, rk) == CountIn(rows, listed, n, rk) as real
  {
    if n > 0 {
      CountingIsSumming(rows, listed, n - 1, rk);
    }
  }

  // ----- one pass -----

  /** What a gauge reads: the authoritative shape, the other when that is absent, else 0. */
  function Reading(s: Store<Shaped>, k: DualPair<Shaped>): real {
    if k.p in s.floats then s.floats[k.p]
    else if k.s.Some? && k.s.value in s.floats then s.floats[k.s.value]
    else 0.0
  }

  /** It is the read with fallback of the store, on what has not expired. */
  lemma ReadingIsTheDualGet(s: Store<Shaped>, now: int, k: DualPair<Shaped>)
    requires Swept(s, now) == s
    ensures Reading(s, k) == match GetDual(s, now, k).1 case Some(v) => v case None => 0.0
  {
  }

  function SetBoth(s: Store<Shaped>, k: DualPair<Shaped>, v: real): Store<Shaped> {
    var s1 := Put(s, k.p, v);
    if k.s.Some? then Put(s1, k.s.value, v) else s1
  }

  function OrgPair(org: string, rk: string, dual: bool): DualPair<Shaped> {
    PairOf(Key.Org(org, rk), dual)
  }

  /** The level a gauge should have, if it can be told. */
  function Target(provider: Provider, rk: string, open: nat): Option<int> {
    match provider
    case LedgerOnly => Some(open)
    case Silent => None
    case Observes(counts) => if rk in counts then Some(counts[rk]) else None
  }

  function Unsettleable(provider: Provider, rk: string, open: nat): nat {
    if provider.Observes? && rk in provider.counts && provider.counts[rk] > open then provider.counts[rk] - open else 0
  }

  /** One gauge: skipped while unknown, left alone when it already reads the target and
      nothing is unsettleable, else force-set in both shapes; alerted unless clean. */
  function Heal(s: Store<Shaped>, org: string, rk: string, provider: Provider, open: nat,
                dual: bool): (Store<Shaped>, seq<Alert>) {
    var k := OrgPair(org, rk, dual);
    if provider.Silent? then (s, [Alert(rk, "provider_unreachable", 0.0, 0.0, 0)])
    else if provider.Observes? && rk !in provider.counts then (s, [Alert(rk, "provider_absent", 0.0, 0.0, 0)])
    else
      var t := Target(provider, rk, open).value;
      var extra := Unsettleable(provider, rk, open);
      if Reading(s, k) == t as real && extra == 0 then (s, [])
      else
        (SetBoth(s, k, t as real),
         [Alert(rk, if t == open then "activations" else "provider", Reading(s, k), t as real, extra)])
  }

  /** The pass over the first n resources; the flag says which are gauges. */
  function Pass(s: Store<Shaped>, org: string, resources: seq<(string, bool)>, n: nat, touched: string -> bool,
                provider: Provider, counts: map<string, nat>, dual: bool): (Store<Shaped>, seq<Alert>)
    requires n <= |resources|
  {
    if n == 0 then (s, [])
    else
      var (s1, alerts) := Pass(s, org, resources, n - 1, touched, provider, counts, dual);
      var (rk, gauge) := resources[n - 1];
      if !gauge || touched(rk) then (s1, alerts)
      else
        var (s2, more) := Heal(s1, org, rk, provider, Tally(counts, rk), dual);
        (s2, alerts + more)
  }

  /** The gauges the first n resources cover. */
  predicate Due(resources: seq<(string, bool)>, n: nat, rk: string, touched: string -> bool)
    requires n <= |resources|
  {
    !touched(rk) && exists i :: 0 <= i < n && resources[i] == (rk, true)
  }

  predicate Distinct(resources: seq<(string, bool)>) {
    forall i, j :: 0 <= i < j < |resources| ==> resources[i].0 != resources[j].0
  }

  lemma HealFrame(s: Store<Shaped>, org: string, rk: string, provider: Provider, open: nat, dual: bool, x: Shaped)
    requires x.k != Key.Org(org, rk)
    ensures View(Heal(s, org, rk, provider, open, dual).0, x) == View(s, x)
  {
  }

  /** Nothing but the gauges due changes: no user gauge, accumulator, rate or latch, and no
      other organisation. */
  lemma {:induction false} PassFrame(s: Store<Shaped>, org: string, resources: seq<(string, bool)>, n: nat,
                                     touched: string -> bool, provider: Provider, counts: map<string, nat>,
                                     dual: bool, x: Shaped)
    requires n <= |resources|
    requires x.k.Org? && x.k.org == org ==> !Due(resources, n, x.k.rk, touched)
    ensures View(Pass(s, org, resources, n, touched, provider, counts, dual).0, x) == View(s, x)
  {
    if n > 0 {
      PassFrame(s, org, resources, n - 1, touched, provider, counts, dual, x);
      var s1 := Pass(s, org, resources, n - 1, touched, provider, counts, dual).0;
      if resources[n - 1].1 && !touched(resources[n - 1].0) {
        HealFrame(s1, org, resources[n - 1].0, provider, Tally(counts, resources[n - 1].0), dual, x);
      }
    }
  }

  lemma ReadingFromViews(s: Store<Shaped>, s': Store<Shaped>, org: string, rk: string, dual: bool)
    requires View(s, Primary(Key.Org(org, rk))) == View(s', Primary(Key.Org(org, rk)))
    requires View(s, Secondary(Key.Org(org, rk))) == View(s', Secondary(Key.Org(org, rk)))
    ensures Reading(s, OrgPair(org, rk, dual)) == Reading(s', OrgPair(org, rk, dual))
  {
  }

  lemma NotDueReads(s: Store<Shaped>, org: string, resources: seq<(string, bool)>, n: nat,
                    touched: string -> bool, provider: Provider, counts: map<string, nat>, dual: bool, rk: string)
    requires n <= |resources| && !Due(resources, n, rk, touched)
    ensures Reading(Pass(s, org, resources, n, touched, provider, counts, dual).0, OrgPair(org, rk, dual))
         == Reading(s, OrgPair(org, rk, dual))
  {
    PassFrame(s, org, resources, n, touched, provider, counts, dual, Primary(Key.Org(org, rk)));
    PassFrame(s, org, resources, n, touched, provider, counts, dual, Secondary(Key.Org(org, rk)));
    ReadingFromViews(s, Pass(s, org, resources, n, touched, provider, counts, dual).0, org, rk, dual);
  }

  /** The other shape ends at the ledger's count exactly when the authoritative one had
      drifted, or it was there already: a drifted twin of a correct gauge is not seen. */
  lemma OtherShapeHealed(s: Store<Shaped>, org: string, rk: string, open: nat)
    ensures var k, s' := OrgPair(org, rk, true), Heal(s, org, rk, LedgerOnly, open, true).0;
            Level(s', k.s.value) == open as real <==>
                Reading(s, k) != open as real || Level(s, k.s.value) == open as real
  {
  }

  /** What one gauge reads after a visit: the ledger's count with no provider wired, what
      the provider counted if it named the gauge, and otherwise what it read. */
  predicate Reads(now: real, was: real, provider: Provider, rk: string, open: nat) {
    && (provider.LedgerOnly? ==> now == open as real)
    && (provider.Observes? && rk in provider.counts ==> now == provider.counts[rk] as real)
    && (provider.Observes? && rk !in provider.counts ==> now == was)
    && (provider.Silent? ==> now == was)
  }

  /** The one alert about a gauge, if there is one: that nothing is known; or where it
      stood, what it was set to and who said so, and how many the provider sees that the
      ledger has no row for. */
  predicate Raised(x: Alert, was: real, provider: Provider, open: nat) {
    if provider.Silent? then x == Alert(x.rk, "provider_unreachable", 0.0, 0.0, 0)
    else if provider.Observes? && x.rk !in provider.counts then x == Alert(x.rk, "provider_absent", 0.0, 0.0, 0)
    else if provider.LedgerOnly? || provider.counts[x.rk] == open
    then was != open as real && x == Alert(x.rk, "activations", was, open as real, 0)
    else
      var n := provider.counts[x.rk];
      && (was != n as real || n > open)
      && x == Alert(x.rk, "provider", was, n as real, if n > open then n - open else 0)
  }

  lemma HealMeans(s: Store<Shaped>, org: string, rk: string, provider: Provider, open: nat, dual: bool, x: Alert)
    ensures var (s', alerts) := Heal(s, org, rk, provider, open, dual);
            && Reads(Reading(s', OrgPair(org, rk, dual)), Reading(s, OrgPair(org, rk, dual)), provider, rk, open)
            && (x in alerts <==> x.rk == rk && Raised(x, Reading(s, OrgPair(org, rk, dual)), provider, open))
  {
    assert dual ==> OrgPair(org, rk, dual).p != OrgPair(org, rk, dual).s.value;
  }

  /** What a pass says: about each gauge due, exactly the alert its level before the pass
      calls for, and nothing else. */
  lemma {:induction false} PassAlerts(s: Store<Shaped>, org: string, resources: seq<(string, bool)>, n: nat,
                                      touched: string -> bool, provider: Provider, counts: map<string, nat>,
                                      dual: bool, x: Alert)
    requires n <= |resources| && Distinct(resources)
    ensures x in Pass(s, org, resources, n, touched, provider, counts, dual).1 <==>
              && Due(resources, n, x.rk, touched)
              && Raised(x, Reading(s, OrgPair(org, x.rk, dual)), provider, Tally(counts, x.rk))
  {
    if n > 0 {
      PassAlerts(s, org, resources, n - 1, touched, provider, counts, dual, x);
      var s1 := Pass(s, org, resources, n - 1, touched, provider, counts, dual).0;
      var (last, gauge) := resources[n - 1];
      DueLast(resources, n, x.rk, touched);
      if gauge && !touched(last) {
        HealMeans(s1, org, last, provider, Tally(counts, last), dual, x);
        NotDueReads(s, org, resources, n - 1, touched, provider, counts, dual, last);
      }
    }
  }

  lemma DueLast(resources: seq<(string, bool)>, n: nat, rk: string, touched: string -> bool)
    requires 0 < n <= |resources| && Distinct(resources)
    ensures Due(resources, n, rk, touched) <==>
              Due(resources, n - 1, rk, touched) || (!touched(rk) && resources[n - 1] == (rk, true))
    ensures !Due(resources, n - 1, resources[n - 1].0, touched)
  {
    if resources[n - 1] == (rk, true) && !touched(rk) {
      assert Due(resources, n, rk, touched);
    }
  }

  /** Every gauge due whose truth can be told reads that truth afterwards, and one whose
      truth cannot be told what it read before. */
  lemma {:induction false} PassReads(s: Store<Shaped>, org: string, resources: seq<(string, bool)>, n: nat,
                                     touched: string -> bool, provider: Provider, counts: map<string, nat>,
                                     dual: bool, rk: string)
    requires n <= |resources| && Distinct(resources) && Due(resources, n, rk, touched)
    ensures Reads(Reading(Pass(s, org, resources, n, touched, provider, counts, dual).0, OrgPair(org, rk, dual)),
                  Reading(s, OrgPair(org, rk, dual)), provider, rk, Tally(counts, rk))
  {
    var s1 := Pass(s, org, resources, n - 1, touched, provider, counts, dual).0;
    var (last, gauge) := resources[n - 1];
    if last == rk {
      DueLast(resources, n, rk, touched);
      NotDueReads(s, org, resources, n - 1, touched, provider, counts, dual, rk);
      HealMeans(s1, org, rk, provider, Tally(counts, rk), dual, Alert(rk, "", 0.0, 0.0, 0));
    } else {
      PassReads(s, org, resources, n - 1, touched, provider, counts, dual, rk);
      if gauge && !touched(last) {
        HealFrame(s1, org, last, provider, Tally(counts, last), dual, Primary(Key.Org(org, rk)));
        HealFrame(s1, org, last, provider, Tally(counts, last), dual, Secondary(Key.Org(org, rk)));
        ReadingFromViews(s1, Heal(s1, org, last, provider, Tally(counts, last), dual).0, org, rk, dual);
      }
    }
  }

  /** A pass that finds every gauge due at the ledger's count raises no alert and changes
      nothing; a pass that raises none found them all there. */
  lemma {:induction false} CleanPass(s: Store<Shaped>, org: string, resources: seq<(string, bool)>, n: nat,
                                     touched: string -> bool, counts: map<string, nat>, dual: bool)
    requires n <= |resources| && Distinct(resources)
    ensures var (s', alerts) := Pass(s, org, resources, n, touched, LedgerOnly, counts, dual);
            && (alerts == [] <==> forall rk :: Due(resources, n, rk, touched) ==>
               Reading(s, OrgPair(org, rk, dual)) == Tally(counts, rk) as real)
            && (alerts == [] ==> s' == s)
  {
    if n > 0 {
      CleanPass(s, org, resources, n - 1, touched, counts, dual);
      var (s1, before) := Pass(s, org, resources, n - 1, touched, LedgerOnly, counts, dual);
      var (last, gauge) := resources[n - 1];
      NotDueReads(s, org, resources, n - 1, touched, LedgerOnly, counts, dual, last);
      assert forall rk :: Due(resources, n - 1, rk, touched) ==> Due(resources, n, rk, touched);
      assert forall rk :: Due(resources, n, rk, touched) && rk != last ==> Due(resources, n - 1, rk, touched);
      if gauge && !touched(last) {
        assert Due(resources, n, last, touched);
      }
    }
  }

  // ----- the promises -----

  /** From any drift, one ledger-only pass over a complete listing makes every gauge due
      read the number of open rows that spend it, and the next pass is silent. */
  lemma PassRestoresTruth(s: Store<Shaped>, rows: map<string, Row>, org: string, listed: seq<string>,
                          resources: seq<(string, bool)>, touched: string -> bool, counts: map<string, nat>, dual: bool)
    requires Distinct(resources) && Lists(rows, OpenFor(org), Age(), listed)
    requires forall id :: id in Chosen(rows, OpenFor(org)) ==> id in listed
    requires forall rk :: Tally(counts, rk) == CountIn(rows, listed, |listed|, rk)
    ensures var s' := Pass(s, org, resources, |resources|, touched, LedgerOnly, counts, dual).0;
            && (forall rk :: Due(resources, |resources|, rk, touched) ==>
                  Reading(s', OrgPair(org, rk, dual)) == |Holding(rows, org, rk)| as real)
            && Pass(s', org, resources, |resources|, touched, LedgerOnly, counts, dual) == (s', [])
  {
    var s' := Pass(s, org, resources, |resources|, touched, LedgerOnly, counts, dual).0;
    forall rk | Due(resources, |resources|, rk, touched)
      ensures Reading(s', OrgPair(org, rk, dual)) == |Holding(rows, org, rk)| as real == Tally(counts, rk) as real
    {
      PassReads(s, org, resources, |resources|, touched, LedgerOnly, counts, dual, rk);
      ListedCountVsTruth(rows, org, listed, rk);
    }
    CleanPass(s', org, resources, |resources|, touched, counts, dual);
  }

  /** An unreachable provider changes nothing, whatever the ledger says. */
  lemma {:induction false} UnreachableChangesNothing(s: Store<Shaped>, org: string, resources: seq<(string, bool)>,
                                                     n: nat,
                                                     touched: string -> bool, counts: map<string, nat>, dual: bool)
    requires n <= |resources|
    ensures Pass(s, org, resources, n, touched, Silent, counts, dual).0 == s
  {
    if n > 0 {
      UnreachableChangesNothing(s, org, resources, n - 1, touched, counts, dual);
    }
  }

  class Reconciler {
    var store: Store<Shaped>
    const rows: map<string, Row>

    constructor (s: Store<Shaped>, r: map<string, Row>)
      ensures store == s && rows == r
    {
      store, rows := s, r;
    }

    method HealGauge(org: string, rk: string, provider: Provider, open: nat, dual: bool) returns (alerts: seq<Alert>)
      modifies this`store
      ensures (store, alerts) == Heal(old(store), org, rk, provider, open, dual)
    {
      var k := OrgPair(org, rk, dual);
      if provider.Silent? {
        return [Alert(rk, "provider_unreachable", 0.0, 0.0, 0)];
      }
      var target, source, unsettleable := open as int, "activations", 0;
      if provider.Observes? {
        if rk !in provider.counts {
          return [Alert(rk, "provider_absent", 0.0, 0.0, 0)];
        }
        var obs := provider.counts[rk];
        if obs != open {
          target, source := obs, "provider";
          if obs > open {
            unsettleable := obs - open;
          }
        }
      }
      var cur := Reading(store, k);
      if cur == target as real && unsettleable == 0 {
        return [];
      }
      store := Put(store, k.p, target as real);
      if k.s.Some? {
        store := Put(store, k.s.value, target as real);
      }
      alerts := [Alert(rk, source, cur, target as real, unsettleable)];
    }

    /** Refuses without a durable ledger or a recent-activity guard; otherwise one pass with
        the counts of the open rows, which are complete up to the listing limit. */
    method ReconcileOrg(org: string, resources: seq<(string, bool)>, durable: bool, guard: Option<string -> bool>,
                        provider: Provider, dual: bool)
      returns (alerts: seq<Alert>, refused: Option<Refusal>, counts: map<string, nat>)
      modifies this`store
      ensures refused == if !durable then Some(NonDurable) else if guard.None? then Some(NoGuard) else None
      ensures refused.Some? ==> store == old(store) && alerts == []
      ensures refused.None? ==>
                (store, alerts) == Pass(old(store), org, resources, |resources|, guard.value, provider, counts, dual)
      ensures refused.None? ==> forall rk :: Tally(counts, rk) <= |Holding(rows, org, rk)|
      ensures refused.None? && |Chosen(rows, OpenFor(org))| <= LIST_LIMIT ==>
                forall rk :: Tally(counts, rk) == |Holding(rows, org, rk)|
    {
      alerts, refused, counts := [], None, map[];
      if !durable {
        return [], Some(NonDurable), map[];
      }
      if guard.None? {
        return [], Some(NoGuard), map[];
      }
      counts := Truth(org);
      for n := 0 to |resources|
        invariant (store, alerts) == Pass(old(store), org, resources, n, guard.value, provider, counts, dual)
      {
        var (rk, gauge) := resources[n];
        if gauge && !guard.value(rk) {
          var more := HealGauge(org, rk, provider, Tally(counts, rk), dual);
          alerts := alerts + more;
        }
      }
    }

    /** The per-resource counts of the open rows the listing returns. */
    method Truth(org: string) returns (counts: map<string, nat>)
      ensures forall rk :: Tally(counts, rk) <= |Holding(rows, org, rk)|
      ensures |Chosen(rows, OpenFor(org))| <= LIST_LIMIT ==> forall rk :: Tally(counts, rk) == |Holding(rows, org, rk)|
    {
      var listed := List(rows, OpenFor(org), Age(), LIST_LIMIT);
      counts := CountOpen(rows, listed);
      forall rk
        ensures Tally(counts, rk) <= |Holding(rows, org, rk)|
        ensures |Chosen(rows, OpenFor(org))| <= LIST_LIMIT ==> Tally(counts, rk) == |Holding(rows, org, rk)|
      {
        ListedCountVsTruth(rows, org, listed, rk);
      }
    }
  }
}
