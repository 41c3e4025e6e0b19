/** One call of the engine's Acquire, ReleaseActivation and Settle, on every path the
    code can take, while other processes change the shared store between any two
    of its store calls. */
module EngineAcquire {
  import opened CounterStore
  import opened Activations
  import opened ActivationProtocol
  import StoreMeaning

  /** A logical key in the authoritative shape or, during dual-write, in the other. */
  datatype Shaped = Primary(k: Key) | Secondary(k: Key)

  function PairOf(k: Key, dual: bool): DualPair<Shaped> {
    DualPair(Primary(k), if dual then Some(Secondary(k)) else None)
  }

  datatype Enforcement = Enforcement(enabled: bool, killSwitch: bool, shadow: bool, unknownAllowWarn: bool)

  /** Limits of one resource in one tier, per organisation and per user. */
  datatype TierLimit = TierLimit(org: Option<real>, user: Option<real>)

  /** `resources` says of each registered resource whether it is a gauge. */
  datatype Registry = Registry(bundles: map<string, seq<string>>, resources: map<string, bool>,
                               tiers: map<string, map<string, TierLimit>>)

  datatype Input = Input(org: string, user: Option<string>, bundleName: string, resourceKey: string, token: string)

  /** A store call works, fails without acting, or acts and loses its reply. */
  datatype Net = Works | Down | ReplyLost

  datatype Observed = NotWired | Unreachable | Seen(counts: map<string, int>)

  /** Everything outside the call: what other processes do to the store before its
      n-th access, how that access goes, and what the providers answer. */
  datatype World = World(others: (nat, Store<Shaped>) -> Store<Shaped>, net: nat -> Net, tier: nat -> Option<string>,
                         observed: Observed, persists: bool)

  datatype Result = Result(admitted: bool, id: Option<string>, denied: string, reason: string, failed: bool)

  /** One atomic acquire that reached the store. */
  datatype Attempt = Attempt(pre: Store<Shaped>, post: Store<Shaped>, specs: seq<AcquireSpec<Shaped>>,
                             reply: AcquireReply)

  const LANDED := Outcome(true, false, 0)

  const DRIFT_EPS := 0.000000001

  // ----- the preamble -----

  datatype Gate = Stop(res: Result) | Go(keys: seq<string>, title: string)

  function Refuse(title: string, reason: string): Gate {
    Stop(Result(false, None, title, reason, false))
  }

  predicate Enabled(cfg: Option<Enforcement>) {
    cfg.None? || cfg.value.enabled
  }

  predicate Shadow(cfg: Option<Enforcement>) {
    cfg.Some? && cfg.value.shadow
  }

  /** Kill switch first, then an unknown tier, then an unknown bundle or resource. */
  function Preamble(q: Input, cfg: Option<Enforcement>, reg: Registry, tier: Option<string>): Gate {
    if q.bundleName == "" && q.resourceKey == "" then Stop(Result(false, None, "", "", true))
    else
      var title := if q.bundleName != "" then q.bundleName else q.resourceKey;
      var unknown := if q.bundleName != "" then q.bundleName !in reg.bundles else q.resourceKey !in reg.resources;
      if cfg.Some? && cfg.value.killSwitch then Refuse(title, "global_kill_switch")
      else if Enabled(cfg) && tier.Some? && tier.value !in reg.tiers then Refuse(title, "tier_not_in_config")
      else if unknown then
        if cfg.Some? && (!cfg.value.enabled || cfg.value.shadow || cfg.value.unknownAllowWarn) then Go([], title)
        else Refuse(title, "unknown_bundle")
      else Go(if q.bundleName != "" then reg.bundles[q.bundleName] else [q.resourceKey], title)
  }

  /** The gate opens exactly when the switch is off, a resolved tier is configured (or
      enforcement is off) and the name is declared (or leniency is configured); only a
      declared name gates anything. */
  lemma PreambleOpens(q: Input, cfg: Option<Enforcement>, reg: Registry, tier: Option<string>)
    ensures var known := if q.bundleName != "" then q.bundleName in reg.bundles else q.resourceKey in reg.resources;
            var lenient := cfg.Some? && (!cfg.value.enabled || cfg.value.shadow || cfg.value.unknownAllowWarn);
            var g := Preamble(q, cfg, reg, tier);
            && (g.Go? <==> && (q.bundleName != "" || q.resourceKey != "")
                           && (cfg.Some? ==> !cfg.value.killSwitch)
                           && (Enabled(cfg) && tier.Some? ==> tier.value in reg.tiers)
                           && (known || lenient))
            && (g.Go? && !known ==> g.keys == [])
            && (g.Stop? ==> !g.res.admitted && g.res.id.None?)
  {
  }

  /** Who is refused, in this order: nobody named anything (an error); the kill switch; a
      resolved tier that is not configured, while enforcement is on; an undeclared name
      without leniency.  Otherwise the declared bundle or the one resource is gated. */
  lemma PreambleRefuses(q: Input, cfg: Option<Enforcement>, reg: Registry, tier: Option<string>)
    ensures var g := Preamble(q, cfg, reg, tier);
            var named := if q.bundleName != "" then q.bundleName else q.resourceKey;
            var known := if q.bundleName != "" then q.bundleName in reg.bundles else q.resourceKey in reg.resources;
            var killed := cfg.Some? && cfg.value.killSwitch;
            var lost := (cfg.None? || cfg.value.enabled) && tier.Some? && tier.value !in reg.tiers;
            && (named == "" ==> g == Stop(Result(false, None, "", "", true)))
            && (named != "" && killed ==> g == Stop(Result(false, None, named, "global_kill_switch", false)))
            && (named != "" && !killed && lost ==> g == Stop(Result(false, None, named, "tier_not_in_config", false)))
            && (named != "" && !killed && !lost && g.Stop? ==>
                  !known && g == Stop(Result(false, None, named, "unknown_bundle", false)))
            && (g.Go? ==> g.title == named)
            && (g.Go? && known ==> g.keys == if q.bundleName != "" then reg.bundles[q.bundleName] else [q.resourceKey])
  {
  }

  // ----- specs -----

  /** The limit of a resource in a looked-up tier, if the tier is known and limits it. */
  predicate Limits(reg: Registry, tier: Option<string>, rk: string, l: TierLimit) {
    && tier.Some? && tier.value in reg.tiers && rk in reg.tiers[tier.value]
    && reg.tiers[tier.value][rk] == l && l.org.Some?
  }

  /** The tier's limits are what a gauge runs under: its org limit, and its user limit exactly
      when the request has a user; nothing is limited that the tier does not limit. */
  lemma GaugeLimitMeans(reg: Registry, tier: Option<string>, user: Option<string>, rk: string)
    ensures forall l :: Limits(reg, tier, rk, l) ==>
              GaugeLimit(reg, tier, user, rk) == TierLimit(l.org, if user.Some? then l.user else None)
    ensures (forall l :: !Limits(reg, tier, rk, l)) ==> GaugeLimit(reg, tier, user, rk) == TierLimit(None, None)
  {
    if forall l :: !Limits(reg, tier, rk, l) {
      if tier.Some? && tier.value in reg.tiers && rk in reg.tiers[tier.value] {
        assert !Limits(reg, tier, rk, reg.tiers[tier.value][rk]);
      }
    }
  }

  /** Which keys a spec is for: one unit, in the org gauge and, with a user, in the user's
      share, with the sequence counted. */
  lemma SpecMeans(q: Input, rk: string, l: TierLimit, dual: bool)
    ensures var sp := SpecFor(q, rk, l, dual);
            && sp.delta == 1.0 && sp.hasUser == q.user.Some? && sp.orgLimit == l.org && sp.userLimit == l.user
            && sp.orgKey == Primary(Key.Org(q.org, rk))
            && sp.orgKey2 == (if dual then Some(Secondary(Key.Org(q.org, rk))) else None)
            && (q.user.Some? ==>
                  && sp.userKey == Primary(Key.User(q.org, rk, q.user.value))
                  && sp.seqKey == Primary(Key.Seq(q.org, rk, q.user.value))
                  && sp.userKey2 == (if dual then Some(Secondary(Key.User(q.org, rk, q.user.value))) else None)
                  && sp.seqKey2 == (if dual then Some(Secondary(Key.Seq(q.org, rk, q.user.value))) else None))
  {
  }

  /** The gauges of a bundle, in order and with repetitions: a resource counts exactly when it
      is registered as a gauge. */
  lemma GaugesMean(keys: seq<string>, rk: string, reg: Registry)
    ensures Gauges([], reg) == []
    ensures Gauges(keys + [rk], reg)
         == Gauges(keys, reg) + (if rk in reg.resources && reg.resources[rk] then [rk] else [])
  {
    assert (keys + [rk])[..|keys|] == keys;
  }

  /** An unresolved tier, an unknown one or a resource without a limit is unlimited. */
  function GaugeLimit(reg: Registry, tier: Option<string>, user: Option<string>, rk: string): TierLimit {
    if tier.None? || tier.value !in reg.tiers || rk !in reg.tiers[tier.value] || reg.tiers[tier.value][rk].org.None?
    then TierLimit(None, None)
    else
      var l := reg.tiers[tier.value][rk];
      TierLimit(l.org, if user.Some? then l.user else None)
  }

  function SpecFor(q: Input, rk: string, l: TierLimit, dual: bool): AcquireSpec<Shaped> {
    var o := PairOf(Key.Org(q.org, rk), dual);
    if q.user.None? then AcquireSpec(o.p, o.p, o.p, false, 1.0, l.org, l.user, o.s, None, None)
    else
      var u, sq := PairOf(Key.User(q.org, rk, q.user.value), dual), PairOf(Key.Seq(q.org, rk, q.user.value), dual);
      AcquireSpec(o.p, u.p, sq.p, true, 1.0, l.org, l.user, o.s, u.s, sq.s)
  }

  /** The specs are for these gauges, whatever their limits. */
  ghost predicate SpecsFor(specs: seq<AcquireSpec<Shaped>>, q: Input, gauges: seq<string>, dual: bool) {
    && |specs| == |gauges|
    && forall i :: 0 <= i < |specs| ==>
       specs[i] == SpecFor(q, gauges[i], TierLimit(specs[i].orgLimit, specs[i].userLimit), dual)
  }

  /** Every spec carries the limits of the tier looked up for it. */
  ghost predicate TierSpecs(specs: seq<AcquireSpec<Shaped>>, q: Input, gauges: seq<string>, reg: Registry,
                            tier: nat -> Option<string>, dual: bool) {
    && |specs| == |gauges|
    && forall i :: 0 <= i < |specs| ==>
       specs[i] == SpecFor(q, gauges[i], GaugeLimit(reg, tier(i + 1), q.user, gauges[i]), dual)
  }

  ghost predicate Uncapped(specs: seq<AcquireSpec<Shaped>>) {
    forall i :: 0 <= i < |specs| ==> specs[i].orgLimit.None? && specs[i].userLimit.None?
  }

  function Gauges(keys: seq<string>, reg: Registry): seq<string> {
    if keys == [] then []
    else
      var rest, rk := Gauges(keys[..|keys| - 1], reg), keys[|keys| - 1];
      if rk in reg.resources && reg.resources[rk] then rest + [rk] else rest
  }

  method BuildSpecs(q: Input, keys: seq<string>, reg: Registry, tier: nat -> Option<string>, dual: bool)
    returns (gauges: seq<string>, specs: seq<AcquireSpec<Shaped>>)
    ensures gauges == Gauges(keys, reg) && SpecsFor(specs, q, gauges, dual)
    ensures TierSpecs(specs, q, gauges, reg, tier, dual)
  {
    gauges, specs := [], [];
    for i := 0 to |keys|
      invariant gauges == Gauges(keys[..i], reg) && SpecsFor(specs, q, gauges, dual)
      invariant TierSpecs(specs, q, gauges, reg, tier, dual)
    {
      assert keys[..i + 1][..i] == keys[..i];
      var rk := keys[i];
      if rk in reg.resources && reg.resources[rk] {
        var l := GaugeLimit(reg, tier(|specs| + 1), q.user, rk);
        gauges, specs := gauges + [rk], specs + [SpecFor(q, rk, l, dual)];
      }
    }
    assert keys[..|keys|] == keys;
  }

  method ClearCaps(specs: seq<AcquireSpec<Shaped>>, ghost q: Input, ghost gauges: seq<string>, ghost dual: bool)
    returns (r: seq<AcquireSpec<Shaped>>)
    requires SpecsFor(specs, q, gauges, dual)
    ensures SpecsFor(r, q, gauges, dual) && Uncapped(r)
  {
    r := specs;
    for i := 0 to |specs|
      invariant SpecsFor(r, q, gauges, dual)
      invariant forall j :: 0 <= j < i ==> r[j].orgLimit.None? && r[j].userLimit.None?
    {
      r := r[i := r[i].(orgLimit := None, userLimit := None)];
    }
  }

  lemma SpecsPaired(specs: seq<AcquireSpec<Shaped>>, q: Input, gauges: seq<string>, dual: bool)
    requires SpecsFor(specs, q, gauges, dual)
    ensures AllPaired(specs, dual)
  {
  }

  lemma {:induction false} NoBadSpec(specs: seq<AcquireSpec<Shaped>>, q: Input, gauges: seq<string>, dual: bool, i: nat)
    requires SpecsFor(specs, q, gauges, dual) && i <= |specs|
    ensures FirstBad(specs, i) == 0
    decreases |specs| - i
  {
    if i < |specs| {
      NoBadSpec(specs, q, gauges, dual, i + 1);
    }
  }

  /** Without caps an acquire admits: it lands or answers dup. */
  lemma UncappedAdmits(s: Store<Shaped>, now: int, idem: DualPair<Shaped>, hasIdem: bool, v2p: bool,
                       specs: seq<AcquireSpec<Shaped>>, q: Input, gauges: seq<string>)
    requires SpecsFor(specs, q, gauges, idem.s.Some?) && AllPaired(specs, idem.s.Some?) && Uncapped(specs)
    ensures DualAcquire(s, now, idem, hasIdem, 0, v2p, specs).1 in {LANDED, Outcome(true, true, 0)}
  {
    NoBadSpec(specs, q, gauges, idem.s.Some?, 0);
    NoneDenied(SeedAll(Swept(s, now), specs, v2p), specs, 0);
  }

  // ----- the engine -----

  /** The attempts of one call: at most two, each an atomic acquire of this bundle, and
      only the last can have landed.  A first of two was a denial, so it claimed no
      latch and spent nothing. */
  ghost predicate AtMostOnce(tried: seq<Attempt>, q: Input, gauges: seq<string>, dual: bool, v2p: bool, now: int) {
    && |tried| <= 2
    && (forall i :: 0 <= i < |tried| ==> Honest(tried[i], q, gauges, dual, v2p, now))
    && (|tried| == 2 ==>
       !tried[0].reply.admitted && tried[0].post == SeedAll(Swept(tried[0].pre, now), tried[0].specs, v2p))
  }

  function IdemPair(q: Input, gauges: seq<string>, dual: bool): DualPair<Shaped> {
    PairOf(Key.Idem(q.org, if gauges == [] then "" else gauges[0], q.token), dual)
  }

  /** The latch lies in the namespace of the first gauge, in both shapes during dual-write. */
  lemma IdemMeans(q: Input, gauges: seq<string>, dual: bool)
    requires gauges != []
    ensures IdemPair(q, gauges, dual).p == Primary(Key.Idem(q.org, gauges[0], q.token))
    ensures IdemPair(q, gauges, dual).s == if dual then Some(Secondary(Key.Idem(q.org, gauges[0], q.token))) else None
  {
  }

  ghost predicate Honest(a: Attempt, q: Input, gauges: seq<string>, dual: bool, v2p: bool, now: int) {
    && SpecsFor(a.specs, q, gauges, dual) && AllPaired(a.specs, dual)
    && (a.post, a.reply) == DualAcquire(a.pre, now, IdemPair(q, gauges, dual), q.token != "", 0, v2p, a.specs)
    && a.reply.Outcome?
  }

  ghost predicate DidLand(tried: seq<Attempt>) {
    tried != [] && tried[|tried| - 1].reply == LANDED
  }

  function RowFor(q: Input, title: string, gauges: seq<string>, now: int): Row {
    Row(q.org, q.user, title, None, now, State.Open, map rk | rk in gauges :: 1.0, None, None)
  }

  /** The stored row: open, for this org and user, one unit of each gauge. */
  lemma RowMeans(q: Input, title: string, gauges: seq<string>, now: int)
    ensures var r := RowFor(q, title, gauges, now);
            && r.org == q.org && r.user == q.user && r.title == title && r.openedAt == now
            && r.state == State.Open && r.cost == None && r.releasedAt == None && r.settledAt == None
            && (forall rk :: rk in r.spend <==> rk in gauges)
            && (forall rk :: rk in r.spend ==> r.spend[rk] == 1.0)
  {
  }

  /** The org gauge and the user's share have room for one more under the tier. */
  predicate HasRoom(s: Store<Shaped>, q: Input, rk: string, reg: Registry, tier: Option<string>) {
    tier.Some? && tier.value in reg.tiers && rk in reg.tiers[tier.value] && reg.tiers[tier.value][rk].org.Some? ==>
      var l := reg.tiers[tier.value][rk];
      && Level(s, Primary(Key.Org(q.org, rk))) + 1.0 <= l.org.value
      && (q.user.Some? && l.user.Some? ==> Level(s, Primary(Key.User(q.org, rk, q.user.value))) + 1.0 <= l.user.value)
  }

  /** The token's latch, in a shape the engine writes, is live. */
  predicate Replayed(s: Store<Shaped>, q: Input, gauges: seq<string>, dual: bool, now: int) {
    && q.token != "" && gauges != []
    && (StoreMeaning.LatchShown(s, Primary(Key.Idem(q.org, gauges[0], q.token)), now)
        || (dual && StoreMeaning.LatchShown(s, Secondary(Key.Idem(q.org, gauges[0], q.token)), now)))
  }

  /** An attempt under the tier's limits: a live token answers dup; otherwise it lands exactly
      when every gauge has room, and else is denied at the first that has none. */
  lemma TierAttemptJudged(a: Attempt, q: Input, gauges: seq<string>, reg: Registry, tier: nat -> Option<string>,
                          dual: bool, v2p: bool, now: int)
    requires Honest(a, q, gauges, dual, v2p, now) && TierSpecs(a.specs, q, gauges, reg, tier, dual) && gauges != []
    ensures var s := SeedAll(Swept(a.pre, now), a.specs, v2p);
            && (Replayed(a.pre, q, gauges, dual, now) ==> a.reply == Outcome(true, true, 0))
            && (!Replayed(a.pre, q, gauges, dual, now) ==>
                  && (a.reply == LANDED <==>
                        forall i :: 0 <= i < |gauges| ==> HasRoom(s, q, gauges[i], reg, tier(i + 1)))
                  && (a.reply != LANDED ==>
                        && !a.reply.admitted && 1 <= a.reply.deniedIndex <= |gauges|
                        && !HasRoom(s, q, gauges[a.reply.deniedIndex - 1], reg, tier(a.reply.deniedIndex))
                        && forall i :: 0 <= i < a.reply.deniedIndex - 1 ==> HasRoom(s, q, gauges[i], reg, tier(i + 1))))
  {
    var s := SeedAll(Swept(a.pre, now), a.specs, v2p);
    StoreMeaning.DualAcquireJudges(a.pre, now, IdemPair(q, gauges, dual), q.token != "", 0, v2p, a.specs);
    IdemMeans(q, gauges, dual);
    assert StoreMeaning.NonNegative(a.specs);
    forall i | 0 <= i < |gauges|
      ensures StoreMeaning.Fits(s, a.specs[i]) <==> HasRoom(s, q, gauges[i], reg, tier(i + 1))
    {
      SpecRoom(s, q, gauges[i], reg, tier(i + 1), dual, a.specs[i]);
    }
  }

  lemma SpecRoom(s: Store<Shaped>, q: Input, rk: string, reg: Registry, tier: Option<string>, dual: bool,
                 sp: AcquireSpec<Shaped>)
    requires sp == SpecFor(q, rk, GaugeLimit(reg, tier, q.user, rk), dual)
    ensures StoreMeaning.Fits(s, sp) <==> HasRoom(s, q, rk, reg, tier)
  {
  }

  /** Nobody else acts and the store answers. */
  ghost predicate QuietWorld(w: World) {
    (forall n: nat, s: Store<Shaped> :: w.others(n, s) == s) && (forall n: nat :: w.net(n) == Works)
  }

  /** The org gauge differs from the provider's count. */
  predicate Contradicted(s: Store<Shaped>, q: Input, rk: string, counts: map<string, int>) {
    rk in counts && Abs(counts[rk] as real - Level(s, Primary(Key.Org(q.org, rk)))) > 0.000000001
  }

  /** A repair nobody disturbs: afterwards no gauge of the bundle contradicts the provider,
      gauges it says nothing about and all other keys are as before, both shapes of a
      repaired gauge are at its count, and it reports whether there was anything to repair. */
  lemma {:induction false} RepairMeans(s: Store<Shaped>, q: Input, gauges: seq<string>, n: nat,
                                       counts: map<string, int>, dual: bool, w: World, first: nat, rk: string)
    requires n <= |gauges| && QuietWorld(w)
    ensures var (s', any) := RepairedTo(s, q, gauges, n, counts, dual, w, first);
            var k := Key.Org(q.org, rk);
            && s'.latches == s.latches && s'.expiry == s.expiry
            && (rk in gauges[..n] ==> !Contradicted(s', q, rk, counts))
            && (rk in gauges[..n] && Contradicted(s, q, rk, counts) ==>
                  && Level(s', Primary(k)) == counts[rk] as real
                  && (dual ==> Level(s', Secondary(k)) == counts[rk] as real))
            && (!(rk in gauges[..n] && Contradicted(s, q, rk, counts)) ==>
                  Level(s', Primary(k)) == Level(s, Primary(k)) && Level(s', Secondary(k)) == Level(s, Secondary(k)))
            && (any <==> exists i :: 0 <= i < n && Contradicted(s, q, gauges[i], counts))
  {
    if n > 0 {
      RepairMeans(s, q, gauges, n - 1, counts, dual, w, first, rk);
      RepairMeans(s, q, gauges, n - 1, counts, dual, w, first, gauges[n - 1]);
      assert gauges[..n] == gauges[..n - 1] + [gauges[n - 1]];
    }
  }

  /** Both shapes of the first n gauges the provider contradicts are set to its count, others
      acting before each; absent is not zero.  The flag says whether any was set. */
  function RepairedTo(s: Store<Shaped>, q: Input, gauges: seq<string>, n: nat, counts: map<string, int>, dual: bool,
                      w: World, first: nat): (Store<Shaped>, bool)
    requires n <= |gauges|
  {
    if n == 0 then (s, false)
    else
      var (before, any) := RepairedTo(s, q, gauges, n - 1, counts, dual, w, first);
      var s1 := w.others(first + n - 1, before);
      var k := PairOf(Key.Org(q.org, gauges[n - 1]), dual);
      if gauges[n - 1] in counts && w.net(first + n - 1) == Works
         && Abs(counts[gauges[n - 1]] as real - Level(s1, k.p)) > DRIFT_EPS then
        var s2 := Put(s1, k.p, counts[gauges[n - 1]] as real);
        (if dual then Put(s2, k.s.value, counts[gauges[n - 1]] as real) else s2, true)
      else (s1, any)
  }

  /** What the second attempt finds: others, and before that the repair if there was one. */
  function Refound(s: Store<Shaped>, q: Input, gauges: seq<string>, cfg: Option<Enforcement>, dual: bool,
                   w: World): Store<Shaped> {
    w.others(1, if Shadow(cfg) || !w.observed.Seen? then s
                else RepairedTo(s, q, gauges, |gauges|, w.observed.counts, dual, w, 2).0)
  }

  /** The store changes hands only through the attempts: the first starts from what others
      left, the second from the first, a repair and others, and what landed is left alone. */
  ghost predicate Chained(was: Store<Shaped>, now: Store<Shaped>, tried: seq<Attempt>, q: Input, gauges: seq<string>,
                          cfg: Option<Enforcement>, dual: bool, w: World) {
    && (tried != [] ==> tried[0].pre == w.others(0, was))
    && (|tried| == 2 ==> tried[1].pre == Refound(tried[0].post, q, gauges, cfg, dual, w))
    && (DidLand(tried) ==> now == tried[|tried| - 1].post)
  }

  /** After a first attempt that was answered: an admission is the last word; a denial is
      re-run uncapped in shadow mode or with the provider unreachable, re-run under the same
      limits after a repair, and stands otherwise. */
  ghost predicate Followed(tried: seq<Attempt>, q: Input, gauges: seq<string>, specs: seq<AcquireSpec<Shaped>>,
                           cfg: Option<Enforcement>, dual: bool, w: World) {
    w.net(0) == Works && w.net(1) != Down && tried != [] ==>
      var first := tried[0];
      if first.reply.Outcome? && first.reply.admitted then |tried| == 1
      else if Shadow(cfg) || (Enabled(cfg) && w.observed.Unreachable?) then |tried| == 2 && Uncapped(tried[1].specs)
      else if Enabled(cfg) && w.observed.Seen?
              && RepairedTo(first.post, q, gauges, |gauges|, w.observed.counts, dual, w, 2).1
      then |tried| == 2 && tried[1].specs == specs
      else |tried| == 1
  }

  /** The refused gauge is the one the first attempt was denied at. */
  ghost predicate Names(denied: string, gauges: seq<string>, tried: seq<Attempt>) {
    && tried != [] && tried[0].reply.Outcome? && !tried[0].reply.admitted
    && 1 <= tried[0].reply.deniedIndex <= |gauges| && denied == gauges[tried[0].reply.deniedIndex - 1]
  }

  /** A denial names a gauge of the bundle; an uncapped attempt is never denied. */
  lemma DeniedInRange(a: Attempt, q: Input, gauges: seq<string>, dual: bool, v2p: bool, now: int)
    requires Honest(a, q, gauges, dual, v2p, now) && !a.reply.admitted
    ensures 1 <= a.reply.deniedIndex <= |gauges| && !Uncapped(a.specs)
  {
    StoreMeaning.DualAcquireJudges(a.pre, now, IdemPair(q, gauges, dual), q.token != "", 0, v2p, a.specs);
    assert StoreMeaning.NonNegative(a.specs);
    if Uncapped(a.specs) {
      UncappedAdmits(a.pre, now, IdemPair(q, gauges, dual), q.token != "", v2p, a.specs, q, gauges);
    }
  }

  class Engine {
    var store: Store<Shaped>
    var rows: map<string, Row>
    ghost var tried: seq<Attempt>

    constructor (s: Store<Shaped>)
      ensures store == s && rows == map[] && tried == []
    {
      store, rows, tried := s, map[], [];
    }

    /** One access: others act first; then the call works, fails, or loses its reply. */
    method RunAcquire(q: Input, gauges: seq<string>, specs: seq<AcquireSpec<Shaped>>, dual: bool, v2p: bool,
                      now: int, w: World, n: nat)
      returns (reply: Option<AcquireReply>)
      requires SpecsFor(specs, q, gauges, dual)
      modifies this`store, this`tried
      ensures w.net(n) == Down ==> tried == old(tried) && reply == None && store == w.others(n, old(store))
      ensures w.net(n) != Down ==>
                && |tried| == |old(tried)| + 1 && tried[..|old(tried)|] == old(tried)
                && var a := tried[|old(tried)|];
                   a.specs == specs && Honest(a, q, gauges, dual, v2p, now)
                   && a.pre == w.others(n, old(store)) && a.post == store
                   && reply == if w.net(n) == ReplyLost then None else Some(a.reply)
    {
      SpecsPaired(specs, q, gauges, dual);
      NoBadSpec(specs, q, gauges, dual, 0);
      store := w.others(n, store);
      if w.net(n) == Down {
        return None;
      }
      ghost var pre := store;
      var (s, r) := DualAcquire(store, now, IdemPair(q, gauges, dual), q.token != "", 0, v2p, specs);
      store := s;
      tried := tried + [Attempt(pre, s, specs, r)];
      reply := if w.net(n) == ReplyLost then None else Some(r);
    }

    method Repair(q: Input, gauges: seq<string>, counts: map<string, int>, dual: bool, w: World, n: nat)
      returns (repaired: bool)
      modifies this`store
      ensures (store, repaired) == RepairedTo(old(store), q, gauges, |gauges|, counts, dual, w, n)
    {
      repaired := false;
      for i := 0 to |gauges|
        invariant (store, repaired) == RepairedTo(old(store), q, gauges, i, counts, dual, w, n)
      {
        store := w.others(n + i, store);
        if gauges[i] in counts {
          var k := PairOf(Key.Org(q.org, gauges[i]), dual);
          var truth := counts[gauges[i]] as real;
          if Abs(truth - Level(store, k.p)) > DRIFT_EPS && w.net(n + i) == Works {
            store := Put(store, k.p, truth);
            if k.s.Some? {
              store := Put(store, k.s.value, truth);
            }
            repaired := true;
          }
        }
      }
    }

    /** What follows a denial: shadow and an unreachable provider re-run without caps, a
        repair re-runs with them, anything else leaves the denial standing. */
    method SecondChance(q: Input, gauges: seq<string>, specs: seq<AcquireSpec<Shaped>>, cfg: Option<Enforcement>,
                        dual: bool, v2p: bool, now: int, w: World, denied: AcquireReply)
      returns (reply: Option<AcquireReply>)
      requires SpecsFor(specs, q, gauges, dual)
      requires denied.Outcome? && !denied.admitted
      modifies this`store, this`tried
      ensures |old(tried)| <= |tried| <= |old(tried)| + 1 && tried[..|old(tried)|] == old(tried)
      ensures tried == old(tried) ==> reply in {None, Some(denied)}
      ensures tried != old(tried) ==>
                && var a := tried[|old(tried)|];
                   Honest(a, q, gauges, dual, v2p, now) && (reply == None || reply == Some(a.reply))
                   && a.pre == Refound(old(store), q, gauges, cfg, dual, w) && a.post == store
      ensures tried != old(tried) ==> reply == if w.net(1) == Works then Some(tried[|old(tried)|].reply) else None
      ensures (Shadow(cfg) || (Enabled(cfg) && w.observed.Unreachable?)) && w.net(1) != Down ==>
                tried != old(tried) && Uncapped(tried[|old(tried)|].specs)
      ensures !Shadow(cfg) && Enabled(cfg) && w.observed.Seen? && w.net(1) != Down
              && RepairedTo(old(store), q, gauges, |gauges|, w.observed.counts, dual, w, 2).1 ==>
                tried != old(tried) && tried[|old(tried)|].specs == specs
      ensures !Shadow(cfg) && (w.observed.NotWired? || !Enabled(cfg)) ==> tried == old(tried) && reply == Some(denied)
      ensures !Shadow(cfg) && w.observed.Seen?
              && !RepairedTo(old(store), q, gauges, |gauges|, w.observed.counts, dual, w, 2).1 ==>
                tried == old(tried) && reply == Some(denied)
      ensures Shadow(cfg) && reply.Some? ==> reply.value in {LANDED, Outcome(true, true, 0)}
    {
      reply := Some(denied);
      if Shadow(cfg) || (w.observed.Unreachable? && Enabled(cfg)) {
        var free := ClearCaps(specs, q, gauges, dual);
        reply := RunAcquire(q, gauges, free, dual, v2p, now, w, 1);
        if tried != old(tried) {
          var a := tried[|old(tried)|];
          UncappedAdmits(a.pre, now, IdemPair(q, gauges, dual), q.token != "", v2p, free, q, gauges);
        }
      } else if w.observed.Seen? && Enabled(cfg) {
        var repaired := Repair(q, gauges, w.observed.counts, dual, w, 2);
        if repaired {
          reply := RunAcquire(q, gauges, specs, dual, v2p, now, w, 1);
        }
      }
    }

    /** The first attempt and, after a denial, the second chance.  A standing denial
        reports the gauge the first attempt failed on. */
    method SpendPhase(q: Input, gauges: seq<string>, specs: seq<AcquireSpec<Shaped>>, cfg: Option<Enforcement>,
                      dual: bool, v2p: bool, now: int, w: World)
      returns (reply: Option<AcquireReply>)
      requires tried == [] && SpecsFor(specs, q, gauges, dual)
      modifies this`store, this`tried
      ensures AtMostOnce(tried, q, gauges, dual, v2p, now) && Chained(old(store), store, tried, q, gauges, cfg, dual, w)
      ensures tried != [] ==> Honest(tried[0], q, gauges, dual, v2p, now)
      ensures w.net(0) == Down <==> tried == []
      ensures tried != [] ==> tried[0].specs == specs
      ensures Followed(tried, q, gauges, specs, cfg, dual, w)
      ensures w.net(0) == Works && w.net(1) == Works ==> reply.Some?
      ensures Plain(cfg, w) ==> |tried| <= 1 && (tried != [] ==> tried[0].specs == specs)
      ensures reply.Some? ==> tried != [] && reply.value.Outcome?
      ensures reply.Some? && reply.value.admitted ==> reply.value == tried[|tried| - 1].reply
      ensures reply.Some? && reply.value.admitted ==>
              reply.value == if reply.value.dup then Outcome(true, true, 0) else LANDED
      ensures reply.Some? && !reply.value.admitted ==> !DidLand(tried) && !Shadow(cfg) && reply.value == tried[0].reply
      ensures reply.Some? && !reply.value.admitted ==> !tried[|tried| - 1].reply.admitted
    {
      reply := RunAcquire(q, gauges, specs, dual, v2p, now, w, 0);
      if reply.None? {
        return;
      }
      if reply.value.admitted {
        AdmittedReply(tried[0], q, gauges, dual, v2p, now);
        return;
      }
      var denied := reply.value;
      DenialIsSeedOnly(tried[0], q, gauges, dual, v2p, now);
      reply := SecondChance(q, gauges, specs, cfg, dual, v2p, now, w, denied);
      if reply.Some? && reply.value.admitted {
        AdmittedReply(tried[1], q, gauges, dual, v2p, now);
      } else if reply.Some? {
        reply := Some(denied);
      }
    }

    /** The spend, and the row of a spend that landed. */
    method SpendAndStore(q: Input, title: string, gauges: seq<string>, specs: seq<AcquireSpec<Shaped>>,
                         cfg: Option<Enforcement>, dual: bool, v2p: bool, now: int, w: World, id: string)
      returns (res: Result)
      requires tried == [] && SpecsFor(specs, q, gauges, dual) && (!Enabled(cfg) ==> Uncapped(specs))
      modifies this
      ensures AtMostOnce(tried, q, gauges, dual, v2p, now) && Chained(old(store), store, tried, q, gauges, cfg, dual, w)
      ensures w.net(0) == Down <==> tried == []
      ensures tried != [] ==> tried[0].specs == specs
      ensures Plain(cfg, w) ==> |tried| <= 1
      ensures Followed(tried, q, gauges, specs, cfg, dual, w)
      ensures w.net(0) == Works && w.net(1) == Works ==>
                tried != [] && (res.reason == "denied" <==> !tried[|tried| - 1].reply.admitted)
      ensures rows == (if res.id.Some? then old(rows)[id := RowFor(q, title, gauges, now)] else old(rows))
      ensures res.id.Some? ==> res.id == Some(id) && res.admitted && DidLand(tried)
      ensures DidLand(tried) ==> if res.failed then !res.admitted && res.id.None? else w.persists && res.id.Some?
      ensures res.admitted && res.id.None? ==>
                tried != [] && res.reason == "dup" && tried[|tried| - 1].reply == Outcome(true, true, 0)
      ensures res.reason == "persist_failed" ==> DidLand(tried) && !w.persists && res.failed
      ensures res.reason == "denied" ==>
                !DidLand(tried) && !res.admitted && !Shadow(cfg) && Enabled(cfg) && Names(res.denied, gauges, tried)
    {
      hide Honest, SpecsFor, AtMostOnce, Chained, Followed;
      var reply := SpendPhase(q, gauges, specs, cfg, dual, v2p, now, w);
      if reply.None? {
        return Result(false, None, "", "", true);
      }
      if !reply.value.admitted {
        DeniedInRange(tried[0], q, gauges, dual, v2p, now);
        var i := reply.value.deniedIndex;
        return Result(false, None, if 1 <= i <= |gauges| then gauges[i - 1] else title, "denied", false);
      }
      if reply.value.dup {
        return Result(true, None, "", "dup", false);
      }
      if !w.persists {
        return Result(false, None, title, "persist_failed", true);
      }
      rows := rows[id := RowFor(q, title, gauges, now)];
      res := Result(true, Some(id), "", "ok", false);
    }

    /** At most one spend of this call lands, a row is stored only for a spend of this
        call's own that landed, and the answer says which happened. */
    method Acquire(q: Input, cfg: Option<Enforcement>, reg: Registry, dual: bool, v2p: bool, now: int, w: World,
                   id: string)
      returns (res: Result)
      requires id !in rows && tried == []
      modifies this
      ensures var gate := Preamble(q, cfg, reg, w.tier(0));
              var gauges := if gate.Go? then Gauges(gate.keys, reg) else [];
              && AtMostOnce(tried, q, gauges, dual, v2p, now)
              && Chained(old(store), store, tried, q, gauges, cfg, dual, w)
              && (tried == [] && w.net(0) != Down ==> store == old(store))
              && (gauges == [] ==> tried == [] && res.id == None)
              && (Plain(cfg, w) ==> |tried| <= 1)
              && (tried != [] && Enabled(cfg) ==> TierSpecs(tried[0].specs, q, gauges, reg, w.tier, dual))
              && (tried != [] && !Enabled(cfg) ==> Uncapped(tried[0].specs))
              && (tried != [] ==> Followed(tried, q, gauges, tried[0].specs, cfg, dual, w))
              && (gate.Go? && gauges != [] && w.net(0) == Works && w.net(1) == Works ==>
                    tried != [] && (res.reason == "denied" <==> !tried[|tried| - 1].reply.admitted))
              && (res.reason == "denied" ==> Names(res.denied, gauges, tried))
              && (gate.Stop? ==> res == gate.res)
              && rows == (if res.id.Some? then old(rows)[id := RowFor(q, gate.title, gauges, now)] else old(rows))
      ensures res.id.Some? ==> res.id == Some(id) && res.admitted && DidLand(tried)
      ensures DidLand(tried) ==> if res.failed then !res.admitted && res.id.None? else w.persists && res.id.Some?
      ensures res.admitted && res.id.None? ==>
                tried == [] || (res.reason == "dup" && tried[|tried| - 1].reply == Outcome(true, true, 0))
      ensures res.reason == "persist_failed" ==> DidLand(tried) && !w.persists && res.failed
      ensures res.reason == "denied" ==> !DidLand(tried) && !res.admitted && !Shadow(cfg) && Enabled(cfg)
    {
      hide Honest, SpecsFor, TierSpecs;
      var gate := Preamble(q, cfg, reg, w.tier(0));
      if gate.Stop? {
        return gate.res;
      }
      var gauges, specs := BuildSpecs(q, gate.keys, reg, w.tier, dual);
      if gauges == [] {
        return Result(true, None, "", "ok", false);
      }
      if !Enabled(cfg) {
        specs := ClearCaps(specs, q, gauges, dual);
      }
      res := SpendAndStore(q, gate.title, gauges, specs, cfg, dual, v2p, now, w, id);
    }

    function Find(id: string): Option<Row>
      reads this
    {
      if id in rows then Some(rows[id]) else None
    }

    /** One decrement of a release, which may fail before or after acting. */
    method TakeBackOne(row: Row, k: Key, dual: bool, v2p: bool, now: int, net: Net,
                       ghost was: Store<Shaped>, ghost steps: seq<Key>)
      returns (ok: bool, ghost done: seq<Key>)
      requires k in KeysOf(row) && InRow(steps, row) && store == TakeBackAll(was, row, steps, dual, v2p, now)
      modifies this`store
      ensures ok <==> net == Works
      ensures done == if net == Down then steps else steps + [k]
      ensures InRow(done, row) && store == TakeBackAll(was, row, done, dual, v2p, now)
    {
      done := steps;
      if net == Down {
        return false, done;
      }
      TakeBackLast(was, row, steps, k, dual, v2p, now);
      store := TakeBack(store, row, k, dual, v2p, now);
      done := steps + [k];
      ok := net == Works;
    }

    /** The decrements of one resource: org, then user. */
    method TakeBackResource(row: Row, rk: string, dual: bool, v2p: bool, now: int, net: Key -> Net,
                            ghost was: Store<Shaped>, ghost steps: seq<Key>)
      returns (ok: bool, ghost done: seq<Key>)
      requires rk in row.spend && InRow(steps, row) && store == TakeBackAll(was, row, steps, dual, v2p, now)
      modifies this`store
      ensures done == steps || done == steps + [Key.Org(row.org, rk)] || done == AllOf(steps, row, rk)
      ensures ok ==> done == AllOf(steps, row, rk)
      ensures ok <==> net(Key.Org(row.org, rk)) == Works
                      && (row.user.Some? ==> net(Key.User(row.org, rk, row.user.value)) == Works)
      ensures InRow(done, row) && store == TakeBackAll(was, row, done, dual, v2p, now)
    {
      KeysOfRow(row, rk);
      hide KeysOf, TakeBackAll, InRow;
      ok, done := TakeBackOne(row, Key.Org(row.org, rk), dual, v2p, now, net(Key.Org(row.org, rk)), was, steps);
      if ok && row.user.Some? {
        var user := Key.User(row.org, rk, row.user.value);
        ok, done := TakeBackOne(row, user, dual, v2p, now, net(user), was, done);
      }
    }

    /** True exactly for the call that moved the row; only that call gives anything back, and
        when a decrement fails it stops there and reports the failure. */
    method ReleaseActivation(id: string, gauges: set<string>, dual: bool, v2p: bool, now: int, net: Key -> Net)
      returns (released: bool, failed: bool, ghost steps: seq<Key>)
      modifies this`rows, this`store
      ensures released <==> StateOf(old(Find(id))) == Some(State.Open)
      ensures !released ==> rows == old(rows) && store == old(store) && !failed
      ensures released ==> rows == old(rows)[id := AsReleased(old(rows)[id], now)]
      ensures released ==> Distinct(steps) && Due(steps, old(rows)[id], gauges)
                           && store == TakeBackAll(old(store), old(rows)[id], steps, dual, v2p, now)
      ensures released && !failed ==> Complete(steps, old(rows)[id], gauges)
      ensures failed <==> released && exists k :: k in KeysOf(old(rows)[id]) && k.rk in gauges && net(k) != Works
    {
      steps := [];
      failed := false;
      if id !in rows || rows[id].state != State.Open {
        return false, false, [];
      }
      var row := rows[id];
      rows := rows[id := AsReleased(row, now)];
      released := true;
      var todo := row.spend.Keys;
      while todo != {}
        invariant todo <= row.spend.Keys && rows == old(rows)[id := AsReleased(row, now)]
        invariant Distinct(steps) && Visited(steps, row, gauges, todo)
        invariant store == TakeBackAll(old(store), row, steps, dual, v2p, now)
        invariant forall k :: k in steps ==> net(k) == Works
      {
        var rk :| rk in todo;
        VisitedDue(steps, row, gauges, todo);
        if rk in gauges {
          var ok;
          VisitOne(steps, row, gauges, todo, rk);
          ok, steps := TakeBackResource(row, rk, dual, v2p, now, net, old(store), steps);
          if !ok {
            return true, true, steps;
          }
        }
        todo := todo - {rk};
      }
      VisitedDue(steps, row, gauges, {});
    }

    /** An amount that is not a finite non-negative number is refused before any write. */
    method Settle(id: string, cost: string, valid: bool, now: int) returns (settled: bool, failed: bool, conflict: bool)
      modifies this`rows
      ensures failed == !valid
      ensures failed ==> rows == old(rows) && !settled && !conflict
      ensures !failed ==> (Find(id), if settled then Find(id) else None) == SettleNow(old(Find(id)), cost, now)
      ensures settled <==> !failed && rows != old(rows)
      ensures rows - {id} == old(rows) - {id}
      ensures conflict <==> valid && StateOf(old(Find(id))) == Some(State.Settled)
                            && old(rows)[id].cost.Some? && old(rows)[id].cost.value != cost
    {
      if !valid {
        return false, true, false;
      }
      if id in rows && rows[id].state != State.Settled {
        rows := rows[id := AsSettled(rows[id], cost, now)];
        assert rows[id].state != old(rows)[id].state;
        return true, false, false;
      }
      conflict := id in rows && rows[id].cost.Some? && rows[id].cost.value != cost;
      settled, failed := false, false;
    }
  }

  // ----- what a release gives back -----

  /** The floored decrement of one gauge of a released row. */
  function TakeBack(s: Store<Shaped>, row: Row, k: Key, dual: bool, v2p: bool, now: int): Store<Shaped>
    requires k in KeysOf(row)
  {
    DualDecrFloor(s, now, PairOf(k, dual), row.spend[k.rk], v2p).0
  }

  ghost predicate InRow(steps: seq<Key>, row: Row) {
    forall k :: k in steps ==> k in KeysOf(row)
  }

  /** The decrements of a release in the order they were made. */
  ghost function TakeBackAll(s: Store<Shaped>, row: Row, steps: seq<Key>, dual: bool, v2p: bool,
                             now: int): Store<Shaped>
    requires InRow(steps, row)
  {
    if steps == [] then s
    else TakeBack(TakeBackAll(s, row, steps[..|steps| - 1], dual, v2p, now), row, steps[|steps| - 1], dual, v2p, now)
  }

  predicate Distinct(steps: seq<Key>) {
    forall i, j :: 0 <= i < j < |steps| ==> steps[i] != steps[j]
  }

  /** Gauges of the row that are registered as gauges. */
  predicate Due(steps: seq<Key>, row: Row, gauges: set<string>) {
    forall k :: k in steps ==> k in KeysOf(row) && k.rk in gauges
  }

  /** Every gauge of the row has been decremented. */
  ghost predicate Complete(steps: seq<Key>, row: Row, gauges: set<string>) {
    forall k :: k in KeysOf(row) && k.rk in gauges ==> k in steps
  }

  /** Exactly the gauges of the resources no longer to do. */
  ghost predicate Visited(steps: seq<Key>, row: Row, gauges: set<string>, todo: set<string>) {
    forall k :: k in steps <==> k in KeysOf(row) && k.rk in gauges && k.rk !in todo
  }

  /** The steps so far and then those of one resource. */
  function AllOf(steps: seq<Key>, row: Row, rk: string): seq<Key> {
    var org := steps + [Key.Org(row.org, rk)];
    if row.user.Some? then org + [Key.User(row.org, rk, row.user.value)] else org
  }

  lemma KeysOfRow(row: Row, rk: string)
    requires rk in row.spend
    ensures Key.Org(row.org, rk) in KeysOf(row)
    ensures row.user.Some? ==> Key.User(row.org, rk, row.user.value) in KeysOf(row)
  {
  }

  lemma VisitedDue(steps: seq<Key>, row: Row, gauges: set<string>, todo: set<string>)
    requires Visited(steps, row, gauges, todo)
    ensures Due(steps, row, gauges) && (todo == {} ==> Complete(steps, row, gauges))
  {
  }

  /** One more resource, in part or in full. */
  lemma VisitOne(steps: seq<Key>, row: Row, gauges: set<string>, todo: set<string>, rk: string)
    requires Visited(steps, row, gauges, todo) && Distinct(steps) && rk in todo && rk in gauges && rk in row.spend
    ensures var org := steps + [Key.Org(row.org, rk)]; Distinct(org) && Due(org, row, gauges)
    ensures var all := AllOf(steps, row, rk);
            Distinct(all) && Due(all, row, gauges) && Visited(all, row, gauges, todo - {rk})
  {
    var all := AllOf(steps, row, rk);
    KeysOfRow(row, rk);
    forall k ensures k in all <==> k in steps || (k in KeysOf(row) && k.rk == rk) {
    }
  }

  lemma TakeBackLast(s: Store<Shaped>, row: Row, steps: seq<Key>, k: Key, dual: bool, v2p: bool, now: int)
    requires k in KeysOf(row) && InRow(steps, row)
    ensures InRow(steps + [k], row)
    ensures TakeBackAll(s, row, steps + [k], dual, v2p, now)
         == TakeBack(TakeBackAll(s, row, steps, dual, v2p, now), row, k, dual, v2p, now)
  {
    assert (steps + [k])[..|steps|] == steps;
  }

  function FloatAt(s: Store<Shaped>, x: Shaped): Option<real> {
    if x in s.floats then Some(s.floats[x]) else None
  }

  /** Gauges never expire. */
  ghost predicate NoGaugeExpires(s: Store<Shaped>) {
    forall x :: x in s.expiry ==> !Gauge(x.k)
  }

  /** The two shapes of a gauge once the v2 side is seeded. */
  function SeededFloat(s: Store<Shaped>, k: Key, dual: bool, v2p: bool, x: Shaped): real {
    Level(Seed(s, PairOf(k, dual), v2p), x)
  }

  lemma TakeBackCells(s: Store<Shaped>, row: Row, k: Key, dual: bool, v2p: bool, now: int, x: Shaped)
    requires k in KeysOf(row) && Gauge(x.k) && NoGaugeExpires(s)
    ensures var s' := TakeBack(s, row, k, dual, v2p, now);
            && NoGaugeExpires(s')
            && (x.k != k ==> FloatAt(s', x) == FloatAt(s, x) && Level(s', x) == Level(s, x))
            && (x.k == k && (dual || x.Primary?) ==>
               Level(s', x) == Floored(SeededFloat(s, k, dual, v2p, x) - row.spend[k.rk]))
  {
    var s1 := Swept(s, now);
    assert FloatAt(s1, x) == FloatAt(s, x);
    assert FloatAt(s1, Primary(k)) == FloatAt(s, Primary(k)) && FloatAt(s1, Secondary(k)) == FloatAt(s, Secondary(k));
  }

  lemma {:induction false} TakeBackOthers(s: Store<Shaped>, row: Row, steps: seq<Key>, dual: bool, v2p: bool,
                                          now: int, x: Shaped)
    requires InRow(steps, row) && Gauge(x.k) && NoGaugeExpires(s)
    ensures var s' := TakeBackAll(s, row, steps, dual, v2p, now);
            NoGaugeExpires(s') && (x.k !in steps ==> FloatAt(s', x) == FloatAt(s, x))
  {
    if steps != [] {
      var front, k := steps[..|steps| - 1], steps[|steps| - 1];
      TakeBackOthers(s, row, front, dual, v2p, now, x);
      TakeBackCells(TakeBackAll(s, row, front, dual, v2p, now), row, k, dual, v2p, now, x);
    }
  }

  /** Whatever the order and in either shape: each gauge that was decremented drops once by
      what the row spent on it, from its seeded level, floored at zero; no other changes. */
  lemma {:induction false} GiveBackOnce(s: Store<Shaped>, row: Row, steps: seq<Key>, dual: bool, v2p: bool, now: int,
                                        x: Shaped)
    requires InRow(steps, row) && Distinct(steps)
    requires Gauge(x.k) && (dual || x.Primary?) && NoGaugeExpires(s)
    ensures Level(TakeBackAll(s, row, steps, dual, v2p, now), x)
         == if x.k in steps then Floored(SeededFloat(s, x.k, dual, v2p, x) - row.spend[x.k.rk]) else Level(s, x)
  {
    if steps != [] {
      var front, k := steps[..|steps| - 1], steps[|steps| - 1];
      var s1 := TakeBackAll(s, row, front, dual, v2p, now);
      TakeBackOthers(s, row, front, dual, v2p, now, x);
      TakeBackCells(s1, row, k, dual, v2p, now, x);
      assert steps == front + [k] && k !in front;
      if x.k == k {
        TakeBackOthers(s, row, front, dual, v2p, now, Primary(k));
        TakeBackOthers(s, row, front, dual, v2p, now, Secondary(k));
        SeedFromCells(s, s1, k, dual, v2p, x);
      } else {
        GiveBackOnce(s, row, front, dual, v2p, now, x);
      }
      hide TakeBack, SeededFloat, FloatAt, KeysOf, Level;
    }
  }

  lemma SeedFromCells(s: Store<Shaped>, s1: Store<Shaped>, k: Key, dual: bool, v2p: bool, x: Shaped)
    requires FloatAt(s1, Primary(k)) == FloatAt(s, Primary(k)) && FloatAt(s1, Secondary(k)) == FloatAt(s, Secondary(k))
    requires x.k == k
    ensures SeededFloat(s1, k, dual, v2p, x) == SeededFloat(s, k, dual, v2p, x)
  {
  }

  /** Enforcement on, no shadow mode and no truth provider: one attempt under the tier's limits. */
  predicate Plain(cfg: Option<Enforcement>, w: World) {
    Enabled(cfg) && !Shadow(cfg) && w.observed.NotWired?
  }

  /** A denied attempt claimed nothing and spent nothing. */
  lemma DenialIsSeedOnly(a: Attempt, q: Input, gauges: seq<string>, dual: bool, v2p: bool, now: int)
    requires Honest(a, q, gauges, dual, v2p, now) && !a.reply.admitted
    ensures a.post == SeedAll(Swept(a.pre, now), a.specs, v2p)
  {
  }

  /** A spend that landed had room on every gauge it carries a limit for, checked and taken
      in the same atomic step. */
  lemma LandedHadRoom(a: Attempt, q: Input, gauges: seq<string>, dual: bool, v2p: bool, now: int, i: nat)
    requires Honest(a, q, gauges, dual, v2p, now) && a.reply == LANDED && i < |a.specs|
    ensures var s, sp := SeedAll(Swept(a.pre, now), a.specs, v2p), a.specs[i];
            && (sp.orgLimit.Some? ==> Level(s, Primary(Key.Org(q.org, gauges[i]))) + 1.0 <= sp.orgLimit.value)
            && (q.user.Some? && sp.userLimit.Some? ==>
                  Level(s, Primary(Key.User(q.org, gauges[i], q.user.value))) + 1.0 <= sp.userLimit.value)
  {
    var s := SeedAll(Swept(a.pre, now), a.specs, v2p);
    NoneDenied(s, a.specs, 0);
    assert !Exceeds(s, a.specs[i]);
  }

  /** An admitted reply is a landed spend or a duplicate. */
  lemma AdmittedReply(a: Attempt, q: Input, gauges: seq<string>, dual: bool, v2p: bool, now: int)
    requires Honest(a, q, gauges, dual, v2p, now) && a.reply.admitted
    ensures a.reply == if a.reply.dup then Outcome(true, true, 0) else LANDED
  {
  }
}
