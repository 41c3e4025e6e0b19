/** What an engine operation leaves alone: cells that are not gauges change only by an
    accumulator add to that bucket or by claiming that latch. */
module Frames {
  import opened CounterStore
  import opened DualRefinement

  predicate SamePair<K(==)>(s: Store<K>, s': Store<K>, q: KeyPair<K>) {
    View(s', q.v1) == View(s, q.v1) && View(s', q.v2) == View(s, q.v2)
  }

  ghost predicate GaugesOnly<K(!new)>(s: Store<K>, s': Store<K>, u: iset<KeyPair<K>>) {
    forall q :: q in u && !q.kind.Gauge? ==> SamePair(s, s', q)
  }

  lemma SeedFrame<K(!new)>(s: Store<K>, u: iset<KeyPair<K>>, p: KeyPair<K>, m: Mode)
    requires Consistent(u) && IsGauge(u, p)
    ensures GaugesOnly(s, Seed(s, Resolve(m, p), V2Primary(m)), u)
  {
  }

  lemma AddFrame<K(!new)>(s: Store<K>, u: iset<KeyPair<K>>, p: KeyPair<K>, m: Mode, x: real)
    requires Consistent(u) && IsGauge(u, p)
    ensures GaugesOnly(s, AddBoth(s, Resolve(m, p), x), u)
  {
  }

  lemma {:induction false} SeedAllFrame<K(!new)>(s: Store<K>, u: iset<KeyPair<K>>, gs: seq<GaugeSpec<K>>, m: Mode)
    requires Consistent(u) && WfBundle(u, gs)
    ensures GaugesOnly(s, SeedAll(s, ResolveAll(m, gs), V2Primary(m)), u)
  {
    if gs != [] {
      var n := |gs| - 1;
      SeedAllFrame(s, u, gs[..n], m);
      assert ResolveAll(m, gs)[..n] == ResolveAll(m, gs[..n]);
      assert WfSpec(u, gs[n]);
      SeedSpecFrame(SeedAll(s, ResolveAll(m, gs[..n]), V2Primary(m)), u, gs[n], m);
    }
  }

  lemma SeedSpecFrame<K(!new)>(s: Store<K>, u: iset<KeyPair<K>>, g: GaugeSpec<K>, m: Mode)
    requires Consistent(u) && WfSpec(u, g)
    ensures GaugesOnly(s, SeedSpec(s, ResolveSpec(m, g), V2Primary(m)), u)
  {
    var v2p := V2Primary(m);
    SeedFrame(s, u, g.org, m);
    assert DualPair(Resolve(m, g.org).p, Resolve(m, g.org).s) == Resolve(m, g.org);
    if g.hasUser {
      var s1 := Seed(s, Resolve(m, g.org), v2p);
      SeedFrame(s1, u, g.user, m);
      SeedFrame(Seed(s1, Resolve(m, g.user), v2p), u, g.sq, m);
      assert DualPair(Resolve(m, g.user).p, Resolve(m, g.user).s) == Resolve(m, g.user);
      assert DualPair(Resolve(m, g.sq).p, Resolve(m, g.sq).s) == Resolve(m, g.sq);
    }
  }

  lemma ApplySpecFrame<K(!new)>(s: Store<K>, u: iset<KeyPair<K>>, g: GaugeSpec<K>, m: Mode)
    requires Consistent(u) && WfSpec(u, g)
    ensures GaugesOnly(s, ApplySpec(s, ResolveSpec(m, g), m.Dual?), u)
  {
    ShapesInterleave(s, g, m);
    AddFrame(s, u, g.org, m, g.delta);
    if g.hasUser {
      var s1 := AddBoth(s, Resolve(m, g.org), g.delta);
      AddFrame(s1, u, g.sq, m, 1.0);
      AddFrame(AddBoth(s1, Resolve(m, g.sq), 1.0), u, g.user, m, g.delta);
    }
  }

  lemma {:induction false} ApplyAllFrame<K(!new)>(s: Store<K>, u: iset<KeyPair<K>>, gs: seq<GaugeSpec<K>>, m: Mode)
    requires Consistent(u) && WfBundle(u, gs)
    ensures GaugesOnly(s, ApplyAll(s, ResolveAll(m, gs), m.Dual?), u)
  {
    if gs != [] {
      var n := |gs| - 1;
      ApplyAllFrame(s, u, gs[..n], m);
      assert ResolveAll(m, gs)[..n] == ResolveAll(m, gs[..n]);
      assert WfSpec(u, gs[n]);
      ApplySpecFrame(ApplyAll(s, ResolveAll(m, gs[..n]), m.Dual?), u, gs[n], m);
    }
  }

  /** The latch of `idem` is claimed on every shape the mode writes. */
  predicate Claimed<K(==)>(s: Store<K>, s': Store<K>, m: Mode, q: KeyPair<K>, t: int) {
    && View(s', Resolve(m, q).p) == Cell(View(s, Resolve(m, q).p).val, true, Some(t))
    && match m
       case Dual(v2p) => View(s', Resolve(m, q).s.value) == Cell(View(s, Resolve(m, q).s.value).val, true, Some(t))
       case V1Only => View(s', q.v2) == View(s, q.v2)
       case V2Only => View(s', q.v1) == View(s, q.v1)
  }

  lemma ClaimFrame<K(!new)>(s: Store<K>, u: iset<KeyPair<K>>, m: Mode, t: int, idem: KeyPair<K>)
    requires Consistent(u) && idem in u
    ensures var s' := ClaimBoth(s, Resolve(m, idem), t);
            && (forall q :: q in u && q != idem ==> SamePair(s, s', q))
            && Claimed(s, s', m, idem, t)
  {
  }

  lemma SamePairTrans<K>(s: Store<K>, s1: Store<K>, s2: Store<K>, m: Mode, q: KeyPair<K>, t: int)
    requires SamePair(s1, s2, q)
    ensures SamePair(s, s1, q) ==> SamePair(s, s2, q)
    ensures Claimed(s, s1, m, q, t) ==> Claimed(s, s2, m, q, t)
  {
  }

  lemma DecideFrame<K(!new)>(s: Store<K>, u: iset<KeyPair<K>>, m: Mode, t: int, idem: KeyPair<K>, hasIdem: bool,
                             gs: seq<GaugeSpec<K>>)
    requires Consistent(u) && idem in u && idem.kind.Latch? && WfBundle(u, gs)
    ensures var s' := Decide(s, Resolve(m, idem), hasIdem, t, ResolveAll(m, gs)).0;
            && (forall q :: q in u && !q.kind.Gauge? && q != idem ==> SamePair(s, s', q))
            && (SamePair(s, s', idem) || (!Latched(s, Resolve(m, idem)) && Claimed(s, s', m, idem, t)))
  {
    var s2 := if hasIdem then ClaimBoth(s, Resolve(m, idem), t) else s;
    ClaimFrame(s, u, m, t, idem);
    ApplyAllFrame(s2, u, gs, m);
    var s' := ApplyAll(s2, ResolveAll(m, gs), m.Dual?);
    SamePairTrans(s, s2, s', m, idem, t);
    forall q | q in u && !q.kind.Gauge? && q != idem ensures SamePair(s, s', q) {
      SamePairTrans(s, s2, s', m, q, t);
    }
    hide SamePair, Claimed, ApplyAll, ClaimBoth;
  }

  /** How one operation may change a pair that is not a gauge. */
  ghost predicate OtherStep<K>(s0: Store<K>, s': Store<K>, m: Mode, now: int, op: Op<K>, q: KeyPair<K>) {
    || SamePair(s0, s', q)
    || (op.AccAdd? && q == op.acc)
    || (op.Acquire? && q == op.idem && !Latched(s0, Resolve(m, q)) && Claimed(s0, s', m, q, now + LatchTtl(op.ttl)))
  }

  ghost predicate OtherSteps<K(!new)>(s: Store<K>, s': Store<K>, m: Mode, now: int, op: Op<K>, u: iset<KeyPair<K>>) {
    s' == s || forall q :: q in u && !q.kind.Gauge? ==> OtherStep(Swept(s, now), s', m, now, op, q)
  }

  lemma SpendUserFrame<K(!new)>(s0: Store<K>, u: iset<KeyPair<K>>, m: Mode, org: KeyPair<K>, user: KeyPair<K>,
                                sq: KeyPair<K>, x: real)
    requires Consistent(u) && IsGauge(u, org) && IsGauge(u, user) && IsGauge(u, sq)
    ensures var v2p := V2Primary(m);
            var s3 := Seed(Seed(Seed(s0, Resolve(m, org), v2p), Resolve(m, user), v2p), Resolve(m, sq), v2p);
            GaugesOnly(s0, AddBoth(AddBoth(s3, Resolve(m, org), x), Resolve(m, user), x), u)
  {
    var v2p := V2Primary(m);
    SeedFrame(s0, u, org, m);
    var s1 := Seed(s0, Resolve(m, org), v2p);
    SeedFrame(s1, u, user, m);
    var s2 := Seed(s1, Resolve(m, user), v2p);
    SeedFrame(s2, u, sq, m);
    var s3 := Seed(s2, Resolve(m, sq), v2p);
    AddFrame(s3, u, org, m, x);
    AddFrame(AddBoth(s3, Resolve(m, org), x), u, user, m, x);
  }

  lemma SpendFrame<K(!new)>(s: Store<K>, u: iset<KeyPair<K>>, m: Mode, now: int, op: Op<K>)
    requires Consistent(u) && WfOp(u, op) && (op.SpendOrg? || op.SpendUser? || op.Release?)
    ensures GaugesOnly(Swept(s, now), Exec(s, now, m, op).0, u)
  {
    var s0 := Swept(s, now);
    match op
    case SpendOrg(p, x) =>
      SeedFrame(s0, u, p, m);
      AddFrame(Seed(s0, Resolve(m, p), V2Primary(m)), u, p, m, x);
    case SpendUser(org, user, sq, x) =>
      SpendUserFrame(s0, u, m, org, user, sq, x);
    case Release(p, x) =>
      SeedFrame(s0, u, p, m);
  }

  /** Sweep done: seed the bundle, then decide. */
  lemma BundleFrame<K(!new)>(s0: Store<K>, u: iset<KeyPair<K>>, m: Mode, now: int, op: Op<K>)
    requires Consistent(u) && WfOp(u, op) && op.Acquire?
    ensures var us := ResolveAll(m, op.bundle);
            var s1 := SeedAll(s0, us, V2Primary(m));
            var s' := Decide(s1, Resolve(m, op.idem), op.hasIdem, now + LatchTtl(op.ttl), us).0;
            forall q :: q in u && !q.kind.Gauge? ==> OtherStep(s0, s', m, now, op, q)
  {
    var us := ResolveAll(m, op.bundle);
    SeedAllFrame(s0, u, op.bundle, m);
    var s1 := SeedAll(s0, us, V2Primary(m));
    DecideFrame(s1, u, m, now + LatchTtl(op.ttl), op.idem, op.hasIdem, op.bundle);
    hide SamePair, Claimed, Decide, SeedAll, OtherStep;
    var s' := Decide(s1, Resolve(m, op.idem), op.hasIdem, now + LatchTtl(op.ttl), us).0;
    forall q | q in u && !q.kind.Gauge? ensures OtherStep(s0, s', m, now, op, q) {
      SeedThenStep(s0, s1, s', m, now, op, q);
    }
  }

  /** Seeding does not touch the pair, so what happens after it happens to the whole. */
  lemma SeedThenStep<K>(s0: Store<K>, s1: Store<K>, s': Store<K>, m: Mode, now: int, op: Op<K>, q: KeyPair<K>)
    requires op.Acquire? && SamePair(s0, s1, q)
    requires SamePair(s1, s', q)
             || (q == op.idem && !Latched(s1, Resolve(m, q)) && Claimed(s1, s', m, q, now + LatchTtl(op.ttl)))
    ensures OtherStep(s0, s', m, now, op, q)
  {
  }

  lemma ExecAcquire<K>(s: Store<K>, m: Mode, now: int, op: Op<K>)
    requires op.Acquire?
    ensures var us := ResolveAll(m, op.bundle);
            Exec(s, now, m, op).0 ==
            if FirstBad(us, 0) > 0 then s
            else Decide(SeedAll(Swept(s, now), us, V2Primary(m)), Resolve(m, op.idem), op.hasIdem,
                        now + LatchTtl(op.ttl), us).0
  {
  }

  lemma AcquireFrame<K(!new)>(s: Store<K>, u: iset<KeyPair<K>>, m: Mode, now: int, op: Op<K>)
    requires Consistent(u) && WfOp(u, op) && op.Acquire?
    ensures OtherSteps(s, Exec(s, now, m, op).0, m, now, op, u)
  {
    hide *;
    ExecAcquire(s, m, now, op);
    if FirstBad(ResolveAll(m, op.bundle), 0) > 0 {
      Untouched(s, m, now, op, u);
    } else {
      BundleFrame(Swept(s, now), u, m, now, op);
      Touched(s, Exec(s, now, m, op).0, m, now, op, u);
    }
  }

  lemma Untouched<K(!new)>(s: Store<K>, m: Mode, now: int, op: Op<K>, u: iset<KeyPair<K>>)
    ensures OtherSteps(s, s, m, now, op, u)
  {
  }

  lemma Touched<K(!new)>(s: Store<K>, s': Store<K>, m: Mode, now: int, op: Op<K>, u: iset<KeyPair<K>>)
    requires forall q :: q in u && !q.kind.Gauge? ==> OtherStep(Swept(s, now), s', m, now, op, q)
    ensures OtherSteps(s, s', m, now, op, u)
  {
  }

  lemma ExecFrame<K(!new)>(s: Store<K>, u: iset<KeyPair<K>>, m: Mode, now: int, op: Op<K>)
    requires Consistent(u) && WfOp(u, op)
    ensures OtherSteps(s, Exec(s, now, m, op).0, m, now, op, u)
  {
    match op
    case Acquire(_, _, _, _) => AcquireFrame(s, u, m, now, op);
    case AccAdd(acc, x) =>
      forall q | q in u && !q.kind.Gauge? && q != acc ensures SamePair(Swept(s, now), Exec(s, now, m, op).0, q) {
        AccrueFrame(Swept(s, now), Resolve(m, acc), V2Primary(m), x, acc.kind.ttl, now, q.v1);
        AccrueFrame(Swept(s, now), Resolve(m, acc), V2Primary(m), x, acc.kind.ttl, now, q.v2);
      }
    case Read(_) =>
    case _ => SpendFrame(s, u, m, now, op);
  }

  // ----- no operation removes a level -----

  lemma {:induction false} SeedAllStays<K>(s: Store<K>, specs: seq<AcquireSpec<K>>, v2p: bool)
    ensures s.floats.Keys <= SeedAll(s, specs, v2p).floats.Keys && SeedAll(s, specs, v2p).latches == s.latches
  {
    if specs != [] {
      SeedAllStays(s, specs[..|specs| - 1], v2p);
    }
  }

  lemma {:induction false} ApplyAllStays<K>(s: Store<K>, specs: seq<AcquireSpec<K>>, dual: bool)
    requires AllPaired(specs, dual)
    ensures s.floats.Keys <= ApplyAll(s, specs, dual).floats.Keys && ApplyAll(s, specs, dual).latches == s.latches
  {
    if specs != [] {
      ApplyAllStays(s, specs[..|specs| - 1], dual);
      var s1 := ApplyAll(s, specs[..|specs| - 1], dual);
      assert s1.floats.Keys <= ApplySpec(s1, specs[|specs| - 1], dual).floats.Keys;
    }
  }

  ghost predicate Stays<K>(s: Store<K>, s': Store<K>) {
    s.floats.Keys <= s'.floats.Keys && s.latches <= s'.latches
  }

  lemma DecideStays<K>(s: Store<K>, idem: DualPair<K>, hasIdem: bool, t: int, specs: seq<AcquireSpec<K>>)
    requires AllPaired(specs, idem.s.Some?)
    ensures Stays(s, Decide(s, idem, hasIdem, t, specs).0)
  {
    ApplyAllStays(if hasIdem then ClaimBoth(s, idem, t) else s, specs, idem.s.Some?);
  }

  lemma AcquireStays<K>(s: Store<K>, m: Mode, now: int, op: Op<K>)
    requires op.Acquire?
    ensures Exec(s, now, m, op).0 == s || Stays(Swept(s, now), Exec(s, now, m, op).0)
  {
    hide *;
    var us := ResolveAll(m, op.bundle);
    ExecAcquire(s, m, now, op);
    if FirstBad(us, 0) == 0 {
      var s1 := SeedAll(Swept(s, now), us, V2Primary(m));
      SeedAllStays(Swept(s, now), us, V2Primary(m));
      DecideStays(s1, Resolve(m, op.idem), op.hasIdem, now + LatchTtl(op.ttl), us);
      StaysTrans(Swept(s, now), s1, Exec(s, now, m, op).0);
    }
  }

  lemma StaysTrans<K>(s: Store<K>, s1: Store<K>, s2: Store<K>)
    requires s.floats.Keys <= s1.floats.Keys && s1.latches == s.latches && Stays(s1, s2)
    ensures Stays(s, s2)
  {
  }

  lemma SpendUserStays<K>(s: Store<K>, now: int, org: DualPair<K>, user: DualPair<K>, sq: DualPair<K>, x: real,
                          v2p: bool)
    ensures Stays(Swept(s, now), DualSpendUser(s, now, org, user, sq, x, v2p).0)
  {
    var s0 := Swept(s, now);
    var s1 := Seed(s0, org, v2p);
    var s2 := Seed(s1, user, v2p);
    var s3 := Seed(s2, sq, v2p);
    assert Stays(s0, s1) && Stays(s1, s2) && Stays(s2, s3);
    var s4 := AddBoth(s3, org, x);
    assert Stays(s3, s4);
  }

  /** Only time takes levels and latches away. */
  lemma ExecStays<K>(s: Store<K>, m: Mode, now: int, op: Op<K>)
    ensures Exec(s, now, m, op).0 == s || Stays(Swept(s, now), Exec(s, now, m, op).0)
  {
    match op
    case Acquire(_, _, _, _) => AcquireStays(s, m, now, op);
    case SpendUser(org, user, sq, x) =>
      SpendUserStays(s, now, Resolve(m, org), Resolve(m, user), Resolve(m, sq), x, V2Primary(m));
    case SpendOrg(_, _) =>
    case Release(_, _) =>
    case AccAdd(_, _) =>
    case Read(_) =>
  }

  // ----- operations on other counters -----

  /** The pair shares no key with the universe. */
  ghost predicate Apart<K(!new)>(u: iset<KeyPair<K>>, p: KeyPair<K>) {
    forall q :: q in u ==> p.v1 != q.v1 && p.v1 != q.v2 && p.v2 != q.v1 && p.v2 != q.v2
  }

  ghost predicate AllApart<K(!new)>(u: iset<KeyPair<K>>, w: iset<KeyPair<K>>) {
    forall p :: p in w ==> Apart(u, p)
  }

  /** The operation uses counters of some consistent universe of its own. */
  ghost predicate Foreign<K(!new)>(u: iset<KeyPair<K>>, op: Op<K>) {
    exists w: iset<KeyPair<K>> :: Consistent(w) && WfOp(w, op) && AllApart(u, w)
  }

  ghost predicate SameOn<K(!new)>(s: Store<K>, s': Store<K>, u: iset<KeyPair<K>>) {
    forall p :: p in u ==> SamePair(s, s', p)
  }

  /** A larger universe takes the same operations. */
  lemma WfGrows<K(!new)>(w: iset<KeyPair<K>>, w': iset<KeyPair<K>>, op: Op<K>)
    requires WfOp(w, op) && w <= w'
    ensures WfOp(w', op)
  {
    match op
    case Acquire(_, _, _, bundle) =>
      forall i | 0 <= i < |bundle| ensures WfSpec(w', bundle[i]) {
        assert WfSpec(w, bundle[i]);
      }
    case _ =>
  }

  /** An operation on other counters leaves the universe alone: seen as a latch of an
      enlarged universe, a pair changes only if the operation names it. */
  lemma ForeignFrame<K(!new)>(s: Store<K>, u: iset<KeyPair<K>>, m: Mode, now: int, op: Op<K>)
    requires Consistent(u) && Foreign(u, op) && Swept(s, now) == s
    ensures SameOn(s, Exec(s, now, m, op).0, u)
  {
    var w: iset<KeyPair<K>> :| Consistent(w) && WfOp(w, op) && AllApart(u, w);
    var s' := Exec(s, now, m, op).0;
    forall p | p in u ensures SamePair(s, s', p) {
      var seen := KeyPair(p.v1, p.v2, Latch);
      var all := w + iset{seen};
      assert p.v1 != p.v2;
      assert Consistent(all) by {
        forall q | q in w ensures Apart(u, q) && q.v1 != p.v1 && q.v1 != p.v2 && q.v2 != p.v1 && q.v2 != p.v2 {
          assert Apart(u, q);
        }
      }
      WfGrows(w, all, op);
      ExecFrame(s, all, m, now, op);
      assert op.AccAdd? ==> Apart(u, op.acc);
      assert op.Acquire? ==> Apart(u, op.idem);
      if s' != s {
        assert OtherStep(Swept(s, now), s', m, now, op, seen);
      }
    }
  }
}
