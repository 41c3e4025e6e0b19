/** Two physical copies of every counter, a switchable primary and, at the end, the
    deletion of one copy: together they answer like one single-shape store.

    A `KeyPair` is one logical counter with its v1 and v2 key.  `Exec` runs one engine
    operation in a keyspace mode; the reference is the same operation in mode `V1Only`
    on a store of its own. */
module DualRefinement {
  import opened CounterStore

  /** What a key holds.  The ttl of an accumulator bucket follows from its period label. */
  datatype Kind = Gauge | Acc(ttl: int) | Latch

  datatype KeyPair<+K> = KeyPair(v1: K, v2: K, kind: Kind)

  /** No two pairs share a key, and no v1 key is a v2 key. */
  ghost predicate Consistent<K(!new)>(u: iset<KeyPair<K>>) {
    forall p, q :: p in u && q in u ==>
      p.v1 != q.v2 && (p.v1 == q.v1 ==> p == q) && (p.v2 == q.v2 ==> p == q)
  }

  /** The legal (version, dual-write) declarations: (1,false), (2,false), (1,true), (2,true). */
  datatype Mode = V1Only | V2Only | Dual(v2p: bool)

  function V2Primary(m: Mode): bool {
    m.V2Only? || (m.Dual? && m.v2p)
  }

  function Resolve<K>(m: Mode, p: KeyPair<K>): (dp: DualPair<K>)
    ensures dp.s.Some? == m.Dual?
  {
    match m
    case V1Only => DualPair(p.v1, None)
    case V2Only => DualPair(p.v2, None)
    case Dual(v2p) => if v2p then DualPair(p.v2, Some(p.v1)) else DualPair(p.v1, Some(p.v2))
  }

  datatype GaugeSpec<+K> = GaugeSpec(
    org: KeyPair<K>, hasUser: bool, user: KeyPair<K>, sq: KeyPair<K>,
    delta: real, orgLimit: Option<real>, userLimit: Option<real>)

  function ResolveSpec<K>(m: Mode, g: GaugeSpec<K>): AcquireSpec<K> {
    var o, u, q := Resolve(m, g.org), Resolve(m, g.user), Resolve(m, g.sq);
    AcquireSpec(o.p, u.p, q.p, g.hasUser, g.delta, g.orgLimit, g.userLimit, o.s, u.s, q.s)
  }

  function ResolveAll<K>(m: Mode, gs: seq<GaugeSpec<K>>): (specs: seq<AcquireSpec<K>>)
    ensures |specs| == |gs|
    ensures forall i :: 0 <= i < |gs| ==> specs[i] == ResolveSpec(m, gs[i])
    ensures AllPaired(specs, m.Dual?)
  {
    seq(|gs|, i requires 0 <= i < |gs| => ResolveSpec(m, gs[i]))
  }

  datatype Op<+K> =
    | SpendOrg(org: KeyPair<K>, delta: real)
    | SpendUser(orgU: KeyPair<K>, user: KeyPair<K>, sq: KeyPair<K>, deltaU: real)
    | Release(gauge: KeyPair<K>, amount: real)
    | AccAdd(acc: KeyPair<K>, charge: real)
    | Acquire(idem: KeyPair<K>, hasIdem: bool, ttl: int, bundle: seq<GaugeSpec<K>>)
    | Read(key: KeyPair<K>)

  datatype Answer =
    | Reached(v: real)
    | ReachedBoth(o: real, u: real)
    | Reading(r: Option<real>)
    | Acquired(reply: AcquireReply)

  function Exec<K(==)>(s: Store<K>, now: int, m: Mode, op: Op<K>): (Store<K>, Answer) {
    var v2p := V2Primary(m);
    match op
    case SpendOrg(org, d) =>
      var (s', v) := DualSpendOrg(s, now, Resolve(m, org), d, v2p); (s', Reached(v))
    case SpendUser(org, user, sq, d) =>
      var (s', o, u) := DualSpendUser(s, now, Resolve(m, org), Resolve(m, user), Resolve(m, sq), d, v2p);
      (s', ReachedBoth(o, u))
    case Release(g, amount) =>
      var (s', v) := DualDecrFloor(s, now, Resolve(m, g), amount, v2p); (s', Reached(v))
    case AccAdd(acc, d) =>
      var ttl := if acc.kind.Acc? then acc.kind.ttl else 0;
      var (s', v) := DualAccAdd(s, now, Resolve(m, acc), d, ttl, v2p); (s', Reached(v))
    case Acquire(idem, hasIdem, ttl, bundle) =>
      var (s', r) := DualAcquire(s, now, Resolve(m, idem), hasIdem, ttl, v2p, ResolveAll(m, bundle)); (s', Acquired(r))
    case Read(key) =>
      var (s', r) := GetDual(s, now, Resolve(m, key)); (s', Reading(r))
  }

  ghost predicate IsGauge<K>(u: iset<KeyPair<K>>, p: KeyPair<K>) {
    p in u && p.kind.Gauge?
  }

  ghost predicate WfSpec<K>(u: iset<KeyPair<K>>, g: GaugeSpec<K>) {
    IsGauge(u, g.org) && IsGauge(u, g.user) && IsGauge(u, g.sq)
  }

  ghost predicate WfBundle<K>(u: iset<KeyPair<K>>, gs: seq<GaugeSpec<K>>) {
    forall i :: 0 <= i < |gs| ==> WfSpec(u, gs[i])
  }

  /** The operation names pairs of the universe, each used as what it is. */
  ghost predicate WfOp<K>(u: iset<KeyPair<K>>, op: Op<K>) {
    match op
    case SpendOrg(org, _) => IsGauge(u, org)
    case SpendUser(org, user, sq, _) => IsGauge(u, org) && IsGauge(u, user) && IsGauge(u, sq)
    case Release(g, _) => IsGauge(u, g)
    case AccAdd(acc, _) => acc in u && acc.kind.Acc?
    case Acquire(idem, _, _, bundle) => idem in u && idem.kind.Latch? && WfBundle(u, bundle)
    case Read(key) => key in u && !key.kind.Latch?
  }

  // ----- the relation between the dual store and the reference -----

  predicate KindOk(kind: Kind, c: Cell) {
    match kind
    case Gauge => !c.latch && c.exp.None?
    case Acc(ttl) => !c.latch && (ttl <= 0 || c.val.None? ==> c.exp.None?)
    case Latch => c.val.None? && (!c.latch ==> c.exp.None?)
  }

  /** What a v1 cell may still hold once reaping has begun: nothing that could be
      seeded, read or taken for a latch after its v2 twin is gone. */
  predicate Shadow(c1: Cell, c2: Cell) {
    && (c1.val.Some? ==> c2.val.Some?)
    && (c1.latch ==> c2.latch)
    && (c2.exp.Some? ==> c1 == BLANK || (c1.exp.Some? && c1.exp.value <= c2.exp.value))
  }

  /** Before reaping the v1 cell is the truth and the v2 cell a full copy or absent;
      afterwards the v2 cell is the truth. */
  predicate Rel<K(==)>(final: bool, d: Store<K>, a: Store<K>, p: KeyPair<K>) {
    var c1, c2, ca := View(d, p.v1), View(d, p.v2), View(a, p.v1);
    && KindOk(p.kind, c1) && KindOk(p.kind, c2) && KindOk(p.kind, ca)
    && if final then c2 == ca && Shadow(c1, c2) else c1 == ca && (c2 == c1 || c2 == BLANK)
  }

  ghost predicate AllRel<K(!new)>(final: bool, d: Store<K>, a: Store<K>, u: iset<KeyPair<K>>) {
    forall p :: p in u ==> Rel(final, d, a, p)
  }

  predicate Allowed(final: bool, m: Mode) {
    if final then m == Dual(true) || m == V2Only else m.Dual?
  }

  predicate Seeded<K(==)>(d: Store<K>, p: KeyPair<K>) {
    View(d, p.v1).val.Some? ==> View(d, p.v2).val.Some?
  }

  /** No pair loses its v2 copy, and none gains a v1 level without one. */
  ghost predicate Keeps<K(!new)>(d: Store<K>, d': Store<K>, u: iset<KeyPair<K>>) {
    forall q :: q in u && Seeded(d, q) ==> Seeded(d', q)
  }

  /** The v1 copy of a bucket that a v2-only add renews holds nothing, or goes no later
      than the renewed bucket. */
  predicate CopyExpires<K(==)>(d: Store<K>, p: KeyPair<K>, now: int) {
    var c := View(d, p.v1);
    p.kind.Acc? && p.kind.ttl > 0 && c.val.Some? ==> c.exp.Some? && c.exp.value <= now + p.kind.ttl
  }

  // ----- primitives preserve the relation -----

  lemma SweepRel<K(!new)>(final: bool, d: Store<K>, a: Store<K>, u: iset<KeyPair<K>>, now: int)
    requires AllRel(final, d, a, u)
    ensures AllRel(final, Swept(d, now), Swept(a, now), u)
  {
    forall p | p in u ensures Rel(final, Swept(d, now), Swept(a, now), p) {
      SweptView(d, now, p.v1);
      SweptView(d, now, p.v2);
      SweptView(a, now, p.v1);
      assert Rel(final, d, a, p);
    }
  }

  lemma SeedRel<K(!new)>(final: bool, d: Store<K>, a: Store<K>, u: iset<KeyPair<K>>, p: KeyPair<K>, m: Mode)
    requires Consistent(u) && AllRel(final, d, a, u) && IsGauge(u, p) && Allowed(final, m)
    ensures var d' := Seed(d, Resolve(m, p), V2Primary(m));
            AllRel(final, d', a, u) && Seeded(d', p) && Keeps(d, d', u)
  {
    var d' := Seed(d, Resolve(m, p), V2Primary(m));
    assert Rel(final, d, a, p);
    forall q | q in u ensures Rel(final, d', a, q) && (Seeded(d, q) ==> Seeded(d', q)) {
      assert Rel(final, d, a, q);
    }
  }

  lemma LevelRel<K(!new)>(final: bool, d: Store<K>, a: Store<K>, p: KeyPair<K>, m: Mode)
    requires Rel(final, d, a, p) && Seeded(d, p) && Allowed(final, m)
    ensures Level(d, Resolve(m, p).p) == Level(a, p.v1)
  {
  }

  lemma AddRel<K(!new)>(final: bool, d: Store<K>, a: Store<K>, u: iset<KeyPair<K>>, p: KeyPair<K>, m: Mode, x: real)
    requires Consistent(u) && AllRel(final, d, a, u) && IsGauge(u, p) && Allowed(final, m) && Seeded(d, p)
    ensures var d', a' := AddBoth(d, Resolve(m, p), x), Add(a, p.v1, x);
            && AllRel(final, d', a', u)
            && Keeps(d, d', u)
  {
    var d', a' := AddBoth(d, Resolve(m, p), x), Add(a, p.v1, x);
    assert Rel(final, d, a, p);
    forall q | q in u ensures Rel(final, d', a', q) && (Seeded(d, q) ==> Seeded(d', q)) {
      assert Rel(final, d, a, q);
    }
  }

  function DecrBoth<K(==)>(s: Store<K>, dp: DualPair<K>, x: real): Store<K> {
    var s1 := Decr(s, dp.p, x);
    if dp.s.Some? then Decr(s1, dp.s.value, x) else s1
  }

  lemma DecrFrame<K>(s: Store<K>, dp: DualPair<K>, x: real, k: K)
    requires k != dp.p && dp.s != Some(k)
    ensures View(DecrBoth(s, dp, x), k) == View(s, k)
  {
  }

  lemma DecrOwn<K(!new)>(final: bool, d: Store<K>, a: Store<K>, p: KeyPair<K>, m: Mode, x: real)
    requires p.v1 != p.v2 && Rel(final, d, a, p) && p.kind.Gauge? && Allowed(final, m) && Seeded(d, p)
    ensures var d', a' := DecrBoth(d, Resolve(m, p), x), Decr(a, p.v1, x);
            && Rel(final, d', a', p) && Seeded(d', p)
            && Level(Decr(d, Resolve(m, p).p, x), Resolve(m, p).p) == Level(a', p.v1)
  {
  }

  /** A pair whose cells did not change is related as before. */
  lemma SameCells<K(!new)>(final: bool, d: Store<K>, d': Store<K>, a: Store<K>, a': Store<K>, q: KeyPair<K>)
    requires Rel(final, d, a, q)
    requires View(d', q.v1) == View(d, q.v1) && View(d', q.v2) == View(d, q.v2) && View(a', q.v1) == View(a, q.v1)
    ensures Rel(final, d', a', q) && (Seeded(d, q) ==> Seeded(d', q))
  {
  }

  lemma DecrRel<K(!new)>(final: bool, d: Store<K>, a: Store<K>, u: iset<KeyPair<K>>, p: KeyPair<K>, m: Mode, x: real)
    requires Consistent(u) && AllRel(final, d, a, u) && IsGauge(u, p) && Allowed(final, m) && Seeded(d, p)
    ensures var dp := Resolve(m, p);
            var d', a' := DecrBoth(d, dp, x), Decr(a, p.v1, x);
            AllRel(final, d', a', u) && Level(Decr(d, dp.p, x), dp.p) == Level(a', p.v1) && Keeps(d, d', u)
  {
    var dp := Resolve(m, p);
    var d', a' := DecrBoth(d, dp, x), Decr(a, p.v1, x);
    assert Rel(final, d, a, p);
    DecrOwn(final, d, a, p, m, x);
    forall q | q in u ensures Rel(final, d', a', q) && (Seeded(d, q) ==> Seeded(d', q)) {
      assert Rel(final, d, a, q);
      if q != p {
        DecrFrame(d, dp, x, q.v1);
        DecrFrame(d, dp, x, q.v2);
        DecrFrame(a, DualPair(p.v1, None), x, q.v1);
        SameCells(final, d, d', a, a', q);
      }
    }
  }

  /** An accumulator add after the sweep: seed, add on every shape, renew the expiry. */
  function Accrue<K(==)>(s: Store<K>, dp: DualPair<K>, v2p: bool, x: real, ttl: int, now: int): Store<K> {
    var s0 := AddBoth(Seed(s, dp, v2p), dp, x);
    if ttl > 0 then ExpireBoth(s0, dp, now + ttl) else s0
  }

  lemma AccrueFrame<K>(s: Store<K>, dp: DualPair<K>, v2p: bool, x: real, ttl: int, now: int, k: K)
    requires k != dp.p && dp.s != Some(k)
    ensures View(Accrue(s, dp, v2p, x, ttl, now), k) == View(s, k)
  {
  }

  /** Seeding copies no expiry; the renewal that follows sets it on both sides. */
  lemma AccrueOwn<K(!new)>(final: bool, d: Store<K>, a: Store<K>, p: KeyPair<K>, m: Mode, now: int, x: real)
    requires p.v1 != p.v2 && Rel(final, d, a, p) && p.kind.Acc? && Allowed(final, m)
    requires final && m.V2Only? ==> CopyExpires(d, p, now)
    ensures var d' := Accrue(d, Resolve(m, p), V2Primary(m), x, p.kind.ttl, now);
            var a' := Accrue(a, Resolve(V1Only, p), false, x, p.kind.ttl, now);
            Rel(final, d', a', p) && Level(d', Resolve(m, p).p) == Level(a', p.v1) && Seeded(d', p)
  {
    var ttl := p.kind.ttl;
    var d' := Accrue(d, Resolve(m, p), V2Primary(m), x, ttl, now);
    var a' := Accrue(a, Resolve(V1Only, p), false, x, ttl, now);
    var e := if ttl > 0 then Some(now + ttl) else None;
    assert View(a', p.v1) == Cell(Some(Level(a, p.v1) + x), false, e);
    if final {
      assert View(d', p.v2) == Cell(Some(Level(d, p.v2) + x), false, e);
      if m.V2Only? {
        assert View(d', p.v1) == View(d, p.v1);
      } else {
        assert View(d', p.v1) == Cell(Some(Level(d, p.v1) + x), false, e);
      }
    } else {
      assert View(d', p.v1) == Cell(Some(Level(d, p.v1) + x), false, e);
      assert View(d', p.v2) == View(d', p.v1);
    }
  }

  lemma AccAddRel<K(!new)>(final: bool, d: Store<K>, a: Store<K>, u: iset<KeyPair<K>>, p: KeyPair<K>, m: Mode,
                           now: int, x: real)
    requires Consistent(u) && AllRel(final, d, a, u) && p in u && p.kind.Acc? && Allowed(final, m)
    requires final && m.V2Only? ==> CopyExpires(d, p, now)
    ensures var d' := Accrue(d, Resolve(m, p), V2Primary(m), x, p.kind.ttl, now);
            var a' := Accrue(a, Resolve(V1Only, p), false, x, p.kind.ttl, now);
            AllRel(final, d', a', u) && Level(d', Resolve(m, p).p) == Level(a', p.v1) && Keeps(d, d', u)
  {
    var d' := Accrue(d, Resolve(m, p), V2Primary(m), x, p.kind.ttl, now);
    var a' := Accrue(a, Resolve(V1Only, p), false, x, p.kind.ttl, now);
    AccrueOwn(final, d, a, p, m, now, x);
    forall q | q in u ensures Rel(final, d', a', q) && (Seeded(d, q) ==> Seeded(d', q)) {
      assert Rel(final, d, a, q);
      if q != p {
        AccrueFrame(d, Resolve(m, p), V2Primary(m), x, p.kind.ttl, now, q.v1);
        AccrueFrame(d, Resolve(m, p), V2Primary(m), x, p.kind.ttl, now, q.v2);
        AccrueFrame(a, Resolve(V1Only, p), false, x, p.kind.ttl, now, q.v1);
      }
    }
  }

  lemma ClaimRel<K(!new)>(final: bool, d: Store<K>, a: Store<K>, u: iset<KeyPair<K>>, p: KeyPair<K>, m: Mode, t: int)
    requires Consistent(u) && AllRel(final, d, a, u) && p in u && p.kind.Latch? && Allowed(final, m)
    requires !Latched(d, Resolve(m, p))
    ensures var d', a' := ClaimBoth(d, Resolve(m, p), t), Claim(a, p.v1, t);
            && AllRel(final, d', a', u)
            && Keeps(d, d', u)
  {
    var d', a' := ClaimBoth(d, Resolve(m, p), t), Claim(a, p.v1, t);
    assert Rel(final, d, a, p);
    forall q | q in u ensures Rel(final, d', a', q) && (Seeded(d, q) ==> Seeded(d', q)) {
      assert Rel(final, d, a, q);
    }
  }

  // ----- the bundle acquire -----

  predicate SpecSeeded<K(==)>(d: Store<K>, g: GaugeSpec<K>) {
    Seeded(d, g.org) && (g.hasUser ==> Seeded(d, g.user) && Seeded(d, g.sq))
  }

  lemma SeedSpecRel<K(!new)>(final: bool, d: Store<K>, a: Store<K>, u: iset<KeyPair<K>>, g: GaugeSpec<K>, m: Mode)
    requires Consistent(u) && AllRel(final, d, a, u) && WfSpec(u, g) && Allowed(final, m)
    ensures var d' := SeedSpec(d, ResolveSpec(m, g), V2Primary(m));
            AllRel(final, d', a, u) && SpecSeeded(d', g) && Keeps(d, d', u)
  {
    var v2p := V2Primary(m);
    SeedRel(final, d, a, u, g.org, m);
    var d1 := Seed(d, Resolve(m, g.org), v2p);
    assert DualPair(Resolve(m, g.org).p, Resolve(m, g.org).s) == Resolve(m, g.org);
    if g.hasUser {
      SeedRel(final, d1, a, u, g.user, m);
      var d2 := Seed(d1, Resolve(m, g.user), v2p);
      SeedRel(final, d2, a, u, g.sq, m);
      assert DualPair(Resolve(m, g.user).p, Resolve(m, g.user).s) == Resolve(m, g.user);
      assert DualPair(Resolve(m, g.sq).p, Resolve(m, g.sq).s) == Resolve(m, g.sq);
    }
  }

  lemma {:induction false} SeedAllRel<K(!new)>(final: bool, d: Store<K>, a: Store<K>, u: iset<KeyPair<K>>,
                                               gs: seq<GaugeSpec<K>>, m: Mode)
    requires Consistent(u) && AllRel(final, d, a, u) && WfBundle(u, gs) && Allowed(final, m)
    ensures var d' := SeedAll(d, ResolveAll(m, gs), V2Primary(m));
            && AllRel(final, d', a, u) && Keeps(d, d', u)
            && forall i :: 0 <= i < |gs| ==> SpecSeeded(d', gs[i])
  {
    if gs != [] {
      var n := |gs| - 1;
      SeedAllRel(final, d, a, u, gs[..n], m);
      assert ResolveAll(m, gs)[..n] == ResolveAll(m, gs[..n]);
      var d1 := SeedAll(d, ResolveAll(m, gs[..n]), V2Primary(m));
      assert WfSpec(u, gs[n]);
      SeedSpecRel(final, d1, a, u, gs[n], m);
      var d' := SeedAll(d, ResolveAll(m, gs), V2Primary(m));
      forall i | 0 <= i < |gs| ensures SpecSeeded(d', gs[i]) {
        assert WfSpec(u, gs[i]);
        if i < n {
          assert gs[..n][i] == gs[i];
        }
      }
    }
  }

  lemma {:induction false} DeniedRel<K(!new)>(final: bool, d: Store<K>, a: Store<K>, u: iset<KeyPair<K>>,
                                              gs: seq<GaugeSpec<K>>, m: Mode, i: nat)
    requires AllRel(final, d, a, u) && WfBundle(u, gs) && Allowed(final, m) && i <= |gs|
    requires forall j :: 0 <= j < |gs| ==> SpecSeeded(d, gs[j])
    ensures FirstDenied(d, ResolveAll(m, gs), i) == FirstDenied(a, ResolveAll(V1Only, gs), i)
    decreases |gs| - i
  {
    if i < |gs| {
      var g := gs[i];
      assert WfSpec(u, g) && SpecSeeded(d, g);
      LevelRel(final, d, a, g.org, m);
      if g.hasUser {
        LevelRel(final, d, a, g.user, m);
      }
      DeniedRel(final, d, a, u, gs, m, i + 1);
    }
  }

  /** The source spends one whole shape and then the other; pairing the additions
      gives the same store. */
  lemma ShapesInterleave<K>(s: Store<K>, g: GaugeSpec<K>, m: Mode)
    ensures ApplySpec(s, ResolveSpec(m, g), m.Dual?)
         == if g.hasUser then
              var s2 := AddBoth(AddBoth(s, Resolve(m, g.org), g.delta), Resolve(m, g.sq), 1.0);
              AddBoth(s2, Resolve(m, g.user), g.delta)
            else AddBoth(s, Resolve(m, g.org), g.delta)
  {
    if m.Dual? && g.hasUser {
      var o, q, w := Resolve(m, g.org), Resolve(m, g.sq), Resolve(m, g.user);
      var s1 := Add(s, o.p, g.delta);
      AddsCommute(s1, q.p, o.s.value, 1.0, g.delta);
      var s2 := Add(s1, q.p, 1.0);
      AddsCommute(s2, w.p, o.s.value, g.delta, g.delta);
      var s3 := Add(s2, o.s.value, g.delta);
      AddsCommute(s3, w.p, q.s.value, g.delta, 1.0);
    }
  }

  lemma ApplySpecRel<K(!new)>(final: bool, d: Store<K>, a: Store<K>, u: iset<KeyPair<K>>, g: GaugeSpec<K>, m: Mode)
    requires Consistent(u) && AllRel(final, d, a, u) && WfSpec(u, g) && Allowed(final, m) && SpecSeeded(d, g)
    ensures var d', a' := ApplySpec(d, ResolveSpec(m, g), m.Dual?), ApplySpec(a, ResolveSpec(V1Only, g), false);
            && AllRel(final, d', a', u)
            && Keeps(d, d', u)
  {
    ShapesInterleave(d, g, m);
    ShapesInterleave(a, g, V1Only);
    AddRel(final, d, a, u, g.org, m, g.delta);
    if g.hasUser {
      var d1, a1 := AddBoth(d, Resolve(m, g.org), g.delta), Add(a, g.org.v1, g.delta);
      AddRel(final, d1, a1, u, g.sq, m, 1.0);
      AddRel(final, AddBoth(d1, Resolve(m, g.sq), 1.0), Add(a1, g.sq.v1, 1.0), u, g.user, m, g.delta);
    }
  }

  lemma {:induction false} ApplyAllRel<K(!new)>(final: bool, d: Store<K>, a: Store<K>, u: iset<KeyPair<K>>,
                                                gs: seq<GaugeSpec<K>>, m: Mode)
    requires Consistent(u) && AllRel(final, d, a, u) && WfBundle(u, gs) && Allowed(final, m)
    requires forall j :: 0 <= j < |gs| ==> SpecSeeded(d, gs[j])
    ensures var d' := ApplyAll(d, ResolveAll(m, gs), m.Dual?);
            && AllRel(final, d', ApplyAll(a, ResolveAll(V1Only, gs), false), u)
            && Keeps(d, d', u)
  {
    if gs != [] {
      var n := |gs| - 1;
      forall j | 0 <= j < n ensures SpecSeeded(d, gs[..n][j]) {
        assert gs[..n][j] == gs[j];
      }
      ApplyAllRel(final, d, a, u, gs[..n], m);
      assert ResolveAll(m, gs)[..n] == ResolveAll(m, gs[..n]);
      assert ResolveAll(V1Only, gs)[..n] == ResolveAll(V1Only, gs[..n]);
      assert WfSpec(u, gs[n]) && SpecSeeded(d, gs[n]);
      ApplySpecRel(final, ApplyAll(d, ResolveAll(m, gs[..n]), m.Dual?),
                   ApplyAll(a, ResolveAll(V1Only, gs[..n]), false), u, gs[n], m);
    }
  }

  lemma LatchedRel<K(!new)>(final: bool, d: Store<K>, a: Store<K>, p: KeyPair<K>, m: Mode)
    requires Rel(final, d, a, p) && Allowed(final, m)
    ensures Latched(d, Resolve(m, p)) == Latched(a, Resolve(V1Only, p))
  {
  }

  lemma {:induction false} SameBad<K>(gs: seq<GaugeSpec<K>>, m: Mode, i: nat)
    requires i <= |gs|
    ensures FirstBad(ResolveAll(m, gs), i) == FirstBad(ResolveAll(V1Only, gs), i)
    decreases |gs| - i
  {
    if i < |gs| {
      SameBad(gs, m, i + 1);
    }
  }

  lemma DecideRel<K(!new)>(final: bool, d: Store<K>, a: Store<K>, u: iset<KeyPair<K>>, m: Mode, t: int,
                           idem: KeyPair<K>, hasIdem: bool, gs: seq<GaugeSpec<K>>)
    requires Consistent(u) && AllRel(final, d, a, u) && Allowed(final, m)
    requires idem in u && idem.kind.Latch? && WfBundle(u, gs)
    requires forall j :: 0 <= j < |gs| ==> SpecSeeded(d, gs[j])
    ensures var x := Decide(d, Resolve(m, idem), hasIdem, t, ResolveAll(m, gs));
            var y := Decide(a, Resolve(V1Only, idem), hasIdem, t, ResolveAll(V1Only, gs));
            x.1 == y.1 && AllRel(final, x.0, y.0, u) && Keeps(d, x.0, u)
  {
    assert Rel(final, d, a, idem);
    LatchedRel(final, d, a, idem, m);
    DeniedRel(final, d, a, u, gs, m, 0);
    if !(hasIdem && Latched(d, Resolve(m, idem))) && FirstDenied(d, ResolveAll(m, gs), 0) == 0 {
      var d2 := if hasIdem then ClaimBoth(d, Resolve(m, idem), t) else d;
      var a2 := if hasIdem then Claim(a, idem.v1, t) else a;
      if hasIdem {
        ClaimRel(final, d, a, u, idem, m, t);
      }
      forall j | 0 <= j < |gs| ensures SpecSeeded(d2, gs[j]) {
        assert WfSpec(u, gs[j]) && SpecSeeded(d, gs[j]);
      }
      ApplyAllRel(final, d2, a2, u, gs, m);
    }
  }

  ghost predicate SameReply<K(!new)>(final: bool, d: Store<K>, now: int, x: (Store<K>, AcquireReply),
                                     y: (Store<K>, AcquireReply), u: iset<KeyPair<K>>) {
    x.1 == y.1 && AllRel(final, x.0, y.0, u) && (x.0 == d || Keeps(Swept(d, now), x.0, u))
  }

  /** Sweep and seed, then decide: the valid case of the acquire. */
  lemma SeedAndDecideRel<K(!new)>(final: bool, d: Store<K>, a: Store<K>, u: iset<KeyPair<K>>, m: Mode, now: int, t: int,
                                  idem: KeyPair<K>, hasIdem: bool, gs: seq<GaugeSpec<K>>)
    requires Consistent(u) && AllRel(final, d, a, u) && Allowed(final, m)
    requires idem in u && idem.kind.Latch? && WfBundle(u, gs)
    ensures var us, them := ResolveAll(m, gs), ResolveAll(V1Only, gs);
            var x := Decide(SeedAll(Swept(d, now), us, V2Primary(m)), Resolve(m, idem), hasIdem, t, us);
            var y := Decide(SeedAll(Swept(a, now), them, false), Resolve(V1Only, idem), hasIdem, t, them);
            SameReply(final, d, now, x, y, u)
  {
    var us, them := ResolveAll(m, gs), ResolveAll(V1Only, gs);
    var d0, a0 := Swept(d, now), Swept(a, now);
    SweepRel(final, d, a, u, now);
    SeedAllRel(final, d0, a0, u, gs, m);
    SeedAllSingle(a0, them, false);
    DecideRel(final, SeedAll(d0, us, V2Primary(m)), a0, u, m, t, idem, hasIdem, gs);
  }

  lemma ValidAcquireRel<K(!new)>(final: bool, d: Store<K>, a: Store<K>, u: iset<KeyPair<K>>, m: Mode, now: int,
                                 idem: KeyPair<K>, hasIdem: bool, ttl: int, gs: seq<GaugeSpec<K>>)
    requires Consistent(u) && AllRel(final, d, a, u) && Allowed(final, m)
    requires idem in u && idem.kind.Latch? && WfBundle(u, gs) && FirstBad(ResolveAll(m, gs), 0) == 0
    ensures var x := DualAcquire(d, now, Resolve(m, idem), hasIdem, ttl, V2Primary(m), ResolveAll(m, gs));
            var y := DualAcquire(a, now, Resolve(V1Only, idem), hasIdem, ttl, false, ResolveAll(V1Only, gs));
            SameReply(final, d, now, x, y, u)
  {
    hide *;
    SameBad(gs, m, 0);
    SeedAndDecideRel(final, d, a, u, m, now, now + LatchTtl(ttl), idem, hasIdem, gs);
    ValidAcquire(d, now, Resolve(m, idem), hasIdem, ttl, V2Primary(m), ResolveAll(m, gs));
    ValidAcquire(a, now, Resolve(V1Only, idem), hasIdem, ttl, false, ResolveAll(V1Only, gs));
  }

  lemma AcquireRel<K(!new)>(final: bool, d: Store<K>, a: Store<K>, u: iset<KeyPair<K>>, m: Mode, now: int,
                            idem: KeyPair<K>, hasIdem: bool, ttl: int, gs: seq<GaugeSpec<K>>)
    requires Consistent(u) && AllRel(final, d, a, u) && Allowed(final, m)
    requires idem in u && idem.kind.Latch? && WfBundle(u, gs)
    ensures var x := DualAcquire(d, now, Resolve(m, idem), hasIdem, ttl, V2Primary(m), ResolveAll(m, gs));
            var y := DualAcquire(a, now, Resolve(V1Only, idem), hasIdem, ttl, false, ResolveAll(V1Only, gs));
            SameReply(final, d, now, x, y, u)
  {
    if FirstBad(ResolveAll(m, gs), 0) == 0 {
      ValidAcquireRel(final, d, a, u, m, now, idem, hasIdem, ttl, gs);
    } else {
      SameBad(gs, m, 0);
    }
  }

  // ----- every operation, and every run -----

  lemma SpendOrgRel<K(!new)>(final: bool, d: Store<K>, a: Store<K>, u: iset<KeyPair<K>>, m: Mode, p: KeyPair<K>,
                      x: real)
    requires Consistent(u) && AllRel(final, d, a, u) && Allowed(final, m) && IsGauge(u, p)
    ensures var d' := AddBoth(Seed(d, Resolve(m, p), V2Primary(m)), Resolve(m, p), x);
            && AllRel(final, d', Add(a, p.v1, x), u) && Keeps(d, d', u)
            && Level(d', Resolve(m, p).p) == Level(Add(a, p.v1, x), p.v1)
  {
    SeedRel(final, d, a, u, p, m);
    var d1 := Seed(d, Resolve(m, p), V2Primary(m));
    AddRel(final, d1, a, u, p, m, x);
    LevelRel(final, AddBoth(d1, Resolve(m, p), x), Add(a, p.v1, x), p, m);
  }

  ghost predicate Agree<K(!new)>(final: bool, d: Store<K>, now: int, x: (Store<K>, Answer), y: (Store<K>, Answer),
                                 u: iset<KeyPair<K>>) {
    x.1 == y.1 && AllRel(final, x.0, y.0, u) && (x.0 == d || Keeps(Swept(d, now), x.0, u))
  }

  lemma ReleaseRel<K(!new)>(final: bool, d: Store<K>, a: Store<K>, u: iset<KeyPair<K>>, m: Mode, now: int,
                     p: KeyPair<K>, x: real)
    requires Consistent(u) && AllRel(final, d, a, u) && Allowed(final, m) && IsGauge(u, p)
    ensures Agree(final, d, now, Exec(d, now, m, Release(p, x)), Exec(a, now, V1Only, Release(p, x)), u)
  {
    SweepRel(final, d, a, u, now);
    SeedRel(final, Swept(d, now), Swept(a, now), u, p, m);
    DecrRel(final, Seed(Swept(d, now), Resolve(m, p), V2Primary(m)), Swept(a, now), u, p, m, x);
  }

  lemma ReadRel<K(!new)>(final: bool, d: Store<K>, a: Store<K>, u: iset<KeyPair<K>>, m: Mode, now: int, p: KeyPair<K>)
    requires AllRel(final, d, a, u) && Allowed(final, m) && p in u
    ensures Agree(final, d, now, Exec(d, now, m, Read(p)), Exec(a, now, V1Only, Read(p)), u)
  {
    SweepRel(final, d, a, u, now);
    assert Rel(final, Swept(d, now), Swept(a, now), p);
  }

  lemma SpendUserRel<K(!new)>(final: bool, d: Store<K>, a: Store<K>, u: iset<KeyPair<K>>, m: Mode,
                              org: KeyPair<K>, user: KeyPair<K>, sq: KeyPair<K>, x: real)
    requires Consistent(u) && AllRel(final, d, a, u) && Allowed(final, m)
    requires IsGauge(u, org) && IsGauge(u, user) && IsGauge(u, sq)
    ensures var v2p := V2Primary(m);
            var d3 := Seed(Seed(Seed(d, Resolve(m, org), v2p), Resolve(m, user), v2p), Resolve(m, sq), v2p);
            var d' := AddBoth(AddBoth(d3, Resolve(m, org), x), Resolve(m, user), x);
            var a' := Add(Add(a, org.v1, x), user.v1, x);
            && AllRel(final, d', a', u) && Keeps(d, d', u)
            && Level(d', Resolve(m, org).p) == Level(a', org.v1)
            && Level(d', Resolve(m, user).p) == Level(a', user.v1)
  {
    var v2p := V2Primary(m);
    SeedRel(final, d, a, u, org, m);
    var d1 := Seed(d, Resolve(m, org), v2p);
    SeedRel(final, d1, a, u, user, m);
    var d2 := Seed(d1, Resolve(m, user), v2p);
    SeedRel(final, d2, a, u, sq, m);
    var d3 := Seed(d2, Resolve(m, sq), v2p);
    AddRel(final, d3, a, u, org, m, x);
    var d4, a4 := AddBoth(d3, Resolve(m, org), x), Add(a, org.v1, x);
    AddRel(final, d4, a4, u, user, m, x);
    var d', a' := AddBoth(d4, Resolve(m, user), x), Add(a4, user.v1, x);
    LevelRel(final, d', a', org, m);
    LevelRel(final, d', a', user, m);
  }

  lemma SpendUserAgree<K(!new)>(final: bool, d: Store<K>, a: Store<K>, u: iset<KeyPair<K>>, m: Mode, now: int,
                                org: KeyPair<K>, user: KeyPair<K>, sq: KeyPair<K>, x: real)
    requires Consistent(u) && AllRel(final, d, a, u) && Allowed(final, m)
    requires IsGauge(u, org) && IsGauge(u, user) && IsGauge(u, sq)
    ensures var op := SpendUser(org, user, sq, x);
            Agree(final, d, now, Exec(d, now, m, op), Exec(a, now, V1Only, op), u)
  {
    SweepRel(final, d, a, u, now);
    SpendUserRel(final, Swept(d, now), Swept(a, now), u, m, org, user, sq, x);
  }

  lemma SpendOrgAgree<K(!new)>(final: bool, d: Store<K>, a: Store<K>, u: iset<KeyPair<K>>, m: Mode, now: int,
                               p: KeyPair<K>, x: real)
    requires Consistent(u) && AllRel(final, d, a, u) && Allowed(final, m) && IsGauge(u, p)
    ensures Agree(final, d, now, Exec(d, now, m, SpendOrg(p, x)), Exec(a, now, V1Only, SpendOrg(p, x)), u)
  {
    SweepRel(final, d, a, u, now);
    SpendOrgRel(final, Swept(d, now), Swept(a, now), u, m, p, x);
  }

  lemma AccAddAgree<K(!new)>(final: bool, d: Store<K>, a: Store<K>, u: iset<KeyPair<K>>, m: Mode, now: int,
                             p: KeyPair<K>, x: real)
    requires Consistent(u) && AllRel(final, d, a, u) && Allowed(final, m) && p in u && p.kind.Acc?
    requires final && m.V2Only? ==> CopyExpires(Swept(d, now), p, now)
    ensures Agree(final, d, now, Exec(d, now, m, AccAdd(p, x)), Exec(a, now, V1Only, AccAdd(p, x)), u)
  {
    SweepRel(final, d, a, u, now);
    AccAddRel(final, Swept(d, now), Swept(a, now), u, p, m, now, x);
  }

  lemma AcquireAgree<K(!new)>(final: bool, d: Store<K>, a: Store<K>, u: iset<KeyPair<K>>, m: Mode, now: int,
                              idem: KeyPair<K>, hasIdem: bool, ttl: int, gs: seq<GaugeSpec<K>>)
    requires Consistent(u) && AllRel(final, d, a, u) && Allowed(final, m)
    requires idem in u && idem.kind.Latch? && WfBundle(u, gs)
    ensures var op := Acquire(idem, hasIdem, ttl, gs);
            Agree(final, d, now, Exec(d, now, m, op), Exec(a, now, V1Only, op), u)
  {
    AcquireRel(final, d, a, u, m, now, idem, hasIdem, ttl, gs);
  }

  /** One operation in an allowed mode answers as the reference does and keeps the relation.
      Only a v2-only accumulator add asks something of the store: that the bucket's v1
      copy, if any, expires with it. */
  lemma ExecRel<K(!new)>(final: bool, d: Store<K>, a: Store<K>, u: iset<KeyPair<K>>, m: Mode, now: int, op: Op<K>)
    requires Consistent(u) && AllRel(final, d, a, u) && Allowed(final, m) && WfOp(u, op)
    requires final && m.V2Only? && op.AccAdd? ==> CopyExpires(Swept(d, now), op.acc, now)
    ensures Agree(final, d, now, Exec(d, now, m, op), Exec(a, now, V1Only, op), u)
  {
    match op
    case SpendOrg(org, x) => SpendOrgAgree(final, d, a, u, m, now, org, x);
    case SpendUser(org, user, sq, x) => SpendUserAgree(final, d, a, u, m, now, org, user, sq, x);
    case Release(g, x) => ReleaseRel(final, d, a, u, m, now, g, x);
    case AccAdd(acc, x) => AccAddAgree(final, d, a, u, m, now, acc, x);
    case Acquire(idem, hasIdem, ttl, gs) => AcquireAgree(final, d, a, u, m, now, idem, hasIdem, ttl, gs);
    case Read(key) => ReadRel(final, d, a, u, m, now, key);
  }

  /** One call of a dual-writing engine, or one atomic seed of the backfill. */
  datatype Event<+K> = Call(now: int, v2p: bool, op: Op<K>) | Backfill(at: int, key: KeyPair<K>)

  /** The migrator's seed-if-absent, which carries the remaining time to live. */
  function BackfillKey<K(==)>(s: Store<K>, p: KeyPair<K>): Store<K> {
    if p.v2 !in s.floats && p.v1 in s.floats then
      var s1 := Put(s, p.v2, s.floats[p.v1]);
      if p.v1 in s.expiry then ExpireAt(s1, p.v2, s.expiry[p.v1]) else s1
    else s
  }

  ghost predicate WfEvent<K>(u: iset<KeyPair<K>>, e: Event<K>) {
    match e
    case Call(_, _, op) => WfOp(u, op)
    case Backfill(_, p) => p in u && !p.kind.Latch?
  }

  ghost predicate WfEvents<K>(u: iset<KeyPair<K>>, es: seq<Event<K>>) {
    forall i :: 0 <= i < |es| ==> WfEvent(u, es[i])
  }

  /** The dual store and the answers after a run. */
  function DualRun<K(==)>(s: Store<K>, es: seq<Event<K>>): (Store<K>, seq<Answer>) {
    if es == [] then (s, [])
    else
      var (s0, out) := DualRun(s, es[..|es| - 1]);
      match es[|es| - 1]
      case Call(now, v2p, op) => var (s1, r) := Exec(s0, now, Dual(v2p), op); (s1, out + [r])
      case Backfill(now, p) => (BackfillKey(Swept(s0, now), p), out)
  }

  /** The reference: no v2 keys, no migrator, and nothing to switch. */
  function SingleRun<K(==)>(s: Store<K>, es: seq<Event<K>>): (Store<K>, seq<Answer>) {
    if es == [] then (s, [])
    else
      var (s0, out) := SingleRun(s, es[..|es| - 1]);
      match es[|es| - 1]
      case Call(now, _, op) => var (s1, r) := Exec(s0, now, V1Only, op); (s1, out + [r])
      case Backfill(now, _) => (Swept(s0, now), out)
  }

  lemma BackfillRel<K(!new)>(d: Store<K>, a: Store<K>, u: iset<KeyPair<K>>, p: KeyPair<K>)
    requires Consistent(u) && AllRel(false, d, a, u) && p in u && !p.kind.Latch?
    ensures AllRel(false, BackfillKey(d, p), a, u) && Seeded(BackfillKey(d, p), p)
    ensures Keeps(d, BackfillKey(d, p), u)
  {
    var d' := BackfillKey(d, p);
    assert Rel(false, d, a, p);
    forall q | q in u ensures Rel(false, d', a, q) && (Seeded(d, q) ==> Seeded(d', q)) {
      assert Rel(false, d, a, q);
    }
  }

  /** A store in which no v2 key exists yet and every v1 key is used as what it is. */
  ghost predicate Fresh<K(!new)>(s: Store<K>, u: iset<KeyPair<K>>) {
    forall p :: p in u ==> View(s, p.v2) == BLANK && KindOk(p.kind, View(s, p.v1))
  }

  /** Dual refinement: from a store without v2 keys, any run of spends, releases,
      accumulator adds, bundle acquires, reads and backfills, with the primary switched
      at will, gives the answers of one single-shape store. */
  lemma {:induction false} DualRefinesSingle<K(!new)>(s: Store<K>, u: iset<KeyPair<K>>, es: seq<Event<K>>)
    requires Consistent(u) && Fresh(s, u) && WfEvents(u, es)
    ensures DualRun(s, es).1 == SingleRun(s, es).1
    ensures AllRel(false, DualRun(s, es).0, SingleRun(s, es).0, u)
  {
    if es == [] {
      forall p | p in u ensures Rel(false, s, s, p) {
      }
    } else {
      var n := |es| - 1;
      forall i | 0 <= i < n ensures WfEvent(u, es[..n][i]) {
        assert es[..n][i] == es[i];
      }
      DualRefinesSingle(s, u, es[..n]);
      var d, a := DualRun(s, es[..n]).0, SingleRun(s, es[..n]).0;
      assert WfEvent(u, es[n]);
      match es[n]
      case Call(now, v2p, op) =>
        ExecRel(false, d, a, u, Dual(v2p), now, op);
      case Backfill(now, p) =>
        SweepRel(false, d, a, u, now);
        BackfillRel(Swept(d, now), Swept(a, now), u, p);
    }
  }

  /** An engine that writes only one shape breaks the promise: after a v1-only spend
      beside a dual engine the two primaries read differently. */
  lemma SingleWriterBreaksDual()
    ensures exists s: Store<int>, p: KeyPair<int> ::
      && AllRel(false, s, s, iset{p}) && IsGauge(iset{p}, p)
      && var s1 := Exec(s, 0, Dual(false), SpendOrg(p, 1.0)).0;
         var s2 := Exec(s1, 0, V1Only, SpendOrg(p, 1.0)).0;
         Exec(s2, 0, Dual(false), Read(p)).1 != Exec(s2, 0, Dual(true), Read(p)).1
  {
    var s: Store<int> := Store(map[], {}, map[]);
    var p := KeyPair(1, 2, Gauge);
    var s1 := Exec(s, 0, Dual(false), SpendOrg(p, 1.0)).0;
    assert s1.floats == map[1 := 1.0, 2 := 1.0];
    var s2 := Exec(s1, 0, V1Only, SpendOrg(p, 1.0)).0;
    assert s2.floats == map[1 := 2.0, 2 := 1.0];
    assert AllRel(false, s, s, iset{p});
  }
}
