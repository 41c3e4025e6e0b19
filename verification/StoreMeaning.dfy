/** What the counter operations mean, said of levels, latches and times alone: which keys a
    sweep keeps, which bundles are admitted, what an admitted bundle takes, and what every
    single-shape operation answers and leaves behind. */
module StoreMeaning {
  import opened CounterStore
  import opened DualRefinement

  // ----- time -----

  predicate Alive<K(==)>(s: Store<K>, k: K, now: int) {
    k !in s.expiry || now <= s.expiry[k]
  }

  /** The level a key shows at a time. */
  function Shown<K(==)>(s: Store<K>, k: K, now: int): real {
    if k in s.floats && Alive(s, k, now) then s.floats[k] else 0.0
  }

  predicate LatchShown<K(==)>(s: Store<K>, k: K, now: int) {
    k in s.latches && Alive(s, k, now)
  }

  /** A sweep keeps exactly the keys whose expiry, if any, is not before now, unchanged. */
  lemma SweepKeepsTheLiving<K>(s: Store<K>, now: int, k: K)
    ensures var s' := Swept(s, now);
            && (k in s'.floats <==> k in s.floats && Alive(s, k, now))
            && (k in s'.floats ==> s'.floats[k] == s.floats[k])
            && (k in s'.latches <==> LatchShown(s, k, now))
            && (k in s'.expiry <==> k in s.expiry && Alive(s, k, now))
            && (k in s'.expiry ==> s'.expiry[k] == s.expiry[k])
            && Level(s', k) == Shown(s, k, now)
  {
  }

  // ----- which bundles are admitted -----

  /** The gauge has room for the spec: every present limit is at least what it would reach. */
  predicate Fits<K(==)>(s: Store<K>, sp: AcquireSpec<K>) {
    && (sp.orgLimit.Some? ==> Level(s, sp.orgKey) + sp.delta <= sp.orgLimit.value)
    && (sp.hasUser && sp.userLimit.Some? ==> Level(s, sp.userKey) + sp.delta <= sp.userLimit.value)
  }

  predicate AllFit<K(==)>(s: Store<K>, specs: seq<AcquireSpec<K>>) {
    forall i :: 0 <= i < |specs| ==> Fits(s, specs[i])
  }

  /** Entry d, counted from 1, is the first that does not fit. */
  predicate FirstMisfit<K(==)>(s: Store<K>, specs: seq<AcquireSpec<K>>, d: nat) {
    1 <= d <= |specs| && !Fits(s, specs[d - 1]) && forall i :: 0 <= i < d - 1 ==> Fits(s, specs[i])
  }

  predicate NonNegative<K>(specs: seq<AcquireSpec<K>>) {
    forall i :: 0 <= i < |specs| ==> specs[i].delta >= 0.0
  }

  /** Admitted exactly when all fit, else denied at the first that does not. */
  predicate Judged<K(==)>(s: Store<K>, specs: seq<AcquireSpec<K>>, reply: AcquireReply) {
    && (reply == Outcome(true, false, 0) <==> AllFit(s, specs))
    && (!AllFit(s, specs) ==>
          reply.Outcome? && !reply.admitted && !reply.dup && FirstMisfit(s, specs, reply.deniedIndex))
  }

  lemma {:induction false} FirstDeniedIsMisfit<K>(s: Store<K>, specs: seq<AcquireSpec<K>>, i: nat)
    requires i <= |specs| && forall j :: 0 <= j < i ==> Fits(s, specs[j])
    ensures var d := FirstDenied(s, specs, i);
            if d == 0 then AllFit(s, specs) else FirstMisfit(s, specs, d)
    decreases |specs| - i
  {
    if i < |specs| && Fits(s, specs[i]) {
      FirstDeniedIsMisfit(s, specs, i + 1);
    }
  }

  lemma {:induction false} FirstBadIsNegative<K>(specs: seq<AcquireSpec<K>>, i: nat)
    requires i <= |specs| && forall j :: 0 <= j < i ==> specs[j].delta >= 0.0
    ensures var b := FirstBad(specs, i);
            if b == 0 then NonNegative(specs)
            else b <= |specs| && specs[b - 1].delta < 0.0 && forall j :: 0 <= j < b - 1 ==> specs[j].delta >= 0.0
    decreases |specs| - i
  {
    if i < |specs| && specs[i].delta >= 0.0 {
      FirstBadIsNegative(specs, i + 1);
    }
  }

  /** The single acquire: a negative delta is refused at its first place; a live latch
      answers dup; otherwise the levels of now decide, and exactly the bundles that fit are
      admitted, those that reach a limit included. */
  lemma SingleAcquireJudges<K>(s: Store<K>, now: int, idem: K, hasIdem: bool, until: Option<int>,
                               specs: seq<AcquireSpec<K>>)
    ensures var r := SingleAcquire(s, now, idem, hasIdem, until, specs).1;
            && (r.Refused? <==> !NonNegative(specs))
            && (r.Refused? ==> 1 <= r.index <= |specs| && specs[r.index - 1].delta < 0.0
                               && forall j :: 0 <= j < r.index - 1 ==> specs[j].delta >= 0.0)
            && (r == Outcome(true, true, 0) <==> NonNegative(specs) && hasIdem && LatchShown(s, idem, now))
            && (NonNegative(specs) && !(hasIdem && LatchShown(s, idem, now)) ==> Judged(Swept(s, now), specs, r))
  {
    FirstBadIsNegative(specs, 0);
    SweepKeepsTheLiving(s, now, idem);
    FirstDeniedIsMisfit(Swept(s, now), specs, 0);
  }

  /** The dual acquire: the same, on the levels of now after seeding, with a latch of either
      shape. */
  lemma DualAcquireJudges<K>(s: Store<K>, now: int, idem: DualPair<K>, hasIdem: bool, ttl: int, v2p: bool,
                             specs: seq<AcquireSpec<K>>)
    requires AllPaired(specs, idem.s.Some?)
    ensures var r := DualAcquire(s, now, idem, hasIdem, ttl, v2p, specs).1;
            var dup := hasIdem && (LatchShown(s, idem.p, now) || (idem.s.Some? && LatchShown(s, idem.s.value, now)));
            && (r.Refused? <==> !NonNegative(specs))
            && (r == Outcome(true, true, 0) <==> NonNegative(specs) && dup)
            && (NonNegative(specs) && !dup ==> Judged(SeedAll(Swept(s, now), specs, v2p), specs, r))
  {
    FirstBadIsNegative(specs, 0);
    var s1 := SeedAll(Swept(s, now), specs, v2p);
    SeedAllLatches(Swept(s, now), specs, v2p);
    SweepKeepsTheLiving(s, now, idem.p);
    if idem.s.Some? {
      SweepKeepsTheLiving(s, now, idem.s.value);
    }
    FirstDeniedIsMisfit(s1, specs, 0);
  }

  lemma {:induction false} SeedAllLatches<K>(s: Store<K>, specs: seq<AcquireSpec<K>>, v2p: bool)
    ensures SeedAll(s, specs, v2p).latches == s.latches && SeedAll(s, specs, v2p).expiry == s.expiry
  {
    if specs != [] {
      SeedAllLatches(s, specs[..|specs| - 1], v2p);
    }
  }

  // ----- what an admitted bundle takes -----

  function When(b: bool, d: real): real {
    if b then d else 0.0
  }

  /** What one spec adds to a key: its delta to org and user, one to the sequence. */
  function Takes<K(==)>(sp: AcquireSpec<K>, k: K): real {
    When(k == sp.orgKey, sp.delta)
    + (if sp.hasUser then When(k == sp.seqKey, 1.0) + When(k == sp.userKey, sp.delta) else 0.0)
  }

  function TakesTwin<K(==)>(sp: AcquireSpec<K>, k: K): real {
    When(sp.orgKey2 == Some(k), sp.delta)
    + (if sp.hasUser then When(sp.seqKey2 == Some(k), 1.0) + When(sp.userKey2 == Some(k), sp.delta) else 0.0)
  }

  function Total<K(==)>(specs: seq<AcquireSpec<K>>, k: K, twins: bool): real {
    if specs == [] then 0.0
    else
      var sp := specs[|specs| - 1];
      Total(specs[..|specs| - 1], k, twins) + Takes(sp, k) + (if twins then TakesTwin(sp, k) else 0.0)
  }

  lemma ApplyShapeTakes<K>(s: Store<K>, org: K, user: K, sq: K, hasUser: bool, d: real, k: K)
    ensures Level(ApplyShape(s, org, user, sq, hasUser, d), k)
         == Level(s, k) + When(k == org, d) + (if hasUser then When(k == sq, 1.0) + When(k == user, d) else 0.0)
  {
  }

  lemma {:induction false} SpendAllTakes<K>(s: Store<K>, specs: seq<AcquireSpec<K>>, k: K)
    ensures var s' := SpendAll(s, specs);
            Level(s', k) == Level(s, k) + Total(specs, k, false) && s'.latches == s.latches && s'.expiry == s.expiry
  {
    if specs != [] {
      var sp := specs[|specs| - 1];
      SpendAllTakes(s, specs[..|specs| - 1], k);
      ApplyShapeTakes(SpendAll(s, specs[..|specs| - 1]), sp.orgKey, sp.userKey, sp.seqKey, sp.hasUser, sp.delta, k);
    }
  }

  lemma ApplySpecTakes<K>(s: Store<K>, sp: AcquireSpec<K>, dual: bool, k: K)
    requires Paired(sp, dual)
    ensures var s' := ApplySpec(s, sp, dual);
            && Level(s', k) == Level(s, k) + Takes(sp, k) + (if dual then TakesTwin(sp, k) else 0.0)
            && s'.latches == s.latches && s'.expiry == s.expiry
  {
    var s1 := ApplyShape(s, sp.orgKey, sp.userKey, sp.seqKey, sp.hasUser, sp.delta);
    ApplyShapeTakes(s, sp.orgKey, sp.userKey, sp.seqKey, sp.hasUser, sp.delta, k);
    if dual && sp.hasUser {
      ApplyShapeTakes(s1, sp.orgKey2.value, sp.userKey2.value, sp.seqKey2.value, true, sp.delta, k);
    } else if dual {
      ApplyShapeTakes(s1, sp.orgKey2.value, sp.orgKey2.value, sp.orgKey2.value, false, sp.delta, k);
    }
  }

  lemma {:induction false} ApplyAllTakes<K>(s: Store<K>, specs: seq<AcquireSpec<K>>, dual: bool, k: K)
    requires AllPaired(specs, dual)
    ensures var s' := ApplyAll(s, specs, dual);
            Level(s', k) == Level(s, k) + Total(specs, k, dual) && s'.latches == s.latches && s'.expiry == s.expiry
  {
    if specs != [] {
      ApplyAllTakes(s, specs[..|specs| - 1], dual, k);
      ApplySpecTakes(ApplyAll(s, specs[..|specs| - 1], dual), specs[|specs| - 1], dual, k);
    }
  }

  /** An admitted single acquire adds to every key exactly what its specs take from it and
      claims exactly its own latch, until the given time. */
  lemma SingleAcquireTakes<K>(s: Store<K>, now: int, idem: K, hasIdem: bool, until: int,
                              specs: seq<AcquireSpec<K>>, k: K)
    requires SingleAcquire(s, now, idem, hasIdem, Some(until), specs).1 == Outcome(true, false, 0)
    ensures var s' := SingleAcquire(s, now, idem, hasIdem, Some(until), specs).0;
            && Level(s', k) == Shown(s, k, now) + Total(specs, k, false)
            && (k in s'.latches <==> LatchShown(s, k, now) || (hasIdem && k == idem))
            && (hasIdem ==> idem in s'.expiry && s'.expiry[idem] == until)
  {
    var s1 := Swept(s, now);
    SweepKeepsTheLiving(s, now, k);
    SpendAllTakes(if hasIdem then Claim(s1, idem, until) else s1, specs, k);
  }

  /** A single acquire that is not admitted now takes nothing: a refusal touches no key, a dup
      and a denial only clear what has expired. */
  lemma OnlyAdmissionTakes<K>(s: Store<K>, now: int, idem: K, hasIdem: bool, until: Option<int>,
                              specs: seq<AcquireSpec<K>>, k: K)
    requires SingleAcquire(s, now, idem, hasIdem, until, specs).1 != Outcome(true, false, 0)
    ensures var (s', r) := SingleAcquire(s, now, idem, hasIdem, until, specs);
            if r.Refused? then View(s', k) == View(s, k)
            else View(s', k) == if Alive(s, k, now) then View(s, k) else BLANK
  {
    SweepKeepsTheLiving(s, now, k);
  }

  /** Seeding: the v2 key takes the level of the v1 key exactly when it has none; nothing
      else changes. */
  lemma SeedMeans<K>(s: Store<K>, v1: K, v2: K, v2p: bool, k: K)
    ensures var s' := Seed(s, if v2p then DualPair(v2, Some(v1)) else DualPair(v1, Some(v2)), v2p);
            && s'.latches == s.latches && s'.expiry == s.expiry
            && (k != v2 || v2 in s.floats || v1 !in s.floats ==>
                  (k in s'.floats <==> k in s.floats) && Level(s', k) == Level(s, k))
            && (v2 !in s.floats && v1 in s.floats ==> v2 in s'.floats && s'.floats[v2] == s.floats[v1])
  {
  }

  /** A dual acquire that is not admitted leaves nothing but seeds. */
  lemma OnlyDualAdmissionTakes<K>(s: Store<K>, now: int, idem: DualPair<K>, hasIdem: bool, ttl: int, v2p: bool,
                                  specs: seq<AcquireSpec<K>>)
    requires AllPaired(specs, idem.s.Some?)
    requires DualAcquire(s, now, idem, hasIdem, ttl, v2p, specs).1 != Outcome(true, false, 0)
    ensures var (s', r) := DualAcquire(s, now, idem, hasIdem, ttl, v2p, specs);
            s' == if r.Refused? then s else SeedAll(Swept(s, now), specs, v2p)
  {
  }

  /** An admitted dual acquire does so in both shapes, from the seeded levels, and claims both
      latches for the given ttl, one day if none was given. */
  lemma DualAcquireTakes<K>(s: Store<K>, now: int, idem: DualPair<K>, hasIdem: bool, ttl: int, v2p: bool,
                            specs: seq<AcquireSpec<K>>, k: K)
    requires AllPaired(specs, idem.s.Some?)
    requires DualAcquire(s, now, idem, hasIdem, ttl, v2p, specs).1 == Outcome(true, false, 0)
    ensures var s' := DualAcquire(s, now, idem, hasIdem, ttl, v2p, specs).0;
            var until := now + (if ttl <= 0 then 86400 else ttl);
            && Level(s', k) == Level(SeedAll(Swept(s, now), specs, v2p), k) + Total(specs, k, idem.s.Some?)
            && (k in s'.latches <==> LatchShown(s, k, now) || (hasIdem && (k == idem.p || idem.s == Some(k))))
            && (hasIdem && (k == idem.p || idem.s == Some(k)) ==> k in s'.expiry && s'.expiry[k] == until)
  {
    var s1 := SeedAll(Swept(s, now), specs, v2p);
    FirstBadIsNegative(specs, 0);
    SeedAllLatches(Swept(s, now), specs, v2p);
    SweepKeepsTheLiving(s, now, k);
    ApplyAllTakes(if hasIdem then ClaimBoth(s1, idem, now + LatchTtl(ttl)) else s1, specs, idem.s.Some?, k);
  }

  // ----- the single-shape operations -----

  /** What the reference of the refinement does, operation by operation: the answer, and the
      level of every key afterwards.  An accumulator add with a period renews the expiry;
      nothing else touches a latch or an expiry but an admitted acquire. */
  lemma ReferenceSpends<K>(s: Store<K>, now: int, p: KeyPair<K>, d: real, k: K)
    ensures var (s', r) := Exec(s, now, V1Only, SpendOrg(p, d));
            && r == Reached(Shown(s, p.v1, now) + d)
            && Level(s', k) == Shown(s, k, now) + When(k == p.v1, d)
            && s'.latches == Swept(s, now).latches && s'.expiry == Swept(s, now).expiry
  {
    SweepKeepsTheLiving(s, now, k);
    SweepKeepsTheLiving(s, now, p.v1);
  }

  lemma ReferenceSpendsUser<K>(s: Store<K>, now: int, o: KeyPair<K>, u: KeyPair<K>, q: KeyPair<K>, d: real, k: K)
    requires o.v1 != u.v1
    ensures var (s', r) := Exec(s, now, V1Only, SpendUser(o, u, q, d));
            && r == ReachedBoth(Shown(s, o.v1, now) + d, Shown(s, u.v1, now) + d)
            && Level(s', k) == Shown(s, k, now) + When(k == o.v1, d) + When(k == u.v1, d)
            && s'.latches == Swept(s, now).latches && s'.expiry == Swept(s, now).expiry
  {
    SweepKeepsTheLiving(s, now, k);
    SweepKeepsTheLiving(s, now, o.v1);
    SweepKeepsTheLiving(s, now, u.v1);
  }

  lemma ReferenceReleases<K>(s: Store<K>, now: int, p: KeyPair<K>, x: real, k: K)
    ensures var (s', r) := Exec(s, now, V1Only, Release(p, x));
            var left := Shown(s, p.v1, now) - x;
            && r == Reached(if left < 0.0 then 0.0 else left)
            && Level(s', k) == (if k == p.v1 then (if left < 0.0 then 0.0 else left) else Shown(s, k, now))
            && s'.latches == Swept(s, now).latches && s'.expiry == Swept(s, now).expiry
  {
    SweepKeepsTheLiving(s, now, k);
    SweepKeepsTheLiving(s, now, p.v1);
  }

  lemma ReferenceAccrues<K>(s: Store<K>, now: int, p: KeyPair<K>, d: real, k: K)
    requires p.kind.Acc?
    ensures var (s', r) := Exec(s, now, V1Only, AccAdd(p, d));
            && r == Reached(Shown(s, p.v1, now) + d)
            && Level(s', k) == Shown(s, k, now) + When(k == p.v1, d)
            && s'.latches == Swept(s, now).latches
            && s'.expiry == (if p.kind.ttl > 0 then Swept(s, now).expiry[p.v1 := now + p.kind.ttl]
                             else Swept(s, now).expiry)
  {
    SweepKeepsTheLiving(s, now, k);
    SweepKeepsTheLiving(s, now, p.v1);
  }

  lemma ReferenceReads<K>(s: Store<K>, now: int, p: KeyPair<K>)
    ensures var (s', r) := Exec(s, now, V1Only, Read(p));
            && r == Reading(if p.v1 in s.floats && Alive(s, p.v1, now) then Some(s.floats[p.v1]) else None)
            && s' == Swept(s, now)
  {
    SweepKeepsTheLiving(s, now, p.v1);
  }

  /** The bundle with its v1 keys, deltas and limits, and no twins. */
  predicate V1Specs<K(==)>(gs: seq<GaugeSpec<K>>, specs: seq<AcquireSpec<K>>) {
    && |specs| == |gs|
    && forall i :: 0 <= i < |gs| ==>
         specs[i] == AcquireSpec(gs[i].org.v1, gs[i].user.v1, gs[i].sq.v1, gs[i].hasUser, gs[i].delta,
                                 gs[i].orgLimit, gs[i].userLimit, None, None, None)
  }

  lemma ReferenceAcquires<K>(s: Store<K>, now: int, idem: KeyPair<K>, hasIdem: bool, ttl: int, gs: seq<GaugeSpec<K>>,
                             specs: seq<AcquireSpec<K>>)
    requires V1Specs(gs, specs)
    ensures var (s', r) := Exec(s, now, V1Only, Acquire(idem, hasIdem, ttl, gs));
            var until := now + (if ttl <= 0 then 86400 else ttl);
            (s', r) == var x := SingleAcquire(s, now, idem.v1, hasIdem, Some(until), specs); (x.0, Acquired(x.1))
  {
    assert specs == ResolveAll(V1Only, gs);
    DualAcquireSingle(s, now, idem.v1, hasIdem, ttl, false, specs);
  }

  // ----- what dual-write keeps -----

  /** Before v2-final, after one dual call on a gauge whose twin may still be missing, both
      shapes show the answer. */
  lemma DualSpendShowsBoth<K(!new)>(s: Store<K>, now: int, p: KeyPair<K>, d: real, v2p: bool)
    requires p.v1 != p.v2 && p.kind.Gauge? && Rel(false, s, s, p)
    ensures var (s', r) := Exec(s, now, Dual(v2p), SpendOrg(p, d));
            r == Reached(Shown(s, p.v1, now) + d) && Level(s', p.v1) == Level(s', p.v2) == Shown(s, p.v1, now) + d
  {
    SweepKeepsTheLiving(s, now, p.v1);
    SweepKeepsTheLiving(s, now, p.v2);
  }
}
