/** The counter store as a value: levels, idempotency latches and expiry times,
    and what each store operation does to them.

    Keys are a type parameter.  The in-memory store uses strings; the protocol
    modules use logical key types.  An empty secondary key of the source is `None`. */
module CounterStore {

  datatype Option<+T> = None | Some(value: T)

  /** The latch lifetime used when the caller passes none (one day, in seconds). */
  const IDEM_TTL := 86400

  datatype Store<K(==)> = Store(floats: map<K, real>, latches: set<K>, expiry: map<K, int>)

  /** An authoritative key and, during dual-write, the key of the other shape. */
  datatype DualPair<+K> = DualPair(p: K, s: Option<K>)

  datatype AcquireSpec<+K> = AcquireSpec(
    orgKey: K, userKey: K, seqKey: K, hasUser: bool, delta: real,
    orgLimit: Option<real>, userLimit: Option<real>,
    orgKey2: Option<K>, userKey2: Option<K>, seqKey2: Option<K>)

  /** `deniedIndex` is 1-based; 0 when admitted.  `Refused` is the validation error. */
  datatype AcquireReply =
    | Refused(index: nat)
    | Outcome(admitted: bool, dup: bool, deniedIndex: nat)

  // ----- one key seen through all three maps -----

  datatype Cell = Cell(val: Option<real>, latch: bool, exp: Option<int>)

  const BLANK := Cell(None, false, None)

  function View<K(==)>(s: Store<K>, k: K): Cell {
    Cell(if k in s.floats then Some(s.floats[k]) else None,
         k in s.latches,
         if k in s.expiry then Some(s.expiry[k]) else None)
  }

  function Expired(c: Cell, now: int): Cell {
    if c.exp.Some? && now > c.exp.value then BLANK else c
  }

  // ----- primitive operations -----

  predicate Live<K(==)>(s: Store<K>, k: K, now: int) {
    k in s.expiry ==> now <= s.expiry[k]
  }

  function Swept<K(==)>(s: Store<K>, now: int): Store<K> {
    Store(map k | k in s.floats && Live(s, k, now) :: s.floats[k],
          set k | k in s.latches && Live(s, k, now),
          map k | k in s.expiry && Live(s, k, now) :: s.expiry[k])
  }

  function Level<K(==)>(s: Store<K>, k: K): real {
    if k in s.floats then s.floats[k] else 0.0
  }

  function Put<K(==)>(s: Store<K>, k: K, v: real): Store<K> {
    s.(floats := s.floats[k := v])
  }

  function Add<K(==)>(s: Store<K>, k: K, d: real): Store<K> {
    Put(s, k, Level(s, k) + d)
  }

  function Floored(v: real): real {
    if v < 0.0 then 0.0 else v
  }

  function Decr<K(==)>(s: Store<K>, k: K, amount: real): Store<K> {
    Put(s, k, Floored(Level(s, k) - amount))
  }

  function ExpireAt<K(==)>(s: Store<K>, k: K, t: int): Store<K> {
    s.(expiry := s.expiry[k := t])
  }

  function Claim<K(==)>(s: Store<K>, k: K, t: int): Store<K> {
    ExpireAt(s.(latches := s.latches + {k}), k, t)
  }

  function Removed<K(==)>(s: Store<K>, k: K): Store<K> {
    Store(s.floats - {k}, s.latches - {k}, s.expiry - {k})
  }

  /** Seed-if-absent: the v2 side takes the v1 level when it has none.
      `v2p` says which side of the pair is v2. */
  function Seed<K(==)>(s: Store<K>, pair: DualPair<K>, v2p: bool): Store<K> {
    match pair.s
    case None => s
    case Some(other) =>
      var v2, v1 := if v2p then pair.p else other, if v2p then other else pair.p;
      if v2 !in s.floats && v1 in s.floats then Put(s, v2, s.floats[v1]) else s
  }

  // ----- dual operations (a pair without a secondary is the single shape) -----

  function AddBoth<K(==)>(s: Store<K>, pair: DualPair<K>, d: real): Store<K> {
    var s1 := Add(s, pair.p, d);
    if pair.s.Some? then Add(s1, pair.s.value, d) else s1
  }

  function ExpireBoth<K(==)>(s: Store<K>, pair: DualPair<K>, t: int): Store<K> {
    var s1 := ExpireAt(s, pair.p, t);
    if pair.s.Some? then ExpireAt(s1, pair.s.value, t) else s1
  }

  function DualSpendOrg<K(==)>(s: Store<K>, now: int, org: DualPair<K>, d: real, v2p: bool): (Store<K>, real) {
    var s' := AddBoth(Seed(Swept(s, now), org, v2p), org, d);
    (s', Level(s', org.p))
  }

  /** The seq key is seeded and left alone. */
  function DualSpendUser<K(==)>(s: Store<K>, now: int, org: DualPair<K>, user: DualPair<K>, sq: DualPair<K>,
                                d: real, v2p: bool): (Store<K>, real, real) {
    var s0 := Seed(Seed(Seed(Swept(s, now), org, v2p), user, v2p), sq, v2p);
    var s' := AddBoth(AddBoth(s0, org, d), user, d);
    (s', Level(s', org.p), Level(s', user.p))
  }

  function DualDecrFloor<K(==)>(s: Store<K>, now: int, key: DualPair<K>, amount: real, v2p: bool): (Store<K>, real) {
    var s0 := Decr(Seed(Swept(s, now), key, v2p), key.p, amount);
    var s' := if key.s.Some? then Decr(s0, key.s.value, amount) else s0;
    (s', Level(s0, key.p))
  }

  function DualAccAdd<K(==)>(s: Store<K>, now: int, acc: DualPair<K>, d: real, ttl: int, v2p: bool): (Store<K>, real) {
    var s0 := AddBoth(Seed(Swept(s, now), acc, v2p), acc, d);
    var s' := if ttl > 0 then ExpireBoth(s0, acc, now + ttl) else s0;
    (s', Level(s', acc.p))
  }

  /** Authoritative shape first, the other on absence. */
  function GetDual<K(==)>(s: Store<K>, now: int, k: DualPair<K>): (Store<K>, Option<real>) {
    var s' := Swept(s, now);
    if k.p in s'.floats then (s', Some(s'.floats[k.p]))
    else if k.s.Some? && k.s.value in s'.floats then (s', Some(s'.floats[k.s.value]))
    else (s', None)
  }

  // ----- the atomic bundle acquire -----

  /** The twins of a spec are present exactly during dual-write. */
  predicate Paired<K>(sp: AcquireSpec<K>, dual: bool) {
    && sp.orgKey2.Some? == dual
    && (sp.hasUser ==> sp.userKey2.Some? == dual && sp.seqKey2.Some? == dual)
  }

  predicate AllPaired<K>(specs: seq<AcquireSpec<K>>, dual: bool) {
    forall i :: 0 <= i < |specs| ==> Paired(specs[i], dual)
  }

  /** 0 when every delta is non-negative, else the 1-based index of the first that is not. */
  function FirstBad<K>(specs: seq<AcquireSpec<K>>, i: nat): nat
    requires i <= |specs|
    decreases |specs| - i
  {
    if i == |specs| then 0 else if specs[i].delta < 0.0 then i + 1 else FirstBad(specs, i + 1)
  }

  function SeedSpec<K(==)>(s: Store<K>, sp: AcquireSpec<K>, v2p: bool): Store<K> {
    var s1 := Seed(s, DualPair(sp.orgKey, sp.orgKey2), v2p);
    if sp.hasUser then
      Seed(Seed(s1, DualPair(sp.userKey, sp.userKey2), v2p), DualPair(sp.seqKey, sp.seqKey2), v2p)
    else s1
  }

  function SeedAll<K(==)>(s: Store<K>, specs: seq<AcquireSpec<K>>, v2p: bool): Store<K> {
    if specs == [] then s
    else SeedSpec(SeedAll(s, specs[..|specs| - 1], v2p), specs[|specs| - 1], v2p)
  }

  predicate Over<K(==)>(s: Store<K>, k: K, d: real, limit: Option<real>) {
    limit.Some? && Level(s, k) + d > limit.value
  }

  predicate Exceeds<K(==)>(s: Store<K>, sp: AcquireSpec<K>) {
    Over(s, sp.orgKey, sp.delta, sp.orgLimit) || (sp.hasUser && Over(s, sp.userKey, sp.delta, sp.userLimit))
  }

  function FirstDenied<K(==)>(s: Store<K>, specs: seq<AcquireSpec<K>>, i: nat): nat
    requires i <= |specs|
    decreases |specs| - i
  {
    if i == |specs| then 0 else if Exceeds(s, specs[i]) then i + 1 else FirstDenied(s, specs, i + 1)
  }

  function ApplyShape<K(==)>(s: Store<K>, org: K, user: K, sq: K, hasUser: bool, d: real): Store<K> {
    var s1 := Add(s, org, d);
    if hasUser then Add(Add(s1, sq, 1.0), user, d) else s1
  }

  function ApplySpec<K(==)>(s: Store<K>, sp: AcquireSpec<K>, dual: bool): Store<K>
    requires Paired(sp, dual)
  {
    var s1 := ApplyShape(s, sp.orgKey, sp.userKey, sp.seqKey, sp.hasUser, sp.delta);
    if !dual then s1
    else if sp.hasUser then
      ApplyShape(s1, sp.orgKey2.value, sp.userKey2.value, sp.seqKey2.value, true, sp.delta)
    else ApplyShape(s1, sp.orgKey2.value, sp.orgKey2.value, sp.orgKey2.value, false, sp.delta)
  }

  function ApplyAll<K(==)>(s: Store<K>, specs: seq<AcquireSpec<K>>, dual: bool): Store<K>
    requires AllPaired(specs, dual)
  {
    if specs == [] then s
    else ApplySpec(ApplyAll(s, specs[..|specs| - 1], dual), specs[|specs| - 1], dual)
  }

  function LatchTtl(ttl: int): int {
    if ttl <= 0 then IDEM_TTL else ttl
  }

  predicate Latched<K(==)>(s: Store<K>, idem: DualPair<K>) {
    idem.p in s.latches || (idem.s.Some? && idem.s.value in s.latches)
  }

  function ClaimBoth<K(==)>(s: Store<K>, idem: DualPair<K>, t: int): Store<K> {
    var s1 := Claim(s, idem.p, t);
    if idem.s.Some? then Claim(s1, idem.s.value, t) else s1
  }

  /** After seeding: a claimed latch answers dup; otherwise check every gauge, and only
      if all pass claim the latch until `until` and spend every gauge. */
  function Decide<K(==)>(s: Store<K>, idem: DualPair<K>, hasIdem: bool, until: int,
                         specs: seq<AcquireSpec<K>>): (Store<K>, AcquireReply)
    requires AllPaired(specs, idem.s.Some?)
  {
    if hasIdem && Latched(s, idem) then (s, Outcome(true, true, 0))
    else
      var denied := FirstDenied(s, specs, 0);
      if denied > 0 then (s, Outcome(false, false, denied))
      else (ApplyAll(if hasIdem then ClaimBoth(s, idem, until) else s, specs, idem.s.Some?), Outcome(true, false, 0))
  }

  function DualAcquire<K(==)>(s: Store<K>, now: int, idem: DualPair<K>, hasIdem: bool, ttl: int, v2p: bool,
                              specs: seq<AcquireSpec<K>>): (Store<K>, AcquireReply)
    requires AllPaired(specs, idem.s.Some?)
  {
    if FirstBad(specs, 0) > 0 then (s, Refused(FirstBad(specs, 0)))
    else Decide(SeedAll(Swept(s, now), specs, v2p), idem, hasIdem, now + LatchTtl(ttl), specs)
  }

  /** The single-shape acquire.  `until` is when a claimed latch expires, if ever:
      the in-memory store never expires a latch claimed with ttl <= 0, the Redis
      script gives it one day. */
  function SingleAcquire<K(==)>(s: Store<K>, now: int, idem: K, hasIdem: bool, until: Option<int>,
                                specs: seq<AcquireSpec<K>>): (Store<K>, AcquireReply)
  {
    if FirstBad(specs, 0) > 0 then (s, Refused(FirstBad(specs, 0)))
    else
      var s1 := Swept(s, now);
      if hasIdem && idem in s1.latches then (s1, Outcome(true, true, 0))
      else
        var denied := FirstDenied(s1, specs, 0);
        if denied > 0 then (s1, Outcome(false, false, denied))
        else
          var s2 := if !hasIdem then s1
                    else if until.Some? then Claim(s1, idem, until.value)
                    else s1.(latches := s1.latches + {idem});
          (SpendAll(s2, specs), Outcome(true, false, 0))
  }

  function SpendAll<K(==)>(s: Store<K>, specs: seq<AcquireSpec<K>>): Store<K> {
    if specs == [] then s
    else
      var sp := specs[|specs| - 1];
      ApplyShape(SpendAll(s, specs[..|specs| - 1]), sp.orgKey, sp.userKey, sp.seqKey, sp.hasUser, sp.delta)
  }

  /** The guard at the library boundary: no acquire may decrement. */
  method ValidateSpecs<K>(specs: seq<AcquireSpec<K>>) returns (bad: nat)
    ensures bad == FirstBad(specs, 0)
  {
    for i := 0 to |specs|
      invariant FirstBad(specs, 0) == FirstBad(specs, i)
    {
      if specs[i].delta < 0.0 {
        return i + 1;
      }
    }
    bad := 0;
  }

  function Abs(x: real): (r: real)
    ensures r >= 0.0 && (r == x || r == 0.0 - x)
  {
    if x < 0.0 then -x else x
  }

  // ----- facts about cells -----

  /** Additions to a store commute, whatever the keys. */
  lemma AddsCommute<K>(s: Store<K>, a: K, b: K, x: real, y: real)
    ensures Add(Add(s, a, x), b, y) == Add(Add(s, b, y), a, x)
  {
    var l, r := Add(Add(s, a, x), b, y), Add(Add(s, b, y), a, x);
    if a == b {
      assert Level(s, a) + x + y == Level(s, a) + y + x;
    }
    assert l.floats == r.floats;
  }

  lemma SweptView<K>(s: Store<K>, now: int, k: K)
    ensures View(Swept(s, now), k) == Expired(View(s, k), now)
  {
  }

  lemma SweptTwice<K>(s: Store<K>, now: int)
    ensures Swept(Swept(s, now), now) == Swept(s, now)
  {
    var a, b := Swept(Swept(s, now), now), Swept(s, now);
    assert a.floats == b.floats;
    assert a.latches == b.latches;
    assert a.expiry == b.expiry;
  }

  /** Without twins nothing is seeded. */
  lemma {:induction false} SeedAllSingle<K>(s: Store<K>, specs: seq<AcquireSpec<K>>, v2p: bool)
    requires AllPaired(specs, false)
    ensures SeedAll(s, specs, v2p) == s
  {
    if specs != [] {
      SeedAllSingle(s, specs[..|specs| - 1], v2p);
      assert Paired(specs[|specs| - 1], false);
    }
  }

  lemma {:induction false} ApplyAllSingle<K>(s: Store<K>, specs: seq<AcquireSpec<K>>)
    requires AllPaired(specs, false)
    ensures ApplyAll(s, specs, false) == SpendAll(s, specs)
  {
    if specs != [] {
      ApplyAllSingle(s, specs[..|specs| - 1]);
    }
  }

  /** The dual acquire without a secondary shape is the Redis single acquire. */
  lemma DualAcquireSingle<K>(s: Store<K>, now: int, idem: K, hasIdem: bool, ttl: int, v2p: bool,
                                 specs: seq<AcquireSpec<K>>)
    requires AllPaired(specs, false)
    ensures DualAcquire(s, now, DualPair(idem, None), hasIdem, ttl, v2p, specs)
         == SingleAcquire(s, now, idem, hasIdem, Some(now + LatchTtl(ttl)), specs)
  {
    SeedAllSingle(Swept(s, now), specs, v2p);
    var s1 := Swept(s, now);
    ApplyAllSingle(if hasIdem then ClaimBoth(s1, DualPair(idem, None), now + LatchTtl(ttl)) else s1, specs);
  }

  lemma ValidAcquire<K>(s: Store<K>, now: int, idem: DualPair<K>, hasIdem: bool, ttl: int, v2p: bool,
                        specs: seq<AcquireSpec<K>>)
    requires AllPaired(specs, idem.s.Some?) && FirstBad(specs, 0) == 0
    ensures DualAcquire(s, now, idem, hasIdem, ttl, v2p, specs)
         == Decide(SeedAll(Swept(s, now), specs, v2p), idem, hasIdem, now + LatchTtl(ttl), specs)
  {
  }

  lemma {:induction false} NoneDenied<K>(s: Store<K>, specs: seq<AcquireSpec<K>>, i: nat)
    requires i <= |specs|
    ensures FirstDenied(s, specs, i) == 0 <==> forall j :: i <= j < |specs| ==> !Exceeds(s, specs[j])
    decreases |specs| - i
  {
    if i < |specs| {
      NoneDenied(s, specs, i + 1);
    }
  }
}
