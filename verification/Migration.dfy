/** The keyspace migration as one state machine: engines calling in parallel with the
    migrator's verbs, key by key, from the moment every engine dual-writes.

    `d` is the shared store with both shapes, `a` the store a single shape would have;
    both see the same calls at the same times.  Every event carries the time; time never
    runs back and keys whose time is up are gone from both stores. */
module Migration {
  import opened CounterStore
  import opened DualRefinement
  import opened Frames

  datatype Phase = DualPhase | Flipped | Reaped

  /** `final` is high_water == "v2-final". */
  datatype Marker = Marker(phase: Phase, final: bool, dualSince: int)

  /** A verify pass: the keys its scan has still to return, and the verdict so far. */
  datatype Scan<K(==)> = Scan(todo: set<K>, ok: bool)

  datatype Sys<K(==)> = Sys(
    d: Store<K>, a: Store<K>, clock: int, marker: Option<Marker>,
    verifiedOK: bool, scan: Option<Scan<K>>, reaping: bool,
    outD: seq<Answer>, outA: seq<Answer>)

  datatype Verb<+K> =
    | Engine(m: Mode, op: Op<K>)
    | Elsewhere(m: Mode, op: Op<K>)           // an engine on counters outside the universe
    | DualOn
    | BackfillOne(key: KeyPair<K>)
    | ScanStart
    | Compare(pair: KeyPair<K>, seen: real)   // `seen` is what the first of the two reads returned
    | ScanEnd
    | NewInstance                             // crash or a second migrator process
    | Flip
    | ReapStart(confirmed: bool)
    | ReapOne(victim: KeyPair<K>)
    | ReapEnd

  datatype Event<+K> = At(now: int, verb: Verb<K>)

  function GateWait(maxRateWindow: int): int {
    if maxRateWindow > IDEM_TTL then maxRateWindow else IDEM_TTL
  }

  /** The flip may proceed. */
  predicate FlipGate(marker: Option<Marker>, now: int, maxRateWindow: int, verifiedOK: bool) {
    && marker.Some? && (marker.value.phase == DualPhase || marker.value.phase == Flipped)
    && (if marker.value.dualSince == 0 then 0 else now - marker.value.dualSince) >= GateWait(maxRateWindow)
    && verifiedOK
  }

  /** The boot check for a declared mode; `v1Found` is whether a scan meets a v1 counter key. */
  predicate BootAccepts(marker: Option<Marker>, m: Mode, v1Found: bool) {
    var final := marker.Some? && marker.value.final;
    && !(final && (m.V1Only? || m.Dual?))
    && !(m.V2Only? && !final && v1Found)
  }

  predicate Final<K>(s: Sys<K>) {
    s.marker.Some? && s.marker.value.final
  }

  function Tick<K(==)>(s: Sys<K>, now: int): Sys<K> {
    s.(d := Swept(s.d, now), a := Swept(s.a, now), clock := now)
  }

  /** One verb.  What a verb refuses leaves the state alone. */
  ghost function Do<K(!new)>(s: Sys<K>, v: Verb<K>, u: iset<KeyPair<K>>, rate: int, eps: real): Sys<K> {
    match v
    case Engine(m, op) =>
      if Allowed(Final(s), m) then
        var x, y := Exec(s.d, s.clock, m, op), Exec(s.a, s.clock, V1Only, op);
        s.(d := x.0, a := y.0, outD := s.outD + [x.1], outA := s.outA + [y.1])
      else s
    case Elsewhere(m, op) =>
      s.(d := Exec(s.d, s.clock, m, op).0, a := Exec(s.a, s.clock, V1Only, op).0)
    case DualOn =>
      if s.marker.None? then s.(marker := Some(Marker(DualPhase, false, s.clock))) else s
    case BackfillOne(p) =>
      if s.marker.Some? && s.marker.value.phase != Reaped then s.(d := BackfillKey(s.d, p)) else s
    case ScanStart => s.(scan := Some(Scan(s.d.floats.Keys, true)))
    case Compare(p, seen) =>
      if s.scan.Some? then
        var good := p.v2 in s.d.floats && Abs(seen - s.d.floats[p.v2]) <= eps;
        s.(scan := Some(Scan(s.scan.value.todo - {p.v1}, s.scan.value.ok && good)))
      else s
    case ScanEnd =>
      if s.scan.Some? && (forall p :: p in u && !p.kind.Latch? ==> p.v1 !in s.scan.value.todo || p.v1 !in s.d.floats)
      then s.(verifiedOK := s.scan.value.ok, scan := None) else s
    case NewInstance => s.(verifiedOK := false, scan := None, reaping := false)
    case Flip =>
      if !FlipGate(s.marker, s.clock, rate, s.verifiedOK) then s
      else s.(marker := Some(s.marker.value.(phase := Flipped)))
    case ReapStart(confirmed) =>
      if s.marker.Some? && s.marker.value.phase != DualPhase && s.verifiedOK && confirmed
      then s.(marker := Some(s.marker.value.(phase := Reaped, final := true)), reaping := true) else s
    case ReapOne(p) => if s.reaping then s.(d := Removed(s.d, p.v1)) else s
    case ReapEnd => s.(reaping := false)
  }

  ghost function Step<K(!new)>(s: Sys<K>, e: Event<K>, u: iset<KeyPair<K>>, rate: int, eps: real): Sys<K> {
    if e.now < s.clock then s else Do(Tick(s, e.now), e.verb, u, rate, eps)
  }

  ghost function Run<K(!new)>(s: Sys<K>, es: seq<Event<K>>, u: iset<KeyPair<K>>, rate: int, eps: real): Sys<K> {
    if es == [] then s else Step(Run(s, es[..|es| - 1], u, rate, eps), es[|es| - 1], u, rate, eps)
  }

  /** Engine calls name counters of the universe, or only counters apart from it; the
      migrator meets both kinds. */
  ghost predicate WfVerb<K(!new)>(u: iset<KeyPair<K>>, v: Verb<K>) {
    match v
    case Engine(_, op) => WfOp(u, op)
    case Elsewhere(_, op) => Foreign(u, op)
    case BackfillOne(p) => (p in u && !p.kind.Latch?) || Apart(u, p)
    case Compare(p, _) => (p in u && !p.kind.Latch?) || Apart(u, p)
    case ReapOne(p) => p in u || Apart(u, p)
    case _ => true
  }

  ghost predicate WfEvents<K(!new)>(u: iset<KeyPair<K>>, es: seq<Event<K>>) {
    forall i :: 0 <= i < |es| ==> WfVerb(u, es[i].verb)
  }

  // ----- the invariant -----

  ghost predicate AllSeeded<K(!new)>(d: Store<K>, u: iset<KeyPair<K>>) {
    forall p :: p in u && !p.kind.Latch? ==> Seeded(d, p)
  }

  predicate Twinned<K(==)>(d: Store<K>, p: KeyPair<K>) {
    View(d, p.v1).latch ==> View(d, p.v2) == View(d, p.v1)
  }

  ghost predicate AllTwinned<K(!new)>(d: Store<K>, u: iset<KeyPair<K>>) {
    forall p :: p in u && p.kind.Latch? ==> Twinned(d, p)
  }

  /** A latch without a twin was claimed before the dual window. */
  ghost predicate OldLatches<K(!new)>(d: Store<K>, u: iset<KeyPair<K>>, start: int) {
    forall p :: p in u && p.kind.Latch? && !Twinned(d, p) ==>
      View(d, p.v1).exp.Some? && View(d, p.v1).exp.value < start + IDEM_TTL
  }

  /** Every bucket that should expire does, no later than one period ttl from now. */
  ghost predicate Disciplined<K(!new)>(a: Store<K>, u: iset<KeyPair<K>>, now: int) {
    forall p :: p in u && p.kind.Acc? && p.kind.ttl > 0 && View(a, p.v1).val.Some? ==>
      View(a, p.v1).exp.Some? && View(a, p.v1).exp.value <= now + p.kind.ttl
  }

  ghost predicate ScanSound<K(!new)>(s: Sys<K>, u: iset<KeyPair<K>>) {
    s.scan.Some? && s.scan.value.ok ==>
      forall p :: p in u && !p.kind.Latch? ==> p.v1 in s.scan.value.todo || Seeded(s.d, p)
  }

  ghost predicate Inv<K(!new)>(s: Sys<K>, u: iset<KeyPair<K>>, start: int) {
    && AllRel(Final(s), s.d, s.a, u)
    && Disciplined(s.a, u, s.clock)
    && start <= s.clock
    && s.outD == s.outA
    && (s.reaping ==> Final(s))
    && (s.marker.Some? ==>
       start <= s.marker.value.dualSince && (s.marker.value.final <==> s.marker.value.phase == Reaped))
    && (!Final(s) ==>
          && (s.verifiedOK ==> AllSeeded(s.d, u))
          && ScanSound(s, u)
          && OldLatches(s.d, u, start)
          && (s.marker.Some? && s.marker.value.phase == Flipped ==> AllTwinned(s.d, u)))
  }

  /** When the last engine has started dual-writing: no v2 key yet, v1 keys used as what
      they are, every bucket with a period ttl carries it, and every latch was claimed
      before this moment for at most one day. */
  ghost predicate Init<K(!new)>(s: Sys<K>, u: iset<KeyPair<K>>) {
    && s.a == s.d && Fresh(s.d, u) && Disciplined(s.d, u, s.clock)
    && OldLatches(s.d, u, s.clock)
    && s.marker.None? && !s.verifiedOK && s.scan.None? && !s.reaping && s.outD == s.outA == []
  }

  lemma InitInv<K(!new)>(s: Sys<K>, u: iset<KeyPair<K>>)
    requires Init(s, u)
    ensures Inv(s, u, s.clock)
  {
    forall p | p in u ensures Rel(false, s.d, s.a, p) {
    }
  }

  lemma TickInv<K(!new)>(s: Sys<K>, u: iset<KeyPair<K>>, start: int, now: int)
    requires Inv(s, u, start) && s.clock <= now
    ensures Inv(Tick(s, now), u, start)
  {
    var t := Tick(s, now);
    SweepRel(Final(s), s.d, s.a, u, now);
    forall p | p in u
      ensures View(t.d, p.v1) == Expired(View(s.d, p.v1), now)
      ensures View(t.d, p.v2) == Expired(View(s.d, p.v2), now)
      ensures View(t.a, p.v1) == Expired(View(s.a, p.v1), now)
      ensures !Final(s) && Seeded(s.d, p) ==> Seeded(t.d, p)
      ensures !Final(s) && Twinned(s.d, p) ==> Twinned(t.d, p)
    {
      SweptView(s.d, now, p.v1);
      SweptView(s.d, now, p.v2);
      SweptView(s.a, now, p.v1);
      assert Rel(Final(s), s.d, s.a, p);
    }
  }

  /** The reference keeps its bucket expiries in order. */
  lemma DisciplineStep<K(!new)>(a: Store<K>, u: iset<KeyPair<K>>, now: int, op: Op<K>)
    requires Consistent(u) && WfOp(u, op) && Disciplined(a, u, now) && Swept(a, now) == a
    ensures Disciplined(Exec(a, now, V1Only, op).0, u, now)
  {
    var a' := Exec(a, now, V1Only, op).0;
    ExecFrame(a, u, V1Only, now, op);
    forall p | p in u && p.kind.Acc? && p.kind.ttl > 0 && View(a', p.v1).val.Some?
      ensures View(a', p.v1).exp.Some? && View(a', p.v1).exp.value <= now + p.kind.ttl
    {
      if a' != a {
        assert OtherStep(Swept(a, now), a', V1Only, now, op, p);
      }
    }
  }

  lemma TwinOne<K>(d: Store<K>, a: Store<K>, d': Store<K>, m: Mode, now: int, op: Op<K>, p: KeyPair<K>)
    requires Rel(false, d, a, p) && p.kind.Latch? && m.Dual? && OtherStep(d, d', m, now, op, p)
    requires op.AccAdd? ==> op.acc.kind.Acc?
    ensures SamePair(d, d', p) || Twinned(d', p)
  {
  }

  lemma TwinStep<K(!new)>(d: Store<K>, a: Store<K>, u: iset<KeyPair<K>>, now: int, m: Mode, op: Op<K>)
    requires Consistent(u) && WfOp(u, op) && AllRel(false, d, a, u) && m.Dual? && Swept(d, now) == d
    ensures forall p :: p in u && p.kind.Latch? ==>
              SamePair(d, Exec(d, now, m, op).0, p) || Twinned(Exec(d, now, m, op).0, p)
  {
    var d' := Exec(d, now, m, op).0;
    ExecFrame(d, u, m, now, op);
    forall p | p in u && p.kind.Latch? ensures SamePair(d, d', p) || Twinned(d', p) {
      if d' != d {
        assert OtherStep(Swept(d, now), d', m, now, op, p);
        TwinOne(d, a, d', m, now, op, p);
      }
    }
  }

  lemma LatchInv<K(!new)>(d: Store<K>, d': Store<K>, u: iset<KeyPair<K>>, start: int)
    requires forall p :: p in u && p.kind.Latch? ==> SamePair(d, d', p) || Twinned(d', p)
    requires OldLatches(d, u, start)
    ensures OldLatches(d', u, start) && (AllTwinned(d, u) ==> AllTwinned(d', u))
  {
  }

  /** In the reference's order the v1 copy of a bucket never outlives a renewal. */
  lemma CopiesExpire<K(!new)>(d: Store<K>, a: Store<K>, u: iset<KeyPair<K>>, now: int, p: KeyPair<K>)
    requires AllRel(true, d, a, u) && Disciplined(a, u, now) && p in u
    ensures CopyExpires(d, p, now)
  {
    assert Rel(true, d, a, p);
  }

  lemma EngineInv<K(!new)>(s: Sys<K>, u: iset<KeyPair<K>>, start: int, m: Mode, op: Op<K>)
    requires Consistent(u) && WfOp(u, op) && Inv(s, u, start) && Allowed(Final(s), m)
    requires Swept(s.d, s.clock) == s.d && Swept(s.a, s.clock) == s.a
    ensures Inv(Do(s, Engine(m, op), u, 0, 0.0), u, start)
  {
    if Final(s) && op.AccAdd? {
      CopiesExpire(s.d, s.a, u, s.clock, op.acc);
    }
    ExecRel(Final(s), s.d, s.a, u, m, s.clock, op);
    DisciplineStep(s.a, u, s.clock, op);
    var t := Do(s, Engine(m, op), u, 0, 0.0);
    if !Final(s) {
      TwinStep(s.d, s.a, u, s.clock, m, op);
      LatchInv(s.d, t.d, u, start);
      assert Keeps(s.d, t.d, u);
    }
  }

  lemma BackfillInv<K(!new)>(s: Sys<K>, u: iset<KeyPair<K>>, start: int, p: KeyPair<K>)
    requires Consistent(u) && Inv(s, u, start) && !Final(s) && p in u && !p.kind.Latch?
    ensures Inv(s.(d := BackfillKey(s.d, p)), u, start)
  {
    BackfillRel(s.d, s.a, u, p);
    var d' := BackfillKey(s.d, p);
    forall q | q in u && q.kind.Latch? ensures SamePair(s.d, d', q) {
    }
    LatchInv(s.d, d', u, start);
  }

  lemma ReapOneInv<K(!new)>(s: Sys<K>, u: iset<KeyPair<K>>, start: int, p: KeyPair<K>)
    requires Consistent(u) && Inv(s, u, start) && Final(s) && p in u
    ensures Inv(s.(d := Removed(s.d, p.v1)), u, start)
  {
    var d' := Removed(s.d, p.v1);
    forall q | q in u ensures Rel(true, d', s.a, q) {
      assert Rel(true, s.d, s.a, q);
      assert View(d', q.v1) == if q == p then BLANK else View(s.d, q.v1);
      assert View(d', q.v2) == View(s.d, q.v2);
    }
  }

  /** With every value key seeded and every latch twinned the v2 side is the whole truth. */
  lemma ReapStartInv<K(!new)>(s: Sys<K>, u: iset<KeyPair<K>>, start: int)
    requires Inv(s, u, start) && s.marker.Some? && s.marker.value.phase != DualPhase && s.verifiedOK
    ensures Inv(Do(s, ReapStart(true), u, 0, 0.0), u, start)
  {
    if !Final(s) {
      forall p | p in u ensures Rel(true, s.d, s.a, p) {
        assert Rel(false, s.d, s.a, p);
        assert p.kind.Latch? ==> Twinned(s.d, p);
        assert !p.kind.Latch? ==> Seeded(s.d, p);
      }
    }
  }

  lemma FlipInv<K(!new)>(s: Sys<K>, u: iset<KeyPair<K>>, start: int, rate: int)
    requires Inv(s, u, start) && Swept(s.d, s.clock) == s.d && start != 0
    requires FlipGate(s.marker, s.clock, rate, s.verifiedOK)
    ensures !Final(s) && AllTwinned(s.d, u)
  {
    forall p | p in u && p.kind.Latch? ensures Twinned(s.d, p) {
      SweptView(s.d, s.clock, p.v1);
      assert Expired(View(s.d, p.v1), s.clock) == View(s.d, p.v1);
    }
  }

  /** What happens to keys outside the universe does not matter. */
  lemma OutsideInv<K(!new)>(s: Sys<K>, d: Store<K>, a: Store<K>, u: iset<KeyPair<K>>, start: int)
    requires Inv(s, u, start) && SameOn(s.d, d, u) && SameOn(s.a, a, u)
    ensures Inv(s.(d := d, a := a), u, start)
  {
    forall p | p in u
      ensures Rel(Final(s), d, a, p) && (Seeded(s.d, p) <==> Seeded(d, p)) && (Twinned(s.d, p) <==> Twinned(d, p))
      ensures View(d, p.v1) == View(s.d, p.v1) && View(a, p.v1) == View(s.a, p.v1)
    {
      assert Rel(Final(s), s.d, s.a, p) && SamePair(s.d, d, p) && SamePair(s.a, a, p);
    }
  }

  lemma OutsideMigratorInv<K(!new)>(s: Sys<K>, u: iset<KeyPair<K>>, start: int, p: KeyPair<K>)
    requires Inv(s, u, start) && Apart(u, p)
    ensures Inv(s.(d := BackfillKey(s.d, p)), u, start)
    ensures Inv(s.(d := Removed(s.d, p.v1)), u, start)
  {
    assert SameOn(s.d, BackfillKey(s.d, p), u);
    assert SameOn(s.d, Removed(s.d, p.v1), u);
    OutsideInv(s, BackfillKey(s.d, p), s.a, u, start);
    OutsideInv(s, Removed(s.d, p.v1), s.a, u, start);
  }

  lemma ElsewhereInv<K(!new)>(s: Sys<K>, u: iset<KeyPair<K>>, start: int, m: Mode, op: Op<K>)
    requires Consistent(u) && Foreign(u, op) && Inv(s, u, start)
    requires Swept(s.d, s.clock) == s.d && Swept(s.a, s.clock) == s.a
    ensures Inv(Do(s, Elsewhere(m, op), u, 0, 0.0), u, start)
  {
    ForeignFrame(s.d, u, m, s.clock, op);
    ForeignFrame(s.a, u, V1Only, s.clock, op);
    OutsideInv(s, Exec(s.d, s.clock, m, op).0, Exec(s.a, s.clock, V1Only, op).0, u, start);
  }

  lemma DoInv<K(!new)>(s: Sys<K>, v: Verb<K>, u: iset<KeyPair<K>>, start: int, rate: int, eps: real)
    requires Consistent(u) && WfVerb(u, v) && Inv(s, u, start) && start > 0
    requires Swept(s.d, s.clock) == s.d && Swept(s.a, s.clock) == s.a
    ensures Inv(Do(s, v, u, rate, eps), u, start)
  {
    match v
    case Engine(m, op) =>
      if Allowed(Final(s), m) {
        EngineInv(s, u, start, m, op);
      }
    case Elsewhere(m, op) => ElsewhereInv(s, u, start, m, op);
    case BackfillOne(p) =>
      if s.marker.Some? && s.marker.value.phase != Reaped {
        if p in u && !p.kind.Latch? {
          BackfillInv(s, u, start, p);
        } else {
          OutsideMigratorInv(s, u, start, p);
        }
      }
    case ReapStart(confirmed) =>
      if s.marker.Some? && s.marker.value.phase != DualPhase && s.verifiedOK && confirmed {
        ReapStartInv(s, u, start);
      }
    case ReapOne(p) =>
      if s.reaping {
        if p in u {
          ReapOneInv(s, u, start, p);
        } else {
          OutsideMigratorInv(s, u, start, p);
        }
      }
    case Flip =>
      if FlipGate(s.marker, s.clock, rate, s.verifiedOK) {
        FlipInv(s, u, start, rate);
      }
    case _ =>
  }

  lemma StepInv<K(!new)>(s: Sys<K>, e: Event<K>, u: iset<KeyPair<K>>, start: int, rate: int, eps: real)
    requires Consistent(u) && WfVerb(u, e.verb) && Inv(s, u, start) && start > 0
    ensures Inv(Step(s, e, u, rate, eps), u, start)
  {
    if s.clock <= e.now {
      TickInv(s, u, start, e.now);
      SweptTwice(s.d, e.now);
      SweptTwice(s.a, e.now);
      DoInv(Tick(s, e.now), e.verb, u, start, rate, eps);
    }
  }

  lemma {:induction false} RunInv<K(!new)>(s: Sys<K>, es: seq<Event<K>>, u: iset<KeyPair<K>>, rate: int, eps: real)
    requires Consistent(u) && Init(s, u) && WfEvents(u, es) && s.clock > 0
    ensures Inv(Run(s, es, u, rate, eps), u, s.clock)
  {
    if es == [] {
      InitInv(s, u);
    } else {
      var n := |es| - 1;
      forall i | 0 <= i < n ensures WfVerb(u, es[..n][i].verb) {
        assert es[..n][i] == es[i];
      }
      RunInv(s, es[..n], u, rate, eps);
      StepInv(Run(s, es[..n], u, rate, eps), es[n], u, s.clock, rate, eps);
    }
  }

  // ----- what follows for every run -----

  /** Migration end to end: in every run every engine answer is the single-shape answer,
      and once v2-final is recorded, however far reaping has come, a (2,false) engine
      reads every gauge and bucket at its true level. */
  lemma MigrationEndToEnd<K(!new)>(s: Sys<K>, es: seq<Event<K>>, u: iset<KeyPair<K>>, rate: int, eps: real,
                                   p: KeyPair<K>, now: int)
    requires Consistent(u) && Init(s, u) && WfEvents(u, es) && s.clock > 0
    requires p in u && !p.kind.Latch?
    ensures var t := Run(s, es, u, rate, eps);
            && t.outD == t.outA
            && (Final(t) ==> Exec(t.d, now, V2Only, Read(p)).1 == Exec(t.a, now, V1Only, Read(p)).1)
  {
    RunInv(s, es, u, rate, eps);
    var t := Run(s, es, u, rate, eps);
    if Final(t) {
      ReadRel(true, t.d, t.a, u, V2Only, now, p);
    }
  }

  /** Flip gate soundness: whenever the gate opens, every latch still alive has a v2 twin
      with the same expiry, and every v1 level has an equal v2 level. */
  lemma FlipGateSound<K(!new)>(s: Sys<K>, es: seq<Event<K>>, u: iset<KeyPair<K>>, rate: int, eps: real,
                               now: int, p: KeyPair<K>)
    requires Consistent(u) && Init(s, u) && WfEvents(u, es) && s.clock > 0 && p in u
    requires var t := Run(s, es, u, rate, eps); t.clock <= now && FlipGate(t.marker, now, rate, t.verifiedOK)
    ensures var d := Swept(Run(s, es, u, rate, eps).d, now);
            && (p.kind.Latch? && View(d, p.v1).latch ==> View(d, p.v2) == View(d, p.v1))
            && (!p.kind.Latch? && View(d, p.v1).val.Some? ==> View(d, p.v2) == View(d, p.v1))
  {
    RunInv(s, es, u, rate, eps);
    var t := Run(s, es, u, rate, eps);
    TickInv(t, u, s.clock, now);
    SweptTwice(t.d, now);
    FlipInv(Tick(t, now), u, s.clock, rate);
    assert Rel(false, Tick(t, now).d, Tick(t, now).a, p);
    assert p.kind.Latch? ==> Twinned(Tick(t, now).d, p);
    assert !p.kind.Latch? ==> Seeded(Tick(t, now).d, p);
  }

  /** What a dual engine and the reference read of the bucket at a later time, after one
      v2-only add. */
  ghost predicate ReadsAgree<K>(d: Store<K>, a: Store<K>, p: KeyPair<K>, now: int, x: real, t: int) {
    var d1, a1 := Exec(d, now, V2Only, AccAdd(p, x)).0, Exec(a, now, V1Only, AccAdd(p, x)).0;
    Exec(d1, t, Dual(true), Read(p)).1 == Exec(a1, t, V1Only, Read(p)).1
  }

  /** The cells of the bucket after the add. */
  lemma AddedCells<K>(d: Store<K>, a: Store<K>, p: KeyPair<K>, now: int, x: real)
    requires p.v1 != p.v2 && p.kind.Acc? && p.kind.ttl > 0 && Rel(true, d, a, p)
    requires Swept(d, now) == d && Swept(a, now) == a
    ensures var d1, a1 := Exec(d, now, V2Only, AccAdd(p, x)).0, Exec(a, now, V1Only, AccAdd(p, x)).0;
            && View(d1, p.v1) == View(d, p.v1)
            && View(d1, p.v2) == View(a1, p.v1) == Cell(Some(Level(a, p.v1) + x), false, Some(now + p.kind.ttl))
  {
    assert Level(d, p.v2) == Level(a, p.v1);
  }

  lemma DualReading<K>(s: Store<K>, p: KeyPair<K>, t: int)
    ensures var (c1, c2) := (Expired(View(s, p.v1), t), Expired(View(s, p.v2), t));
            && Exec(s, t, Dual(true), Read(p)).1 == Reading(if c2.val.Some? then c2.val else c1.val)
            && Exec(s, t, V1Only, Read(p)).1 == Reading(c1.val)
  {
    SweptView(s, t, p.v1);
    SweptView(s, t, p.v2);
  }

  /** After v2-final and a v2-only add, a dual engine reads the bucket right at every later
      moment exactly when its v1 copy holds nothing or expires with it: a copy that
      outlives the bucket comes back. */
  lemma BucketComesBackIff<K>(d: Store<K>, a: Store<K>, p: KeyPair<K>, now: int, x: real)
    requires p.v1 != p.v2 && p.kind.Acc? && p.kind.ttl > 0 && Rel(true, d, a, p)
    requires Swept(d, now) == d && Swept(a, now) == a
    ensures (forall t :: t >= now ==> ReadsAgree(d, a, p, now, x, t)) <==> CopyExpires(d, p, now)
  {
    var d1, a1 := Exec(d, now, V2Only, AccAdd(p, x)).0, Exec(a, now, V1Only, AccAdd(p, x)).0;
    AddedCells(d, a, p, now, x);
    forall t ensures ReadsAgree(d, a, p, now, x, t) <==>
                     (t > now + p.kind.ttl ==> Expired(View(d, p.v1), t).val.None?)
    {
      DualReading(d1, p, t);
      DualReading(a1, p, t);
    }
    if !CopyExpires(d, p, now) {
      assert !ReadsAgree(d, a, p, now, x, now + p.kind.ttl + 1);
    }
  }

  /** An instance: a bucket without a ttl, copied, renewed by a v2-only engine and read
      after its period. */
  lemma UndisciplinedBucketComesBack()
    ensures var p := KeyPair(1, 2, Acc(10));
            var d: Store<int> := Store(map[1 := 5.0, 2 := 5.0], {}, map[]);
            var a: Store<int> := Store(map[1 := 5.0], {}, map[]);
            Rel(true, d, a, p) && exists t :: t >= 0 && !ReadsAgree(d, a, p, 0, 1.0, t)
  {
    var p := KeyPair(1, 2, Acc(10));
    var d: Store<int> := Store(map[1 := 5.0, 2 := 5.0], {}, map[]);
    var a: Store<int> := Store(map[1 := 5.0], {}, map[]);
    assert Swept(d, 0).floats == d.floats && Swept(a, 0).floats == a.floats;
    assert Swept(d, 0).expiry == d.expiry && Swept(a, 0).expiry == a.expiry;
    assert Swept(d, 0).latches == d.latches && Swept(a, 0).latches == a.latches;
    BucketComesBackIff(d, a, p, 0, 1.0);
  }

  // ----- the marker -----

  /** What may become of the marker: the phase only advances, the start of the dual
      window is kept, v2-final is never taken back. */
  predicate Advances(was: Option<Marker>, now: Option<Marker>) {
    was.Some? ==>
      && now.Some?
      && (was.value.phase == Flipped ==> now.value.phase == Flipped || now.value.phase == Reaped)
      && (was.value.phase == Reaped ==> now.value.phase == Reaped)
      && now.value.dualSince == was.value.dualSince
      && (was.value.final ==> now.value.final)
  }

  lemma StepAdvances<K(!new)>(s: Sys<K>, e: Event<K>, u: iset<KeyPair<K>>, rate: int, eps: real)
    ensures Advances(s.marker, Step(s, e, u, rate, eps).marker)
  {
    if s.clock <= e.now {
      match e.verb
      case Flip =>
      case ReapStart(_) =>
      case Engine(_, _) =>
      case Elsewhere(_, _) =>
      case _ =>
    }
  }

  /** Marker safety over any sequence of verbs, crashes and fresh migrators. */
  lemma {:induction false} MarkerAdvances<K(!new)>(s: Sys<K>, es: seq<Event<K>>, i: nat, u: iset<KeyPair<K>>,
                                                   rate: int, eps: real)
    requires i <= |es|
    ensures Advances(Run(s, es[..i], u, rate, eps).marker, Run(s, es, u, rate, eps).marker)
  {
    if i == |es| {
      assert es[..i] == es;
    } else {
      var n := |es| - 1;
      MarkerAdvances(s, es[..n], i, u, rate, eps);
      assert es[..n][..i] == es[..i];
      StepAdvances(Run(s, es[..n], u, rate, eps), es[n], u, rate, eps);
    }
  }

  /** Deleting goes on only under v2-final. */
  lemma {:induction false} ReapingIsFinal<K(!new)>(s: Sys<K>, es: seq<Event<K>>, u: iset<KeyPair<K>>, rate: int,
                                            eps: real)
    requires !s.reaping
    ensures var t := Run(s, es, u, rate, eps); t.reaping ==> Final(t)
  {
    if es != [] {
      ReapingIsFinal(s, es[..|es| - 1], u, rate, eps);
      StepAdvances(Run(s, es[..|es| - 1], u, rate, eps), es[|es| - 1], u, rate, eps);
    }
  }

  /** At every point of every run, a level or latch that time has not taken disappears only
      when v2-final is stored. */
  lemma NoEarlyDelete<K(!new)>(s: Sys<K>, es: seq<Event<K>>, e: Event<K>, u: iset<KeyPair<K>>, rate: int, eps: real,
                        k: K)
    requires !s.reaping
    requires var t := Run(s, es, u, rate, eps); t.clock <= e.now
    ensures var t := Run(s, es, u, rate, eps);
            var t', d := Step(t, e, u, rate, eps), Swept(t.d, e.now);
            Final(t') || ((k in d.floats ==> k in t'.d.floats) && (k in d.latches ==> k in t'.d.latches))
  {
    ReapingIsFinal(s, es, u, rate, eps);
    StepKeeps(Run(s, es, u, rate, eps), e, u, rate, eps, k);
  }

  lemma StepKeeps<K(!new)>(s: Sys<K>, e: Event<K>, u: iset<KeyPair<K>>, rate: int, eps: real, k: K)
    requires s.reaping ==> Final(s)
    requires s.clock <= e.now
    ensures var s' := Step(s, e, u, rate, eps);
            var d := Swept(s.d, e.now);
            Final(s') || ((k in d.floats ==> k in s'.d.floats) && (k in d.latches ==> k in s'.d.latches))
  {
    if e.verb.Engine? || e.verb.Elsewhere? {
      SweptTwice(s.d, e.now);
      ExecStays(Tick(s, e.now).d, e.verb.m, e.now, e.verb.op);
    }
  }

  /** Once v2-final has been stored, at every later moment an engine boots exactly when
      it declares version 2 without dual-write. */
  lemma FinalBoots<K(!new)>(s: Sys<K>, es: seq<Event<K>>, i: nat, u: iset<KeyPair<K>>, rate: int, eps: real,
                            m: Mode, v1Found: bool)
    requires i <= |es| && Final(Run(s, es[..i], u, rate, eps))
    ensures BootAccepts(Run(s, es, u, rate, eps).marker, m, v1Found) <==> m == V2Only
  {
    MarkerAdvances(s, es, i, u, rate, eps);
  }

  /** Who boots, at every point of a run: before v2-final everything but a v2-only engine
      that would leave v1 counters behind, after it a v2-only engine alone. */
  lemma BootsExactly<K(!new)>(s: Sys<K>, es: seq<Event<K>>, u: iset<KeyPair<K>>, rate: int, eps: real,
                              m: Mode, v1Found: bool)
    ensures var t := Run(s, es, u, rate, eps);
            BootAccepts(t.marker, m, v1Found) <==>
              (m == V2Only && (Final(t) || !v1Found)) || ((m == V1Only || m.Dual?) && !Final(t))
  {
  }

  /** A boot the check accepts, other than one that may declare v1 alone or finds no v1
      counter, is one whose calls the run answers. */
  lemma BootedIsAnswered<K(!new)>(t: Sys<K>, u: iset<KeyPair<K>>, rate: int, eps: real, m: Mode, v1Found: bool,
                                  now: int, op: Op<K>)
    requires t.clock <= now && BootAccepts(t.marker, m, v1Found) && !m.V1Only?
    requires Final(t) || v1Found
    ensures var t' := Step(t, At(now, Engine(m, op)), u, rate, eps);
            && t'.outD == t.outD + [Exec(Swept(t.d, now), now, m, op).1]
            && t'.outA == t.outA + [Exec(Swept(t.a, now), now, V1Only, op).1]
  {
  }

  /** What a call does: a dual engine is answered at every moment before v2-final, a
      version 2 engine after it, from the store without what has expired; and the store
      goes on from what the call left.  Any other call of the universe does nothing. */
  lemma EngineStepMeans<K(!new)>(t: Sys<K>, u: iset<KeyPair<K>>, rate: int, eps: real, m: Mode, now: int, op: Op<K>)
    requires t.clock <= now
    ensures var t' := Step(t, At(now, Engine(m, op)), u, rate, eps);
            var (d, a) := (Swept(t.d, now), Swept(t.a, now));
            if (m.Dual? && !Final(t)) || ((m == V2Only || m == Dual(true)) && Final(t)) then
              && t'.d == Exec(d, now, m, op).0 && t'.outD == t.outD + [Exec(d, now, m, op).1]
              && t'.a == Exec(a, now, V1Only, op).0 && t'.outA == t.outA + [Exec(a, now, V1Only, op).1]
            else t'.d == d && t'.a == a && t'.outD == t.outD && t'.outA == t.outA
    ensures var t' := Step(t, At(now, Elsewhere(m, op)), u, rate, eps);
            t'.d == Exec(Swept(t.d, now), now, m, op).0 && t'.a == Exec(Swept(t.a, now), now, V1Only, op).0
  {
  }

  // ----- what a stored v2-final is worth -----

  /** Flip i of the run was recorded: the verify of this instance was green, and dual-write
      had been on for a day and for the longest rate window. */
  ghost predicate FlippedAt<K(!new)>(s: Sys<K>, es: seq<Event<K>>, i: nat, u: iset<KeyPair<K>>, rate: int, eps: real) {
    && i < |es| && es[i].verb.Flip?
    && var t := Run(s, es[..i], u, rate, eps);
       && t.verifiedOK && t.marker.Some? && !t.marker.value.final
       && es[i].now - t.marker.value.dualSince >= 86400 && es[i].now - t.marker.value.dualSince >= rate
  }

  ghost predicate ConfirmedAt<K(!new)>(s: Sys<K>, es: seq<Event<K>>, j: nat, u: iset<KeyPair<K>>, rate: int,
                                       eps: real) {
    j < |es| && es[j].verb == ReapStart(true) && Run(s, es[..j], u, rate, eps).verifiedOK
  }

  ghost predicate Earned<K(!new)>(s: Sys<K>, es: seq<Event<K>>, u: iset<KeyPair<K>>, rate: int, eps: real) {
    var t := Run(s, es, u, rate, eps);
    && (t.marker.Some? ==> t.marker.value.dualSince > 0 && (t.marker.value.final <==> t.marker.value.phase == Reaped))
    && (t.marker.Some? && t.marker.value.phase != DualPhase ==> exists i :: FlippedAt(s, es, i, u, rate, eps))
    && (Final(t) ==> exists j :: ConfirmedAt(s, es, j, u, rate, eps))
  }

  lemma EarnedStays<K(!new)>(s: Sys<K>, es: seq<Event<K>>, e: Event<K>, u: iset<KeyPair<K>>, rate: int, eps: real)
    ensures forall i :: FlippedAt(s, es, i, u, rate, eps) ==> FlippedAt(s, es + [e], i, u, rate, eps)
    ensures forall j :: ConfirmedAt(s, es, j, u, rate, eps) ==> ConfirmedAt(s, es + [e], j, u, rate, eps)
  {
    forall i: nat | i <= |es| ensures (es + [e])[..i] == es[..i] {
    }
  }

  /** Over every run from before dual-on: v2-final stands only after a confirmed reap with
      a green verify of the same instance, and that only after a flip recorded under a
      green verify at least a day, and the longest rate window, after dual-on. */
  lemma {:induction false} FinalWasEarned<K(!new)>(s: Sys<K>, es: seq<Event<K>>, u: iset<KeyPair<K>>, rate: int,
                                                   eps: real)
    requires s.marker.None? && s.clock > 0
    ensures Earned(s, es, u, rate, eps)
  {
    if es != [] {
      var n := |es| - 1;
      var t, e := Run(s, es[..n], u, rate, eps), es[n];
      FinalWasEarned(s, es[..n], u, rate, eps);
      ClockGoesOn(s, es[..n], u, rate, eps);
      EarnedStays(s, es[..n], e, u, rate, eps);
      assert es[..n] + [e] == es;
      if t.clock <= e.now {
        EarnedStep(s, es, u, rate, eps);
      }
    }
  }

  lemma {:induction false} ClockGoesOn<K(!new)>(s: Sys<K>, es: seq<Event<K>>, u: iset<KeyPair<K>>, rate: int, eps: real)
    ensures s.clock <= Run(s, es, u, rate, eps).clock
  {
    if es != [] {
      ClockGoesOn(s, es[..|es| - 1], u, rate, eps);
    }
  }

  /** All a step may do to the marker. */
  lemma MarkerMoves<K(!new)>(t: Sys<K>, e: Event<K>, u: iset<KeyPair<K>>, rate: int, eps: real)
    requires t.clock <= e.now
    ensures var m := Step(t, e, u, rate, eps).marker;
            || m == t.marker
            || (t.marker.None? && m == Some(Marker(DualPhase, false, e.now)))
            || (e.verb.Flip? && FlipGate(t.marker, e.now, rate, t.verifiedOK)
                && m == Some(t.marker.value.(phase := Flipped)))
            || (e.verb == ReapStart(true) && t.marker.Some? && t.marker.value.phase != DualPhase && t.verifiedOK
                && m == Some(t.marker.value.(phase := Reaped, final := true)))
  {
    match e.verb
    case Engine(_, _) =>
    case _ =>
  }

  lemma EarnedStep<K(!new)>(s: Sys<K>, es: seq<Event<K>>, u: iset<KeyPair<K>>, rate: int, eps: real)
    requires es != [] && Earned(s, es[..|es| - 1], u, rate, eps)
    requires 0 < Run(s, es[..|es| - 1], u, rate, eps).clock <= es[|es| - 1].now
    requires forall i :: FlippedAt(s, es[..|es| - 1], i, u, rate, eps) ==> FlippedAt(s, es, i, u, rate, eps)
    requires forall j :: ConfirmedAt(s, es[..|es| - 1], j, u, rate, eps) ==> ConfirmedAt(s, es, j, u, rate, eps)
    ensures Earned(s, es, u, rate, eps)
  {
    var n := |es| - 1;
    var t, e := Run(s, es[..n], u, rate, eps), es[n];
    var t' := Step(t, e, u, rate, eps);
    assert Run(s, es, u, rate, eps) == t';
    MarkerMoves(t, e, u, rate, eps);
    hide Step, Run;
    if i: nat :| FlippedAt(s, es[..n], i, u, rate, eps) {
      assert FlippedAt(s, es, i, u, rate, eps);
    }
    if j: nat :| ConfirmedAt(s, es[..n], j, u, rate, eps) {
      assert ConfirmedAt(s, es, j, u, rate, eps);
    }
    if e.verb.Flip? && FlipGate(t.marker, e.now, rate, t.verifiedOK) {
      assert FlippedAt(s, es, n, u, rate, eps);
    } else if e.verb == ReapStart(true) && t.marker.Some? && t.verifiedOK {
      assert ConfirmedAt(s, es, n, u, rate, eps);
    }
  }

  /** A crash or a second migrator starts unverified: until its own scan has ended, no flip
      and no reap of it changes the marker. */
  lemma {:induction false} VerifyIsPerInstance<K(!new)>(s: Sys<K>, es: seq<Event<K>>, u: iset<KeyPair<K>>, rate: int,
                                                        eps: real)
    requires forall i :: 0 <= i < |es| ==> !es[i].verb.ScanEnd?
    requires !s.verifiedOK
    ensures var t := Run(s, es, u, rate, eps);
            !t.verifiedOK && (s.marker.Some? ==> t.marker == s.marker)
  {
    if es != [] {
      VerifyIsPerInstance(s, es[..|es| - 1], u, rate, eps);
      match es[|es| - 1].verb
      case Engine(_, _) =>
      case _ =>
    }
  }

  lemma NewInstanceIsUnverified<K(!new)>(s: Sys<K>, now: int, u: iset<KeyPair<K>>, rate: int, eps: real)
    requires s.clock <= now
    ensures var t := Step(s, At(now, NewInstance), u, rate, eps); !t.verifiedOK && t.scan.None? && !t.reaping
  {
  }

  /** A flip may be recorded again: an open gate stays open until the reap. */
  lemma FlipAgain(m: Marker, now: int, later: int, rate: int)
    requires FlipGate(Some(m), now, rate, true) && now <= later
    ensures FlipGate(Some(m.(phase := Flipped)), later, rate, true)
    ensures m.dualSince != 0 && m.phase != Reaped
    ensures !FlipGate(Some(m), later, rate, false) && !FlipGate(None, later, rate, true)
  {
  }

  // ----- the way through is open -----

  /** Some legal run leads from s to t. */
  ghost predicate Reaches<K(!new)>(s: Sys<K>, t: Sys<K>, u: iset<KeyPair<K>>, rate: int, eps: real) {
    exists es: seq<Event<K>> :: WfEvents(u, es) && Run(s, es, u, rate, eps) == t
  }

  lemma ReachesStep<K(!new)>(s: Sys<K>, t: Sys<K>, e: Event<K>, u: iset<KeyPair<K>>, rate: int, eps: real)
    requires Reaches(s, t, u, rate, eps) && WfVerb(u, e.verb)
    ensures Reaches(s, Step(t, e, u, rate, eps), u, rate, eps)
  {
    var es: seq<Event<K>> :| WfEvents(u, es) && Run(s, es, u, rate, eps) == t;
    assert (es + [e])[..|es|] == es;
    assert WfEvents(u, es + [e]);
  }

  lemma RunFromHere<K(!new)>(s: Sys<K>, u: iset<KeyPair<K>>, rate: int, eps: real)
    ensures Reaches(s, s, u, rate, eps)
  {
    assert WfEvents<K>(u, []) && Run(s, [], u, rate, eps) == s;
  }

  /** In the dual phase since `start`, at time `now`, nothing being deleted. */
  ghost predicate DualPhaseAt<K(!new)>(t: Sys<K>, u: iset<KeyPair<K>>, start: int, now: int) {
    Inv(t, u, start) && t.clock == now && t.marker == Some(Marker(DualPhase, false, start))
  }

  /** A pair still to be looked at, or fine already. */
  ghost predicate DoneExcept<K(!new)>(t: Sys<K>, u: iset<KeyPair<K>>, todo: set<K>) {
    forall p :: p in u && !p.kind.Latch? ==> p.v1 in todo || Seeded(t.d, p)
  }

  lemma TickSeeded<K(!new)>(s: Sys<K>, u: iset<KeyPair<K>>, start: int, now: int, p: KeyPair<K>)
    requires Inv(s, u, start) && !Final(s) && p in u && Seeded(s.d, p)
    ensures Seeded(Tick(s, now).d, p)
  {
    assert Rel(false, s.d, s.a, p);
    SweptView(s.d, now, p.v1);
    SweptView(s.d, now, p.v2);
  }

  /** One backfill seeds its pair and unseeds none. */
  lemma BackfillStep<K(!new)>(t: Sys<K>, u: iset<KeyPair<K>>, start: int, now: int, p: KeyPair<K>, rate: int, eps: real)
    requires Consistent(u) && start > 0 && DualPhaseAt(t, u, start, now) && p in u && !p.kind.Latch?
    ensures var t' := Step(t, At(now, BackfillOne(p)), u, rate, eps);
            && DualPhaseAt(t', u, start, now) && Seeded(t'.d, p)
            && forall q :: q in u && !q.kind.Latch? && Seeded(t.d, q) ==> Seeded(t'.d, q)
  {
    StepInv(t, At(now, BackfillOne(p)), u, start, rate, eps);
    TickInv(t, u, start, now);
    BackfillRel(Tick(t, now).d, Tick(t, now).a, u, p);
    forall q | q in u && !q.kind.Latch? && Seeded(t.d, q) ensures Seeded(Tick(t, now).d, q) {
      TickSeeded(t, u, start, now, q);
    }
  }

  /** Backfilling key by key seeds everything. */
  lemma {:induction false} BackfillAll<K(!new)>(s: Sys<K>, t: Sys<K>, u: iset<KeyPair<K>>, start: int, now: int,
                                         todo: set<K>,
                                                rate: int, eps: real)
    returns (t': Sys<K>)
    requires Consistent(u) && start > 0 && DualPhaseAt(t, u, start, now) && Reaches(s, t, u, rate, eps)
    requires DoneExcept(t, u, todo)
    ensures DualPhaseAt(t', u, start, now) && Reaches(s, t', u, rate, eps) && AllSeeded(t'.d, u)
    decreases todo
  {
    if todo == {} {
      t' := t;
    } else {
      var k :| k in todo;
      var next := t;
      if p :| p in u && !p.kind.Latch? && p.v1 == k {
        BackfillStep(t, u, start, now, p, rate, eps);
        ReachesStep(s, t, At(now, BackfillOne(p)), u, rate, eps);
        next := Step(t, At(now, BackfillOne(p)), u, rate, eps);
        forall q | q in u && !q.kind.Latch? && q.v1 !in todo - {k} ensures Seeded(next.d, q) {
          assert q.v1 == k ==> q == p;
        }
      }
      t' := BackfillAll(s, next, u, start, now, todo - {k}, rate, eps);
    }
  }

  /** A scan under way that has found nothing wrong, with every pair seeded. */
  ghost predicate Scanning<K(!new)>(t: Sys<K>, u: iset<KeyPair<K>>, start: int, now: int) {
    DualPhaseAt(t, u, start, now) && AllSeeded(t.d, u) && t.scan.Some? && t.scan.value.ok
  }

  lemma CompareStep<K(!new)>(t: Sys<K>, u: iset<KeyPair<K>>, start: int, now: int, p: KeyPair<K>, rate: int, eps: real)
    requires Consistent(u) && start > 0 && eps >= 0.0 && Scanning(t, u, start, now) && p in u && !p.kind.Latch?
    requires p.v1 in Tick(t, now).d.floats
    ensures var t' := Step(t, At(now, Compare(p, Level(Tick(t, now).d, p.v2))), u, rate, eps);
            Scanning(t', u, start, now) && t'.scan.value.todo == t.scan.value.todo - {p.v1}
  {
    var d := Tick(t, now).d;
    StepInv(t, At(now, Compare(p, Level(d, p.v2))), u, start, rate, eps);
    forall q | q in u && !q.kind.Latch? ensures Seeded(d, q) {
      TickSeeded(t, u, start, now, q);
    }
    assert Seeded(d, p);
  }

  /** Comparing key by key ends the scan's work. */
  lemma {:induction false} CompareAll<K(!new)>(s: Sys<K>, t: Sys<K>, u: iset<KeyPair<K>>, start: int, now: int,
                                        todo: set<K>,
                                               rate: int, eps: real)
    returns (t': Sys<K>)
    requires Consistent(u) && start > 0 && eps >= 0.0 && Scanning(t, u, start, now) && Reaches(s, t, u, rate, eps)
    requires forall p :: p in u && !p.kind.Latch? && p.v1 in t.scan.value.todo && p.v1 in t.d.floats ==> p.v1 in todo
    ensures Scanning(t', u, start, now) && Reaches(s, t', u, rate, eps)
    ensures forall p :: p in u && !p.kind.Latch? ==> p.v1 !in t'.scan.value.todo || p.v1 !in t'.d.floats
    decreases todo
  {
    if todo == {} {
      t' := t;
    } else {
      var k :| k in todo;
      var next := t;
      if p :| p in u && !p.kind.Latch? && p.v1 == k && k in Tick(t, now).d.floats {
        var e := At(now, Compare(p, Level(Tick(t, now).d, p.v2)));
        CompareStep(t, u, start, now, p, rate, eps);
        ReachesStep(s, t, e, u, rate, eps);
        next := Step(t, e, u, rate, eps);
      } else {
        next := Waited(s, t, u, start, now, rate, eps);
      }
      t' := CompareAll(s, next, u, start, now, todo - {k}, rate, eps);
    }
  }

  /** Time is looked at again: what has expired is gone. */
  lemma Waited<K(!new)>(s: Sys<K>, t: Sys<K>, u: iset<KeyPair<K>>, start: int, now: int, rate: int, eps: real)
    returns (t': Sys<K>)
    requires Consistent(u) && start > 0 && Scanning(t, u, start, now) && Reaches(s, t, u, rate, eps)
    ensures Scanning(t', u, start, now) && Reaches(s, t', u, rate, eps)
    ensures t' == Tick(t, now)
  {
    var e: Event<K> := At(now, DualOn);
    StepInv(t, e, u, start, rate, eps);
    ReachesStep(s, t, e, u, rate, eps);
    t' := Step(t, e, u, rate, eps);
    forall q | q in u && !q.kind.Latch? ensures Seeded(t'.d, q) {
      TickSeeded(t, u, start, now, q);
    }
  }

  /** From a finished scan: green, flipped, v2-final, deleting. */
  lemma FinishRun<K(!new)>(s: Sys<K>, t: Sys<K>, u: iset<KeyPair<K>>, start: int, now: int, rate: int, eps: real)
    returns (t': Sys<K>)
    requires start > 0 && now == start + GateWait(rate)
    requires Scanning(t, u, start, now) && Reaches(s, t, u, rate, eps)
    requires forall p :: p in u && !p.kind.Latch? ==> p.v1 !in t.scan.value.todo || p.v1 !in t.d.floats
    ensures Reaches(s, t', u, rate, eps) && Final(t') && t'.reaping && t'.clock == now
  {
    ReachesStep(s, t, At(now, ScanEnd), u, rate, eps);
    var t1 := Step(t, At(now, ScanEnd), u, rate, eps);
    assert t1.verifiedOK && t1.marker == t.marker && t1.clock == now;
    ReachesStep(s, t1, At(now, Flip), u, rate, eps);
    var t2 := Step(t1, At(now, Flip), u, rate, eps);
    assert t2.verifiedOK && t2.marker.value.phase == Flipped;
    ReachesStep(s, t2, At(now, ReapStart(true)), u, rate, eps);
    t' := Step(t2, At(now, ReapStart(true)), u, rate, eps);
  }

  function Held<K(==)>(d: Store<K>): set<K> {
    d.floats.Keys + d.latches + d.expiry.Keys
  }

  /** A reap under way with only the v1 keys of `todo` left. */
  ghost predicate Deleting<K(!new)>(t: Sys<K>, u: iset<KeyPair<K>>, now: int, todo: set<K>) {
    Final(t) && t.reaping && t.clock == now && forall p :: p in u ==> p.v1 in todo || View(t.d, p.v1) == BLANK
  }

  lemma DeleteStep<K(!new)>(t: Sys<K>, u: iset<KeyPair<K>>, now: int, todo: set<K>, p: KeyPair<K>, rate: int, eps: real)
    requires Deleting(t, u, now, todo)
    ensures Deleting(Step(t, At(now, ReapOne(p)), u, rate, eps), u, now, todo - {p.v1})
  {
    var t' := Step(t, At(now, ReapOne(p)), u, rate, eps);
    forall q | q in u && q.v1 !in todo - {p.v1} ensures View(t'.d, q.v1) == BLANK {
      SweptView(t.d, now, q.v1);
    }
  }

  /** Deleting key by key leaves no v1 key. */
  lemma {:induction false} ReapAll<K(!new)>(s: Sys<K>, t: Sys<K>, u: iset<KeyPair<K>>, now: int, todo: set<K>,
                                            rate: int, eps: real)
    returns (t': Sys<K>)
    requires Deleting(t, u, now, todo) && Reaches(s, t, u, rate, eps)
    ensures Deleting(t', u, now, {}) && Reaches(s, t', u, rate, eps)
    decreases todo
  {
    if todo == {} {
      t' := t;
    } else {
      var k :| k in todo;
      var next := t;
      if p :| p in u && p.v1 == k {
        DeleteStep(t, u, now, todo, p, rate, eps);
        ReachesStep(s, t, At(now, ReapOne(p)), u, rate, eps);
        next := Step(t, At(now, ReapOne(p)), u, rate, eps);
      }
      t' := ReapAll(s, next, u, now, todo - {k}, rate, eps);
    }
  }

  /** From dual-on and after the wait the scan can begin with everything seeded. */
  lemma StartScan<K(!new)>(s: Sys<K>, u: iset<KeyPair<K>>, rate: int, eps: real) returns (t: Sys<K>)
    requires Consistent(u) && Init(s, u) && s.clock > 0
    ensures Scanning(t, u, s.clock, s.clock + GateWait(rate)) && Reaches(s, t, u, rate, eps)
  {
    var start, now := s.clock, s.clock + GateWait(rate);
    RunFromHere(s, u, rate, eps);
    InitInv(s, u);
    ReachesStep(s, s, At(start, DualOn), u, rate, eps);
    StepInv(s, At(start, DualOn), u, start, rate, eps);
    var t1 := Step(s, At(start, DualOn), u, rate, eps);
    ReachesStep(s, t1, At(now, NewInstance), u, rate, eps);
    StepInv(t1, At(now, NewInstance), u, start, rate, eps);
    var t2 := Step(t1, At(now, NewInstance), u, rate, eps);
    var t3 := BackfillAll(s, t2, u, start, now, t2.d.floats.Keys, rate, eps);
    ReachesStep(s, t3, At(now, ScanStart), u, rate, eps);
    StepInv(t3, At(now, ScanStart), u, start, rate, eps);
    t := Step(t3, At(now, ScanStart), u, rate, eps);
    forall q | q in u && !q.kind.Latch? ensures Seeded(t.d, q) {
      TickSeeded(t3, u, start, now, q);
    }
  }

  /** The way through is open from everywhere the migration may start: whatever gauges,
      buckets and latches the store holds, some legal run records v2-final and deletes
      every v1 key, a day or the longest rate window after dual-on. */
  lemma MigrationCanFinish<K(!new)>(s: Sys<K>, u: iset<KeyPair<K>>, rate: int, eps: real)
    requires Consistent(u) && Init(s, u) && s.clock > 0 && eps >= 0.0
    ensures exists t: Sys<K> ::
              && Reaches(s, t, u, rate, eps) && Final(t)
              && t.clock == s.clock + (if rate > 86400 then rate else 86400)
              && forall p :: p in u ==> View(t.d, p.v1) == BLANK
  {
    var now := s.clock + GateWait(rate);
    var t := StartScan(s, u, rate, eps);
    var t1 := CompareAll(s, t, u, s.clock, now, t.scan.value.todo, rate, eps);
    var t2 := FinishRun(s, t1, u, s.clock, now, rate, eps);
    var t3 := ReapAll(s, t2, u, now, Held(t2.d), rate, eps);
  }
}
