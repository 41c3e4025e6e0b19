/** The migrator object: one service scope's verbs over the shared store.  `listing` is
    what the scan of quota:* returned, in any order and with repeats. */
module Migrator {
  import opened CounterStore
  import opened DualRefinement
  import opened Migration
  import opened Frames
  import opened Keyspace

  datatype Reply<+T> = Ok(value: T) | Err(reason: string)

  class Redis {
    var floats: map<string, real>
    var latches: set<string>
    var expiry: map<string, int>
    var marker: Option<Marker>

    ghost function State(): Store<string>
      reads this
    {
      Store(floats, latches, expiry)
    }

    /** DEL: the key is gone, and the answer says whether it held a counter. */
    method Del(k: string) returns (n: nat)
      modifies this`floats, this`latches, this`expiry
      ensures forall x :: View(State(), x) == if x == k then BLANK else View(old(State()), x)
      ensures n == |Counters(old(State()))| - |Counters(State())|
    {
      n := if k in floats || k in latches then 1 else 0;
      ghost var before := Counters(State());
      floats, latches, expiry := floats - {k}, latches - {k}, expiry - {k};
      assert Counters(State()) == before - {k};
    }
  }

  function Head(tail: string): string {
    tail[..IndexOf(tail, ':')]
  }

  predicate ValueKey(k: string) {
    Classify(k).Some? && (Head(Classify(k).value.2) == "gauge" || Head(Classify(k).value.2) == "acc")
  }

  predicate ReapKey(k: string) {
    Classify(k).Some? && Head(Classify(k).value.2) in {"gauge", "acc", "rate", "idem", "idemgen"}
  }

  function Twin(svc: string, k: string): string
    requires Classify(k).Some?
  {
    var (o, r, t) := Classify(k).value;
    V2Key(svc, o, r, t)
  }

  /** The pair a value key stands for; the kind plays no part in seeding. */
  function Scanned(svc: string, k: string): KeyPair<string>
    requires Classify(k).Some?
  {
    KeyPair(k, Twin(svc, k), Gauge)
  }

  function Backfilled(s: Store<string>, svc: string, keys: seq<string>): Store<string> {
    if keys == [] then s
    else
      var s1 := Backfilled(s, svc, keys[..|keys| - 1]);
      var k := keys[|keys| - 1];
      if ValueKey(k) then BackfillKey(s1, Scanned(svc, k)) else s1
  }

  /** x shows what the v1 key k showed. */
  predicate Copied(s: Store<string>, t: Store<string>, k: string, x: string) {
    && View(s, k).val.Some?
    && View(t, x) == Cell(View(s, k).val, View(s, x).latch,
                          if View(s, k).exp.Some? then View(s, k).exp else View(s, x).exp)
  }

  predicate Seeds(svc: string, k: string, x: string) {
    ValueKey(k) && Twin(svc, k) == x
  }

  lemma OneSeed(s: Store<string>, k: string, v2: string, x: string)
    ensures var t := BackfillKey(s, KeyPair(k, v2, Gauge));
            if x == v2 && View(s, x).val.None? && View(s, k).val.Some? then Copied(s, t, k, x)
            else View(t, x) == View(s, x)
  {
  }

  /** Backfill, key by key: a level that is there stays as it was; one that is not there is
      copied, level and expiry, from a listed value key whose twin it is, if one is held;
      nothing else changes. */
  lemma {:induction false} BackfilledMeans(s: Store<string>, svc: string, keys: seq<string>, x: string)
    ensures var t := Backfilled(s, svc, keys);
            if View(s, x).val.None? && (exists k :: k in keys && Seeds(svc, k, x) && View(s, k).val.Some?)
            then exists k :: k in keys && Seeds(svc, k, x) && Copied(s, t, k, x)
            else View(t, x) == View(s, x)
  {
    if keys != [] {
      var n := |keys| - 1;
      var k := keys[n];
      var t1, t := Backfilled(s, svc, keys[..n]), Backfilled(s, svc, keys);
      BackfilledMeans(s, svc, keys[..n], x);
      assert keys == keys[..n] + [k];
      if ValueKey(k) {
        OneSeed(t1, k, Twin(svc, k), x);
        V1Untouched(s, svc, keys[..n], k);
      }
      hide Classify, ValueKey, Twin, View, Backfilled, BackfillKey;
      if j :| j in keys[..n] && Seeds(svc, j, x) && Copied(s, t1, j, x) {
        assert j in keys && Copied(s, t, j, x);
      } else if Seeds(svc, k, x) && View(s, x).val.None? && View(s, k).val.Some? {
        assert Copied(s, t, k, x);
      }
    }
  }

  /** No v1 counter key is a twin, so seeding leaves it alone. */
  lemma {:induction false} V1Untouched(s: Store<string>, svc: string, keys: seq<string>, k: string)
    requires Classify(k).Some?
    ensures View(Backfilled(s, svc, keys), k) == View(s, k)
  {
    if keys != [] {
      var n := |keys| - 1;
      V1Untouched(s, svc, keys[..n], k);
      if ValueKey(keys[n]) {
        var (o, r, t) := Classify(keys[n]).value;
        OtherKeysNeverClassify(svc, o, r, t);
      }
    }
  }

  /** The comparison of one value key: an absent v1 reads as zero. */
  predicate Matches(s: Store<string>, svc: string, k: string, eps: real)
    requires Classify(k).Some?
  {
    Twin(svc, k) in s.floats && Abs(Level(s, k) - s.floats[Twin(svc, k)]) <= eps
  }

  const MIGRATION_EPS := 0.000000001

  /** The verdict on a key is what the step system records when a scan compares it. */
  lemma CompareIsMatches(t: Sys<string>, svc: string, k: string, now: int, u: iset<KeyPair<string>>, rate: int,
                         eps: real)
    requires Classify(k).Some? && t.scan.Some? && t.scan.value.ok && t.clock <= now
    ensures var d := Swept(t.d, now);
            var scan := Step(t, At(now, Compare(Scanned(svc, k), Level(d, k))), u, rate, eps).scan;
            scan == Some(Scan(t.scan.value.todo - {k}, Matches(d, svc, k, eps)))
  {
  }

  /** How many positions of a listing hold a value key. */
  function ValueKeys(keys: seq<string>): nat {
    if keys == [] then 0 else ValueKeys(keys[..|keys| - 1]) + if ValueKey(keys[|keys| - 1]) then 1 else 0
  }

  /** Counter keys a store holds. */
  function Counters(c: Store<string>): set<string> {
    c.floats.Keys + c.latches
  }

  class Migrator {
    const c: Redis
    const service: string
    const maxRateWindow: int
    var verifiedOK: bool

    constructor (c: Redis, service: string, maxRateWindow: int)
      ensures this.c == c && this.service == service && this.maxRateWindow == maxRateWindow && !verifiedOK
    {
      this.c, this.service, this.maxRateWindow := c, service, maxRateWindow;
      verifiedOK := false;
    }

    method DualOn(now: int) returns (r: Reply<Marker>)
      modifies c`marker
      ensures old(c.marker).Some? ==> c.marker == old(c.marker)
      ensures old(c.marker).Some? ==> (r.Err? <==> old(c.marker).value.final)
      ensures old(c.marker).None? ==> c.marker == Some(Marker(DualPhase, false, now))
      ensures r.Ok? ==> c.marker == Some(r.value)
    {
      if c.marker.Some? {
        if c.marker.value.final {
          return Err("keyspace regression");
        }
        return Ok(c.marker.value);
      }
      var m := Marker(DualPhase, false, now);
      c.marker := Some(m);
      r := Ok(m);
    }

    /** Seeds every value key it reaches; a positive budget stops it after that many seeds. */
    method Backfill(listing: seq<string>, budget: nat) returns (r: Reply<(nat, nat)>, ghost reached: nat)
      modifies c`floats, c`expiry
      ensures r.Ok? <==> c.marker.Some? && c.marker.value.phase != Reaped
      ensures reached <= |listing| && c.State() == Backfilled(old(c.State()), service, listing[..reached])
      ensures r.Err? ==> reached == 0
      ensures r.Ok? ==> reached == |listing| || (budget > 0 && r.value.1 == budget)
      ensures r.Ok? ==> r.value.0 == ValueKeys(listing[..reached])
      ensures r.Ok? ==> r.value.1 == |c.floats| - |old(c.floats)| && (budget > 0 ==> r.value.1 <= budget)
    {
      reached := 0;
      if c.marker.None? || c.marker.value.phase == Reaped {
        return Err("backfill requires dual-on first"), 0;
      }
      var scanned, seeded := 0, 0;
      for i := 0 to |listing|
        invariant c.State() == Backfilled(old(c.State()), service, listing[..i])
        invariant c.marker == old(c.marker)
        invariant scanned == ValueKeys(listing[..i]) && seeded == |c.floats| - |old(c.floats)|
        invariant budget > 0 ==> seeded < budget
      {
        var k := listing[i];
        assert listing[..i + 1][..i] == listing[..i];
        if ValueKey(k) {
          scanned := scanned + 1;
          var twin := Twin(service, k);
          if twin !in c.floats && k in c.floats {
            assert c.floats[twin := c.floats[k]].Keys == c.floats.Keys + {twin};
            c.floats := c.floats[twin := c.floats[k]];
            if k in c.expiry {
              c.expiry := c.expiry[twin := c.expiry[k]];
            }
            seeded := seeded + 1;
          }
          if budget > 0 && seeded >= budget {
            return Ok((scanned, seeded)), i + 1;
          }
        }
      }
      assert listing[..|listing|] == listing;
      r, reached := Ok((scanned, seeded)), |listing|;
    }

    /** Green exactly when every value key returned by the scan has a v2 twin within the
        tolerance; the divergent keys are the others. */
    method Verify(listing: seq<string>, tolerance: real) returns (compared: nat, divergent: seq<string>)
      modifies this`verifiedOK
      ensures verifiedOK <==> divergent == []
      ensures compared == ValueKeys(listing)
      ensures var eps := if tolerance <= 0.0 then 0.000000001 else tolerance;
              forall k :: k in divergent <==>
                k in listing && ValueKey(k)
                && (Twin(service, k) !in c.floats || Abs(Level(c.State(), k) - c.floats[Twin(service, k)]) > eps)
    {
      var eps := if tolerance <= 0.0 then MIGRATION_EPS else tolerance;
      compared, divergent := 0, [];
      for i := 0 to |listing|
        invariant forall k :: k in divergent <==>
                    k in listing[..i] && ValueKey(k) && !Matches(c.State(), service, k, eps)
        invariant compared == ValueKeys(listing[..i])
      {
        var k := listing[i];
        assert listing[..i + 1] == listing[..i] + [k];
        if ValueKey(k) {
          compared := compared + 1;
          var v1 := if k in c.floats then c.floats[k] else 0.0;
          var twin := Twin(service, k);
          if twin !in c.floats || Abs(v1 - c.floats[twin]) > eps {
            divergent := divergent + [k];
          }
        }
      }
      assert listing[..|listing|] == listing;
      verifiedOK := divergent == [];
    }

    method RecordFlip(now: int) returns (r: Reply<Marker>)
      modifies c`marker
      ensures r.Ok? <==> FlipGate(old(c.marker), now, maxRateWindow, verifiedOK)
      ensures c.marker == if r.Ok? then Some(old(c.marker).value.(phase := Flipped)) else old(c.marker)
    {
      if !FlipGate(c.marker, now, maxRateWindow, verifiedOK) {
        return Err("flip refused");
      }
      c.marker := Some(c.marker.value.(phase := Flipped));
      r := Ok(c.marker.value);
    }

    /** The irreversible step: v2-final is stored first, then exactly the v1 counter keys
        of the scan are deleted. */
    method Reap(listing: seq<string>, confirmed: bool) returns (r: Reply<nat>)
      modifies c
      ensures r.Ok? <==> old(c.marker).Some? && old(c.marker).value.phase != DualPhase && verifiedOK && confirmed
      ensures c.marker == if r.Ok? then Some(old(c.marker).value.(phase := Reaped, final := true)) else old(c.marker)
      ensures forall k :: View(c.State(), k) ==
                          if r.Ok? && k in listing && ReapKey(k) then BLANK else View(old(c.State()), k)
      ensures r.Ok? ==> r.value == |Counters(old(c.State()))| - |Counters(c.State())|
    {
      if c.marker.None? || c.marker.value.phase == DualPhase {
        return Err("reap refused: flip has not been recorded");
      }
      if !verifiedOK {
        return Err("reap refused: verify has not passed in this run");
      }
      if !confirmed {
        return Err("reap refused: another scope may still read the v1 keys");
      }
      c.marker := Some(c.marker.value.(phase := Reaped, final := true));
      var deleted := 0;
      for i := 0 to |listing|
        invariant c.marker == Some(old(c.marker).value.(phase := Reaped, final := true))
        invariant forall k :: View(c.State(), k) ==
                              if k in listing[..i] && ReapKey(k) then BLANK else View(old(c.State()), k)
        invariant deleted == |Counters(old(c.State()))| - |Counters(c.State())|
      {
        var k := listing[i];
        assert listing[..i + 1] == listing[..i] + [k];
        if ReapKey(k) {
          var n := c.Del(k);
          deleted := deleted + n;
        }
      }
      assert listing[..|listing|] == listing;
      r := Ok(deleted);
    }
  }

  /** The check an engine runs before it starts: a scope without a service is not checked;
      after v2-final only version 2 without dual-write starts, and before it such an engine
      starts only when no key of the scan is a v1 counter. */
  method CheckBoot(c: Redis, service: string, m: Mode, listing: seq<string>) returns (r: Reply<Option<Marker>>)
    ensures r.Ok? <==> service == "" || BootAccepts(c.marker, m, exists k :: k in listing && Classify(k).Some?)
    ensures r.Ok? <==> service == "" || (if c.marker.Some? && c.marker.value.final then m == V2Only
                                         else m == V2Only ==> forall k :: k in listing ==> Classify(k).None?)
    ensures r.Ok? ==> r.value == if service == "" then None else c.marker
    ensures r.Err? ==> r.reason == if m == V2Only then "QUOTA-CFG-012" else "QUOTA-CFG-011"
  {
    if service == "" {
      return Ok(None);
    }
    var final := c.marker.Some? && c.marker.value.final;
    if final && (m.V1Only? || m.Dual?) {
      return Err("QUOTA-CFG-011");
    }
    if m.V2Only? && !final {
      for i := 0 to |listing|
        invariant forall k :: k in listing[..i] ==> Classify(k).None?
      {
        assert listing[..i + 1] == listing[..i] + [listing[i]];
        if Classify(listing[i]).Some? {
          return Err("QUOTA-CFG-012");
        }
      }
      assert listing[..|listing|] == listing;
    }
    r := Ok(c.marker);
  }

  // ----- the scan and the pairs of the engine -----

  lemma HeadOfTail(c: Counter)
    ensures Head(Tail(c)) == match c case AccOf(_, _, _) => "acc" case IdemOf(_, _, _) => "idem"
                                    case RateOf(_, _) => "rate" case _ => "gauge"
  {
    match c
    case GaugeOf(_, _) => NoColon("gauge");
    case UserOf(_, _, uid) => HeadBefore("gauge", "user:", uid, "gauge:user:");
    case SeqOf(_, _, uid) => HeadBefore("gauge", "seq:user:", uid, "gauge:seq:user:");
    case AccOf(_, _, period) => HeadBefore("acc", "", period, "acc:");
    case IdemOf(_, _, key) => HeadBefore("idem", "", if key == "" then UNUSED else key, "idem:");
    case RateOf(_, _) => NoColon("rate");
  }

  lemma NoColon(t: string)
    requires ':' !in t
    ensures Head(t) == t
  {
    var i := IndexOf(t, ':');
    assert t[..|t|] == t;
  }

  lemma HeadBefore(h: string, a: string, b: string, front: string)
    requires ':' !in h && front == h + (":" + a)
    ensures Head(front + b) == h
  {
    var t := h + (":" + (a + b));
    assert front + b == t;
    FirstIndex(h, a + b, ':');
    assert t[..|h|] == h;
  }

  /** For a valid org the scan sees the counter exactly when its resource key contains a
      dot, and then it computes the engine's own pair of keys and treats value keys,
      latches and rates as what they are. */
  lemma ScanSeesPairs(svc: string, c: Counter)
    requires ValidCounter(c)
    ensures var k := KeyOf(svc, c, 1);
            && (Classify(k).Some? <==> '.' in c.rk)
            && ('.' in c.rk ==>
                  && Twin(svc, k) == KeyOf(svc, c, 2)
                  && ReapKey(k)
                  && (ValueKey(k) <==> !c.IdemOf? && !c.RateOf?))
  {
    var k := KeyOf(svc, c, 1);
    if '.' in c.rk {
      ClassifyRecovers(c.org, c.rk, Tail(c));
      HeadOfTail(c);
    } else if Classify(k).Some? {
      ClassifySound(k);
      var (o, r, t) := Classify(k).value;
      V1Injective(c.org, c.rk, Tail(c), o, r, t);
    }
  }

  /** The counters a migration of this service covers: those the scan sees, but for some
      accumulator buckets left out. */
  ghost predicate Covered(c: Counter, out: iset<Counter>) {
    ValidCounter(c) && '.' in c.rk && !c.RateOf? && !(c.AccOf? && c in out)
  }

  ghost function Migrated(svc: string, ttlOf: string -> int, out: iset<Counter>): iset<KeyPair<string>> {
    iset c: Counter | Covered(c, out) :: PairOf(svc, c, ttlOf)
  }

  /** Every other counter of the service. */
  ghost function Uncovered(svc: string, ttlOf: string -> int, out: iset<Counter>): iset<KeyPair<string>> {
    iset c: Counter | ValidCounter(c) && !c.RateOf? && !Covered(c, out) :: PairOf(svc, c, ttlOf)
  }

  lemma MigratedConsistent(svc: string, ttlOf: string -> int, out: iset<Counter>)
    requires ValidScope(svc)
    ensures Consistent(Migrated(svc, ttlOf, out)) && Consistent(Uncovered(svc, ttlOf, out))
  {
    UniverseConsistent(svc, ttlOf);
    assert Migrated(svc, ttlOf, out) <= Universe(svc, ttlOf) && Uncovered(svc, ttlOf, out) <= Universe(svc, ttlOf);
  }

  lemma CountersApart(svc: string, ttlOf: string -> int, out: iset<Counter>, c: Counter, c': Counter)
    requires ValidScope(svc) && ValidCounter(c) && !c.RateOf? && !Covered(c, out) && Covered(c', out)
    ensures var p, q := PairOf(svc, c, ttlOf), PairOf(svc, c', ttlOf);
            p.v1 != q.v1 && p.v1 != q.v2 && p.v2 != q.v1 && p.v2 != q.v2
  {
    assert !SameKey(c, c');
    BuildersInjective(svc, c, c', 1, 1);
    BuildersInjective(svc, c, c', 1, 2);
    BuildersInjective(svc, c, c', 2, 1);
    BuildersInjective(svc, c, c', 2, 2);
    hide KeyOf, SameKey, Covered;
  }

  /** An engine may work on any counters the migration does not cover: undotted resource
      keys, which the scan never sees, and the buckets left out. */
  lemma UncoveredIsElsewhere(svc: string, ttlOf: string -> int, out: iset<Counter>, m: Mode, op: Op<string>)
    requires ValidScope(svc) && WfOp(Uncovered(svc, ttlOf, out), op)
    ensures WfVerb(Migrated(svc, ttlOf, out), Elsewhere(m, op))
  {
    var u, w := Migrated(svc, ttlOf, out), Uncovered(svc, ttlOf, out);
    MigratedConsistent(svc, ttlOf, out);
    forall p | p in w ensures Apart(u, p) {
      var c :| ValidCounter(c) && !c.RateOf? && !Covered(c, out) && p == PairOf(svc, c, ttlOf);
      forall q | q in u ensures p.v1 != q.v1 && p.v1 != q.v2 && p.v2 != q.v1 && p.v2 != q.v2 {
        var c' :| Covered(c', out) && q == PairOf(svc, c', ttlOf);
        CountersApart(svc, ttlOf, out, c, c');
      }
    }
    assert AllApart(u, w);
  }

  /** Migration end to end on the real keys: for every valid service, every org and every
      dotted, colon-free resource key, whatever the engines do to other counters. */
  lemma ServiceMigration(svc: string, ttlOf: string -> int, out: iset<Counter>, s: Sys<string>,
                         es: seq<Migration.Event<string>>, rate: int, eps: real, c: Counter, now: int)
    requires ValidScope(svc) && Covered(c, out) && !c.IdemOf?
    requires var u := Migrated(svc, ttlOf, out); Init(s, u) && Migration.WfEvents(u, es) && s.clock > 0
    ensures var t := Migration.Run(s, es, Migrated(svc, ttlOf, out), rate, eps);
            && t.outD == t.outA
            && (Final(t) ==>
                  GetDual(t.d, now, DualPair(KeyOf(svc, c, 2), None)).1
                  == GetDual(t.a, now, DualPair(KeyOf(svc, c, 1), None)).1)
  {
    var u := Migrated(svc, ttlOf, out);
    var p := PairOf(svc, c, ttlOf);
    MigratedConsistent(svc, ttlOf, out);
    assert p in u;
    MigrationEndToEnd(s, es, u, rate, eps, p, now);
    var t := Migration.Run(s, es, u, rate, eps);
    if Final(t) {
      assert Exec(t.d, now, V2Only, Read(p)).1 == Reading(GetDual(t.d, now, DualPair(p.v2, None)).1);
      assert Exec(t.a, now, V1Only, Read(p)).1 == Reading(GetDual(t.a, now, DualPair(p.v1, None)).1);
    }
  }

  /** What a green Verify, an open gate and a confirmed Reap do together, with nobody
      else writing: each scanned gauge and bucket ends up under its v2 key alone, at a
      value within the tolerance of the v1 value it had. */
  method FlipAndReap(m: Migrator, listing: seq<string>, now: int) returns (done: bool)
    modifies m, m.c
    ensures done ==> m.c.marker.Some? && m.c.marker.value.final
    ensures done ==> forall k :: k in listing && ValueKey(k) ==>
              && View(m.c.State(), k) == BLANK
              && Twin(m.service, k) in m.c.floats
              && Abs(Level(old(m.c.State()), k) - m.c.floats[Twin(m.service, k)]) <= MIGRATION_EPS
    ensures !done ==> m.c.State() == old(m.c.State())
  {
    ghost var was := m.c.State();
    var _, divergent := m.Verify(listing, 0.0);
    var flip := m.RecordFlip(now);
    if flip.Err? {
      return false;
    }
    var r := m.Reap(listing, true);
    assert r.Ok?;
    assert divergent == [];
    forall k | k in listing && ValueKey(k)
      ensures View(m.c.State(), k) == BLANK && Twin(m.service, k) in m.c.floats
      ensures Abs(Level(was, k) - m.c.floats[Twin(m.service, k)]) <= MIGRATION_EPS
    {
      assert k !in divergent;
      var (o, rk, tail) := Classify(k).value;
      OtherKeysNeverClassify(m.service, o, rk, tail);
      assert View(m.c.State(), Twin(m.service, k)) == View(was, Twin(m.service, k));
      assert ReapKey(k);
    }
    done := true;
  }
}
