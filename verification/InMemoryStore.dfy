/** The process-local counter store: an object whose three maps are updated in
    place, each method proved against the value-level operation it performs.
    The clock is a parameter. */
module InMemoryStore {
  import opened CounterStore

  class CounterMaps {
    var floats: map<string, real>
    var strings: map<string, string>
    var expiry: map<string, int>

    ghost function State(): Store<string>
      reads this
    {
      Store(floats, strings.Keys, expiry)
    }

    constructor ()
      ensures State() == Store(map[], {}, map[])
    {
      floats, strings, expiry := map[], map[], map[];
    }

    /** What is left when the keys outside `todo` have been looked at. */
    static ghost function SweptOutside(s: Store<string>, now: int, todo: set<string>): Store<string> {
      Store(map k | k in s.floats && (k in todo || Live(s, k, now)) :: s.floats[k],
            set k | k in s.latches && (k in todo || Live(s, k, now)),
            map k | k in s.expiry && (k in todo || Live(s, k, now)) :: s.expiry[k])
    }

    /** Looking at one more key: it goes when it has expired. */
    static lemma SweepOne(s: Store<string>, now: int, todo: set<string>, k: string)
      requires k in todo && k in s.expiry
      ensures var seen := SweptOutside(s, now, todo);
              SweptOutside(s, now, todo - {k}) == if now > s.expiry[k] then Removed(seen, k) else seen
    {
      var seen, next := SweptOutside(s, now, todo), SweptOutside(s, now, todo - {k});
      var r := if now > s.expiry[k] then Removed(seen, k) else seen;
      assert next.floats == r.floats;
      assert next.latches == r.latches;
      assert next.expiry == r.expiry;
    }

    method Sweep(now: int)
      modifies this
      ensures State() == Swept(old(State()), now)
    {
      ghost var s := State();
      var todo := expiry.Keys;
      assert SweptOutside(s, now, todo) == s;
      while todo != {}
        invariant todo <= s.expiry.Keys
        invariant State() == SweptOutside(s, now, todo)
      {
        var k :| k in todo;
        SweepOne(s, now, todo, k);
        assert k in expiry && expiry[k] == s.expiry[k];
        hide SweptOutside;
        if now > expiry[k] {
          floats, strings, expiry := floats - {k}, strings - {k}, expiry - {k};
          assert strings.Keys == SweptOutside(s, now, todo).latches - {k};
        }
        todo := todo - {k};
      }
      assert SweptOutside(s, now, {}) == Swept(s, now);
    }

    method IncrByFloat(now: int, key: string, delta: real) returns (v: real)
      modifies this
      ensures (State(), v) == DualSpendOrg(old(State()), now, DualPair(key, None), delta, false)
    {
      Sweep(now);
      floats := floats[key := (if key in floats then floats[key] else 0.0) + delta];
      v := floats[key];
    }

    method DecrByFloorZero(now: int, key: string, amount: real) returns (v: real)
      modifies this
      ensures (State(), v) == DualDecrFloor(old(State()), now, DualPair(key, None), amount, false)
      ensures v >= 0.0
    {
      Sweep(now);
      v := (if key in floats then floats[key] else 0.0) - amount;
      if v < 0.0 {
        v := 0.0;
      }
      floats := floats[key := v];
    }

    method GetFloat(now: int, key: string) returns (v: Option<real>)
      modifies this
      ensures (State(), v) == GetDual(old(State()), now, DualPair(key, None))
    {
      Sweep(now);
      v := if key in floats then Some(floats[key]) else None;
    }

    /** Does not sweep; a ttl of zero keeps whatever expiry the key had. */
    method Set(now: int, key: string, value: real, ttl: int)
      modifies this
      ensures State() == var s := Put(old(State()), key, value); if ttl > 0 then ExpireAt(s, key, now + ttl) else s
    {
      floats := floats[key := value];
      if ttl > 0 {
        expiry := expiry[key := now + ttl];
      }
    }

    method Delete(keys: seq<string>)
      modifies this
      ensures forall k :: View(State(), k) == if k in keys then BLANK else View(old(State()), k)
    {
      for i := 0 to |keys|
        invariant forall k :: View(State(), k) == if k in keys[..i] then BLANK else View(old(State()), k)
      {
        floats, strings, expiry := floats - {keys[i]}, strings - {keys[i]}, expiry - {keys[i]};
        assert keys[..i + 1] == keys[..i] + [keys[i]];
      }
      assert keys[..|keys|] == keys;
    }

    method SetIfAbsent(now: int, key: string, value: string, ttl: int) returns (won: bool)
      modifies this
      ensures var s := Swept(old(State()), now);
              && won == (key !in s.latches)
              && State() == if !won then s
                            else if ttl > 0 then Claim(s, key, now + ttl)
                            else s.(latches := s.latches + {key})
    {
      Sweep(now);
      won := key !in strings;
      if won {
        strings := strings[key := value];
        if ttl > 0 {
          expiry := expiry[key := now + ttl];
        }
      }
    }

    // ----- dual-keyspace operations -----

    method SeedFloatPair(k: DualPair<string>, v2p: bool)
      modifies this
      ensures State() == Seed(old(State()), k, v2p)
    {
      if k.s.Some? {
        var v2, v1 := k.p, k.s.value;
        if !v2p {
          v2, v1 := k.s.value, k.p;
        }
        if v2 !in floats && v1 in floats {
          floats := floats[v2 := floats[v1]];
        }
      }
    }

    method Bump(k: string, d: real)
      modifies this`floats
      ensures State() == Add(old(State()), k, d)
    {
      floats := floats[k := (if k in floats then floats[k] else 0.0) + d];
    }

    method SpendOrg(now: int, org: DualPair<string>, delta: real, v2p: bool) returns (v: real)
      modifies this
      ensures (State(), v) == DualSpendOrg(old(State()), now, org, delta, v2p)
    {
      Sweep(now);
      SeedFloatPair(org, v2p);
      Bump(org.p, delta);
      if org.s.Some? {
        Bump(org.s.value, delta);
      }
      v := floats[org.p];
    }

    /** The source bumps both primaries before both secondaries; the order is immaterial. */
    method SpendUser(now: int, org: DualPair<string>, user: DualPair<string>, sq: DualPair<string>,
                     delta: real, v2p: bool) returns (orgV: real, userV: real)
      requires org.s.Some? == user.s.Some?
      modifies this
      ensures (State(), orgV, userV) == DualSpendUser(old(State()), now, org, user, sq, delta, v2p)
    {
      Sweep(now);
      SeedFloatPair(org, v2p);
      SeedFloatPair(user, v2p);
      SeedFloatPair(sq, v2p);
      ghost var s := State();
      Bump(org.p, delta);
      Bump(user.p, delta);
      if org.s.Some? {
        AddsCommute(Add(s, org.p, delta), user.p, org.s.value, delta, delta);
        Bump(org.s.value, delta);
        Bump(user.s.value, delta);
      }
      orgV, userV := floats[org.p], floats[user.p];
    }

    method DecrFloor(now: int, key: DualPair<string>, amount: real, v2p: bool) returns (v: real)
      modifies this
      ensures (State(), v) == DualDecrFloor(old(State()), now, key, amount, v2p)
    {
      Sweep(now);
      SeedFloatPair(key, v2p);
      v := (if key.p in floats then floats[key.p] else 0.0) - amount;
      if v < 0.0 {
        v := 0.0;
      }
      floats := floats[key.p := v];
      if key.s.Some? {
        var w := (if key.s.value in floats then floats[key.s.value] else 0.0) - amount;
        if w < 0.0 {
          w := 0.0;
        }
        floats := floats[key.s.value := w];
      }
    }

    method AccAdd(now: int, acc: DualPair<string>, delta: real, ttl: int, v2p: bool) returns (v: real)
      modifies this
      ensures (State(), v) == DualAccAdd(old(State()), now, acc, delta, ttl, v2p)
    {
      Sweep(now);
      SeedFloatPair(acc, v2p);
      Bump(acc.p, delta);
      if ttl > 0 {
        expiry := expiry[acc.p := now + ttl];
      }
      if acc.s.Some? {
        Bump(acc.s.value, delta);
        if ttl > 0 {
          expiry := expiry[acc.s.value := now + ttl];
        }
      }
      v := floats[acc.p];
    }

    // ----- bundle acquire -----

    method CheckAll(specs: seq<AcquireSpec<string>>) returns (denied: nat)
      ensures denied == FirstDenied(State(), specs, 0)
    {
      for i := 0 to |specs|
        invariant FirstDenied(State(), specs, 0) == FirstDenied(State(), specs, i)
      {
        var sp := specs[i];
        if sp.orgLimit.Some?
           && (if sp.orgKey in floats then floats[sp.orgKey] else 0.0) + sp.delta > sp.orgLimit.value {
          return i + 1;
        }
        if sp.hasUser && sp.userLimit.Some?
           && (if sp.userKey in floats then floats[sp.userKey] else 0.0) + sp.delta > sp.userLimit.value {
          return i + 1;
        }
      }
      denied := 0;
    }

    method SpendShape(org: string, user: string, sq: string, hasUser: bool, d: real)
      modifies this`floats
      ensures State() == ApplyShape(old(State()), org, user, sq, hasUser, d)
    {
      Bump(org, d);
      if hasUser {
        Bump(sq, 1.0);
        Bump(user, d);
      }
    }

    /** With ttl <= 0 the claimed latch never expires here, unlike in the Redis script. */
    method AtomicAcquire(now: int, idem: string, hasIdem: bool, ttl: int, specs: seq<AcquireSpec<string>>)
      returns (r: AcquireReply)
      modifies this
      ensures (State(), r) ==
              SingleAcquire(old(State()), now, idem, hasIdem, if ttl > 0 then Some(now + ttl) else None, specs)
    {
      var bad := ValidateSpecs(specs);
      if bad > 0 {
        return Refused(bad);
      }
      Sweep(now);
      if hasIdem && idem in strings {
        return Outcome(true, true, 0);
      }
      var denied := CheckAll(specs);
      if denied > 0 {
        return Outcome(false, false, denied);
      }
      if hasIdem {
        assert strings[idem := "1"].Keys == strings.Keys + {idem};
        strings := strings[idem := "1"];
        if ttl > 0 {
          expiry := expiry[idem := now + ttl];
        }
      }
      ghost var s := State();
      for i := 0 to |specs|
        invariant State() == SpendAll(s, specs[..i])
      {
        assert specs[..i + 1][..i] == specs[..i];
        SpendShape(specs[i].orgKey, specs[i].userKey, specs[i].seqKey, specs[i].hasUser, specs[i].delta);
      }
      assert specs[..|specs|] == specs;
      r := Outcome(true, false, 0);
    }

    method SeedSpecs(specs: seq<AcquireSpec<string>>, v2p: bool)
      modifies this
      ensures State() == SeedAll(old(State()), specs, v2p)
    {
      for i := 0 to |specs|
        invariant State() == SeedAll(old(State()), specs[..i], v2p)
      {
        assert specs[..i + 1][..i] == specs[..i];
        SeedFloatPair(DualPair(specs[i].orgKey, specs[i].orgKey2), v2p);
        if specs[i].hasUser {
          SeedFloatPair(DualPair(specs[i].userKey, specs[i].userKey2), v2p);
          SeedFloatPair(DualPair(specs[i].seqKey, specs[i].seqKey2), v2p);
        }
      }
      assert specs[..|specs|] == specs;
    }

    method ClaimLatch(k: string, t: int)
      modifies this
      ensures State() == Claim(old(State()), k, t)
    {
      assert strings[k := "1"].Keys == strings.Keys + {k};
      strings, expiry := strings[k := "1"], expiry[k := t];
    }

    method SpendSpecs(specs: seq<AcquireSpec<string>>, dual: bool)
      requires AllPaired(specs, dual)
      modifies this`floats
      ensures State() == ApplyAll(old(State()), specs, dual)
    {
      for i := 0 to |specs|
        invariant State() == ApplyAll(old(State()), specs[..i], dual)
      {
        assert specs[..i + 1][..i] == specs[..i];
        var sp := specs[i];
        SpendShape(sp.orgKey, sp.userKey, sp.seqKey, sp.hasUser, sp.delta);
        if dual {
          if sp.hasUser {
            SpendShape(sp.orgKey2.value, sp.userKey2.value, sp.seqKey2.value, true, sp.delta);
          } else {
            SpendShape(sp.orgKey2.value, sp.orgKey2.value, sp.orgKey2.value, false, sp.delta);
          }
        }
      }
      assert specs[..|specs|] == specs;
    }

    /** The acquire after its seeding loop. */
    method DecideDual(idem: DualPair<string>, hasIdem: bool, t: int, specs: seq<AcquireSpec<string>>)
      returns (r: AcquireReply)
      requires AllPaired(specs, idem.s.Some?)
      modifies this
      ensures (State(), r) == Decide(old(State()), idem, hasIdem, t, specs)
    {
      if hasIdem {
        if idem.p in strings {
          return Outcome(true, true, 0);
        }
        if idem.s.Some? && idem.s.value in strings {
          return Outcome(true, true, 0);
        }
      }
      var denied := CheckAll(specs);
      if denied > 0 {
        return Outcome(false, false, denied);
      }
      if hasIdem {
        ClaimLatch(idem.p, t);
        if idem.s.Some? {
          ClaimLatch(idem.s.value, t);
        }
      }
      SpendSpecs(specs, idem.s.Some?);
      r := Outcome(true, false, 0);
    }

    method AcquireDual(now: int, idem: DualPair<string>, hasIdem: bool, ttl: int, v2p: bool,
                       specs: seq<AcquireSpec<string>>)
      returns (r: AcquireReply)
      requires AllPaired(specs, idem.s.Some?)
      modifies this
      ensures (State(), r) == DualAcquire(old(State()), now, idem, hasIdem, ttl, v2p, specs)
    {
      var bad := ValidateSpecs(specs);
      if bad > 0 {
        return Refused(bad);
      }
      Sweep(now);
      SeedSpecs(specs, v2p);
      r := DecideDual(idem, hasIdem, now + (if ttl <= 0 then IDEM_TTL else ttl), specs);
    }
  }

  /** The in-memory and the Redis single acquire answer alike and leave the same
      store exactly when no latch is claimed without a ttl. */
  lemma MemoryAgreesWithRedis(s: Store<string>, now: int, idem: string, hasIdem: bool, ttl: int,
                              specs: seq<AcquireSpec<string>>)
    ensures var memory := SingleAcquire(s, now, idem, hasIdem, if ttl > 0 then Some(now + ttl) else None, specs);
            var redis := SingleAcquire(s, now, idem, hasIdem, Some(now + LatchTtl(ttl)), specs);
            && memory.1 == redis.1
            && (memory == redis <==>
                 ttl > 0 || !hasIdem || memory.1 != Outcome(true, false, 0)
                 || (idem in Swept(s, now).expiry && s.expiry[idem] == now + IDEM_TTL))
  {
    if ttl <= 0 && hasIdem {
      var s1 := Swept(s, now);
      SpendAllFrame(Claim(s1, idem, now + IDEM_TTL), specs);
      SpendAllFrame(s1.(latches := s1.latches + {idem}), specs);
      if idem in s1.expiry && s1.expiry[idem] == now + IDEM_TTL {
        assert s1.expiry[idem := now + IDEM_TTL] == s1.expiry;
      }
    }
  }

  /** Spending touches levels only. */
  lemma {:induction false} SpendAllFrame<K>(s: Store<K>, specs: seq<AcquireSpec<K>>)
    ensures SpendAll(s, specs).latches == s.latches && SpendAll(s, specs).expiry == s.expiry
  {
    if specs != [] {
      SpendAllFrame(s, specs[..|specs| - 1]);
    }
  }
}
