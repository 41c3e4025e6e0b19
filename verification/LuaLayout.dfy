/** The Redis form of the counter operations: the flat KEYS and ARGV arrays the Go
    side packs, and the Lua scripts that unpack them by index arithmetic.  Every
    script is proved to do what the value-level operation does, for every spec
    list, so the Redis and the in-memory stores decide and spend alike.

    Lua arrays are 1-based and a read past the end is nil.  Expired keys are gone
    before a script starts.  A latch and a level never share a key. */
module LuaLayout {
  import opened CounterStore

  /** A script argument: text, a formatted number, or a formatted integer. */
  datatype Arg = Text(s: string) | Number(r: real) | Whole(n: int)

  datatype Reply = Reply(first: string, reason: Arg)

  function Key(keys: seq<string>, i: int): string {
    if 1 <= i <= |keys| then keys[i - 1] else ""
  }

  function Argument(argv: seq<Arg>, i: int): Arg {
    if 1 <= i <= |argv| then argv[i - 1] else Text("")
  }

  function ToNumber(a: Arg): real {
    match a case Number(r) => r case Whole(n) => n as real case Text(_) => 0.0
  }

  function ToWhole(a: Arg): int {
    if a.Whole? then a.n else 0
  }

  function Flag(b: bool): Arg {
    Text(if b then "1" else "0")
  }

  function Limit(l: Option<real>): Arg {
    if l.None? then Text("") else Number(l.value)
  }

  // ----- what the Go side packs -----

  function Str(k: Option<string>): string {
    if k.Some? then k.value else ""
  }

  /** The three keys of one gauge in one shape.  A gauge without a user repeats its
      org key as a placeholder. */
  function Triple(sp: AcquireSpec<string>, secondary: bool): (string, string, string) {
    var org := if secondary then Str(sp.orgKey2) else sp.orgKey;
    if !sp.hasUser then (org, org, org)
    else if secondary then (org, Str(sp.userKey2), Str(sp.seqKey2))
    else (org, sp.userKey, sp.seqKey)
  }

  /** KEYS[base + 1] is the latch, and gauge i (from 0) starts at base + 3i + 2. */
  ghost predicate KeyBlock(keys: seq<string>, base: nat, idem: string, specs: seq<AcquireSpec<string>>,
                           secondary: bool) {
    && base + 1 + 3 * |specs| <= |keys|
    && Key(keys, base + 1) == idem
    && forall i :: 0 <= i < |specs| ==>
         (Key(keys, base + 3 * i + 2), Key(keys, base + 3 * i + 3), Key(keys, base + 3 * i + 4))
         == Triple(specs[i], secondary)
  }

  /** Gauge i (from 0) has its four arguments from base + 4i + 1. */
  ghost predicate ArgBlock(argv: seq<Arg>, base: nat, specs: seq<AcquireSpec<string>>) {
    && |argv| == base + 4 * |specs|
    && forall i :: 0 <= i < |specs| ==>
         && Argument(argv, base + 4 * i + 1) == Flag(specs[i].hasUser)
         && Argument(argv, base + 4 * i + 2) == Number(specs[i].delta)
         && Argument(argv, base + 4 * i + 3) == Limit(specs[i].orgLimit)
         && Argument(argv, base + 4 * i + 4) == Limit(specs[i].userLimit)
  }

  method PackKeys(front: seq<string>, idem: string, specs: seq<AcquireSpec<string>>, secondary: bool)
    returns (keys: seq<string>)
    ensures |keys| == |front| + 1 + 3 * |specs| && front <= keys
    ensures KeyBlock(keys, |front|, idem, specs, secondary)
  {
    keys := front + [idem];
    for i := 0 to |specs|
      invariant |keys| == |front| + 1 + 3 * i && front <= keys
      invariant KeyBlock(keys, |front|, idem, specs[..i], secondary)
    {
      var t := Triple(specs[i], secondary);
      ghost var was := keys;
      keys := keys + [t.0, t.1, t.2];
      assert forall j :: 1 <= j <= |was| ==> Key(keys, j) == Key(was, j);
    }
    assert specs[..|specs|] == specs;
  }

  method PackArgs(front: seq<Arg>, specs: seq<AcquireSpec<string>>) returns (argv: seq<Arg>)
    ensures front <= argv && ArgBlock(argv, |front|, specs)
  {
    argv := front;
    for i := 0 to |specs|
      invariant front <= argv && ArgBlock(argv, |front|, specs[..i])
    {
      ghost var was := argv;
      var sp := specs[i];
      argv := argv + [Flag(sp.hasUser), Number(sp.delta), Limit(sp.orgLimit), Limit(sp.userLimit)];
      assert forall j :: 1 <= j <= |was| ==> Argument(argv, j) == Argument(was, j);
    }
    assert specs[..|specs|] == specs;
  }

  /** Reading the reply: an unreadable denial is an error (`None`), never a silent deny. */
  function ParseReply(r: Reply): Option<AcquireReply> {
    var admitted := r.first == "1";
    if r.reason == Text("dup") then Some(Outcome(admitted, true, 0))
    else if r.reason == Text("ok") then Some(Outcome(admitted, false, 0))
    else if r.reason.Whole? && r.reason.n >= 0 then Some(Outcome(admitted, false, r.reason.n))
    else if admitted then Some(Outcome(true, false, 0))
    else None
  }

  /** What the reader makes of a reply, case by case: `dup` and `ok` are words, a denied
      index is a number, and only an admission may come without either. */
  lemma ReplyMeans(r: Reply)
    ensures ParseReply(r).None? <==>
              r.first != "1" && r.reason !in {Text("dup"), Text("ok")} && !(r.reason.Whole? && r.reason.n >= 0)
    ensures ParseReply(r).Some? ==>
              var x := ParseReply(r).value;
              && x.Outcome? && (x.admitted <==> r.first == "1") && (x.dup <==> r.reason == Text("dup"))
              && x.deniedIndex == if r.reason.Whole? && r.reason.n >= 0 then r.reason.n else 0
  {
  }

  // ----- Redis commands -----

  function SetNxEx<K(==)>(s: Store<K>, k: K, t: int): (Store<K>, bool) {
    if k in s.latches then (s, false) else (Claim(s, k, t), true)
  }

  /** SET clears an expiry. */
  function SetPlain<K(==)>(s: Store<K>, k: K, v: real): Store<K> {
    Store(s.floats[k := v], s.latches, s.expiry - {k})
  }

  // ----- the single-shape acquire script -----

  method CheckLoop(s: Store<string>, keys: seq<string>, argv: seq<Arg>, base: nat, n: int,
                   ghost idem: string, ghost specs: seq<AcquireSpec<string>>)
    returns (denied: nat)
    requires n == |specs| && KeyBlock(keys, 0, idem, specs, false) && ArgBlock(argv, base, specs)
    ensures denied == FirstDenied(s, specs, 0)
  {
    var i := 1;
    while i <= n
      invariant 1 <= i <= n + 1
      invariant FirstDenied(s, specs, 0) == FirstDenied(s, specs, i - 1)
    {
      var kb, ab := 1 + (i - 1) * 3, base + (i - 1) * 4;
      ghost var sp := specs[i - 1];
      assert kb + 1 == 0 + 3 * (i - 1) + 2 && ab + 1 == base + 4 * (i - 1) + 1;
      var hasUser, delta := Argument(argv, ab + 1), ToNumber(Argument(argv, ab + 2));
      var orgLimit, userLimit := Argument(argv, ab + 3), Argument(argv, ab + 4);
      if orgLimit != Text("") && Level(s, Key(keys, kb + 1)) + delta > ToNumber(orgLimit) {
        return i;
      }
      if hasUser == Text("1") && userLimit != Text("") {
        if Level(s, Key(keys, kb + 2)) + delta > ToNumber(userLimit) {
          return i;
        }
      }
      i := i + 1;
    }
    denied := 0;
  }

  /** One turn of the spending loop. */
  function SpendTurn(s: Store<string>, keys: seq<string>, kb: int, hasUser: Arg, delta: real): Store<string> {
    var s1 := Add(s, Key(keys, kb + 1), delta);
    if hasUser == Text("1") then Add(Add(s1, Key(keys, kb + 3), 1.0), Key(keys, kb + 2), delta) else s1
  }

  lemma TurnIsShape(s: Store<string>, keys: seq<string>, argv: seq<Arg>, idem: string,
                    specs: seq<AcquireSpec<string>>, i: int)
    requires KeyBlock(keys, 0, idem, specs, false) && ArgBlock(argv, 3, specs) && 1 <= i <= |specs|
    ensures var sp := specs[i - 1];
            SpendTurn(s, keys, 1 + (i - 1) * 3, Argument(argv, 3 + (i - 1) * 4 + 1),
                ToNumber(Argument(argv, 3 + (i - 1) * 4 + 2)))
            == ApplyShape(s, sp.orgKey, sp.userKey, sp.seqKey, sp.hasUser, sp.delta)
  {
    var sp := specs[i - 1];
    assert 1 + (i - 1) * 3 + 1 == 0 + 3 * (i - 1) + 2 && 3 + (i - 1) * 4 + 1 == 3 + 4 * (i - 1) + 1;
  }

  lemma SpendAllStep(s: Store<string>, specs: seq<AcquireSpec<string>>, i: int)
    requires 1 <= i <= |specs|
    ensures var sp := specs[i - 1];
            SpendAll(s, specs[..i])
            == ApplyShape(SpendAll(s, specs[..i - 1]), sp.orgKey, sp.userKey, sp.seqKey, sp.hasUser, sp.delta)
  {
    assert specs[..i][..i - 1] == specs[..i - 1];
  }

  method SpendLoop(s: Store<string>, keys: seq<string>, argv: seq<Arg>, n: int,
                   ghost idem: string, ghost specs: seq<AcquireSpec<string>>)
    returns (db: Store<string>)
    requires n == |specs| && KeyBlock(keys, 0, idem, specs, false) && ArgBlock(argv, 3, specs)
    ensures db == SpendAll(s, specs)
  {
    hide SpendTurn, KeyBlock, ArgBlock;
    db := s;
    var i := 1;
    while i <= n
      invariant 1 <= i <= n + 1
      invariant db == SpendAll(s, specs[..i - 1])
    {
      var kb, ab := 1 + (i - 1) * 3, 3 + (i - 1) * 4;
      SpendAllStep(s, specs, i);
      TurnIsShape(db, keys, argv, idem, specs, i);
      db := SpendTurn(db, keys, kb, Argument(argv, ab + 1), ToNumber(Argument(argv, ab + 2)));
      i := i + 1;
    }
    assert specs[..n] == specs;
  }

  method AcquireScript(s: Store<string>, now: int, keys: seq<string>, argv: seq<Arg>,
                       ghost idem: string, ghost specs: seq<AcquireSpec<string>>)
    returns (db: Store<string>, reply: Reply)
    requires KeyBlock(keys, 0, idem, specs, false) && ArgBlock(argv, 3, specs)
    requires argv[0] in {Flag(true), Flag(false)} && argv[1].Whole? && argv[2] == Whole(|specs|)
    requires FirstBad(specs, 0) == 0
    ensures (db, ParseReply(reply)) ==
            var r := SingleAcquire(s, now, idem, argv[0] == Flag(true), Some(now + argv[1].n), specs); (r.0, Some(r.1))
  {
    db := Swept(s, now);
    var n := ToWhole(Argument(argv, 3));
    if Argument(argv, 1) == Text("1") {
      if Key(keys, 1) in db.latches {
        return db, Reply("1", Text("dup"));
      }
    }
    var denied := CheckLoop(db, keys, argv, 3, n, idem, specs);
    if denied > 0 {
      return db, Reply("0", Whole(denied));
    }
    if Argument(argv, 1) == Text("1") {
      var (next, won) := SetNxEx(db, Key(keys, 1), now + ToWhole(Argument(argv, 2)));
      db := next;
      if !won {
        return db, Reply("1", Text("dup"));
      }
    }
    db := SpendLoop(db, keys, argv, n, idem, specs);
    reply := Reply("1", Text("ok"));
  }

  /** The Redis store's AtomicAcquire: validate, pack, run, read the reply. */
  method RedisAtomicAcquire(s: Store<string>, now: int, idem: string, hasIdem: bool, ttl: int,
                            specs: seq<AcquireSpec<string>>)
    returns (db: Store<string>, r: Option<AcquireReply>)
    ensures r.Some? && (db, r.value) == SingleAcquire(s, now, idem, hasIdem, Some(now + LatchTtl(ttl)), specs)
  {
    var bad := ValidateSpecs(specs);
    if bad > 0 {
      return s, Some(Refused(bad));
    }
    var keys := PackKeys([], idem, specs, false);
    var argv := PackArgs([Flag(hasIdem), Whole(if ttl <= 0 then IDEM_TTL else ttl), Whole(|specs|)], specs);
    var reply;
    db, reply := AcquireScript(s, now, keys, argv, idem, specs);
    r := ParseReply(reply);
  }

  // ----- the dual helper block -----

  /** What a dual script closes over: KEYS, the size NK of the primary block and two flags. */
  datatype Env = Env(keys: seq<string>, nk: int, dual: bool, v2p: bool) {
    function Pair(i: int): DualPair<string> {
      DualPair(Key(keys, i), if dual then Some(Key(keys, nk + i)) else None)
    }

    function SeedV2(s: Store<string>, i: int): Store<string> {
      if !dual then s
      else if v2p then
        if Key(keys, i) !in s.floats && Key(keys, nk + i) in s.floats
        then Put(s, Key(keys, i), s.floats[Key(keys, nk + i)]) else s
      else
        if Key(keys, nk + i) !in s.floats && Key(keys, i) in s.floats
        then Put(s, Key(keys, nk + i), s.floats[Key(keys, i)]) else s
    }

    predicate IdemDup(s: Store<string>, i: int) {
      Key(keys, i) in s.latches || (dual && Key(keys, nk + i) in s.latches)
    }

    function IdemClaim(s: Store<string>, i: int, t: int): Store<string> {
      var s1 := SetNxEx(s, Key(keys, i), t).0;
      if dual then SetNxEx(s1, Key(keys, nk + i), t).0 else s1
    }

    function IncrBoth(s: Store<string>, i: int, d: real): (Store<string>, real) {
      var s1 := Add(s, Key(keys, i), d);
      (if dual then Add(s1, Key(keys, nk + i), d) else s1, Level(s1, Key(keys, i)))
    }

    function FloorAt(s: Store<string>, k: string, d: real): Store<string> {
      var s1 := Add(s, k, d);
      if Level(s1, k) < 0.0 then SetPlain(s1, k, 0.0) else s1
    }

    function IncrFloorBoth(s: Store<string>, i: int, d: real): (Store<string>, real) {
      var s1 := FloorAt(s, Key(keys, i), d);
      (if dual then FloorAt(s1, Key(keys, nk + i), d) else s1, Level(s1, Key(keys, i)))
    }

    function ExpBoth(s: Store<string>, i: int, t: int): Store<string> {
      var s1 := ExpireAt(s, Key(keys, i), t);
      if dual then ExpireAt(s1, Key(keys, nk + i), t) else s1
    }
  }

  lemma ClaimIsClaimBoth(e: Env, s: Store<string>, i: int, t: int)
    requires !e.IdemDup(s, i)
    ensures e.IdemClaim(s, i, t) == ClaimBoth(s, e.Pair(i), t)
  {
    if e.dual && Key(e.keys, i) == Key(e.keys, e.nk + i) {
      var one := Claim(s, Key(e.keys, i), t);
      var two := Claim(one, Key(e.keys, i), t);
      assert one.latches == two.latches && one.expiry == two.expiry;
    }
  }

  // ----- the dual acquire script -----

  ghost predicate DualLayout(e: Env, argv: seq<Arg>, idem: DualPair<string>, specs: seq<AcquireSpec<string>>) {
    && e.nk == 1 + 3 * |specs|
    && e.dual == idem.s.Some?
    && KeyBlock(e.keys, 0, idem.p, specs, false)
    && (e.dual ==> KeyBlock(e.keys, 1 + 3 * |specs|, idem.s.value, specs, true))
    && ArgBlock(argv, 5, specs)
    && AllPaired(specs, e.dual)
  }

  /** Where the index arithmetic of gauge i (from 1) lands. */
  lemma GaugeAt(e: Env, argv: seq<Arg>, idem: DualPair<string>, specs: seq<AcquireSpec<string>>, i: int)
    requires DualLayout(e, argv, idem, specs) && 1 <= i <= |specs|
    ensures var kb, ab, sp := 1 + (i - 1) * 3, 5 + (i - 1) * 4, specs[i - 1];
            && e.Pair(kb + 1) == DualPair(sp.orgKey, sp.orgKey2)
            && (sp.hasUser ==> e.Pair(kb + 2) == DualPair(sp.userKey, sp.userKey2))
            && (sp.hasUser ==> e.Pair(kb + 3) == DualPair(sp.seqKey, sp.seqKey2))
            && Argument(argv, ab + 1) == Flag(sp.hasUser)
            && Argument(argv, ab + 2) == Number(sp.delta)
  {
    var sp := specs[i - 1];
    assert Paired(sp, e.dual);
    var kb := 1 + (i - 1) * 3;
    assert kb + 1 == 0 + 3 * (i - 1) + 2;
    if e.dual {
      assert e.nk + (kb + 1) == 1 + 3 * |specs| + 3 * (i - 1) + 2;
    }
    assert 5 + (i - 1) * 4 == 5 + 4 * (i - 1);
  }

  lemma SeedAllStep(s: Store<string>, specs: seq<AcquireSpec<string>>, i: int, v2p: bool)
    requires 1 <= i <= |specs|
    ensures SeedAll(s, specs[..i], v2p) == SeedSpec(SeedAll(s, specs[..i - 1], v2p), specs[i - 1], v2p)
  {
    assert specs[..i][..i - 1] == specs[..i - 1];
  }

  /** One turn of the seeding loop. */
  function SeedGauge(e: Env, s: Store<string>, kb: int, hasUser: Arg): Store<string> {
    var s1 := e.SeedV2(s, kb + 1);
    if hasUser == Text("1") then e.SeedV2(e.SeedV2(s1, kb + 2), kb + 3) else s1
  }

  lemma SeedGaugeIsSeed(e: Env, argv: seq<Arg>, idem: DualPair<string>, specs: seq<AcquireSpec<string>>, i: int,
                        s: Store<string>)
    requires DualLayout(e, argv, idem, specs) && 1 <= i <= |specs|
    ensures SeedGauge(e, s, 1 + (i - 1) * 3, Argument(argv, 5 + (i - 1) * 4 + 1)) == SeedSpec(s, specs[i - 1], e.v2p)
  {
    GaugeAt(e, argv, idem, specs, i);
    var kb := 1 + (i - 1) * 3;
    SeedV2IsSeed(e, s, kb + 1);
    if specs[i - 1].hasUser {
      SeedV2IsSeed(e, e.SeedV2(s, kb + 1), kb + 2);
      SeedV2IsSeed(e, e.SeedV2(e.SeedV2(s, kb + 1), kb + 2), kb + 3);
    }
  }

  method DualSeedLoop(s: Store<string>, e: Env, argv: seq<Arg>, n: int,
                      ghost idem: DualPair<string>, ghost specs: seq<AcquireSpec<string>>)
    returns (db: Store<string>)
    requires n == |specs| && DualLayout(e, argv, idem, specs)
    ensures db == SeedAll(s, specs, e.v2p)
  {
    hide SeedGauge, SeedSpec;
    db := s;
    var i := 1;
    while i <= n
      invariant 1 <= i <= n + 1
      invariant db == SeedAll(s, specs[..i - 1], e.v2p)
    {
      var kb, ab := 1 + (i - 1) * 3, 5 + (i - 1) * 4;
      SeedAllStep(s, specs, i, e.v2p);
      SeedGaugeIsSeed(e, argv, idem, specs, i, db);
      db := SeedGauge(e, db, kb, Argument(argv, ab + 1));
      i := i + 1;
    }
    assert specs[..n] == specs;
  }

  lemma SeedV2IsSeed(e: Env, s: Store<string>, i: int)
    ensures e.SeedV2(s, i) == Seed(s, e.Pair(i), e.v2p)
  {
  }

  /** The script alternates shapes key by key; the in-memory store finishes one shape
      before the other. */
  lemma SpendOrderIrrelevant(s: Store<string>, sp: AcquireSpec<string>, dual: bool)
    requires Paired(sp, dual) && sp.hasUser
    ensures AddBoth(AddBoth(AddBoth(s, DualPair(sp.orgKey, sp.orgKey2), sp.delta),
                            DualPair(sp.seqKey, sp.seqKey2), 1.0),
                    DualPair(sp.userKey, sp.userKey2), sp.delta)
         == ApplySpec(s, sp, dual)
  {
    if dual {
      var o2, q2, d := sp.orgKey2.value, sp.seqKey2.value, sp.delta;
      var s1 := Add(s, sp.orgKey, d);
      AddsCommute(s1, o2, sp.seqKey, d, 1.0);
      var s2 := Add(s1, sp.seqKey, 1.0);
      AddsCommute(Add(s2, o2, d), q2, sp.userKey, 1.0, d);
      AddsCommute(s2, o2, sp.userKey, d, d);
    }
  }

  /** One turn of the spending loop. */
  function SpendGauge(e: Env, s: Store<string>, kb: int, hasUser: Arg, delta: real): Store<string> {
    var s1 := e.IncrBoth(s, kb + 1, delta).0;
    if hasUser == Text("1") then e.IncrBoth(e.IncrBoth(s1, kb + 3, 1.0).0, kb + 2, delta).0 else s1
  }

  lemma IncrIsAddBoth(e: Env, s: Store<string>, i: int, d: real)
    ensures e.IncrBoth(s, i, d).0 == AddBoth(s, e.Pair(i), d)
  {
  }

  lemma SpendGaugeIsApply(e: Env, argv: seq<Arg>, idem: DualPair<string>, specs: seq<AcquireSpec<string>>, i: int,
                          s: Store<string>)
    requires DualLayout(e, argv, idem, specs) && 1 <= i <= |specs|
    ensures SpendGauge(e, s, 1 + (i - 1) * 3, Argument(argv, 5 + (i - 1) * 4 + 1),
            ToNumber(Argument(argv, 5 + (i - 1) * 4 + 2)))
         == ApplySpec(s, specs[i - 1], e.dual)
  {
    GaugeAt(e, argv, idem, specs, i);
    var kb, sp := 1 + (i - 1) * 3, specs[i - 1];
    var s1 := e.IncrBoth(s, kb + 1, sp.delta).0;
    IncrIsAddBoth(e, s, kb + 1, sp.delta);
    if sp.hasUser {
      IncrIsAddBoth(e, s1, kb + 3, 1.0);
      IncrIsAddBoth(e, e.IncrBoth(s1, kb + 3, 1.0).0, kb + 2, sp.delta);
      SpendOrderIrrelevant(s, sp, e.dual);
    }
  }

  lemma ApplyAllStep(s: Store<string>, specs: seq<AcquireSpec<string>>, i: int, dual: bool)
    requires AllPaired(specs, dual) && 1 <= i <= |specs|
    ensures ApplyAll(s, specs[..i], dual) == ApplySpec(ApplyAll(s, specs[..i - 1], dual), specs[i - 1], dual)
  {
    assert specs[..i][..i - 1] == specs[..i - 1];
  }

  lemma NothingApplied(s: Store<string>, specs: seq<AcquireSpec<string>>, dual: bool)
    ensures ApplyAll(s, specs[..0], dual) == s
  {
  }

  method DualSpendLoop(s: Store<string>, e: Env, argv: seq<Arg>, n: int,
                       ghost idem: DualPair<string>, ghost specs: seq<AcquireSpec<string>>)
    returns (db: Store<string>)
    requires n == |specs| && DualLayout(e, argv, idem, specs)
    ensures db == ApplyAll(s, specs, e.dual)
  {
    hide SpendGauge, ApplySpec, ApplyAll;
    NothingApplied(s, specs, e.dual);
    db := s;
    var i := 1;
    while i <= n
      invariant 1 <= i <= n + 1
      invariant db == ApplyAll(s, specs[..i - 1], e.dual)
    {
      var kb, ab := 1 + (i - 1) * 3, 5 + (i - 1) * 4;
      ApplyAllStep(s, specs, i, e.dual);
      SpendGaugeIsApply(e, argv, idem, specs, i, db);
      db := SpendGauge(e, db, kb, Argument(argv, ab + 1), ToNumber(Argument(argv, ab + 2)));
      i := i + 1;
    }
    assert specs[..n] == specs;
  }

  /** The script after its seeding loop. */
  method DecideScript(s: Store<string>, now: int, e: Env, argv: seq<Arg>, n: int,
                      ghost idem: DualPair<string>, ghost specs: seq<AcquireSpec<string>>)
    returns (db: Store<string>, reply: Reply)
    requires n == |specs| && DualLayout(e, argv, idem, specs)
    requires argv[1].Whole?
    ensures (db, ParseReply(reply)) ==
            var r := Decide(s, idem, argv[0] == Text("1"), now + argv[1].n, specs); (r.0, Some(r.1))
  {
    db := s;
    assert e.Pair(1) == idem && |argv| >= 5;
    var hasIdem := Argument(argv, 1) == Text("1");
    hide KeyBlock, ArgBlock, ApplyAll, FirstDenied, ClaimBoth;
    if hasIdem {
      if e.IdemDup(db, 1) {
        return db, Reply("1", Text("dup"));
      }
    }
    var denied := CheckLoop(db, e.keys, argv, 5, n, idem.p, specs);
    if denied > 0 {
      return db, Reply("0", Whole(denied));
    }
    db := ClaimStep(db, e, hasIdem, now + ToWhole(Argument(argv, 2)));
    db := DualSpendLoop(db, e, argv, n, idem, specs);
    reply := Reply("1", Text("ok"));
  }

  method ClaimStep(s: Store<string>, e: Env, hasIdem: bool, t: int) returns (db: Store<string>)
    requires hasIdem ==> !e.IdemDup(s, 1)
    ensures db == if hasIdem then ClaimBoth(s, e.Pair(1), t) else s
  {
    db := s;
    if hasIdem {
      ClaimIsClaimBoth(e, db, 1, t);
      db := e.IdemClaim(db, 1, t);
    }
  }

  function DualHead(hasIdem: bool, ttl: int, n: int, dual: bool, v2p: bool): (head: seq<Arg>)
    ensures |head| == 5
  {
    [Flag(hasIdem), Whole(ttl), Whole(n), Flag(dual), Flag(v2p)]
  }

  method DualAcquireScript(s: Store<string>, now: int, keys: seq<string>, argv: seq<Arg>,
                           ghost idem: DualPair<string>, ghost hasIdem: bool, ghost ttl: int, ghost v2p: bool,
                           ghost specs: seq<AcquireSpec<string>>)
    returns (db: Store<string>, reply: Reply)
    requires DualHead(hasIdem, ttl, |specs|, idem.s.Some?, v2p) <= argv
    requires DualLayout(Env(keys, 1 + 3 * |specs|, idem.s.Some?, v2p), argv, idem, specs)
    ensures (db, ParseReply(reply)) ==
            var r := Decide(SeedAll(Swept(s, now), specs, v2p), idem, hasIdem, now + ttl, specs);
            (r.0, Some(r.1))
  {
    var n := ToWhole(Argument(argv, 3));
    var e := Env(keys, 1 + n * 3, Argument(argv, 4) == Text("1"), Argument(argv, 5) == Text("1"));
    db := DualSeedLoop(Swept(s, now), e, argv, n, idem, specs);
    db, reply := DecideScript(db, now, e, argv, n, idem, specs);
  }

  method PackBothShapes(idem: DualPair<string>, specs: seq<AcquireSpec<string>>) returns (keys: seq<string>)
    ensures KeyBlock(keys, 0, idem.p, specs, false)
    ensures idem.s.Some? ==> KeyBlock(keys, 1 + 3 * |specs|, idem.s.value, specs, true)
  {
    keys := PackKeys([], idem.p, specs, false);
    if idem.s.Some? {
      ghost var was := keys;
      keys := PackKeys(keys, idem.s.value, specs, true);
      assert forall j :: 1 <= j <= |was| ==> Key(keys, j) == Key(was, j);
    }
  }

  method RedisDualAcquire(s: Store<string>, now: int, idem: DualPair<string>, hasIdem: bool, ttl: int, v2p: bool,
                          specs: seq<AcquireSpec<string>>)
    returns (db: Store<string>, r: Option<AcquireReply>)
    requires AllPaired(specs, idem.s.Some?)
    ensures r.Some? && (db, r.value) == DualAcquire(s, now, idem, hasIdem, ttl, v2p, specs)
  {
    var bad := ValidateSpecs(specs);
    if bad > 0 {
      return s, Some(Refused(bad));
    }
    ValidAcquire(s, now, idem, hasIdem, ttl, v2p, specs);
    hide KeyBlock, ArgBlock, ParseReply, SeedAll, Swept, Decide, DualHead, DualAcquire, DualLayout;
    var dual := idem.s.Some?;
    var keys := PackBothShapes(idem, specs);
    var argv := PackArgs(DualHead(hasIdem, LatchTtl(ttl), |specs|, dual, v2p), specs);
    LayoutFrom(keys, argv, idem, specs, v2p);
    var reply;
    db, reply := DualAcquireScript(s, now, keys, argv, idem, hasIdem, LatchTtl(ttl), v2p, specs);
    r := ParseReply(reply);
  }

  lemma LayoutFrom(keys: seq<string>, argv: seq<Arg>, idem: DualPair<string>, specs: seq<AcquireSpec<string>>,
                   v2p: bool)
    requires KeyBlock(keys, 0, idem.p, specs, false) && ArgBlock(argv, 5, specs) && AllPaired(specs, idem.s.Some?)
    requires idem.s.Some? ==> KeyBlock(keys, 1 + 3 * |specs|, idem.s.value, specs, true)
    ensures DualLayout(Env(keys, 1 + 3 * |specs|, idem.s.Some?, v2p), argv, idem, specs)
  {
  }

  // ----- the small dual scripts -----

  function BothKeys(k: DualPair<string>): seq<string> {
    if k.s.Some? then [k.p, k.s.value] else [k.p]
  }

  /** The same store as in memory, always.  The script answers with what the primary showed
      before the twin was bumped, which differs only if they were one key. */
  method RedisSpendOrg(s: Store<string>, now: int, org: DualPair<string>, delta: real, v2p: bool)
    returns (db: Store<string>, v: real)
    ensures db == DualSpendOrg(s, now, org, delta, v2p).0
    ensures v == DualSpendOrg(s, now, org, delta, v2p).1 <==> org.s != Some(org.p) || delta == 0.0
  {
    var e := Env(BothKeys(org), 1, org.s.Some?, v2p);
    assert e.Pair(1) == org;
    db := e.SeedV2(Swept(s, now), 1);
    var (next, lvl) := e.IncrBoth(db, 1, delta);
    db, v := next, lvl;
  }

  /** Three keys a shape: the secondary block starts at KEYS[4].  The same store as in
      memory, always; each answer is the same but where a later bump hits its key. */
  method RedisSpendUser(s: Store<string>, now: int, org: DualPair<string>, user: DualPair<string>,
                        sq: DualPair<string>, delta: real, v2p: bool)
    returns (db: Store<string>, orgV: real, userV: real)
    requires org.s.Some? == user.s.Some? == sq.s.Some?
    ensures var r := DualSpendUser(s, now, org, user, sq, delta, v2p);
            && db == r.0
            && (orgV == r.1 <==> delta == 0.0 || (org.s != Some(org.p) && user.p != org.p && user.s != Some(org.p)))
            && (userV == r.2 <==> delta == 0.0 || user.s != Some(user.p))
  {
    var keys := [org.p, user.p, sq.p];
    if org.s.Some? {
      keys := keys + [org.s.value, user.s.value, sq.s.value];
    }
    var e := Env(keys, 3, org.s.Some?, v2p);
    assert e.Pair(1) == org && e.Pair(2) == user && e.Pair(3) == sq;
    db := e.SeedV2(e.SeedV2(e.SeedV2(Swept(s, now), 1), 2), 3);
    var (next, o) := e.IncrBoth(db, 1, delta);
    var (last, u) := e.IncrBoth(next, 2, delta);
    BumpedLevel(db, org, delta, org.p);
    BumpedLevel(next, user, delta, org.p);
    BumpedLevel(next, user, delta, user.p);
    db, orgV, userV := last, o, u;
  }

  lemma BumpedLevel(s: Store<string>, k: DualPair<string>, d: real, x: string)
    ensures Level(AddBoth(s, k, d), x)
         == Level(s, x) + (if k.p == x then d else 0.0) + (if k.s == Some(x) then d else 0.0)
  {
  }

  method RedisAccAdd(s: Store<string>, now: int, acc: DualPair<string>, delta: real, ttl: int, v2p: bool)
    returns (db: Store<string>, v: real)
    ensures db == DualAccAdd(s, now, acc, delta, ttl, v2p).0
    ensures v == DualAccAdd(s, now, acc, delta, ttl, v2p).1 <==> acc.s != Some(acc.p) || delta == 0.0
  {
    var e := Env(BothKeys(acc), 1, acc.s.Some?, v2p);
    assert e.Pair(1) == acc;
    db := e.SeedV2(Swept(s, now), 1);
    BumpedLevel(db, acc, delta, acc.p);
    var (next, lvl) := e.IncrBoth(db, 1, delta);
    db, v := next, lvl;
    if ttl > 0 {
      db := e.ExpBoth(db, 1, now + ttl);
    }
  }

  /** The keys whose floor acted. */
  function FlooredKeys(s: Store<string>, key: DualPair<string>, amount: real): set<string> {
    var s1 := Decr(s, key.p, amount);
    (if Level(s, key.p) < amount then {key.p} else {})
    + (if key.s.Some? && Level(s1, key.s.value) < amount then {key.s.value} else {})
  }

  /** The same answer and levels as in memory.  The floor is a plain SET, so the keys it
      acted on lose their expiry, which gauges do not have, and no others do. */
  method RedisDecrFloor(s: Store<string>, now: int, key: DualPair<string>, amount: real, v2p: bool)
    returns (db: Store<string>, v: real)
    ensures var (s', v') := DualDecrFloor(s, now, key, amount, v2p);
            var cleared := FlooredKeys(Seed(Swept(s, now), key, v2p), key, amount);
            v == v' && db == s'.(expiry := s'.expiry - cleared)
  {
    var e := Env(BothKeys(key), 1, key.s.Some?, v2p);
    assert e.Pair(1) == key;
    db := e.SeedV2(Swept(s, now), 1);
    BothFloored(e, db, key, amount);
    hide Floored;
    var (next, lvl) := e.IncrFloorBoth(db, 1, -amount);
    db, v := next, lvl;
  }

  lemma BothFloored(e: Env, s: Store<string>, key: DualPair<string>, amount: real)
    requires e.Pair(1) == key
    ensures var s1 := Decr(s, key.p, amount);
            var s2 := if key.s.Some? then Decr(s1, key.s.value, amount) else s1;
            e.IncrFloorBoth(s, 1, -amount)
            == (s2.(expiry := s.expiry - FlooredKeys(s, key, amount)), Level(s1, key.p))
  {
    var s1 := e.FloorAt(s, key.p, -amount);
    FloorIsDecr(e, s, key.p, amount);
    assert s1.expiry == s.expiry - (if Level(s, key.p) < amount then {key.p} else {});
    if key.s.Some? {
      FloorIsDecr(e, s1, key.s.value, amount);
      assert Level(s1, key.s.value) == Level(Decr(s, key.p, amount), key.s.value);
    }
    assert e.IncrFloorBoth(s, 1, -amount).0.expiry == s.expiry - FlooredKeys(s, key, amount);
  }

  lemma FloorIsDecr(e: Env, s: Store<string>, k: string, amount: real)
    ensures e.FloorAt(s, k, -amount)
         == Decr(s, k, amount).(expiry := if Level(s, k) < amount then s.expiry - {k} else s.expiry)
  {
    var s1 := Add(s, k, -amount);
    assert s.floats[k := Level(s1, k)][k := 0.0] == s.floats[k := 0.0];
  }
}
