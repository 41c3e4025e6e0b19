/** Acquire and release as a protocol: any number of processes, each store call one
    atomic step, a crash or a lost reply possible at every step.  The gauges are
    the counter store of `CounterStore`, the rows those of `Activations`. */
module ActivationProtocol {
  import opened CounterStore
  import opened Activations
  import StoreMeaning

  datatype Key =
    | Org(org: string, rk: string)
    | User(org: string, rk: string, uid: string)
    | Seq(org: string, rk: string, uid: string)
    | Idem(org: string, rk: string, token: string)
    | Acc(org: string, rk: string, period: string)
    | Rate(org: string, rk: string)

  /** The keys that hold a level taken by activations. */
  predicate Gauge(k: Key) {
    k.Org? || k.User?
  }

  /** `bundle` is the gauge resources of the request, in order. */
  datatype Request = Request(org: string, user: Option<string>, bundle: seq<string>, token: Option<string>)

  type Limits = map<Key, real>

  // ----- the spend -----

  function Limit(limits: Limits, k: Key): Option<real> {
    if k in limits then Some(limits[k]) else None
  }

  function UserKey(q: Request, rk: string): Key {
    if q.user.Some? then User(q.org, rk, q.user.value) else Org(q.org, rk)
  }

  function SpecOf(q: Request, rk: string, limits: Limits): AcquireSpec<Key> {
    AcquireSpec(Org(q.org, rk), UserKey(q, rk),
                if q.user.Some? then Seq(q.org, rk, q.user.value) else Org(q.org, rk),
                q.user.Some?, 1.0,
                Limit(limits, Org(q.org, rk)), if q.user.Some? then Limit(limits, UserKey(q, rk)) else None,
                None, None, None)
  }

  function Specs(q: Request, limits: Limits): (specs: seq<AcquireSpec<Key>>)
    ensures |specs| == |q.bundle|
    ensures forall i :: 0 <= i < |specs| ==> specs[i] == SpecOf(q, q.bundle[i], limits)
  {
    seq(|q.bundle|, i requires 0 <= i < |q.bundle| => SpecOf(q, q.bundle[i], limits))
  }

  /** The latch shares the first gauge's namespace. */
  function Token(q: Request): Key
    requires q.bundle != []
  {
    Idem(q.org, q.bundle[0], if q.token.Some? then q.token.value else "")
  }

  function Spend(store: Store<Key>, now: int, q: Request, limits: Limits): (Store<Key>, AcquireReply)
    requires q.bundle != []
  {
    SingleAcquire(store, now, Token(q), q.token.Some?, Some(now + IDEM_TTL), Specs(q, limits))
  }

  /** Everything one unit of this request is taken from. */
  function Wanted(q: Request): set<Key> {
    (set rk | rk in q.bundle :: Org(q.org, rk)) + (set rk | rk in q.bundle :: UserKey(q, rk))
  }

  predicate Duplicates(bundle: seq<string>) {
    exists i, j :: 0 <= i < j < |bundle| && bundle[i] == bundle[j]
  }

  // ----- the ledger row -----

  function Minted(q: Request, at: int): Row {
    var title := if q.bundle == [] then "" else q.bundle[0];
    Row(q.org, q.user, title, None, at, State.Open, map rk | rk in q.bundle :: 1.0, None, None)
  }

  function KeysOf(r: Row): set<Key> {
    (set rk | rk in r.spend.Keys :: Org(r.org, rk))
    + (if r.user.Some? then set rk | rk in r.spend.Keys :: User(r.org, rk, r.user.value) else {})
  }

  // ----- the system -----

  datatype Proc =
    | Wanting(q: Request)
    | Spent(q: Request)                                // spend landed, row not stored yet
    | Orphaned(keys: set<Key>)                         // crashed, or the row could not be stored
    | Releasing(id: nat)
    | Owing(spend: map<string, real>, keys: set<Key>)  // row marked, these gauges not decremented yet
    | Stranded(spend: map<string, real>, keys: set<Key>)
    | Finished

  /** A row, and the gauges a reconcile pass has written it off. */
  datatype Entry = Entry(row: Row, off: set<Key>)

  /** `gone` holds the rows whose retention has ended; `rows` remembers them. */
  datatype Sys = Sys(store: Store<Key>, rows: map<nat, Entry>, gone: set<nat>, procs: map<nat, Proc>)

  /** `lost`: the store acted, but the process got an error and gives up. */
  datatype Event =
    | Acquire(p: nat, q: Request)
    | Release(p: nat, id: nat)
    | TrySpend(p: nat, now: int, lost: bool)
    | Persist(p: nat, id: nat, at: int)
    | Mark(p: nat, at: int, lost: bool)
    | Decrement(p: nat, k: Key, now: int, lost: bool)
    | GiveUp(p: nat)                                   // a crash, or a store call that failed outright
    | SettleTry(id: nat, from: State, cost: string, at: int)
    | Forget(id: nat)
    | Reconcile(org: string, rk: string)               // a ledger-only pass over one gauge

  function Now(s: Sys, p: nat): Proc {
    if p in s.procs then s.procs[p] else Finished
  }

  function AfterSpend(q: Request, reply: AcquireReply, lost: bool): Proc {
    if reply != Outcome(true, false, 0) then Finished else if lost then Orphaned(Wanted(q)) else Spent(q)
  }

  function Visible(s: Sys, id: nat): Option<Row> {
    if id in s.rows && id !in s.gone then Some(s.rows[id].row) else None
  }

  function Abandon(pc: Proc): Proc {
    match pc
    case Spent(q) => Orphaned(Wanted(q))
    case Owing(spend, keys) => Stranded(spend, keys)
    case Orphaned(_) => pc
    case Stranded(_, _) => pc
    case _ => Finished
  }

  function MintedEntry(q: Request, at: int): Entry {
    Entry(Minted(q, at), {})
  }

  function ReleasedEntry(e: Entry, at: int): Entry {
    e.(row := AsReleased(e.row, at))
  }

  function SettledEntry(e: Entry, cost: string, at: int): Entry {
    e.(row := AsSettled(e.row, cost, at))
  }

  function MarkStep(s: Sys, p: nat, id: nat, at: int, lost: bool): Sys {
    var r := Visible(s, id);
    if StateOf(r) != Some(State.Open) then s.(procs := s.procs[p := Finished])
    else
      var spend, keys := r.value.spend, KeysOf(r.value);
      s.(rows := s.rows[id := ReleasedEntry(s.rows[id], at)],
         procs := s.procs[p := if lost then Stranded(spend, keys) else Owing(spend, keys)])
  }

  function DecrementStep(s: Sys, p: nat, pc: Proc, k: Key, now: int, lost: bool): Sys
    requires pc.Owing?
  {
    if k !in pc.keys || !Gauge(k) || k.rk !in pc.spend then s
    else
      var left := pc.keys - {k};
      s.(store := DualDecrFloor(s.store, now, DualPair(k, None), pc.spend[k.rk], false).0,
         procs := s.procs[p := if lost then Stranded(pc.spend, left) else Owing(pc.spend, left)])
  }

  function SettleStep(s: Sys, id: nat, from: State, cost: string, at: int): Sys {
    if StateOf(Visible(s, id)) == Some(from) && from != State.Settled
    then s.(rows := s.rows[id := SettledEntry(s.rows[id], cost, at)]) else s
  }

  /** Nobody is between a spend and its row, or between a mark and its decrement, on k. */
  predicate Quiet(s: Sys, k: Key) {
    forall p :: p in s.procs ==>
      !(s.procs[p].Spent? && k in Wanted(s.procs[p].q)) && !(s.procs[p].Owing? && k in s.procs[p].keys)
  }

  function Forgiven(pc: Proc, k: Key): Proc {
    match pc
    case Orphaned(keys) => Orphaned(keys - {k})
    case Stranded(spend, keys) => Stranded(spend, keys - {k})
    case _ => pc
  }

  function WrittenOff(e: Entry, k: Key): Entry {
    if e.row.state != State.Open then e.(off := e.off + {k}) else e
  }

  /** The pass sets the org gauge to the open rows that spend it.  What crashes stranded and
      rows settled without a release is thereby written off. */
  function ReconcileStep(s: Sys, k: Key): Sys {
    if !Quiet(s, k) then s
    else Sys(Put(s.store, k, |Held(s.rows, OpenOn(k))| as real),
             map id | id in s.rows :: WrittenOff(s.rows[id], k), s.gone,
             map p | p in s.procs :: Forgiven(s.procs[p], k))
  }

  /** Bundles that name a resource twice do not run here; see `ReleaseUndoesAcquire`. */
  function Step(s: Sys, e: Event, limits: Limits): Sys {
    match e
    case Acquire(p, q) =>
      if p in s.procs || q.bundle == [] || Duplicates(q.bundle) then s else s.(procs := s.procs[p := Wanting(q)])
    case Release(p, id) => if p in s.procs then s else s.(procs := s.procs[p := Releasing(id)])
    case TrySpend(p, now, lost) =>
      var pc := Now(s, p);
      if !pc.Wanting? || pc.q.bundle == [] then s
      else
        var r := Spend(s.store, now, pc.q, limits);
        s.(store := r.0, procs := s.procs[p := AfterSpend(pc.q, r.1, lost)])
    case Persist(p, id, at) =>
      var pc := Now(s, p);
      if !pc.Spent? || id in s.rows then s
      else s.(rows := s.rows[id := MintedEntry(pc.q, at)], procs := s.procs[p := Finished])
    case Mark(p, at, lost) => if Now(s, p).Releasing? then MarkStep(s, p, Now(s, p).id, at, lost) else s
    case Decrement(p, k, now, lost) => if Now(s, p).Owing? then DecrementStep(s, p, Now(s, p), k, now, lost) else s
    case GiveUp(p) => if p in s.procs then s.(procs := s.procs[p := Abandon(s.procs[p])]) else s
    case SettleTry(id, from, cost, at) => SettleStep(s, id, from, cost, at)
    case Forget(id) =>
      if id in s.rows && s.rows[id].row.state != State.Open then s.(gone := s.gone + {id}) else s
    case Reconcile(org, rk) => ReconcileStep(s, Org(org, rk))
  }

  const EMPTY := Sys(Store(map[], {}, map[]), map[], {}, map[])

  function Run(es: seq<Event>, limits: Limits): Sys {
    if es == [] then EMPTY else Step(Run(es[..|es| - 1], limits), es[|es| - 1], limits)
  }

  // ----- who holds a unit of a gauge -----

  function Held<X>(m: map<nat, X>, f: X -> bool): set<nat> {
    set p | p in m && f(m[p])
  }

  /** Rows never released that still count for the gauge. */
  ghost function NeverReleased(k: Key): Entry -> bool {
    (e: Entry) => e.row.releasedAt.None? && k in KeysOf(e.row) && k !in e.off
  }

  function OpenOn(k: Key): Entry -> bool {
    (e: Entry) => e.row.state == State.Open && k in KeysOf(e.row)
  }

  ghost function Unpersisted(k: Key): Proc -> bool {
    (pc: Proc) => pc.Spent? && k in Wanted(pc.q)
  }

  ghost function Undecremented(k: Key): Proc -> bool {
    (pc: Proc) => (pc.Owing? || pc.Stranded?) && k in pc.keys
  }

  ghost function Orphan(k: Key): Proc -> bool {
    (pc: Proc) => pc.Orphaned? && k in pc.keys
  }

  ghost function Holders(s: Sys, k: Key): nat {
    |Held(s.rows, NeverReleased(k))| + |Held(s.procs, Unpersisted(k))|
    + |Held(s.procs, Undecremented(k))| + |Held(s.procs, Orphan(k))|
  }

  lemma WithoutOne(a: set<nat>, p: nat)
    ensures |a| == |a - {p}| + Unit(p in a)
  {
    if p in a {
      assert a == a - {p} + {p};
    } else {
      assert a == a - {p};
    }
  }

  lemma HeldUpdate<X>(m: map<nat, X>, f: X -> bool, p: nat, x: X)
    ensures |Held(m[p := x], f)| == |Held(m, f)| - (if p in m && f(m[p]) then 1 else 0) + (if f(x) then 1 else 0)
  {
    var a, b := Held(m, f), Held(m[p := x], f);
    forall q ensures q in a - {p} <==> q in b - {p} {}
    assert a - {p} == b - {p};
    WithoutOne(a, p);
    WithoutOne(b, p);
  }

  function Unit(b: bool): int {
    if b then 1 else 0
  }

  /** What one process contributes. */
  ghost function Share(pc: Proc, k: Key): int {
    Unit(Unpersisted(k)(pc)) + Unit(Undecremented(k)(pc)) + Unit(Orphan(k)(pc))
  }

  lemma ProcUpdate(s: Sys, k: Key, p: nat, pc: Proc)
    ensures Holders(s.(procs := s.procs[p := pc]), k)
         == Holders(s, k) - (if p in s.procs then Share(s.procs[p], k) else 0) + Share(pc, k)
  {
    HeldUpdate(s.procs, Unpersisted(k), p, pc);
    HeldUpdate(s.procs, Undecremented(k), p, pc);
    HeldUpdate(s.procs, Orphan(k), p, pc);
  }

  lemma StoreUpdate(s: Sys, k: Key, st: Store<Key>)
    ensures Holders(s.(store := st), k) == Holders(s, k)
  {
  }

  lemma RowUpdate(s: Sys, k: Key, id: nat, r: Entry)
    ensures Holders(s.(rows := s.rows[id := r]), k)
         == Holders(s, k) - (if id in s.rows then Unit(NeverReleased(k)(s.rows[id])) else 0) + Unit(NeverReleased(k)(r))
  {
    HeldUpdate(s.rows, NeverReleased(k), id, r);
  }

  // ----- what a spend does to a level -----

  /** How many of the first n gauges of the bundle take from k. */
  function Times(q: Request, n: nat, k: Key): nat
    requires n <= |q.bundle|
  {
    if n == 0 then 0
    else Times(q, n - 1, k) + (if k == Org(q.org, q.bundle[n - 1]) || k == UserKey(q, q.bundle[n - 1]) then 1 else 0)
  }

  lemma ShapeLevel(s: Store<Key>, q: Request, rk: string, limits: Limits, k: Key)
    requires Gauge(k)
    ensures var sp := SpecOf(q, rk, limits);
            var s' := ApplyShape(s, sp.orgKey, sp.userKey, sp.seqKey, sp.hasUser, sp.delta);
            && Level(s', k) == Level(s, k) + (if k == Org(q.org, rk) || k == UserKey(q, rk) then 1.0 else 0.0)
            && s'.expiry == s.expiry
  {
  }

  lemma {:induction false} SpendLevel(s: Store<Key>, q: Request, limits: Limits, n: nat, k: Key)
    requires n <= |q.bundle| && Gauge(k)
    ensures Level(SpendAll(s, Specs(q, limits)[..n]), k) == Level(s, k) + Times(q, n, k) as real
    ensures SpendAll(s, Specs(q, limits)[..n]).expiry == s.expiry
  {
    if n > 0 {
      SpendLevel(s, q, limits, n - 1, k);
      assert Specs(q, limits)[..n][..n - 1] == Specs(q, limits)[..n - 1];
      ShapeLevel(SpendAll(s, Specs(q, limits)[..n - 1]), q, q.bundle[n - 1], limits, k);
    }
  }

  lemma {:induction false} TimesZero(q: Request, n: nat, k: Key)
    requires n <= |q.bundle| && Gauge(k)
    ensures Times(q, n, k) > 0 <==>
            exists i :: 0 <= i < n && (k == Org(q.org, q.bundle[i]) || k == UserKey(q, q.bundle[i]))
  {
    if n > 0 {
      TimesZero(q, n - 1, k);
    }
  }

  lemma WantedIndex(q: Request, k: Key)
    ensures k in Wanted(q) <==>
            exists i :: 0 <= i < |q.bundle| && (k == Org(q.org, q.bundle[i]) || k == UserKey(q, q.bundle[i]))
  {
    if k in Wanted(q) {
      var rk :| rk in q.bundle && (k == Org(q.org, rk) || k == UserKey(q, rk));
      var i :| 0 <= i < |q.bundle| && q.bundle[i] == rk;
    }
  }

  lemma {:induction false} TimesOnce(q: Request, n: nat, k: Key)
    requires n <= |q.bundle| && Gauge(k) && !Duplicates(q.bundle[..n])
    ensures Times(q, n, k) <= 1
  {
    if n > 0 {
      assert q.bundle[..n][..n - 1] == q.bundle[..n - 1];
      forall i, j | 0 <= i < j < n - 1 ensures q.bundle[i] != q.bundle[j] {
        assert q.bundle[..n][i] != q.bundle[..n][j];
      }
      TimesOnce(q, n - 1, k);
      TimesZero(q, n - 1, k);
      if Times(q, n - 1, k) > 0 {
        var i :| 0 <= i < n - 1 && (k == Org(q.org, q.bundle[i]) || k == UserKey(q, q.bundle[i]));
        assert q.bundle[..n][i] != q.bundle[..n][n - 1];
      }
    }
  }

  lemma TimesWanted(q: Request, k: Key)
    requires Gauge(k) && !Duplicates(q.bundle)
    ensures Times(q, |q.bundle|, k) == Unit(k in Wanted(q))
  {
    assert q.bundle[..|q.bundle|] == q.bundle;
    TimesOnce(q, |q.bundle|, k);
    TimesZero(q, |q.bundle|, k);
    WantedIndex(q, k);
  }

  /** A key the admitted request takes from had room for one more. */
  lemma RoomForOne(s: Store<Key>, q: Request, limits: Limits, k: Key)
    requires FirstDenied(s, Specs(q, limits), 0) == 0 && k in Wanted(q) && k in limits
    ensures Level(s, k) + 1.0 <= limits[k]
  {
    NoneDenied(s, Specs(q, limits), 0);
    WantedIndex(q, k);
    var i :| 0 <= i < |q.bundle| && (k == Org(q.org, q.bundle[i]) || k == UserKey(q, q.bundle[i]));
    assert !Exceeds(s, Specs(q, limits)[i]);
  }

  lemma SweptLevel(s: Store<Key>, now: int, k: Key)
    requires k !in s.expiry
    ensures Level(Swept(s, now), k) == Level(s, k) && k !in Swept(s, now).expiry
  {
  }

  /** A spend that did not land: nothing but expired keys is gone. */
  lemma {:induction false} Rejected<K>(s: Store<K>, now: int, idem: K, hasIdem: bool, until: Option<int>,
                                       specs: seq<AcquireSpec<K>>)
    requires SingleAcquire(s, now, idem, hasIdem, until, specs).1 != Outcome(true, false, 0)
    ensures SingleAcquire(s, now, idem, hasIdem, until, specs).0 in {s, Swept(s, now)}
  {
  }

  /** A spend that landed: the latch is claimed and every gauge of the bundle taken. */
  lemma Landed<K>(s: Store<K>, now: int, idem: K, hasIdem: bool, until: int, specs: seq<AcquireSpec<K>>)
    requires SingleAcquire(s, now, idem, hasIdem, Some(until), specs).1 == Outcome(true, false, 0)
    ensures var s1 := Swept(s, now);
            && FirstDenied(s1, specs, 0) == 0
            && SingleAcquire(s, now, idem, hasIdem, Some(until), specs).0
               == SpendAll(if hasIdem then Claim(s1, idem, until) else s1, specs)
  {
  }

  lemma SpendRejected(s: Store<Key>, now: int, q: Request, limits: Limits, k: Key)
    requires q.bundle != [] && k !in s.expiry
    requires Spend(s, now, q, limits).1 != Outcome(true, false, 0)
    ensures var s' := Spend(s, now, q, limits).0; Level(s', k) == Level(s, k) && k !in s'.expiry
  {
    Rejected(s, now, Token(q), q.token.Some?, Some(now + IDEM_TTL), Specs(q, limits));
    SweptLevel(s, now, k);
  }

  lemma SpendLanded(s: Store<Key>, now: int, q: Request, limits: Limits, k: Key)
    requires q.bundle != [] && !Duplicates(q.bundle) && Gauge(k) && k !in s.expiry
    requires Spend(s, now, q, limits).1 == Outcome(true, false, 0)
    ensures var s' := Spend(s, now, q, limits).0;
            && k !in s'.expiry
            && Level(s', k) == Level(s, k) + Unit(k in Wanted(q)) as real
            && (k in Wanted(q) && k in limits ==> Level(s', k) <= limits[k])
  {
    Landed(s, now, Token(q), q.token.Some?, now + IDEM_TTL, Specs(q, limits));
    var s1 := Swept(s, now);
    SweptLevel(s, now, k);
    var s2 := if q.token.Some? then Claim(s1, Token(q), now + IDEM_TTL) else s1;
    SpendLevel(s2, q, limits, |q.bundle|, k);
    assert Specs(q, limits)[..|q.bundle|] == Specs(q, limits);
    TimesWanted(q, k);
    if k in Wanted(q) && k in limits {
      RoomForOne(s1, q, limits, k);
    }
  }

  // ----- the invariant -----

  predicate WfProc(pc: Proc) {
    match pc
    case Wanting(q) => q.bundle != [] && !Duplicates(q.bundle)
    case Owing(spend, keys) => forall k :: k in keys ==> Gauge(k) && k.rk in spend && spend[k.rk] == 1.0
    case _ => true
  }

  predicate WfRow(r: Row) {
    && (forall rk :: rk in r.spend ==> r.spend[rk] == 1.0)
    && (r.state == State.Open ==> r.releasedAt.None?)
  }

  /** An open row has been written off nowhere. */
  predicate WfEntry(e: Entry) {
    WfRow(e.row) && (e.row.state == State.Open ==> e.off == {})
  }

  function Cap(limit: real): real {
    if limit < 0.0 then 0.0 else limit
  }

  ghost predicate At(s: Sys, limits: Limits, k: Key) {
    && Level(s.store, k) == Holders(s, k) as real
    && k !in s.store.expiry
    && (k in limits ==> Level(s.store, k) <= Cap(limits[k]))
  }

  ghost predicate Inv(s: Sys, limits: Limits) {
    && (forall k :: Gauge(k) ==> At(s, limits, k))
    && (forall p :: p in s.procs ==> WfProc(s.procs[p]))
    && (forall id :: id in s.rows ==> WfEntry(s.rows[id]))
  }

  /** What each kind of process contributes. */
  lemma Shares(k: Key, q: Request, id: nat, spend: map<string, real>, keys: set<Key>)
    ensures Share(Finished, k) == Share(Wanting(q), k) == Share(Releasing(id), k) == 0
    ensures Share(Spent(q), k) == Share(Orphaned(Wanted(q)), k) == Unit(k in Wanted(q))
    ensures Share(Orphaned(keys), k) == Unit(k in keys)
    ensures Share(Owing(spend, keys), k) == Share(Stranded(spend, keys), k) == Unit(k in keys)
  {
  }

  lemma AbandonShare(pc: Proc, k: Key)
    ensures Share(Abandon(pc), k) == Share(pc, k)
  {
  }

  /** A process moves on without taking or giving back anything. */
  lemma ProcAt(s: Sys, p: nat, pc: Proc, limits: Limits, k: Key)
    requires At(s, limits, k) && (if p in s.procs then Share(s.procs[p], k) else 0) == Share(pc, k)
    ensures At(s.(procs := s.procs[p := pc]), limits, k)
  {
    hide Share;
    ProcUpdate(s, k, p, pc);
  }

  lemma AcquireAt(s: Sys, p: nat, q: Request, limits: Limits, k: Key)
    requires At(s, limits, k)
    ensures At(Step(s, Acquire(p, q), limits), limits, k)
  {
    Shares(k, q, 0, map[], {});
    hide Share, At;
    if p !in s.procs {
      ProcAt(s, p, Wanting(q), limits, k);
    }
  }

  lemma ReleaseAt(s: Sys, p: nat, id: nat, limits: Limits, k: Key)
    requires At(s, limits, k)
    ensures At(Step(s, Release(p, id), limits), limits, k)
  {
    Shares(k, Request("", None, [], None), id, map[], {});
    hide Share, At;
    if p !in s.procs {
      ProcAt(s, p, Releasing(id), limits, k);
    }
  }

  lemma GiveUpAt(s: Sys, p: nat, limits: Limits, k: Key)
    requires At(s, limits, k)
    ensures At(Step(s, GiveUp(p), limits), limits, k)
  {
    if p in s.procs {
      AbandonShare(s.procs[p], k);
      hide Share, At, Abandon;
      ProcAt(s, p, Abandon(s.procs[p]), limits, k);
    }
  }

  lemma TrySpendAt(s: Sys, p: nat, now: int, lost: bool, limits: Limits, k: Key)
    requires Gauge(k) && At(s, limits, k) && p in s.procs && s.procs[p].Wanting? && WfProc(s.procs[p])
    ensures At(Step(s, TrySpend(p, now, lost), limits), limits, k)
  {
    var q := s.procs[p].q;
    var r := Spend(s.store, now, q, limits);
    if r.1 == Outcome(true, false, 0) {
      SpendLanded(s.store, now, q, limits, k);
    } else {
      SpendRejected(s.store, now, q, limits, k);
    }
    Shares(k, q, 0, map[], {});
    hide Share, Wanted, Spend, Holders;
    StoreUpdate(s, k, r.0);
    ProcUpdate(s.(store := r.0), k, p, AfterSpend(q, r.1, lost));
  }

  /** A stored row holds exactly what was spent for it. */
  lemma MintedHolds(q: Request, at: int, k: Key)
    ensures NeverReleased(k)(MintedEntry(q, at)) <==> k in Wanted(q)
  {
    assert Minted(q, at).spend.Keys == set rk | rk in q.bundle;
  }

  lemma PersistedAt(s: Sys, p: nat, id: nat, r: Entry, limits: Limits, k: Key)
    requires At(s, limits, k) && p in s.procs && id !in s.rows
    requires Share(s.procs[p], k) == Unit(NeverReleased(k)(r)) && Share(Finished, k) == 0
    ensures At(s.(rows := s.rows[id := r]).(procs := s.procs[p := Finished]), limits, k)
  {
    hide Share, NeverReleased, Holders;
    RowUpdate(s, k, id, r);
    ProcUpdate(s.(rows := s.rows[id := r]), k, p, Finished);
  }

  lemma PersistAt(s: Sys, p: nat, id: nat, at: int, limits: Limits, k: Key)
    requires At(s, limits, k) && p in s.procs && s.procs[p].Spent? && id !in s.rows
    ensures At(Step(s, Persist(p, id, at), limits), limits, k)
  {
    var q := s.procs[p].q;
    MintedHolds(q, at, k);
    Shares(k, q, 0, map[], {});
    PersistIs(s, p, id, at, limits);
    hide *;
    PersistedAt(s, p, id, MintedEntry(q, at), limits, k);
  }

  lemma PersistIs(s: Sys, p: nat, id: nat, at: int, limits: Limits)
    requires p in s.procs && s.procs[p].Spent? && id !in s.rows
    ensures Step(s, Persist(p, id, at), limits)
         == s.(rows := s.rows[id := MintedEntry(s.procs[p].q, at)]).(procs := s.procs[p := Finished])
  {
  }

  lemma ReleasedHolds(e: Entry, at: int, k: Key)
    requires e.row.state == State.Open && WfEntry(e)
    ensures !NeverReleased(k)(ReleasedEntry(e, at)) && (NeverReleased(k)(e) <==> k in KeysOf(e.row))
  {
  }

  lemma MarkedAt(s: Sys, p: nat, id: nat, at: int, pc: Proc, limits: Limits, k: Key)
    requires At(s, limits, k) && p in s.procs && Share(s.procs[p], k) == 0
    requires id in s.rows && s.rows[id].row.state == State.Open && WfEntry(s.rows[id])
    requires Share(pc, k) == Unit(k in KeysOf(s.rows[id].row))
    ensures At(s.(rows := s.rows[id := ReleasedEntry(s.rows[id], at)]).(procs := s.procs[p := pc]), limits, k)
  {
    var e := s.rows[id];
    ReleasedHolds(e, at, k);
    hide Share, KeysOf, NeverReleased, Holders, WfEntry;
    RowUpdate(s, k, id, ReleasedEntry(e, at));
    ProcUpdate(s.(rows := s.rows[id := ReleasedEntry(e, at)]), k, p, pc);
  }

  /** The two outcomes of a mark, spelled out. */
  lemma MarkIs(s: Sys, p: nat, id: nat, at: int, lost: bool, limits: Limits)
    requires p in s.procs && s.procs[p] == Releasing(id)
    ensures var s' := Step(s, Mark(p, at, lost), limits);
            if StateOf(Visible(s, id)) != Some(State.Open) then s' == s.(procs := s.procs[p := Finished])
            else var r := s.rows[id].row;
              s' == s.(rows := s.rows[id := ReleasedEntry(s.rows[id], at)])
                     .(procs := s.procs[p := if lost then Stranded(r.spend, KeysOf(r)) else Owing(r.spend, KeysOf(r))])
  {
  }

  lemma MarkAt(s: Sys, p: nat, at: int, lost: bool, limits: Limits, k: Key)
    requires At(s, limits, k) && p in s.procs && s.procs[p].Releasing?
    requires forall id :: id in s.rows ==> WfEntry(s.rows[id])
    ensures At(Step(s, Mark(p, at, lost), limits), limits, k)
  {
    var id := s.procs[p].id;
    var spend := if id in s.rows then s.rows[id].row.spend else map[];
    var keys := if id in s.rows then KeysOf(s.rows[id].row) else {};
    Shares(k, Request("", None, [], None), id, spend, keys);
    MarkIs(s, p, id, at, lost, limits);
    hide Share, KeysOf, At, WfEntry, Step;
    if StateOf(Visible(s, id)) == Some(State.Open) {
      MarkedAt(s, p, id, at, if lost then Stranded(spend, keys) else Owing(spend, keys), limits, k);
    } else {
      ProcAt(s, p, Finished, limits, k);
    }
  }

  lemma HoldsOne<X>(m: map<nat, X>, f: X -> bool, p: nat)
    requires p in m && f(m[p])
    ensures |Held(m, f)| >= 1
  {
    assert p in Held(m, f);
  }

  lemma DecrLevel(s: Store<Key>, now: int, x: Key, k: Key)
    requires x !in s.expiry && k !in s.expiry && Level(s, x) >= 1.0
    ensures var r := DualDecrFloor(s, now, DualPair(x, None), 1.0, false);
            && Level(r.0, k) == Level(s, k) - (if k == x then 1.0 else 0.0)
            && k !in r.0.expiry && r.1 == Level(s, x) - 1.0
  {
    SweptLevel(s, now, k);
    SweptLevel(s, now, x);
  }

  lemma DecrementedAt(s: Sys, p: nat, x: Key, now: int, pc: Proc, limits: Limits, k: Key)
    requires At(s, limits, k) && At(s, limits, x) && Level(s.store, x) >= 1.0
    requires p in s.procs && Share(s.procs[p], k) == Share(pc, k) + Unit(k == x)
    ensures var st := DualDecrFloor(s.store, now, DualPair(x, None), 1.0, false).0;
            At(s.(store := st).(procs := s.procs[p := pc]), limits, k)
  {
    DecrLevel(s.store, now, x, k);
    var st := DualDecrFloor(s.store, now, DualPair(x, None), 1.0, false).0;
    hide Share, Holders, Level, DualDecrFloor;
    StoreUpdate(s, k, st);
    ProcUpdate(s.(store := st), k, p, pc);
  }

  lemma DecrementIs(s: Sys, p: nat, x: Key, now: int, lost: bool, limits: Limits)
    requires Gauge(x) && p in s.procs && s.procs[p].Owing? && WfProc(s.procs[p]) && x in s.procs[p].keys
    ensures var spend, left := s.procs[p].spend, s.procs[p].keys - {x};
            Step(s, Decrement(p, x, now, lost), limits)
            == s.(store := DualDecrFloor(s.store, now, DualPair(x, None), 1.0, false).0)
                .(procs := s.procs[p := if lost then Stranded(spend, left) else Owing(spend, left)])
  {
  }

  /** A gauge still owed something shows at least that. */
  lemma OwedLevel(s: Sys, p: nat, x: Key, limits: Limits)
    requires At(s, limits, x) && p in s.procs && s.procs[p].Owing? && x in s.procs[p].keys
    ensures Level(s.store, x) >= 1.0
  {
    HoldsOne(s.procs, Undecremented(x), p);
  }

  lemma DecrementAt(s: Sys, p: nat, x: Key, now: int, lost: bool, limits: Limits, k: Key)
    requires Gauge(x) && At(s, limits, k) && At(s, limits, x)
    requires p in s.procs && s.procs[p].Owing? && WfProc(s.procs[p])
    ensures At(Step(s, Decrement(p, x, now, lost), limits), limits, k)
  {
    var pc := s.procs[p];
    if x in pc.keys {
      OwedLevel(s, p, x, limits);
      var left := if lost then Stranded(pc.spend, pc.keys - {x}) else Owing(pc.spend, pc.keys - {x});
      ShareDrops(pc.spend, pc.keys, x, k);
      DecrementIs(s, p, x, now, lost, limits);
      hide *;
      DecrementedAt(s, p, x, now, left, limits, k);
    } else {
      assert Step(s, Decrement(p, x, now, lost), limits) == s;
    }
  }

  lemma ShareDrops(spend: map<string, real>, keys: set<Key>, x: Key, k: Key)
    requires x in keys
    ensures Share(Owing(spend, keys), k) == Share(Owing(spend, keys - {x}), k) + Unit(k == x)
    ensures Share(Stranded(spend, keys - {x}), k) == Share(Owing(spend, keys - {x}), k)
  {
    Shares(k, Request("", None, [], None), 0, spend, keys);
    Shares(k, Request("", None, [], None), 0, spend, keys - {x});
  }

  lemma SettledHolds(e: Entry, cost: string, at: int, k: Key)
    ensures NeverReleased(k)(SettledEntry(e, cost, at)) == NeverReleased(k)(e)
  {
  }

  lemma SettledAt(s: Sys, id: nat, cost: string, at: int, limits: Limits, k: Key)
    requires At(s, limits, k) && id in s.rows
    ensures At(s.(rows := s.rows[id := SettledEntry(s.rows[id], cost, at)]), limits, k)
  {
    SettledHolds(s.rows[id], cost, at, k);
    hide NeverReleased, Holders;
    RowUpdate(s, k, id, SettledEntry(s.rows[id], cost, at));
  }

  lemma SettleAt(s: Sys, id: nat, from: State, cost: string, at: int, limits: Limits, k: Key)
    requires At(s, limits, k)
    ensures At(Step(s, SettleTry(id, from, cost, at), limits), limits, k)
  {
    hide At;
    if id in s.rows {
      SettledAt(s, id, cost, at, limits, k);
    }
  }

  lemma GoneUpdate(s: Sys, k: Key, gone: set<nat>)
    ensures Holders(s.(gone := gone), k) == Holders(s, k)
  {
  }

  lemma ForgetAt(s: Sys, id: nat, limits: Limits, k: Key)
    requires At(s, limits, k)
    ensures At(Step(s, Forget(id), limits), limits, k)
  {
    GoneUpdate(s, k, s.gone + {id});
    hide Holders;
  }

  /** An open row counts for its gauges: it has been written off nowhere. */
  lemma OpenCounts(rows: map<nat, Entry>, k: Key)
    requires forall id :: id in rows ==> WfEntry(rows[id])
    ensures Held(rows, OpenOn(k)) <= Held(rows, NeverReleased(k))
  {
    forall id | id in Held(rows, OpenOn(k)) ensures id in Held(rows, NeverReleased(k)) {
      assert WfEntry(rows[id]);
    }
  }

  /** The pass leaves the other gauges' holders alone. */
  lemma OtherHolders(s: Sys, x: Key, k: Key)
    requires x != k && Quiet(s, x)
    ensures Holders(ReconcileStep(s, x), k) == Holders(s, k)
  {
    var s' := ReconcileStep(s, x);
    assert Held(s'.rows, NeverReleased(k)) == Held(s.rows, NeverReleased(k));
    OtherProcs(s, x, k);
  }

  lemma OtherProcs(s: Sys, x: Key, k: Key)
    requires x != k && Quiet(s, x)
    ensures var s' := ReconcileStep(s, x);
            && Held(s'.procs, Unpersisted(k)) == Held(s.procs, Unpersisted(k))
            && Held(s'.procs, Undecremented(k)) == Held(s.procs, Undecremented(k))
            && Held(s'.procs, Orphan(k)) == Held(s.procs, Orphan(k))
  {
  }

  /** On its own gauge only the open rows are left. */
  lemma OwnHolders(s: Sys, x: Key)
    requires Quiet(s, x) && forall id :: id in s.rows ==> WfEntry(s.rows[id])
    ensures Holders(ReconcileStep(s, x), x) == |Held(s.rows, OpenOn(x))|
  {
    var s' := ReconcileStep(s, x);
    forall id | id in s.rows ensures NeverReleased(x)(s'.rows[id]) <==> OpenOn(x)(s.rows[id]) {
      assert WfEntry(s.rows[id]);
    }
    assert Held(s'.rows, NeverReleased(x)) == Held(s.rows, OpenOn(x));
    NobodyHolds(s, x);
  }

  lemma NobodyHolds(s: Sys, x: Key)
    requires Quiet(s, x)
    ensures var s' := ReconcileStep(s, x);
            Held(s'.procs, Unpersisted(x)) == Held(s'.procs, Undecremented(x)) == Held(s'.procs, Orphan(x)) == {}
  {
  }

  lemma ReconcileAt(s: Sys, x: Key, limits: Limits, k: Key)
    requires At(s, limits, k) && forall id :: id in s.rows ==> WfEntry(s.rows[id])
    ensures At(ReconcileStep(s, x), limits, k)
  {
    if Quiet(s, x) {
      if k == x {
        OwnHolders(s, x);
        OpenCounts(s.rows, x);
        SubsetSize(Held(s.rows, OpenOn(x)), Held(s.rows, NeverReleased(x)));
        hide Quiet, NeverReleased, OpenOn, Unpersisted, Undecremented, Orphan;
        assert Level(ReconcileStep(s, x).store, x) == |Held(s.rows, OpenOn(x))| as real;
      } else {
        OtherHolders(s, x, k);
        hide Quiet, Holders;
      }
    }
  }

  /** A step its process is not ready for does nothing. */
  predicate Ready(s: Sys, e: Event) {
    match e
    case TrySpend(p, _, _) => Now(s, p).Wanting?
    case Persist(p, id, _) => Now(s, p).Spent? && id !in s.rows
    case Mark(p, _, _) => Now(s, p).Releasing?
    case Decrement(p, x, _, _) => Now(s, p).Owing? && Gauge(x)
    case _ => true
  }

  lemma NotReady(s: Sys, e: Event, limits: Limits)
    requires !Ready(s, e)
    ensures Step(s, e, limits) == s
  {
  }

  lemma ReconcileIs(s: Sys, org: string, rk: string, limits: Limits)
    ensures Step(s, Reconcile(org, rk), limits) == ReconcileStep(s, Org(org, rk))
  {
  }

  lemma StepAt(s: Sys, e: Event, limits: Limits, k: Key)
    requires Inv(s, limits) && Gauge(k)
    ensures At(Step(s, e, limits), limits, k)
  {
    assert At(s, limits, k);
    if !Ready(s, e) {
      NotReady(s, e, limits);
    } else {
      hide At, Step, WfProc, WfEntry;
      match e
      case Acquire(p, q) => AcquireAt(s, p, q, limits, k);
      case Release(p, id) => ReleaseAt(s, p, id, limits, k);
      case TrySpend(p, now, lost) => TrySpendAt(s, p, now, lost, limits, k);
      case Persist(p, id, at) => PersistAt(s, p, id, at, limits, k);
      case Mark(p, at, lost) => MarkAt(s, p, at, lost, limits, k);
      case Decrement(p, x, now, lost) => DecrementAt(s, p, x, now, lost, limits, k);
      case GiveUp(p) => GiveUpAt(s, p, limits, k);
      case SettleTry(id, from, cost, at) => SettleAt(s, id, from, cost, at, limits, k);
      case Forget(id) => ForgetAt(s, id, limits, k);
      case Reconcile(org, rk) => ReconcileIs(s, org, rk, limits); ReconcileAt(s, Org(org, rk), limits, k);
    }
  }

  lemma ProcsStayWf(s: Sys, e: Event, limits: Limits)
    requires Inv(s, limits)
    ensures var s' := Step(s, e, limits); forall p :: p in s'.procs ==> WfProc(s'.procs[p])
  {
    hide At, Spend;
  }

  lemma RowsStayWf(s: Sys, e: Event, limits: Limits)
    requires Inv(s, limits)
    ensures var s' := Step(s, e, limits); forall id :: id in s'.rows ==> WfEntry(s'.rows[id])
  {
    hide At, Spend, KeysOf;
  }

  lemma StepInv(s: Sys, e: Event, limits: Limits)
    requires Inv(s, limits)
    ensures Inv(Step(s, e, limits), limits)
  {
    ProcsStayWf(s, e, limits);
    RowsStayWf(s, e, limits);
    forall k | Gauge(k) ensures At(Step(s, e, limits), limits, k) {
      StepAt(s, e, limits, k);
    }
    hide At, Step, WfProc, WfEntry;
  }

  lemma {:induction false} RunInv(es: seq<Event>, limits: Limits)
    ensures Inv(Run(es, limits), limits)
  {
    if es == [] {
      assert forall k :: Held(EMPTY.rows, NeverReleased(k)) == {};
      assert forall k :: Held(EMPTY.procs, Unpersisted(k)) == {};
      assert forall k :: Held(EMPTY.procs, Undecremented(k)) == {};
      assert forall k :: Held(EMPTY.procs, Orphan(k)) == {};
    } else {
      RunInv(es[..|es| - 1], limits);
      StepInv(Run(es[..|es| - 1], limits), es[|es| - 1], limits);
    }
  }

  // ----- the promises -----

  /** Conservation, in every reachable state and for every org and user gauge: the
      level is the rows never released, the spends not stored yet, the rows marked
      released but not decremented yet, and the orphans. */
  lemma LevelIsAccountedFor(es: seq<Event>, limits: Limits, k: Key)
    requires Gauge(k)
    ensures var s := Run(es, limits);
            Level(s.store, k) == (|Held(s.rows, NeverReleased(k))| + |Held(s.procs, Unpersisted(k))|
                                  + |Held(s.procs, Undecremented(k))| + |Held(s.procs, Orphan(k))|) as real
  {
    RunInv(es, limits);
    assert At(Run(es, limits), limits, k);
  }

  /** The zero floor never acts: a release always finds what it gives back. */
  lemma FloorNeverFires(es: seq<Event>, limits: Limits, p: nat, k: Key, now: int)
    requires var s := Run(es, limits); p in s.procs && s.procs[p].Owing? && k in s.procs[p].keys
    ensures var s := Run(es, limits);
            && Gauge(k) && k.rk in s.procs[p].spend
            && DualDecrFloor(s.store, now, DualPair(k, None), s.procs[p].spend[k.rk], false).1
               == Level(s.store, k) - 1.0
  {
    RunInv(es, limits);
    var s := Run(es, limits);
    assert WfProc(s.procs[p]) && At(s, limits, k);
    HoldsOne(s.procs, Undecremented(k), p);
    DecrLevel(s.store, now, k, k);
  }

  /** A gauge never shows less than the open activations on it, and with a limit they
      never exceed it, in any interleaving. */
  lemma NoOverAdmission(es: seq<Event>, limits: Limits, k: Key)
    requires Gauge(k)
    ensures var s := Run(es, limits);
            && |Held(s.rows, OpenOn(k))| as real <= Level(s.store, k)
            && (k in limits ==> |Held(s.rows, OpenOn(k))| as real <= Cap(limits[k]))
            && (k.Org? ==> Held(s.rows, OpenOn(k)) == OpenSpending(s, k.org, k.rk))
  {
    RunInv(es, limits);
    var s := Run(es, limits);
    assert At(s, limits, k);
    OpenCounts(s.rows, k);
    if k.Org? {
      OpenIsSpending(s, k.org, k.rk);
    }
    SubsetSize(Held(s.rows, OpenOn(k)), Held(s.rows, NeverReleased(k)));
  }

  lemma {:induction false} SubsetSize(a: set<nat>, b: set<nat>)
    requires a <= b
    ensures |a| <= |b|
  {
    assert b == a + (b - a);
  }

  /** A reconcile pass of a quiet gauge leaves it at exactly the open activations on it;
      conservation goes on from there, what was stranded being written off. */
  lemma PassLeavesTheOpen(es: seq<Event>, limits: Limits, org: string, rk: string)
    requires forall p :: p in Run(es, limits).procs ==>
               var pc := Run(es, limits).procs[p];
               !(pc.Spent? && Org(org, rk) in Wanted(pc.q)) && !(pc.Owing? && Org(org, rk) in pc.keys)
    ensures var s, k := Run(es + [Reconcile(org, rk)], limits), Org(org, rk);
            && Level(s.store, k) == |OpenSpending(s, org, rk)| as real
            && Holders(s, k) == |OpenSpending(s, org, rk)|
  {
    assert (es + [Reconcile(org, rk)])[..|es|] == es;
    RunInv(es, limits);
    QuietMeans(Run(es, limits), Org(org, rk));
    hide Quiet, OpenSpending, Holders, Level;
    PassOn(Run(es, limits), org, rk, limits);
  }

  lemma QuietMeans(s: Sys, k: Key)
    requires forall p :: p in s.procs ==>
               var pc := s.procs[p]; !(pc.Spent? && k in Wanted(pc.q)) && !(pc.Owing? && k in pc.keys)
    ensures Quiet(s, k)
  {
  }

  lemma PassOn(s: Sys, org: string, rk: string, limits: Limits)
    requires Inv(s, limits) && Quiet(s, Org(org, rk))
    ensures var s', k := Step(s, Reconcile(org, rk), limits), Org(org, rk);
            Level(s'.store, k) == |OpenSpending(s', org, rk)| as real && Holders(s', k) == |OpenSpending(s', org, rk)|
  {
    var k := Org(org, rk);
    OwnHolders(s, k);
    SameOpen(s, k);
    OpenIsSpending(ReconcileStep(s, k), org, rk);
    PassLevel(s, k);
    ReconcileIs(s, org, rk, limits);
    hide *;
  }

  lemma PassLevel(s: Sys, k: Key)
    requires Quiet(s, k)
    ensures Level(ReconcileStep(s, k).store, k) == |Held(s.rows, OpenOn(k))| as real
  {
  }

  /** The open rows of an organisation that spend a resource. */
  ghost function OpenSpending(s: Sys, org: string, rk: string): set<nat> {
    set id | id in s.rows && s.rows[id].row.state == State.Open && s.rows[id].row.org == org
             && rk in s.rows[id].row.spend
  }

  lemma OpenIsSpending(s: Sys, org: string, rk: string)
    ensures Held(s.rows, OpenOn(Org(org, rk))) == OpenSpending(s, org, rk)
  {
  }

  lemma SameOpen(s: Sys, k: Key)
    requires Quiet(s, k)
    ensures Held(ReconcileStep(s, k).rows, OpenOn(k)) == Held(s.rows, OpenOn(k))
  {
  }

  /** A denied bundle changes no counter and claims no latch; only what had already
      expired is gone. */
  lemma DenialChangesNothing<K>(s: Store<K>, now: int, idem: K, hasIdem: bool, until: Option<int>,
                                specs: seq<AcquireSpec<K>>, k: K)
    requires var r := SingleAcquire(s, now, idem, hasIdem, until, specs).1; r.Refused? || !r.admitted
    ensures var s' := SingleAcquire(s, now, idem, hasIdem, until, specs).0;
            View(s', k) == View(s, k) || View(s', k) == Expired(View(s, k), now)
  {
    SweptView(s, now, k);
  }

  /** A row settled while open is never released afterwards: its unit stays taken, until a
      reconcile pass writes it off. */
  lemma {:induction false} SettledUnreleasedStays(es: seq<Event>, limits: Limits, i: nat, id: nat)
    requires i <= |es|
    requires var s := Run(es[..i], limits);
             id in s.rows && s.rows[id].row.state == State.Settled && s.rows[id].row.releasedAt.None?
    ensures var s := Run(es, limits);
            id in s.rows && s.rows[id].row == Run(es[..i], limits).rows[id].row
  {
    if i == |es| {
      assert es[..i] == es;
    } else {
      var front := es[..|es| - 1];
      assert front[..i] == es[..i];
      SettledUnreleasedStays(front, limits, i, id);
    }
  }

  // ----- rows start open, and a release gives everything back -----

  /** The event may move the row: a settle try on it, or a mark by a process releasing it. */
  predicate Touches(s: Sys, e: Event, id: nat) {
    (e.SettleTry? && e.id == id) || (e.Mark? && Now(s, e.p) == Releasing(id))
  }

  ghost predicate EverTouched(es: seq<Event>, limits: Limits, id: nat) {
    exists i :: 0 <= i < |es| && Touches(Run(es[..i], limits), es[i], id)
  }

  lemma StepKeepsOpen(s: Sys, e: Event, limits: Limits, id: nat)
    requires id in s.rows ==> s.rows[id].row.state == State.Open && s.rows[id].row.releasedAt == None
    requires !Touches(s, e, id)
    ensures var s' := Step(s, e, limits);
            id in s'.rows ==> s'.rows[id].row.state == State.Open && s'.rows[id].row.releasedAt == None
    ensures id in s.rows ==> id in Step(s, e, limits).rows && Step(s, e, limits).rows[id].row == s.rows[id].row
  {
  }

  /** Over every run, a stored row that no release and no settle has touched is open. */
  lemma {:induction false} UntouchedIsOpen(es: seq<Event>, limits: Limits, id: nat)
    requires !EverTouched(es, limits, id)
    ensures var s := Run(es, limits);
            id in s.rows ==> s.rows[id].row.state == State.Open && s.rows[id].row.releasedAt == None
  {
    if es != [] {
      var front, e := es[..|es| - 1], es[|es| - 1];
      forall i | 0 <= i < |front| ensures !Touches(Run(front[..i], limits), front[i], id) {
        assert front[..i] == es[..i] && front[i] == es[i];
      }
      UntouchedIsOpen(front, limits, id);
      assert !Touches(Run(es[..|es| - 1], limits), es[|es| - 1], id);
      StepKeepsOpen(Run(front, limits), e, limits, id);
    }
  }

  /** An open row of this request, one unit a resource, nothing recorded yet. */
  predicate IsFresh(r: Row, q: Request, at: int) {
    && r.state == State.Open && r.releasedAt == None && r.settledAt == None && r.cost == None
    && r.openedAt == at && r.org == q.org && r.user == q.user
    && r.spend.Keys == (set rk | rk in q.bundle)
    && (forall rk :: rk in r.spend ==> r.spend[rk] == 1.0)
  }

  /** The row that is stored for a spend: open, for this request, one unit a resource. */
  lemma PersistStores(s: Sys, p: nat, id: nat, at: int, limits: Limits)
    requires Now(s, p).Spent? && id !in s.rows
    ensures var s' := Step(s, Persist(p, id, at), limits);
            && id in s'.rows && s'.rows[id].off == {} && s'.store == s.store && s'.gone == s.gone
            && IsFresh(s'.rows[id].row, s.procs[p].q, at)
  {
  }

  /** The decrements of a release, one gauge after another. */
  function Decremented(s: Sys, p: nat, order: seq<Key>, now: int, limits: Limits): Sys {
    if order == [] then s
    else
      Step(Decremented(s, p, order[..|order| - 1], now, limits), Decrement(p, order[|order| - 1], now, false), limits)
  }

  predicate EachOnce(order: seq<Key>) {
    forall i, j :: 0 <= i < j < |order| ==> order[i] != order[j]
  }

  /** Decrementing gauges a process owes takes one from each of them and nothing else. */
  lemma {:induction false} DecrementsTake(s: Sys, p: nat, order: seq<Key>, now: int, limits: Limits, k: Key)
    requires Inv(s, limits) && Gauge(k) && EachOnce(order)
    requires p in s.procs && s.procs[p].Owing? && forall x :: x in order ==> x in s.procs[p].keys
    ensures var s' := Decremented(s, p, order, now, limits);
            && Inv(s', limits)
            && Level(s'.store, k) == Level(s.store, k) - (if k in order then 1.0 else 0.0)
            && s'.rows == s.rows
            && p in s'.procs && s'.procs[p].Owing?
            && forall x :: x in s'.procs[p].keys <==> x in s.procs[p].keys && x !in order
  {
    if order != [] {
      var front, x := order[..|order| - 1], order[|order| - 1];
      assert order == front + [x] && x !in front;
      DecrementsTake(s, p, front, now, limits, k);
      var s1 := Decremented(s, p, front, now, limits);
      OneDecrement(s1, p, x, now, limits, k);
      StepInv(s1, Decrement(p, x, now, false), limits);
      hide Step, Inv, Level;
    }
  }

  lemma OneDecrement(s: Sys, p: nat, x: Key, now: int, limits: Limits, k: Key)
    requires Inv(s, limits) && Gauge(k) && p in s.procs && s.procs[p].Owing? && x in s.procs[p].keys
    ensures var s' := Step(s, Decrement(p, x, now, false), limits);
            && Level(s'.store, k) == Level(s.store, k) - (if k == x then 1.0 else 0.0)
            && s'.rows == s.rows && p in s'.procs
            && s'.procs[p] == Owing(s.procs[p].spend, s.procs[p].keys - {x})
  {
    assert WfProc(s.procs[p]);
    assert At(s, limits, x) && At(s, limits, k);
    OwedLevel(s, p, x, limits);
    DecrementIs(s, p, x, now, false, limits);
    DecrLevel(s.store, now, x, k);
  }

  /** The row is stored, and then another process marks it released. */
  function StoredAndMarked(s: Sys, p: nat, r: nat, id: nat, at: int, limits: Limits): Sys {
    Step(Step(Step(s, Persist(p, id, at), limits), Release(r, id), limits), Mark(r, at, false), limits)
  }

  lemma MarkOwesAll(s: Sys, p: nat, r: nat, id: nat, at: int, limits: Limits)
    requires Now(s, p).Spent? && r !in s.procs && id !in s.rows && id !in s.gone
    ensures var (s', q) := (StoredAndMarked(s, p, r, id, at, limits), s.procs[p].q);
            && s'.store == s.store && r in s'.procs && s'.procs[r].Owing? && s'.procs[r].keys == Wanted(q)
            && id in s'.rows && s'.rows[id].row.state == State.Released && s'.rows[id].row.releasedAt == Some(at)
  {
    MintedKeys(s.procs[p].q, at);
  }

  /** From any reachable point after a spend: storing the row, releasing it and decrementing
      its gauges in any order leaves the row released and each of those gauges lower by
      exactly one, and no other. */
  lemma StoredThenReleasedGivesBack(es: seq<Event>, limits: Limits, p: nat, r: nat, id: nat, at: int, order: seq<Key>,
                                    k: Key)
    requires var s := Run(es, limits); Now(s, p).Spent? && r !in s.procs && id !in s.rows && id !in s.gone
    requires EachOnce(order) && forall x :: x in order <==> x in Wanted(Run(es, limits).procs[p].q)
    requires Gauge(k)
    ensures var s := Run(es, limits);
            var s' := Decremented(StoredAndMarked(s, p, r, id, at, limits), r, order, at, limits);
            && id in s'.rows && s'.rows[id].row.state == State.Released && s'.rows[id].row.releasedAt == Some(at)
            && Level(s'.store, k) == Level(s.store, k) - (if k in Wanted(s.procs[p].q) then 1.0 else 0.0)
            && r in s'.procs && s'.procs[r].Owing? && s'.procs[r].keys == {}
  {
    var s := Run(es, limits);
    RunInv(es, limits);
    MarkOwesAll(s, p, r, id, at, limits);
    StepInv(s, Persist(p, id, at), limits);
    StepInv(Step(s, Persist(p, id, at), limits), Release(r, id), limits);
    StepInv(Step(Step(s, Persist(p, id, at), limits), Release(r, id), limits), Mark(r, at, false), limits);
    hide Step, Inv, Wanted, Level;
    DecrementsTake(StoredAndMarked(s, p, r, id, at, limits), r, order, at, limits, k);
  }

  /** A process may start with any request whose bundle is not empty and names nothing twice. */
  lemma AcquireWants(s: Sys, p: nat, q: Request, limits: Limits)
    requires p !in s.procs && q.bundle != []
    requires forall i, j :: 0 <= i < j < |q.bundle| ==> q.bundle[i] != q.bundle[j]
    ensures Step(s, Acquire(p, q), limits) == s.(procs := s.procs[p := Wanting(q)])
  {
  }

  /** A settle try moves a kept row in the state it expects, once, to settled with its cost and
      time, and leaves everything else alone. */
  lemma SettleTryMeans(s: Sys, id: nat, from: State, cost: string, at: int, limits: Limits)
    ensures var s' := Step(s, SettleTry(id, from, cost, at), limits);
            var hits := id in s.rows && id !in s.gone && s.rows[id].row.state == from && from != State.Settled;
            && s' == s.(rows := s'.rows)
            && (!hits ==> s'.rows == s.rows)
            && (hits ==> s'.rows == s.rows[id := s.rows[id].(row :=
                  s.rows[id].row.(state := State.Settled, cost := Some(cost), settledAt := Some(at)))])
  {
  }

  /** A request that has room on every limited gauge it wants and no live token lands, and
      takes one from each of its gauges and nothing else; one that has no room does not. */
  lemma RoomySpendLands(es: seq<Event>, limits: Limits, p: nat, now: int, k: Key)
    requires Now(Run(es, limits), p).Wanting? && Gauge(k)
    requires var (s, q) := (Run(es, limits), Run(es, limits).procs[p].q);
             q.token.Some? && q.bundle != [] ==>
             !StoreMeaning.LatchShown(s.store, Idem(q.org, q.bundle[0], q.token.value), now)
    ensures var (s, q) := (Run(es, limits), Run(es, limits).procs[p].q);
            var s' := Step(s, TrySpend(p, now, false), limits);
            var room := forall x :: x in Wanted(q) && x in limits ==> Level(s.store, x) + 1.0 <= limits[x];
            && s'.procs[p] == (if room then Spent(q) else Finished)
            && Level(s'.store, k) == Level(s.store, k) + (if room && k in Wanted(q) then 1.0 else 0.0)
  {
    var s := Run(es, limits);
    var q := s.procs[p].q;
    RunInv(es, limits);
    assert WfProc(s.procs[p]) && At(s, limits, k);
    var specs := Specs(q, limits);
    StoreMeaning.SingleAcquireJudges(s.store, now, Token(q), q.token.Some?, Some(now + IDEM_TTL), specs);
    assert StoreMeaning.NonNegative(specs);
    RoomIsFit(s, now, q, limits);
    if Spend(s.store, now, q, limits).1 == Outcome(true, false, 0) {
      SpendLanded(s.store, now, q, limits, k);
    } else {
      SpendRejected(s.store, now, q, limits, k);
    }
  }

  lemma RoomIsFit(s: Sys, now: int, q: Request, limits: Limits)
    requires Inv(s, limits)
    ensures StoreMeaning.AllFit(Swept(s.store, now), Specs(q, limits)) <==>
            forall x :: x in Wanted(q) && x in limits ==> Level(s.store, x) + 1.0 <= limits[x]
  {
    var specs, s1 := Specs(q, limits), Swept(s.store, now);
    forall x | x in Wanted(q) ensures Level(s1, x) == Level(s.store, x) {
      assert Gauge(x) && At(s, limits, x);
      SweptLevel(s.store, now, x);
    }
    forall i | 0 <= i < |specs| ensures Org(q.org, q.bundle[i]) in Wanted(q) && UserKey(q, q.bundle[i]) in Wanted(q) {
    }
    if StoreMeaning.AllFit(s1, specs) {
      forall x | x in Wanted(q) && x in limits ensures Level(s.store, x) + 1.0 <= limits[x] {
        WantedIndex(q, x);
        var i :| 0 <= i < |q.bundle| && (x == Org(q.org, q.bundle[i]) || x == UserKey(q, q.bundle[i]));
        assert StoreMeaning.Fits(s1, specs[i]);
      }
    }
  }

  // ----- a replay answers dup -----

  /** The event's clock, if it has one. */
  predicate NoLaterThan(e: Event, t: int) {
    match e
    case TrySpend(_, now, _) => now <= t
    case Decrement(_, _, now, _) => now <= t
    case _ => true
  }

  /** The token is claimed, until t at least. */
  predicate ClaimedUntil(s: Store<Key>, token: Key, t: int) {
    token in s.latches && (token in s.expiry ==> t <= s.expiry[token])
  }

  lemma SweptClaim(s: Store<Key>, token: Key, now: int, t: int)
    requires ClaimedUntil(s, token, t) && now <= t
    ensures ClaimedUntil(Swept(s, now), token, t)
  {
  }

  lemma SpendKeepsClaim(s: Store<Key>, now: int, q: Request, limits: Limits, token: Key, t: int)
    requires q.bundle != [] && ClaimedUntil(s, token, t) && now <= t
    ensures ClaimedUntil(Spend(s, now, q, limits).0, token, t)
  {
    SweptClaim(s, token, now, t);
    if Spend(s, now, q, limits).1 == Outcome(true, false, 0) {
      Landed(s, now, Token(q), q.token.Some?, now + IDEM_TTL, Specs(q, limits));
      var s1 := Swept(s, now);
      StoreMeaning.SpendAllTakes(if q.token.Some? then Claim(s1, Token(q), now + IDEM_TTL) else s1, Specs(q, limits),
                                 token);
      StoreMeaning.SingleAcquireJudges(s, now, Token(q), q.token.Some?, Some(now + IDEM_TTL), Specs(q, limits));
      assert q.token.Some? ==> Token(q) != token;
    } else {
      Rejected(s, now, Token(q), q.token.Some?, Some(now + IDEM_TTL), Specs(q, limits));
    }
  }

  lemma StepKeepsClaim(s: Sys, e: Event, limits: Limits, token: Key, t: int)
    requires ClaimedUntil(s.store, token, t) && NoLaterThan(e, t) && token.Idem?
    ensures ClaimedUntil(Step(s, e, limits).store, token, t)
  {
    match e
    case TrySpend(p, now, lost) =>
      if Now(s, p).Wanting? && Now(s, p).q.bundle != [] {
        SpendKeepsClaim(s.store, now, Now(s, p).q, limits, token, t);
      }
    case Decrement(p, k, now, lost) => SweptClaim(s.store, token, now, t);
    case _ =>
  }

  lemma {:induction false} RunKeepsClaim(es: seq<Event>, i: nat, limits: Limits, token: Key, t: int)
    requires i <= |es| && token.Idem? && ClaimedUntil(Run(es[..i], limits).store, token, t)
    requires forall j :: i <= j < |es| ==> NoLaterThan(es[j], t)
    ensures ClaimedUntil(Run(es, limits).store, token, t)
  {
    if i == |es| {
      assert es[..i] == es;
    } else {
      var front := es[..|es| - 1];
      assert front[..i] == es[..i];
      RunKeepsClaim(front, i, limits, token, t);
      StepKeepsClaim(Run(front, limits), es[|es| - 1], limits, token, t);
    }
  }

  /** The spend of event i landed under its token. */
  predicate LandedWithToken(es: seq<Event>, limits: Limits, i: nat, token: string)
    requires i < |es|
  {
    var s := Run(es[..i], limits);
    && es[i].TrySpend? && Now(s, es[i].p).Wanting? && s.procs[es[i].p].q.bundle != []
    && s.procs[es[i].p].q.token == Some(token)
    && Spend(s.store, es[i].now, s.procs[es[i].p].q, limits).1 == Outcome(true, false, 0)
  }

  /** A replay: after a spend has landed under a token, for one day any request of the same
      org and first gauge with that token is answered dup, spends nothing and stores no row. */
  lemma ReplayIsDup(es: seq<Event>, limits: Limits, i: nat, token: string, p: nat, now: int, lost: bool, k: Key)
    requires i < |es| && LandedWithToken(es, limits, i, token)
    requires now <= es[i].now + 86400 && forall j :: i < j < |es| ==> NoLaterThan(es[j], es[i].now + 86400)
    requires Now(Run(es, limits), p).Wanting? && Gauge(k)
    requires var q0, q := Run(es[..i], limits).procs[es[i].p].q, Run(es, limits).procs[p].q;
             q.bundle != [] && q.token == Some(token) && q.org == q0.org && q.bundle[0] == q0.bundle[0]
    ensures var (s, q) := (Run(es, limits), Run(es, limits).procs[p].q);
            var s' := Step(s, TrySpend(p, now, lost), limits);
            && Spend(s.store, now, q, limits).1 == Outcome(true, true, 0)
            && s'.procs[p] == Finished && s'.rows == s.rows && Level(s'.store, k) == Level(s.store, k)
  {
    var (s0, s) := (Run(es[..i], limits), Run(es, limits));
    var (q0, q, t) := (s0.procs[es[i].p].q, s.procs[p].q, es[i].now + 86400);
    StoreMeaning.SingleAcquireTakes(s0.store, es[i].now, Token(q0), true, t, Specs(q0, limits), Token(q0));
    assert es[..i + 1][..i] == es[..i] && es[..i + 1][i] == es[i];
    assert ClaimedUntil(Run(es[..i + 1], limits).store, Token(q0), t);
    RunKeepsClaim(es, i + 1, limits, Token(q0), t);
    RunInv(es, limits);
    assert At(s, limits, k) && WfProc(s.procs[p]);
    StoreMeaning.SingleAcquireJudges(s.store, now, Token(q), true, Some(now + IDEM_TTL), Specs(q, limits));
    assert StoreMeaning.NonNegative(Specs(q, limits));
    SpendRejected(s.store, now, q, limits, k);
  }

  lemma MintedKeys(q: Request, at: int)
    ensures KeysOf(Minted(q, at)) == Wanted(q)
  {
    assert Minted(q, at).spend.Keys == set rk | rk in q.bundle;
  }

  // ----- why bundles must not repeat a resource -----

  lemma {:induction false} TimesTwice(q: Request, n: nat, i: nat, j: nat)
    requires i < j < n <= |q.bundle| && q.bundle[i] == q.bundle[j]
    ensures Times(q, n, Org(q.org, q.bundle[i])) >= 2
  {
    var k := Org(q.org, q.bundle[i]);
    if j < n - 1 {
      TimesTwice(q, n - 1, i, j);
    } else {
      TimesZero(q, n - 1, k);
      assert 0 <= i < n - 1 && k == Org(q.org, q.bundle[i]);
    }
  }

  /** What a release takes back from each gauge of the row, after the spend. */
  ghost predicate RestoredBy(s: Store<Key>, q: Request, limits: Limits) {
    forall k :: k in Wanted(q) ==> Floored(Level(SpendAll(s, Specs(q, limits)), k) - 1.0) == Level(s, k)
  }

  /** The row records each resource once, so a release undoes its acquire exactly when
      the bundle names no resource twice. */
  lemma ReleaseUndoesAcquire(s: Store<Key>, q: Request, limits: Limits)
    requires forall k :: k in Wanted(q) ==> Level(s, k) >= 0.0
    ensures RestoredBy(s, q, limits) <==> !Duplicates(q.bundle)
  {
    var n := |q.bundle|;
    assert Specs(q, limits)[..n] == Specs(q, limits);
    if Duplicates(q.bundle) {
      var i, j :| 0 <= i < j < n && q.bundle[i] == q.bundle[j];
      var k := Org(q.org, q.bundle[i]);
      WantedIndex(q, k);
      TimesTwice(q, n, i, j);
      SpendLevel(s, q, limits, n, k);
      assert k in Wanted(q);
    } else {
      forall k | k in Wanted(q) ensures Floored(Level(SpendAll(s, Specs(q, limits)), k) - 1.0) == Level(s, k) {
        SpendLevel(s, q, limits, n, k);
        TimesWanted(q, k);
      }
    }
  }
}
