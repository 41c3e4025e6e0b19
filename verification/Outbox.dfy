/** The durable outbox as a protocol: emitters and drains run concurrently and may
    stop at any store or network call, the table is read and then put back without a
    condition, and billing takes money at most once per settlement key. */
module Outbox {
  import opened CounterStore
  import opened Settlement

  datatype Status = Pending | Voided

  datatype Record = Record(key: string, firstTs: int, attempts: nat, status: Status, reason: string)

  /** `publisher` and `settler` say whether one is wired; `drop` is past_horizon=drop. */
  datatype Config = Config(publisher: bool, settler: bool, drop: bool, horizon: int)

  /** What never changes in a run: the configuration, what each key's event says, and
      which requests billing refuses for good. */
  datatype Setting = Setting(cfg: Config, book: map<string, Content>, refused: iset<Request>)

  datatype Proc =
    | Emitting(r: Record)                      // about to write the intent
    | Publishing(r: Record)
    | Settling(r: Record, reason: string)      // undeliverable: settle or void
    | Delivering(key: string)                  // about to delete the row
    | BumpRead(key: string) | BumpPut(row: Record)
    | VoidRead(key: string, reason: string) | VoidPut(row: Record)
    | Done

  /** The table, the processes and billing's durable dedup; then, for the statements,
      which intents were stored, published and affirmed, whose settlement landed, every
      charge as (settlement key, event key), and every answer billing gave to an event. */
  datatype Sys = Sys(rows: map<string, Record>, procs: map<nat, Proc>, taken: map<string, Request>,
                     intended: set<string>, published: set<string>, affirmed: set<string>, landed: set<string>,
                     charges: seq<(string, string)>, answers: seq<(string, Answer)>)

  const START := Sys(map[], map[], map[], {}, {}, {}, {}, [], [])

  datatype Event =
    | Emit(p: nat, key: string, firstTs: int)
    | Take(p: nat, key: string, now: int)      // a drain picks up a pending record
    | Put(p: nat)
    | Publish(p: nat, ok: bool)
    | Settle(p: nat, now: int, lands: bool, answer: Answer)
    | StoreCall(p: nat)                            // the next store call of a delivery, bump or void

  function Go(s: Sys, p: nat, pc: Proc): Sys {
    s.(procs := s.procs[p := pc])
  }

  /** A void: an explicit voided row, or a delete under past_horizon=drop. */
  function VoidPlan(cfg: Config, key: string, reason: string): Proc {
    if cfg.drop then Delivering(key) else VoidRead(key, reason)
  }

  /** Create-only; the emitter goes on with its own record. */
  function PutStep(s: Sys, p: nat, r: Record, cfg: Config): Sys {
    var next := if cfg.publisher then Publishing(r) else Settling(r, "no_publisher_configured");
    Go(s.(rows := if r.key in s.rows then s.rows else s.rows[r.key := r], intended := s.intended + {r.key}), p, next)
  }

  function PublishStep(s: Sys, p: nat, key: string, ok: bool): Sys {
    if ok then Go(s.(published := s.published + {key}), p, Delivering(key)) else Go(s, p, BumpRead(key))
  }

  /** Billing's side of one call: it never takes money twice under a key, never takes what
      it refuses for good, answers 200 only for what it has taken, and refuses for good
      only what it always refuses. */
  predicate BillingMay(s: Sys, req: Request, lands: bool, answer: Answer, refused: iset<Request>) {
    && (lands ==> req !in refused)
    && (answer == Ok ==> req !in refused && (lands || req.settlementKey in s.taken))
    && (Classify(answer) == Permanent ==> req in refused)
  }

  function Charge(s: Sys, key: string, req: Request, lands: bool, answer: Answer): Sys {
    var first := lands && req.settlementKey !in s.taken;
    s.(taken := if first then s.taken[req.settlementKey := req] else s.taken,
       charges := if first then s.charges + [(req.settlementKey, key)] else s.charges,
       landed := if first || answer == Ok then s.landed + {key} else s.landed,
       affirmed := if answer == Ok then s.affirmed + {key} else s.affirmed,
       answers := s.answers + [(key, answer)])
  }

  function Unsettled(reason: string, detail: string): string {
    reason + ":unsettleable:" + detail
  }

  function SettleStep(s: Sys, p: nat, r: Record, reason: string, now: int, lands: bool, answer: Answer, g: Setting): Sys
    requires r.key in g.book
  {
    match Plan(g.book[r.key], r.firstTs, g.cfg.settler, now)
    case NotApplicable => Go(s, p, VoidPlan(g.cfg, r.key, reason))
    case Unsettleable(detail) => Go(s, p, VoidPlan(g.cfg, r.key, Unsettled(reason, detail)))
    case Ask(req) =>
      if !BillingMay(s, req, lands, answer, g.refused) then s
      else
        var s' := Charge(s, r.key, req, lands, answer);
        match Classify(answer)
        case Settled => Go(s', p, Delivering(r.key))
        case Retry => Go(s', p, BumpRead(r.key))
        case Permanent => Go(s', p, VoidPlan(g.cfg, r.key, Unsettled(reason, "permanent")))
  }

  function StoreStep(s: Sys, p: nat): Sys
    requires p in s.procs
  {
    match s.procs[p]
    case Delivering(key) => Go(s.(rows := s.rows - {key}), p, Done)
    case BumpRead(key) =>
      if key in s.rows then Go(s, p, BumpPut(s.rows[key].(attempts := s.rows[key].attempts + 1))) else Go(s, p, Done)
    case BumpPut(row) => Go(s.(rows := s.rows[row.key := row]), p, Done)
    case VoidRead(key, reason) =>
      if key in s.rows then Go(s, p, VoidPut(s.rows[key].(status := Voided, reason := reason))) else Go(s, p, Done)
    case VoidPut(row) => Go(s.(rows := s.rows[row.key := row]), p, Done)
    case _ => s
  }

  function Drained(r: Record, now: int, cfg: Config): Proc {
    if now - r.firstTs > cfg.horizon then Settling(r, "past_retry_horizon")
    else if cfg.publisher then Publishing(r) else Done
  }

  function Step(s: Sys, e: Event, g: Setting): Sys {
    match e
    case Emit(p, key, firstTs) =>
      if p in s.procs || key !in g.book then s else Go(s, p, Emitting(Record(key, firstTs, 0, Pending, "")))
    case Take(p, key, now) =>
      if p in s.procs || key !in s.rows || s.rows[key].status != Pending then s
      else Go(s, p, Drained(s.rows[key], now, g.cfg))
    case Put(p) => if p in s.procs && s.procs[p].Emitting? then PutStep(s, p, s.procs[p].r, g.cfg) else s
    case Publish(p, ok) => if p in s.procs && s.procs[p].Publishing? then PublishStep(s, p, s.procs[p].r.key, ok) else s
    case Settle(p, now, lands, answer) =>
      if p in s.procs && s.procs[p].Settling? && s.procs[p].r.key in g.book
      then SettleStep(s, p, s.procs[p].r, s.procs[p].reason, now, lands, answer, g) else s
    case StoreCall(p) => if p in s.procs then StoreStep(s, p) else s
  }

  function Run(es: seq<Event>, g: Setting): Sys {
    if es == [] then START else Step(Run(es[..|es| - 1], g), es[|es| - 1], g)
  }

  // ----- conservation -----

  predicate Kept(r: Record) {
    r.status == Voided ==> r.reason != ""
  }

  /** Every stored intent is still there, pending or voided with a reason, or was
      published or affirmed by billing. */
  ghost predicate Conserved(s: Sys) {
    && (forall k :: k in s.intended ==> k in s.rows || k in s.published || k in s.affirmed)
    && (forall k :: k in s.rows ==> s.rows[k].key == k && Kept(s.rows[k]))
  }

  predicate Careful(s: Sys, pc: Proc) {
    match pc
    case Delivering(key) => key in s.published || key in s.affirmed
    case BumpPut(row) => Kept(row)
    case VoidPut(row) => Kept(row)
    case VoidRead(_, reason) => reason != ""
    case Settling(_, reason) => reason != ""
    case Emitting(r) => Kept(r)
    case _ => true
  }

  ghost predicate ConservedInv(s: Sys) {
    && Conserved(s)
    && forall p :: p in s.procs ==> Careful(s, s.procs[p])
  }

  /** Knowing more deliveries never makes a process careless. */
  lemma StaysCareful(s: Sys, s': Sys)
    requires s.published <= s'.published && s.affirmed <= s'.affirmed
    ensures forall pc :: Careful(s, pc) ==> Careful(s', pc)
  {
  }

  /** Billing will be asked about the event however it comes up, and never refuses it for good. */
  ghost predicate SurelySettles(g: Setting, key: string) {
    && key in g.book && g.cfg.settler && AlwaysAsks(g.book[key])
    && forall f, n :: Plan(g.book[key], f, true, n).Ask? ==> Plan(g.book[key], f, true, n).req !in g.refused
  }

  /** Nothing is ever dropped: the policy is void-and-alert, or no event comes to it. */
  ghost predicate NothingDropped(g: Setting) {
    !g.cfg.drop || forall key :: key in g.book ==> SurelySettles(g, key)
  }

  lemma SettleConserves(s: Sys, p: nat, r: Record, reason: string, now: int, lands: bool, answer: Answer, g: Setting)
    requires ConservedInv(s) && r.key in g.book && NothingDropped(g) && reason != ""
    ensures ConservedInv(SettleStep(s, p, r, reason, now, lands, answer, g))
  {
    var course := Plan(g.book[r.key], r.firstTs, g.cfg.settler, now);
    AlwaysAsksIff(g.book[r.key]);
    assert g.cfg.drop ==> SurelySettles(g, r.key);
    assert g.cfg.drop ==> course.Ask? && course.req !in g.refused;
    hide Plan, AlwaysAsks;
    if course.Ask? && BillingMay(s, course.req, lands, answer, g.refused) {
      ChargeConserves(s, r.key, course.req, lands, answer);
      var s' := Charge(s, r.key, course.req, lands, answer);
      GoConserves(s', p, SettleStep(s, p, r, reason, now, lands, answer, g).procs[p]);
    }
  }

  lemma ChargeConserves(s: Sys, key: string, req: Request, lands: bool, answer: Answer)
    requires ConservedInv(s)
    ensures ConservedInv(Charge(s, key, req, lands, answer))
    ensures answer == Ok ==> key in Charge(s, key, req, lands, answer).affirmed
  {
    StaysCareful(s, Charge(s, key, req, lands, answer));
  }

  lemma GoConserves(s: Sys, p: nat, pc: Proc)
    requires ConservedInv(s) && Careful(s, pc)
    ensures ConservedInv(Go(s, p, pc))
  {
    StaysCareful(s, Go(s, p, pc));
  }

  lemma StoreConserves(s: Sys, p: nat)
    requires ConservedInv(s) && p in s.procs
    ensures ConservedInv(StoreStep(s, p))
  {
    assert Careful(s, s.procs[p]);
    StaysCareful(s, StoreStep(s, p));
  }

  lemma StepConserves(s: Sys, e: Event, g: Setting)
    requires ConservedInv(s) && NothingDropped(g)
    ensures ConservedInv(Step(s, e, g))
  {
    StaysCareful(s, Step(s, e, g));
    match e
    case Settle(p, now, lands, answer) =>
      if p in s.procs && s.procs[p].Settling? && s.procs[p].r.key in g.book {
        assert Careful(s, s.procs[p]);
        SettleConserves(s, p, s.procs[p].r, s.procs[p].reason, now, lands, answer, g);
      }
    case StoreCall(p) => if p in s.procs { StoreConserves(s, p); }
    case _ =>
  }

  /** Money-event conservation over every run, where nothing is dropped. */
  lemma {:induction false} NoEventDisappears(es: seq<Event>, g: Setting)
    requires NothingDropped(g)
    ensures ConservedInv(Run(es, g))
  {
    if es != [] {
      NoEventDisappears(es[..|es| - 1], g);
      StepConserves(Run(es[..|es| - 1], g), es[|es| - 1], g);
    }
  }

  lemma RunSnoc(es: seq<Event>, e: Event, g: Setting)
    ensures Run(es + [e], g) == Step(Run(es, g), e, g)
  {
    assert (es + [e])[..|es|] == es;
  }

  ghost predicate Reached(s: Sys, g: Setting) {
    exists es :: Run(es, g) == s
  }

  lemma ReachedStep(s: Sys, e: Event, g: Setting)
    requires Reached(s, g)
    ensures Reached(Step(s, e, g), g)
  {
    var es :| Run(es, g) == s;
    RunSnoc(es, e, g);
  }

  /** An intent whose publish failed. */
  lemma UnsentReached(g: Setting, key: string, f: int) returns (s: Sys)
    requires g.cfg.publisher && key in g.book
    ensures Reached(s, g) && s.intended == {key} && s.published == s.affirmed == {}
    ensures s.procs == map[0 := BumpRead(key)] && s.rows == map[key := Record(key, f, 0, Pending, "")]
  {
    assert Run([], g) == START;
    ReachedStep(START, Emit(0, key, f), g);
    var s1 := Step(START, Emit(0, key, f), g);
    ReachedStep(s1, Put(0), g);
    var s2 := Step(s1, Put(0), g);
    ReachedStep(s2, Publish(0, false), g);
    s := Step(s2, Publish(0, false), g);
    assert s.procs == map[0 := BumpRead(key)];
  }

  /** An intent whose publish failed and was counted. */
  lemma PendingReached(g: Setting, key: string, f: int) returns (s: Sys)
    requires g.cfg.publisher && key in g.book
    ensures Reached(s, g) && s.intended == {key} && s.published == s.affirmed == {} && s.procs.Keys == {0}
    ensures s.rows == map[key := Record(key, f, 1, Pending, "")]
  {
    var s3 := UnsentReached(g, key, f);
    ReachedStep(s3, StoreCall(0), g);
    var s4 := Step(s3, StoreCall(0), g);
    ReachedStep(s4, StoreCall(0), g);
    s := Step(s4, StoreCall(0), g);
  }

  /** Taken up now, the event is not asked about, or is refused for good. */
  ghost predicate Voidable(g: Setting, key: string, f: int, now: int) {
    key in g.book && var course := Plan(g.book[key], f, g.cfg.settler, now); course.Ask? ==> course.req in g.refused
  }

  /** An event that does not surely settle is voidable at some time. */
  lemma SomeTimeVoidable(g: Setting, key: string) returns (f: int, now: int)
    requires key in g.book && !SurelySettles(g, key)
    ensures Voidable(g, key, f, now)
  {
    var c := g.book[key];
    AlwaysAsksIff(c);
    if !g.cfg.settler {
      f, now := 0, 0;
    } else if !AlwaysAsks(c) {
      f, now :| !Plan(c, f, true, now).Ask?;
    } else {
      f, now :| Plan(c, f, true, now).Ask? && Plan(c, f, true, now).req in g.refused;
    }
  }

  /** A voidable event, taken up as undeliverable, is deleted under drop. */
  lemma DropDeletes(s: Sys, p: nat, r: Record, reason: string, now: int, g: Setting)
    requires Reached(s, g) && g.cfg.drop && Voidable(g, r.key, r.firstTs, now)
    requires p in s.procs && s.procs[p] == Settling(r, reason)
    requires r.key in s.intended && s.published == s.affirmed == {}
    ensures exists es :: !Conserved(Run(es, g))
  {
    var e := Settle(p, now, false, Http(400, false));
    ReachedStep(s, e, g);
    var s1 := Step(s, e, g);
    assert s1.procs[p] == Delivering(r.key) && s1.affirmed == {} && s1.published == {};
    ReachedStep(s1, StoreCall(p), g);
    var s2 := Step(s1, StoreCall(p), g);
    assert r.key in s2.intended && r.key !in s2.rows;
    var es :| Run(es, g) == s2;
  }

  /** Under drop an event that does not surely settle is lost in some run, without publish
      or settlement, whether or not a publisher is wired. */
  lemma DropLosesEvents(g: Setting, key: string)
    requires g.cfg.drop && key in g.book && !SurelySettles(g, key)
    ensures exists es :: !Conserved(Run(es, g))
  {
    var f, now := SomeTimeVoidable(g, key);
    hide Voidable, SurelySettles;
    if g.cfg.publisher {
      var s := PendingReached(g, key, f);
      var e := Take(1, key, f + 1 + g.cfg.horizon);
      ReachedStep(s, e, g);
      DropDeletes(Step(s, e, g), 1, s.rows[key], "past_retry_horizon", now, g);
    } else {
      assert Run([], g) == START;
      ReachedStep(START, Emit(0, key, f), g);
      var s1 := Step(START, Emit(0, key, f), g);
      ReachedStep(s1, Put(0), g);
      DropDeletes(Step(s1, Put(0), g), 0, s1.procs[0].r, "no_publisher_configured", now, g);
    }
  }

  /** Conservation over all runs is exactly that nothing is dropped: the policy is
      void-and-alert, or every event of the book is always asked about and never refused
      for good. */
  lemma ConservationIsNothingDropped(g: Setting)
    ensures (forall es :: Conserved(Run(es, g))) <==> NothingDropped(g)
  {
    if NothingDropped(g) {
      forall es ensures Conserved(Run(es, g)) {
        NoEventDisappears(es, g);
      }
    } else {
      var key :| key in g.book && !SurelySettles(g, key);
      DropLosesEvents(g, key);
    }
  }

  /** An emit with a working publisher is delivered: nobody in between, the event is
      published and its row is gone. */
  lemma EmitDelivers(s: Sys, p: nat, key: string, f: int, g: Setting)
    requires p !in s.procs && key in g.book && g.cfg.publisher
    ensures var s1 := Step(Step(s, Emit(p, key, f), g), Put(p), g);
            var s2 := Step(Step(s1, Publish(p, true), g), StoreCall(p), g);
            && key in s1.intended && key in s1.rows
            && (key !in s.rows ==> s1.rows[key] == Record(key, f, 0, Pending, ""))
            && (key in s.rows ==> s1.rows == s.rows)
            && key in s2.published && s2.rows == s1.rows - {key}
  {
  }

  /** When the publish fails the stored row stays, with one attempt more. */
  lemma EmitPends(s: Sys, p: nat, key: string, f: int, g: Setting)
    requires p !in s.procs && key in g.book && g.cfg.publisher
    requires key in s.rows ==> s.rows[key].key == key
    ensures var s1 := Step(Step(s, Emit(p, key, f), g), Put(p), g);
            var s2 := Step(Step(Step(s1, Publish(p, false), g), StoreCall(p), g), StoreCall(p), g);
            && key in s1.rows && s2.published == s.published
            && s2.rows == s1.rows[key := s1.rows[key].(attempts := s1.rows[key].attempts + 1)]
  {
  }

  // ----- exactly-once charges -----

  ghost predicate Charged(s: Sys, reservation: string) {
    exists i :: 0 <= i < |s.charges| && s.charges[i].0 == reservation
  }

  ghost predicate ChargesOk(s: Sys, g: Setting) {
    && (forall i, j :: 0 <= i < j < |s.charges| ==> s.charges[i].0 != s.charges[j].0)
    && (forall i :: 0 <= i < |s.charges| ==>
          && s.charges[i].0 in s.taken
          && s.charges[i].1 in g.book
          && g.book[s.charges[i].1].eventType in TERMINAL
          && g.book[s.charges[i].1].reservation == s.charges[i].0
          && !Blank(s.charges[i].0))
    && (forall t :: t in s.taken ==> Charged(s, t))
  }

  /** What billing accepted is an event of the book that may be asked about, and its
      reservation has been charged. */
  ghost predicate AcceptedIsCharged(s: Sys, g: Setting) {
    && s.affirmed <= s.landed
    && forall k :: k in s.landed ==> k in g.book && CanAsk(g.book[k]) && Charged(s, g.book[k].reservation)
  }

  /** The charges only grow. */
  lemma ChargedGrows(s: Sys, s': Sys)
    requires s.charges <= s'.charges
    ensures forall t :: Charged(s, t) ==> Charged(s', t)
  {
    forall t | Charged(s, t) ensures Charged(s', t) {
      var i :| 0 <= i < |s.charges| && s.charges[i].0 == t;
      assert s'.charges[i].0 == t;
    }
  }

  /** A first charge under a key. */
  lemma FirstCharge(s: Sys, s': Sys, key: string, req: Request, g: Setting)
    requires ChargesOk(s, g) && req.settlementKey !in s.taken
    requires key in g.book && CanAsk(g.book[key]) && req.settlementKey == g.book[key].reservation
    requires s'.taken == s.taken[req.settlementKey := req] && s'.charges == s.charges + [(req.settlementKey, key)]
    ensures ChargesOk(s', g)
  {
    hide Blank;
    ChargedGrows(s, s');
    assert s'.charges[|s.charges|].0 == req.settlementKey;
  }

  /** One answer of billing. */
  lemma ChargeKeeps(s: Sys, key: string, req: Request, lands: bool, answer: Answer, g: Setting)
    requires ChargesOk(s, g) && AcceptedIsCharged(s, g) && BillingMay(s, req, lands, answer, g.refused)
    requires key in g.book && CanAsk(g.book[key]) && req.settlementKey == g.book[key].reservation
    ensures ChargesOk(Charge(s, key, req, lands, answer), g) && AcceptedIsCharged(Charge(s, key, req, lands, answer), g)
  {
    var s' := Charge(s, key, req, lands, answer);
    ChargedGrows(s, s');
    if lands && req.settlementKey !in s.taken {
      FirstCharge(s, s', key, req, g);
    }
    assert req.settlementKey in s'.taken ==> Charged(s', req.settlementKey);
    hide Charged, CanAsk;
  }

  lemma SettleKeepsCharges(s: Sys, p: nat, r: Record, reason: string, now: int, lands: bool, answer: Answer, g: Setting)
    requires ChargesOk(s, g) && AcceptedIsCharged(s, g) && r.key in g.book
    ensures var s' := SettleStep(s, p, r, reason, now, lands, answer, g); ChargesOk(s', g) && AcceptedIsCharged(s', g)
  {
    var course := Plan(g.book[r.key], r.firstTs, g.cfg.settler, now);
    if course.Ask? && BillingMay(s, course.req, lands, answer, g.refused) {
      AskIsSound(g.book[r.key], r.firstTs, g.cfg.settler, now);
      AlwaysAsksIff(g.book[r.key]);
      ChargeKeeps(s, r.key, course.req, lands, answer, g);
      var s' := SettleStep(s, p, r, reason, now, lands, answer, g);
      SameCharges(Charge(s, r.key, course.req, lands, answer), s', g);
    } else {
      SameCharges(s, SettleStep(s, p, r, reason, now, lands, answer, g), g);
    }
  }

  lemma SameCharges(s: Sys, s': Sys, g: Setting)
    requires s'.charges == s.charges && s'.taken == s.taken && s'.landed == s.landed && s'.affirmed == s.affirmed
    requires ChargesOk(s, g) && AcceptedIsCharged(s, g)
    ensures ChargesOk(s', g) && AcceptedIsCharged(s', g)
  {
    forall t | Charged(s, t) ensures Charged(s', t) {
      var i :| 0 <= i < |s.charges| && s.charges[i].0 == t;
      assert s'.charges[i].0 == t;
    }
  }

  lemma StepKeepsCharges(s: Sys, e: Event, g: Setting)
    requires ChargesOk(s, g) && AcceptedIsCharged(s, g)
    ensures ChargesOk(Step(s, e, g), g) && AcceptedIsCharged(Step(s, e, g), g)
  {
    hide ChargesOk, AcceptedIsCharged, SettleStep;
    if e.Settle? && e.p in s.procs && s.procs[e.p].Settling? && s.procs[e.p].r.key in g.book {
      SettleKeepsCharges(s, e.p, s.procs[e.p].r, s.procs[e.p].reason, e.now, e.lands, e.answer, g);
    } else {
      SameCharges(s, Step(s, e, g), g);
    }
  }

  /** Through lost replies, refusals, retries and both terminal events of one
      reservation: each reservation is charged at most once, only for a terminal event of
      its own, never under a blank key; and every event billing accepted has had its
      reservation charged. */
  lemma {:induction false} ChargedExactlyOnce(es: seq<Event>, g: Setting)
    ensures ChargesOk(Run(es, g), g) && AcceptedIsCharged(Run(es, g), g)
  {
    if es != [] {
      ChargedExactlyOnce(es[..|es| - 1], g);
      StepKeepsCharges(Run(es[..|es| - 1], g), es[|es| - 1], g);
    }
  }

  // ----- where a void comes from -----

  predicate VoidsKey(pc: Proc, key: string) {
    match pc
    case VoidRead(k, _) => k == key
    case VoidPut(row) => row.key == key
    case BumpPut(row) => row.key == key && row.status == Voided
    case Emitting(r) => r.key == key && r.status == Voided
    case _ => false
  }

  /** The event's row is voided, or a process is about to void it. */
  ghost predicate Voiding(s: Sys, key: string) {
    || (key in s.rows && s.rows[key].status == Voided)
    || exists p :: p in s.procs && VoidsKey(s.procs[p], key)
  }

  ghost predicate KeysMatch(s: Sys) {
    forall k :: k in s.rows ==> s.rows[k].key == k
  }

  /** This settle decides to void the event: it was not asked about, or refused for good. */
  ghost predicate DecidesVoid(s: Sys, e: Event, g: Setting, key: string) {
    && e.Settle? && e.p in s.procs && s.procs[e.p].Settling? && s.procs[e.p].r.key == key && key in g.book
    && var course := Plan(g.book[key], s.procs[e.p].r.firstTs, g.cfg.settler, e.now);
       course.Ask? ==> BillingMay(s, course.req, e.lands, e.answer, g.refused) && Classify(e.answer) == Permanent
  }

  lemma GoVoids(s: Sys, p: nat, pc: Proc, key: string)
    ensures Voiding(Go(s, p, pc), key) ==> Voiding(s, key) || VoidsKey(pc, key)
  {
    var s' := Go(s, p, pc);
    if q :| q in s'.procs && q != p && VoidsKey(s'.procs[q], key) {
      assert s.procs[q] == s'.procs[q];
    }
  }

  lemma SettleVoids(s: Sys, e: Event, g: Setting, key: string)
    requires KeysMatch(s) && e.Settle? && e.p in s.procs && s.procs[e.p].Settling? && s.procs[e.p].r.key in g.book
    ensures Voiding(Step(s, e, g), key) ==> Voiding(s, key) || DecidesVoid(s, e, g, key)
    ensures KeysMatch(Step(s, e, g))
  {
    var r, reason := s.procs[e.p].r, s.procs[e.p].reason;
    var course := Plan(g.book[r.key], r.firstTs, g.cfg.settler, e.now);
    hide Plan;
    if !course.Ask? {
      GoVoids(s, e.p, SettleStep(s, e.p, r, reason, e.now, e.lands, e.answer, g).procs[e.p], key);
    } else if BillingMay(s, course.req, e.lands, e.answer, g.refused) {
      var s1 := Charge(s, r.key, course.req, e.lands, e.answer);
      assert Voiding(s1, key) == Voiding(s, key);
      GoVoids(s1, e.p, SettleStep(s, e.p, r, reason, e.now, e.lands, e.answer, g).procs[e.p], key);
    }
  }

  lemma StoreVoids(s: Sys, p: nat, key: string)
    requires KeysMatch(s) && p in s.procs
    ensures Voiding(StoreStep(s, p), key) ==> Voiding(s, key)
    ensures KeysMatch(StoreStep(s, p))
  {
    var s' := StoreStep(s, p);
    if Voiding(s', key) {
      assert Voiding(s, key) by {
        if key in s'.rows && s'.rows[key].status == Voided && !(key in s.rows && s.rows[key].status == Voided) {
          assert VoidsKey(s.procs[p], key);
        } else if !(key in s'.rows && s'.rows[key].status == Voided) {
          var q :| q in s'.procs && VoidsKey(s'.procs[q], key);
          if q != p {
            assert VoidsKey(s.procs[q], key);
          } else if s.procs[p].VoidRead? {
            assert VoidsKey(s.procs[p], key);
          }
        }
      }
    }
  }

  lemma OtherVoids(s: Sys, e: Event, g: Setting, key: string)
    requires KeysMatch(s) && !e.Settle? && !e.StoreCall?
    ensures Voiding(Step(s, e, g), key) ==> Voiding(s, key)
    ensures KeysMatch(Step(s, e, g))
  {
    var s' := Step(s, e, g);
    if Voiding(s', key) {
      if key in s'.rows && s'.rows[key].status == Voided {
        assert Voiding(s, key) by {
          if e.Put? && !(key in s.rows && s.rows[key].status == Voided) {
            assert VoidsKey(s.procs[e.p], key);
          }
        }
      } else {
        var q :| q in s'.procs && VoidsKey(s'.procs[q], key);
        assert q in s.procs && VoidsKey(s.procs[q], key);
      }
    }
  }

  /** A step voids nothing that was not being voided, unless it decides so. */
  lemma StepVoids(s: Sys, e: Event, g: Setting, key: string)
    requires KeysMatch(s)
    ensures Voiding(Step(s, e, g), key) ==> Voiding(s, key) || DecidesVoid(s, e, g, key)
    ensures KeysMatch(Step(s, e, g))
  {
    match e
    case Settle(p, _, _, _) =>
      if p in s.procs && s.procs[p].Settling? && s.procs[p].r.key in g.book {
        SettleVoids(s, e, g, key);
      }
    case StoreCall(p) => if p in s.procs { StoreVoids(s, p, key); }
    case _ => OtherVoids(s, e, g, key);
  }

  // ----- only final refusals void -----

  /** Billing answered the event with a 400, a 422 or its missing-account 404. */
  ghost predicate Refused(s: Sys, key: string) {
    exists i :: 0 <= i < |s.answers| && s.answers[i].0 == key
                && s.answers[i].1.Http?
                && (s.answers[i].1.status in {400, 422} || (s.answers[i].1.status == 404 && s.answers[i].1.noAccount))
  }

  lemma StepAnswers(s: Sys, e: Event, g: Setting, key: string)
    ensures Refused(s, key) ==> Refused(Step(s, e, g), key)
    ensures DecidesVoid(s, e, g, key) && g.cfg.settler && AlwaysAsks(g.book[key]) ==> Refused(Step(s, e, g), key)
  {
    var s' := Step(s, e, g);
    assert s.answers <= s'.answers;
    if i :| 0 <= i < |s.answers| && s.answers[i].0 == key && s.answers[i].1.Http?
            && (s.answers[i].1.status in {400, 422} || (s.answers[i].1.status == 404 && s.answers[i].1.noAccount)) {
      assert s'.answers[i] == s.answers[i];
    }
    if DecidesVoid(s, e, g, key) && g.cfg.settler && AlwaysAsks(g.book[key]) {
      AlwaysAsksIff(g.book[key]);
      OnlyFinalRefusalsVoid(e.answer);
      assert s'.answers == s.answers + [(key, e.answer)];
      assert s'.answers[|s.answers|] == (key, e.answer);
    }
  }

  /** With a settler wired, an event whose lifetime is in order is voided only if billing
      answered it with a final refusal: never for a 409, a credential error, a route 404,
      a rate limit, a server error or silence. */
  lemma {:induction false} VoidedWasRefused(es: seq<Event>, g: Setting, key: string)
    requires g.cfg.settler && key in g.book && AlwaysAsks(g.book[key])
    ensures Voiding(Run(es, g), key) ==> Refused(Run(es, g), key)
    ensures KeysMatch(Run(es, g))
  {
    if es != [] {
      var front, e := es[..|es| - 1], es[|es| - 1];
      VoidedWasRefused(front, g, key);
      StepVoids(Run(front, g), e, g, key);
      StepAnswers(Run(front, g), e, g, key);
    }
  }

  // ----- a landed settlement is never voided -----

  /** The event can only end voided: it may not settle, or billing refuses it for good. */
  ghost predicate Hopeless(key: string, g: Setting) {
    Voidable(g, key, 0, 0)
  }

  lemma StepLanded(s: Sys, e: Event, g: Setting, key: string)
    requires key in g.book && Stamped(g.book[key])
    ensures key in Step(s, e, g).landed ==> key in s.landed || !Hopeless(key, g)
    ensures DecidesVoid(s, e, g, key) ==> Hopeless(key, g)
    ensures s.landed <= Step(s, e, g).landed
  {
    AskIsSound(g.book[key], 0, g.cfg.settler, 0);
  }

  /** A stamped event is either hopeless or never voided. */
  lemma {:induction false} RunSeparates(es: seq<Event>, g: Setting, key: string)
    requires key in g.book && Stamped(g.book[key])
    ensures var s := Run(es, g);
            && KeysMatch(s)
            && (Voiding(s, key) ==> Hopeless(key, g))
            && (key in s.landed ==> !Hopeless(key, g))
  {
    if es != [] {
      var front, e := es[..|es| - 1], es[|es| - 1];
      RunSeparates(front, g, key);
      StepVoids(Run(front, g), e, g, key);
      StepLanded(Run(front, g), e, g, key);
    }
  }

  /** Once billing has accepted the settlement of an event that says when it stopped, the
      event is not voided and nothing is about to void it, then or ever after. */
  lemma LandedIsNeverVoided(es: seq<Event>, g: Setting, i: nat, key: string)
    requires key in g.book && Stamped(g.book[key])
    requires i <= |es| && key in Run(es[..i], g).landed
    ensures key in Run(es, g).landed && !Voiding(Run(es, g), key)
  {
    LandedGrows(es, g, i, key);
    RunSeparates(es, g, key);
  }

  lemma {:induction false} LandedGrows(es: seq<Event>, g: Setting, i: nat, key: string)
    requires i <= |es| && key in g.book && Stamped(g.book[key])
    ensures Run(es[..i], g).landed <= Run(es, g).landed
  {
    if i == |es| {
      assert es[..i] == es;
    } else {
      assert es[..|es| - 1][..i] == es[..i];
      LandedGrows(es[..|es| - 1], g, i, key);
      StepLanded(Run(es[..|es| - 1], g), es[|es| - 1], g, key);
    }
  }

  /** For this event the promise holds in every setting and every run. */
  ghost predicate NeverVoidedOnceLanded(key: string, c: Content) {
    forall g: Setting, es: seq<Event> :: key in g.book && g.book[key] == c && key in Run(es, g).landed
                                         ==> !Voiding(Run(es, g), key)
  }

  /** The settlement asked about at time f. */
  function AskedAt(c: Content, f: int): Request
    requires CanAsk(c)
  {
    Request(c.payload.value.org, c.reservation, c.payload.value.started.value, f, c.payload.value.rate)
  }

  /** Emitted and taken up at the same time, an unstamped event asks for a lifetime that
      ends then. */
  lemma UnstampedAsks(c: Content, f: int)
    requires CanAsk(c) && !Stamped(c) && f > 0 && f >= c.payload.value.started.value
    ensures Plan(c, f, true, f) == Ask(AskedAt(c, f))
  {
  }

  /** The settlement lands, but the reply is lost. */
  lemma LandedReached(g: Setting, key: string, f: int, req: Request) returns (s: Sys)
    requires key in g.book && g.cfg == Config(false, true, false, 0)
    requires Plan(g.book[key], f, true, f) == Ask(req) && req !in g.refused
    ensures Reached(s, g) && key in s.landed && s.procs.Keys == {0}
  {
    assert Run([], g) == START;
    ReachedStep(START, Emit(0, key, f), g);
    var s1 := Step(START, Emit(0, key, f), g);
    ReachedStep(s1, Put(0), g);
    var s2 := Step(s1, Put(0), g);
    ReachedStep(s2, Settle(0, f, true, NoResponse), g);
    s := Step(s2, Settle(0, f, true, NoResponse), g);
  }

  /** A re-emit, taken up later, is refused for good. */
  lemma RefusedLater(s: Sys, g: Setting, key: string, f: int, req: Request)
    requires Reached(s, g) && key in s.landed && s.procs.Keys == {0}
    requires key in g.book && g.cfg == Config(false, true, false, 0)
    requires Plan(g.book[key], f, true, f) == Ask(req) && req in g.refused
    ensures exists es :: key in Run(es, g).landed && Voiding(Run(es, g), key)
  {
    ReachedStep(s, Emit(1, key, f), g);
    var s1 := Step(s, Emit(1, key, f), g);
    ReachedStep(s1, Put(1), g);
    var s2 := Step(s1, Put(1), g);
    ReachedStep(s2, Settle(1, f, false, Http(400, false)), g);
    var s3 := Step(s2, Settle(1, f, false, Http(400, false)), g);
    assert VoidsKey(s3.procs[1], key);
    var es :| Run(es, g) == s3;
  }

  /** An event that may be asked about but does not say when it stopped breaks the promise:
      a re-emit asks for another lifetime than the one billing accepted, and a final
      refusal of that voids it. */
  lemma UnstampedCanBeVoided(key: string, c: Content)
    requires CanAsk(c) && !Stamped(c)
    ensures !NeverVoidedOnceLanded(key, c)
  {
    var f := if c.payload.value.started.value > 1 then c.payload.value.started.value else 1;
    var g := Setting(Config(false, true, false, 0), map[key := c], iset{AskedAt(c, f + 1)});
    UnstampedAsks(c, f);
    UnstampedAsks(c, f + 1);
    var s := LandedReached(g, key, f, AskedAt(c, f));
    RefusedLater(s, g, key, f + 1, AskedAt(c, f + 1));
    var es :| key in Run(es, g).landed && Voiding(Run(es, g), key);
    assert g.book[key] == c;
  }

  /** Exactly: over all settings and runs a landed event is never voided if and only if it
      says when it stopped, or can never be asked about and so never lands. */
  lemma LandedNeverVoidedIff(key: string, c: Content)
    ensures NeverVoidedOnceLanded(key, c) <==> Stamped(c) || !CanAsk(c)
  {
    if Stamped(c) || !CanAsk(c) {
      forall g: Setting, es: seq<Event> | key in g.book && g.book[key] == c && key in Run(es, g).landed
        ensures !Voiding(Run(es, g), key)
      {
        ChargedExactlyOnce(es, g);
        RunSeparates(es, g, key);
      }
    } else {
      UnstampedCanBeVoided(key, c);
    }
  }
}
