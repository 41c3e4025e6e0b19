/** The in-memory outbox store and one emitter working on it: emitting, settling or
    voiding, and a drain pass, each proved against what becomes of every row. */
module OutboxMemory {
  import opened CounterStore
  import opened Settlement
  import opened Outbox
  import opened Listing

  /** What the world answers about an event: whether a publish of it works and what
      billing says. */
  datatype World = World(publishes: string -> bool, answer: string -> Answer)

  function Bumped(r: Record): Record {
    r.(attempts := r.attempts + 1)
  }

  function AsVoid(r: Record, cfg: Config, reason: string): Option<Record> {
    if cfg.drop then None else Some(r.(status := Voided, reason := reason))
  }

  /** The row after settle-or-void of the event `asked`; None when it is retired. */
  function Resolved(row: Record, asked: Record, reason: string, g: Setting, now: int, answer: Answer): Option<Record>
    requires asked.key in g.book
  {
    match Plan(g.book[asked.key], asked.firstTs, g.cfg.settler, now)
    case NotApplicable => AsVoid(row, g.cfg, reason)
    case Unsettleable(detail) => AsVoid(row, g.cfg, Unsettled(reason, detail))
    case Ask(_) =>
      match Classify(answer)
      case Settled => None
      case Retry => Some(Bumped(row))
      case Permanent => AsVoid(row, g.cfg, Unsettled(reason, "permanent"))
  }

  /** The row after a drain pass handled it. */
  function Fate(r: Record, g: Setting, now: int, w: World): Option<Record>
    requires r.key in g.book
  {
    if now - r.firstTs > g.cfg.horizon then Resolved(r, r, "past_retry_horizon", g, now, w.answer(r.key))
    else if !g.cfg.publisher then Some(r)
    else if w.publishes(r.key) then None
    else Some(Bumped(r))
  }

  predicate Publishes(r: Record, g: Setting, now: int, w: World) {
    now - r.firstTs <= g.cfg.horizon && g.cfg.publisher && w.publishes(r.key)
  }

  /** How many of the first n listed records are published. */
  function Sent(rows: map<string, Record>, listed: seq<string>, n: nat, g: Setting, now: int, w: World): nat
    requires n <= |listed|
  {
    if n == 0 then 0
    else
      var k := listed[n - 1];
      Sent(rows, listed, n - 1, g, now, w) + (if k in rows && Publishes(rows[k], g, now, w) then 1 else 0)
  }

  /** The answers that end a settlement for good. */
  predicate FinalRefusal(a: Answer) {
    a.Http? && (a.status == 400 || a.status == 422 || (a.status == 404 && a.noAccount))
  }

  /** What settle-or-void makes of a row, case by case: retired by a 200; kept pending with one
      attempt more by any answer that is not final; and, when it is not put to billing or is
      refused for good, voided with a reason, or deleted under drop. */
  lemma ResolvedMeans(row: Record, asked: Record, reason: string, g: Setting, now: int, answer: Answer)
    requires asked.key in g.book && reason != ""
    ensures var asks := Plan(g.book[asked.key], asked.firstTs, g.cfg.settler, now).Ask?;
            var f := Resolved(row, asked, reason, g, now, answer);
            && (asks && answer == Ok ==> f == None)
            && (asks && answer != Ok && !FinalRefusal(answer) ==> f == Some(row.(attempts := row.attempts + 1)))
            && ((!asks || FinalRefusal(answer)) && g.cfg.drop ==> f == None)
            && ((!asks || FinalRefusal(answer)) && !g.cfg.drop ==>
                  f.Some? && f.value.reason != "" && f.value == row.(status := Voided, reason := f.value.reason)
                  && (match Plan(g.book[asked.key], asked.firstTs, g.cfg.settler, now)
                      case NotApplicable => f.value.reason == reason
                      case Unsettleable(detail) => f.value.reason == reason + ":unsettleable:" + detail
                      case Ask(_) => f.value.reason == reason + ":unsettleable:permanent"))
  {
  }

  /** What a drain pass makes of a record: before the horizon it is published and retired, or
      counted and kept, or left alone without a publisher; past the horizon it is settled or
      voided and never published. */
  lemma FateMeans(r: Record, g: Setting, now: int, w: World)
    requires r.key in g.book
    ensures var late := now - r.firstTs > g.cfg.horizon;
            var f := Fate(r, g, now, w);
            && (!late && g.cfg.publisher && w.publishes(r.key) ==> f == None)
            && (!late && g.cfg.publisher && !w.publishes(r.key) ==> f == Some(r.(attempts := r.attempts + 1)))
            && (!late && !g.cfg.publisher ==> f == Some(r))
            && (late ==> f == Resolved(r, r, "past_retry_horizon", g, now, w.answer(r.key)))
            && (Publishes(r, g, now, w) <==> !late && g.cfg.publisher && w.publishes(r.key))
  {
  }

  /** The listed rows a pass publishes. */
  function Published(rows: map<string, Record>, listed: seq<string>, n: nat, g: Setting, now: int,
                     w: World): set<string>
    requires n <= |listed|
  {
    set k | k in listed[..n] && k in rows
            && now <= rows[k].firstTs + g.cfg.horizon && g.cfg.publisher && w.publishes(rows[k].key)
  }

  lemma PublishedLast(rows: map<string, Record>, listed: seq<string>, n: nat, g: Setting, now: int, w: World)
    requires 0 < n <= |listed| && forall i, j :: 0 <= i < j < |listed| ==> listed[i] != listed[j]
    ensures var k, was := listed[n - 1], Published(rows, listed, n - 1, g, now, w);
            && k !in was
            && Published(rows, listed, n, g, now, w) ==
               if k in rows && Publishes(rows[k], g, now, w) then was + {k} else was
  {
    assert listed[..n] == listed[..n - 1] + [listed[n - 1]];
  }

  /** The count of a pass is the number of rows it published. */
  lemma {:induction false} SentCounts(rows: map<string, Record>, listed: seq<string>, n: nat, g: Setting, now: int,
                                      w: World)
    requires n <= |listed| && forall i, j :: 0 <= i < j < |listed| ==> listed[i] != listed[j]
    ensures Sent(rows, listed, n, g, now, w) == |Published(rows, listed, n, g, now, w)|
  {
    if n > 0 {
      SentCounts(rows, listed, n - 1, g, now, w);
      PublishedLast(rows, listed, n, g, now, w);
    }
  }

  /** A row is retired only by a publish that worked, an affirmative settlement or the
      drop policy; a row is voided only past the horizon; otherwise it stays pending. */
  lemma FateIsHonest(r: Record, g: Setting, now: int, w: World)
    requires r.key in g.book && r.status == Pending
    ensures var f := Fate(r, g, now, w);
            && (f.None? ==> (g.cfg.publisher && w.publishes(r.key) && now - r.firstTs <= g.cfg.horizon)
                            || w.answer(r.key) == Ok || g.cfg.drop)
            && (f.Some? && f.value.status == Voided ==> now - r.firstTs > g.cfg.horizon && f.value.reason != "")
            && (f.Some? ==> f.value.key == r.key && f.value.firstTs == r.firstTs)
  {
  }

  /** One record drained by the step system, with nothing in between, ends as `Fate` says. */
  lemma FateIsARun(s: Sys, p: nat, key: string, now: int, lands: bool, g: Setting, w: World)
    requires key in s.rows && key in g.book && s.rows[key].key == key && s.rows[key].status == Pending && p !in s.procs
    requires var c := Plan(g.book[key], s.rows[key].firstTs, g.cfg.settler, now);
             c.Ask? ==> BillingMay(s, c.req, lands, w.answer(key), g.refused)
    ensures var s1 := Step(s, Take(p, key, now), g);
            var s2 := Step(Step(s1, Publish(p, w.publishes(key)), g), Settle(p, now, lands, w.answer(key)), g);
            var s3 := Step(Step(s2, StoreCall(p), g), StoreCall(p), g);
            var f := Fate(s.rows[key], g, now, w);
            s3.rows == if f.None? then s.rows - {key} else s.rows[key := f.value]
  {
    var r := s.rows[key];
    var s1 := Step(s, Take(p, key, now), g);
    if now - r.firstTs > g.cfg.horizon {
      SettleRows(s1, p, r, now, lands, g, w.answer(key));
    } else {
      assert s.rows == s.rows[key := r];
    }
  }

  lemma SettleRows(s: Sys, p: nat, r: Record, now: int, lands: bool, g: Setting, answer: Answer)
    requires p in s.procs && s.procs[p] == Settling(r, "past_retry_horizon")
    requires r.key in s.rows && r.key in g.book && s.rows[r.key] == r
    requires var c := Plan(g.book[r.key], r.firstTs, g.cfg.settler, now);
             c.Ask? ==> BillingMay(s, c.req, lands, answer, g.refused)
    ensures var s2 := Step(s, Settle(p, now, lands, answer), g);
            var f := Resolved(r, r, "past_retry_horizon", g, now, answer);
            && p in s2.procs && p in StoreStep(s2, p).procs
            && StoreStep(StoreStep(s2, p), p).rows == if f.None? then s.rows - {r.key} else s.rows[r.key := f.value]
  {
    hide Plan;
    var s2 := Step(s, Settle(p, now, lands, answer), g);
    assert s2.rows == s.rows;
    StoreCalls(s2, p);
  }

  /** Two store calls finish any delivery, bump or void. */
  lemma StoreCalls(s: Sys, p: nat)
    requires p in s.procs
    requires s.procs[p].Delivering? || s.procs[p].BumpRead? || s.procs[p].VoidRead? || s.procs[p].Done?
    requires (s.procs[p].BumpRead? || s.procs[p].VoidRead?) ==>
             s.procs[p].key in s.rows && s.rows[s.procs[p].key].key == s.procs[p].key
    ensures StoreStep(s, p).procs.Keys == s.procs.Keys
    ensures StoreStep(StoreStep(s, p), p).rows ==
            match s.procs[p]
            case Delivering(key) => s.rows - {key}
            case BumpRead(key) => s.rows[key := Bumped(s.rows[key])]
            case VoidRead(key, reason) => s.rows[key := s.rows[key].(status := Voided, reason := reason)]
            case _ => s.rows
  {
  }

  function IsPending(): Record -> bool {
    (r: Record) => r.status == Pending
  }

  function FirstSeen(): Record -> int {
    (r: Record) => r.firstTs
  }

  function PendingKeys(rows: map<string, Record>): set<string> {
    set k | k in rows && rows[k].status == Pending
  }

  lemma PendingChosen(rows: map<string, Record>)
    ensures PendingKeys(rows) == Chosen(rows, IsPending())
  {
  }

  /** Pending records, none twice, oldest first. */
  ghost predicate Oldest(rows: map<string, Record>, out: seq<string>) {
    && (forall i :: 0 <= i < |out| ==> out[i] in PendingKeys(rows))
    && (forall i, j :: 0 <= i < j < |out| ==> out[i] != out[j] && rows[out[i]].firstTs <= rows[out[j]].firstTs)
    && (forall k, i :: k in PendingKeys(rows) && k !in out && 0 <= i < |out| ==>
          rows[out[i]].firstTs <= rows[k].firstTs)
  }

  class Emitter {
    var rows: map<string, Record>
    var voids: seq<(string, string)>       // key and reason, the alert mirror
    var settled: seq<string>
    var settleFailures: nat

    ghost predicate Valid(g: Setting)
      reads this
    {
      forall k :: k in rows ==> rows[k].key == k && k in g.book
    }

    constructor ()
      ensures rows == map[] && voids == [] && settled == [] && settleFailures == 0
    {
      rows, voids, settled, settleFailures := map[], [], [], 0;
    }

    /** A pending row keeps its first time and attempts across a re-emit. */
    method PutIntent(r: Record) returns (kept: Record)
      modifies this`rows
      ensures rows == old(rows)[r.key := kept]
      ensures kept == if r.key in old(rows) && old(rows)[r.key].status == Pending then old(rows)[r.key] else r
    {
      if r.key in rows && rows[r.key].status == Pending {
        kept := rows[r.key];
        assert rows == rows[r.key := kept];
      } else {
        kept := r;
        rows := rows[r.key := r];
      }
    }

    method MarkDelivered(key: string)
      modifies this`rows
      ensures rows == old(rows) - {key}
    {
      rows := rows - {key};
    }

    method MarkVoided(key: string, reason: string)
      modifies this`rows
      ensures rows == if key !in old(rows) then old(rows)
                      else old(rows)[key := old(rows)[key].(status := Voided, reason := reason)]
    {
      if key in rows {
        rows := rows[key := rows[key].(status := Voided, reason := reason)];
      }
    }

    method BumpAttempt(key: string)
      modifies this`rows
      ensures rows == if key in old(rows) then old(rows)[key := Bumped(old(rows)[key])] else old(rows)
    {
      if key in rows {
        rows := rows[key := Bumped(rows[key])];
      }
    }

    /** Oldest first and, when the limit cuts it, the oldest ones. */
    method ListPending(limit: int) returns (out: seq<string>)
      ensures Oldest(rows, out)
      ensures |out| == if 0 < limit < |PendingKeys(rows)| then limit else |PendingKeys(rows)|
      ensures limit <= 0 || |PendingKeys(rows)| <= limit ==> forall k :: k in PendingKeys(rows) <==> k in out
    {
      PendingChosen(rows);
      out := List(rows, IsPending(), FirstSeen(), limit);
    }

    /** The row under `key` becomes `f`; every other row stays. */
    twostate predicate Became(key: string, f: Option<Record>)
      reads this
    {
      rows == if f.None? then old(rows) - {key} else old(rows)[key := f.value]
    }

    method Void(key: string, reason: string, cfg: Config)
      requires key in rows
      modifies this`rows, this`voids
      ensures Became(key, AsVoid(old(rows)[key], cfg, reason))
      ensures voids == if cfg.drop then old(voids) else old(voids) + [(key, reason)]
    {
      if cfg.drop {
        MarkDelivered(key);
        return;
      }
      MarkVoided(key, reason);
      voids := voids + [(key, reason)];
    }

    /** Every void is alerted with its reason, and every retirement has an affirmative answer. */
    method SettleOrVoid(asked: Record, reason: string, g: Setting, now: int, answer: Answer)
      requires asked.key in rows && asked.key in g.book
      modifies this
      ensures var f := Resolved(old(rows)[asked.key], asked, reason, g, now, answer);
              rows == if f.None? then old(rows) - {asked.key} else old(rows)[asked.key := f.value]
      ensures Plan(g.book[asked.key], asked.firstTs, g.cfg.settler, now).Ask? && answer == Ok <==>
              settled == old(settled) + [asked.key]
      ensures settled == old(settled) || settled == old(settled) + [asked.key]
      ensures var f := Resolved(old(rows)[asked.key], asked, reason, g, now, answer);
              old(rows)[asked.key].status == Pending ==>
              voids == if f.Some? && f.value.status == Voided then old(voids) + [(asked.key, f.value.reason)]
                       else old(voids)
    {
      var course := Plan(g.book[asked.key], asked.firstTs, g.cfg.settler, now);
      match course
      case NotApplicable => Void(asked.key, reason, g.cfg);
      case Unsettleable(detail) => Void(asked.key, Unsettled(reason, detail), g.cfg);
      case Ask(_) =>
        match Classify(answer) {
          case Settled =>
            settled := settled + [asked.key];
            MarkDelivered(asked.key);
          case Retry =>
            settleFailures := settleFailures + 1;
            BumpAttempt(asked.key);
          case Permanent => Void(asked.key, Unsettled(reason, "permanent"), g.cfg);
        }
    }

    /** The intent is stored before anything is sent; a failed publish leaves it pending. */
    method EmitViaOutbox(r: Record, g: Setting, now: int, w: World) returns (delivered: bool)
      requires Valid(g) && r.key in g.book && r.status == Pending
      modifies this
      ensures Valid(g)
      ensures delivered <==> g.cfg.publisher && w.publishes(r.key)
      ensures var kept := if r.key in old(rows) && old(rows)[r.key].status == Pending then old(rows)[r.key] else r;
              var f := if !g.cfg.publisher then Resolved(kept, r, "no_publisher_configured", g, now, w.answer(r.key))
                       else if delivered then None else Some(kept.(attempts := kept.attempts + 1));
              rows == if f.None? then old(rows) - {r.key} else old(rows)[r.key := f.value]
    {
      var kept := PutIntent(r);
      if !g.cfg.publisher {
        SettleOrVoid(r, "no_publisher_configured", g, now, w.answer(r.key));
        return false;
      }
      if !w.publishes(r.key) {
        BumpAttempt(r.key);
        return false;
      }
      MarkDelivered(r.key);
      delivered := true;
    }

    method HandleOne(k: string, g: Setting, now: int, w: World) returns (sent: bool)
      requires Valid(g) && k in rows
      modifies this
      ensures Valid(g) && Became(k, Fate(old(rows)[k], g, now, w))
      ensures sent == Publishes(old(rows)[k], g, now, w)
    {
      sent := false;
      var r := rows[k];
      if now - r.firstTs > g.cfg.horizon {
        SettleOrVoid(r, "past_retry_horizon", g, now, w.answer(k));
      } else if g.cfg.publisher {
        if w.publishes(k) {
          MarkDelivered(k);
          sent := true;
        } else {
          BumpAttempt(k);
        }
      } else {
        assert rows == rows[k := r];
      }
    }

    method HandleAll(listed: seq<string>, g: Setting, now: int, w: World) returns (delivered: nat)
      requires Valid(g) && forall j :: 0 <= j < |listed| ==> listed[j] in rows
      requires forall i, j :: 0 <= i < j < |listed| ==> listed[i] != listed[j]
      modifies this
      ensures Valid(g)
      ensures forall k :: k in listed ==> Handled(k, g, now, w)
      ensures forall k :: k !in listed ==> Same(k)
      ensures delivered == Sent(old(rows), listed, |listed|, g, now, w)
    {
      hide Fate, Publishes;
      delivered := 0;
      ghost var done := {};
      for i := 0 to |listed|
        invariant Valid(g) && delivered == Sent(old(rows), listed, i, g, now, w)
        invariant forall j :: 0 <= j < |listed| ==> (listed[j] in done <==> j < i)
        invariant forall k :: k in done ==> Handled(k, g, now, w) && k in listed
        invariant forall k :: k !in done ==> Same(k)
      {
        var k := listed[i];
        assert Same(k);
        var sent := HandleOne(k, g, now, w);
        if sent {
          delivered := delivered + 1;
        }
        done := done + {k};
      }
    }

    /** One pass: every listed record meets its fate, and no other row changes. */
    method Drain(maxPerPass: int, g: Setting, now: int, w: World) returns (listed: seq<string>, delivered: nat)
      requires Valid(g)
      modifies this
      ensures Valid(g)
      ensures Oldest(old(rows), listed)
      ensures var limit := if maxPerPass <= 0 then 100 else maxPerPass;
              var pending := PendingKeys(old(rows));
              |listed| == if limit < |pending| then limit else |pending|
      ensures |PendingKeys(old(rows))| <= (if maxPerPass <= 0 then 100 else maxPerPass) ==>
                forall k :: k in PendingKeys(old(rows)) <==> k in listed
      ensures forall k :: k in listed ==>
                && k in old(rows) && k in g.book
                && var f := Fate(old(rows)[k], g, now, w);
                   if f.None? then k !in rows else k in rows && rows[k] == f.value
      ensures forall k :: k !in listed ==>
                (k in rows <==> k in old(rows)) && (k in rows ==> rows[k] == old(rows)[k])
      ensures delivered == Sent(old(rows), listed, |listed|, g, now, w)
    {
      hide Fate, Sent;
      listed := ListPending(if maxPerPass <= 0 then 100 else maxPerPass);
      delivered := HandleAll(listed, g, now, w);
    }

    twostate predicate Same(k: string)
      reads this
    {
      (k in rows <==> k in old(rows)) && (k in rows ==> rows[k] == old(rows)[k])
    }

    twostate predicate Handled(k: string, g: Setting, now: int, w: World)
      reads this
    {
      && k in old(rows) && k in g.book && old(rows)[k].key == k
      && var f := Fate(old(rows)[k], g, now, w);
         (f.Some? <==> k in rows) && (f.Some? ==> rows[k] == f.value)
    }
  }
}
