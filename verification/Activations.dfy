/** The activation ledger: one row per minted id, moved forward by idempotent
    transitions.  A transition is a read followed by a put conditional on the state
    that was read, with anything in between; the Redis script is the same two
    steps with nothing in between. */
module Activations {
  import opened CounterStore
  import opened Listing

  datatype State = Open | Released | Settled

  /** Times are instants; a cost is kept as the caller's text. */
  datatype Row = Row(org: string, user: Option<string>, title: string, cost: Option<string>, openedAt: int,
                     state: State, spend: map<string, real>, releasedAt: Option<int>, settledAt: Option<int>)

  function AsReleased(r: Row, at: int): Row {
    r.(state := Released, releasedAt := Some(at))
  }

  function AsSettled(r: Row, cost: string, at: int): Row {
    r.(state := Settled, settledAt := Some(at), cost := Some(cost))
  }

  // ----- one row under concurrent calls -----

  /** The state a call found, if the row was there, and how many writes had landed by then. */
  datatype Sight = Sight(state: Option<State>, landed: nat)

  /** Where a call stands.  `first` is what a settle call found on its first read, `last`
      what it found when it gave up. */
  datatype Call =
    | ReleaseRead
    | ReleasePut(cur: Row)
    | SettleRead(cost: string)
    | SettlePut(cost: string, first: Sight, cur: Row)
    | SettleReadOpen(cost: string, first: Sight)
    | SettlePutOpen(cost: string, first: Sight, cur: Row)
    | Won(row: Row)
    | NotOpen(found: Option<State>)                       // a release that found no open row
    | Missed(first: Sight, last: Sight)                   // a settle whose two tries both found nothing
    | Failed

  /** `log` lists the writes that landed, with the call that made each. */
  datatype Ledger = Ledger(row: Option<Row>, calls: map<nat, Call>, log: seq<(nat, Row)>)

  datatype Event =
    | StartRelease(c: nat)
    | StartSettle(c: nat, cost: string)
    | Access(c: nat, at: int, lost: bool)  // `lost`: the store acted but the caller got an error
    | Expire                               // the retention of a row that is no longer open ends

  function StateOf(row: Option<Row>): Option<State> {
    if row.None? then None else Some(row.value.state)
  }

  function With(s: Ledger, c: nat, pc: Call): Ledger {
    s.(calls := s.calls[c := pc])
  }

  /** The conditional put: it lands only on the state the caller read. */
  function Attempt(s: Ledger, c: nat, from: State, next: Row, lost: bool, missed: Call): Ledger {
    if StateOf(s.row) == Some(from) then
      Ledger(Some(next), s.calls[c := if lost then Failed else Won(next)], s.log + [(c, next)])
    else With(s, c, missed)
  }

  function Accessed(s: Ledger, c: nat, at: int, lost: bool): Ledger
    requires c in s.calls
  {
    var now := StateOf(s.row);
    var sight := Sight(now, |s.log|);
    match s.calls[c]
    case ReleaseRead =>
      With(s, c, if lost then Failed else if now == Some(Open) then ReleasePut(s.row.value) else NotOpen(now))
    case ReleasePut(cur) => Attempt(s, c, Open, AsReleased(cur, at), lost, NotOpen(now))
    case SettleRead(cost) =>
      With(s, c, if lost then Failed else if now == Some(Released) then SettlePut(cost, sight, s.row.value)
                 else SettleReadOpen(cost, sight))
    case SettlePut(cost, first, cur) =>
      Attempt(s, c, Released, AsSettled(cur, cost, at), lost, SettleReadOpen(cost, first))
    case SettleReadOpen(cost, first) =>
      With(s, c, if lost then Failed else if now == Some(Open) then SettlePutOpen(cost, first, s.row.value)
                 else Missed(first, sight))
    case SettlePutOpen(cost, first, cur) => Attempt(s, c, Open, AsSettled(cur, cost, at), lost, Missed(first, sight))
    case _ => s
  }

  function Step(s: Ledger, e: Event): Ledger {
    match e
    case StartRelease(c) => if c in s.calls then s else With(s, c, ReleaseRead)
    case StartSettle(c, cost) => if c in s.calls then s else With(s, c, SettleRead(cost))
    case Access(c, at, lost) => if c in s.calls then Accessed(s, c, at, lost) else s
    case Expire => if s.row.Some? && s.row.value.state != Open then s.(row := None) else s
  }

  function Run(minted: Row, es: seq<Event>): Ledger {
    if es == [] then Ledger(Some(minted), map[], [])
    else Step(Run(minted, es[..|es| - 1]), es[|es| - 1])
  }

  // ----- what a history of one row can be -----

  /** One forward move, changing nothing but what that move records. */
  predicate Moved(a: Row, b: Row) {
    || (a.state == Open && b.releasedAt.Some? && b == a.(state := Released, releasedAt := b.releasedAt))
    || (a.state != Settled && b.cost.Some? && b.settledAt.Some?
        && b == a.(state := Settled, settledAt := b.settledAt, cost := b.cost))
  }

  /** Nothing, a release, a settle, or a release and then a settle. */
  predicate History(minted: Row, log: seq<(nat, Row)>) {
    && |log| <= 2
    && (|log| >= 1 ==> Moved(minted, log[0].1))
    && (|log| == 2 ==> log[0].1.state == Released && Moved(log[0].1, log[1].1))
  }

  function Latest(minted: Row, log: seq<(nat, Row)>): Row {
    if log == [] then minted else log[|log| - 1].1
  }

  /** The sight is what the writes landed by then had made of the row. */
  predicate Seen(minted: Row, log: seq<(nat, Row)>, sight: Sight) {
    && sight.landed <= |log|
    && (sight.state.Some? ==> sight.state.value == Latest(minted, log[..sight.landed]).state)
  }

  /** No write can follow: the row is settled, or its retention ended. */
  predicate Final(row: Option<Row>) {
    row.None? || row.value.state == Settled
  }

  /** What a call in flight knows about the row it read. */
  predicate WellRead(minted: Row, s: Ledger, pc: Call) {
    match pc
    case ReleasePut(cur) => cur == minted
    case SettlePut(_, first, cur) =>
      && Seen(minted, s.log, first) && first.state == Some(Released)
      && |s.log| >= 1 && cur == s.log[0].1 && cur.state == Released
    case SettleReadOpen(_, first) => Seen(minted, s.log, first) && (first.state != Some(Open) ==> Final(s.row))
    case SettlePutOpen(_, first, cur) => Seen(minted, s.log, first) && cur == minted && first.state == Some(Open)
    case NotOpen(found) => found != Some(Open)
    case Missed(first, last) =>
      && Seen(minted, s.log, first) && Seen(minted, s.log, last) && first.landed <= last.landed
      && last.state != Some(Open) && (last.state == Some(Released) ==> first.state == Some(Open))
    case _ => true
  }

  /** A call that returns the row made one of the writes; an unfinished one made none. */
  predicate Landed(log: seq<(nat, Row)>, c: nat, pc: Call) {
    && (pc.Won? ==> (c, pc.row) in log)
    && (forall e :: e in log && e.0 == c ==> pc.Won? || pc.Failed?)
  }

  ghost predicate Inv(minted: Row, s: Ledger) {
    && History(minted, s.log)
    && (s.row.Some? ==> s.row.value == Latest(minted, s.log))
    && (s.row.None? ==> s.log != [])
    && (forall c :: c in s.calls ==> WellRead(minted, s, s.calls[c]) && Landed(s.log, c, s.calls[c]))
    && (forall e :: e in s.log ==> e.0 in s.calls)
  }

  lemma AttemptInv(minted: Row, s: Ledger, c: nat, from: State, next: Row, lost: bool, missed: Call)
    requires minted.state == Open && Inv(minted, s) && c in s.calls
    requires !s.calls[c].Won? && !s.calls[c].Failed? && !missed.Won?
    requires StateOf(s.row) != Some(from) ==> WellRead(minted, s, missed)
    requires StateOf(s.row) == Some(from) ==> Moved(s.row.value, next)
    ensures Inv(minted, Attempt(s, c, from, next, lost, missed))
  {
    var s' := Attempt(s, c, from, next, lost, missed);
    forall d | d in s'.calls
      ensures WellRead(minted, s', s'.calls[d]) && Landed(s'.log, d, s'.calls[d])
    {
      if d != c {
        assert s'.calls[d] == s.calls[d] && WellRead(minted, s, s.calls[d]) && Landed(s.log, d, s.calls[d]);
      }
    }
  }

  /** A call moves on without writing. */
  lemma MoveInv(minted: Row, s: Ledger, c: nat, pc: Call)
    requires Inv(minted, s) && WellRead(minted, s, pc) && Landed(s.log, c, pc)
    ensures Inv(minted, With(s, c, pc))
  {
  }

  lemma AccessInv(minted: Row, s: Ledger, c: nat, at: int, lost: bool)
    requires minted.state == Open && Inv(minted, s) && c in s.calls
    ensures Inv(minted, Accessed(s, c, at, lost))
  {
    var now := StateOf(s.row);
    assert WellRead(minted, s, s.calls[c]) && Landed(s.log, c, s.calls[c]);
    match s.calls[c]
    case ReleaseRead => MoveInv(minted, s, c, Accessed(s, c, at, lost).calls[c]);
    case SettleRead(cost) => MoveInv(minted, s, c, Accessed(s, c, at, lost).calls[c]);
    case SettleReadOpen(cost, first) => MoveInv(minted, s, c, Accessed(s, c, at, lost).calls[c]);
    case ReleasePut(cur) => AttemptInv(minted, s, c, Open, AsReleased(cur, at), lost, NotOpen(now));
    case SettlePut(cost, first, cur) =>
      AttemptInv(minted, s, c, Released, AsSettled(cur, cost, at), lost, SettleReadOpen(cost, first));
    case SettlePutOpen(cost, first, cur) =>
      AttemptInv(minted, s, c, Open, AsSettled(cur, cost, at), lost, Missed(first, Sight(now, |s.log|)));
    case _ =>
  }

  lemma {:induction false} RunInv(minted: Row, es: seq<Event>)
    requires minted.state == Open
    ensures Inv(minted, Run(minted, es))
  {
    if es != [] {
      RunInv(minted, es[..|es| - 1]);
      var s, e := Run(minted, es[..|es| - 1]), es[|es| - 1];
      if e.Access? && e.c in s.calls {
        AccessInv(minted, s, e.c, e.at, e.lost);
      }
    }
  }

  // ----- the ledger's promises -----

  /** However calls interleave: the writes that landed are a release, a settle, or a
      release and then a settle; a finished call that returns a row made one of them;
      and no two calls return the same move. */
  lemma RowMovesForwardOnce(minted: Row, es: seq<Event>)
    requires minted.state == Open
    ensures var s := Run(minted, es);
            && History(minted, s.log)
            && (s.row.Some? ==> s.row.value == Latest(minted, s.log))
            && (forall c, d :: c in s.calls && d in s.calls && c != d && s.calls[c].Won? && s.calls[d].Won?
                               ==> s.calls[c].row.state != s.calls[d].row.state)
  {
    RunInv(minted, es);
    var s := Run(minted, es);
    forall c, d | c in s.calls && d in s.calls && c != d && s.calls[c].Won? && s.calls[d].Won?
      ensures s.calls[c].row.state != s.calls[d].row.state
    {
      OneWriterPerMove(minted, s.log, (c, s.calls[c].row), (d, s.calls[d].row));
    }
  }

  lemma OneWriterPerMove(minted: Row, log: seq<(nat, Row)>, x: (nat, Row), y: (nat, Row))
    requires History(minted, log) && x in log && y in log && x.0 != y.0
    ensures x.1.state != y.1.state
  {
    assert x == log[0] || x == log[1];
  }

  lemma RunSnoc(minted: Row, es: seq<Event>, e: Event)
    ensures Run(minted, es + [e]) == Step(Run(minted, es), e)
  {
    assert (es + [e])[..|es|] == es;
  }

  lemma StepGrows(s: Ledger, e: Event)
    ensures s.log <= Step(s, e).log
  {
  }

  /** Later states extend earlier ones, so a recorded cost never changes. */
  lemma {:induction false} LogGrows(minted: Row, es: seq<Event>, i: nat)
    requires i <= |es|
    ensures Run(minted, es[..i]).log <= Run(minted, es).log
  {
    if i == |es| {
      assert es[..i] == es;
    } else {
      var front := es[..|es| - 1];
      assert front[..i] == es[..i];
      LogGrows(minted, front, i);
      StepGrows(Run(minted, front), es[|es| - 1]);
    }
  }

  lemma CostNeverChanges(minted: Row, es: seq<Event>, i: nat)
    requires minted.state == Open && i <= |es|
    requires var early := Run(minted, es[..i]); early.row.Some? && early.row.value.state == Settled
    ensures var early, late := Run(minted, es[..i]), Run(minted, es);
            && late.log == early.log
            && (late.row.Some? ==> late.row == early.row)
  {
    RunInv(minted, es[..i]);
    RunInv(minted, es);
    LogGrows(minted, es, i);
  }

  /** The cost a call is about to record, if it is a settle. */
  function CostOf(pc: Call): Option<string> {
    match pc
    case SettleRead(cost) => Some(cost)
    case SettlePut(cost, _, _) => Some(cost)
    case SettleReadOpen(cost, _) => Some(cost)
    case SettlePutOpen(cost, _, _) => Some(cost)
    case _ => None
  }

  /** Every cost in play or in the log was brought by a settle call of these events. */
  ghost predicate Brought(s: Ledger, es: seq<Event>) {
    && (forall c :: c in s.calls && CostOf(s.calls[c]).Some? ==> StartSettle(c, CostOf(s.calls[c]).value) in es)
    && (forall w :: w in s.log && w.1.state == Settled ==> w.1.cost.Some? && StartSettle(w.0, w.1.cost.value) in es)
  }

  /** Whatever a call does next, its cost stays the one it brought. */
  lemma AccessKeepsCost(s: Ledger, c: nat, at: int, lost: bool)
    requires c in s.calls
    ensures var s', cost := Accessed(s, c, at, lost), CostOf(s.calls[c]);
            && s'.calls.Keys == s.calls.Keys
            && (CostOf(s'.calls[c]).Some? ==> CostOf(s'.calls[c]) == cost)
            && (forall d :: d in s.calls && d != c ==> s'.calls[d] == s.calls[d])
            && (s'.log == s.log
                || (s'.row.Some? && s'.log == s.log + [(c, s'.row.value)]
                    && (s'.row.value.state == Settled ==> cost.Some? && s'.row.value.cost == cost)))
  {
  }

  lemma BroughtStep(s: Ledger, front: seq<Event>, e: Event)
    requires Brought(s, front)
    ensures Brought(Step(s, e), front + [e])
  {
    if e.Access? && e.c in s.calls {
      AccessKeepsCost(s, e.c, e.at, e.lost);
    }
  }

  /** A row settled by a call records the cost that call was made with. */
  lemma {:induction false} CostIsTheCallers(minted: Row, es: seq<Event>)
    ensures Brought(Run(minted, es), es)
  {
    if es != [] {
      CostIsTheCallers(minted, es[..|es| - 1]);
      BroughtStep(Run(minted, es[..|es| - 1]), es[..|es| - 1], es[|es| - 1]);
      assert es == es[..|es| - 1] + [es[|es| - 1]];
    }
  }

  /** Between the two sights a release landed, and no settle after it. */
  predicate ReleasedBetween(log: seq<(nat, Row)>, first: Sight, last: Sight)
    requires last.landed <= |log|
  {
    exists i :: first.landed <= i < last.landed && log[i].1.state == Released
                && forall k :: i < k < last.landed ==> log[k].1.state != Settled
  }

  /** A settle call that came back empty while the row is still kept leaves it unsettled
      exactly when its first try found the row open and a release landed after that and
      before its last access, with no settle after the release. */
  lemma SettleMissesExactlyAcrossARelease(minted: Row, es: seq<Event>, c: nat)
    requires minted.state == Open
    requires var s := Run(minted, es); c in s.calls && s.calls[c].Missed? && s.calls[c].last.state.Some?
    ensures var (s, call) := (Run(minted, es), Run(minted, es).calls[c]);
            && Seen(minted, s.log, call.first) && Seen(minted, s.log, call.last)
            && (call.last.state != Some(Settled) <==>
                call.first.state == Some(Open) && ReleasedBetween(s.log, call.first, call.last))
  {
    RunInv(minted, es);
    var s := Run(minted, es);
    var call := s.calls[c];
    assert WellRead(minted, s, call);
    MissOnTheLog(minted, s.log, call.first, call.last);
  }

  lemma MissOnTheLog(minted: Row, log: seq<(nat, Row)>, first: Sight, last: Sight)
    requires minted.state == Open && History(minted, log) && Seen(minted, log, first) && Seen(minted, log, last)
    requires first.landed <= last.landed && last.state.Some? && last.state != Some(Open)
    requires last.state == Some(Released) ==> first.state == Some(Open)
    ensures last.state != Some(Settled) <==> first.state == Some(Open) && ReleasedBetween(log, first, last)
  {
    var n := last.landed;
    LatestOf(minted, log, n);
    LatestOf(minted, log, first.landed);
    if last.state == Some(Released) {
      assert n == 1 && first.landed == 0;
      assert log[0].1.state == Released;
    }
  }

  lemma LatestOf(minted: Row, log: seq<(nat, Row)>, n: nat)
    requires n <= |log|
    ensures Latest(minted, log[..n]) == if n == 0 then minted else log[n - 1].1
  {
  }

  /** Such a run: the first try finds the row open, a release lands, the second try
      finds it released, and nobody settles. */
  lemma SettleCanMiss(minted: Row)
    requires minted.state == Open
    ensures exists es :: var s := Run(minted, es);
              && s.row.Some? && s.row.value.state == Released && 0 in s.calls
              && s.calls[0] == Missed(Sight(Some(Open), 0), Sight(Some(Released), 1))
  {
    var look := Access(0, 0, false);
    var es := [];
    RunSnoc(minted, es, StartSettle(0, "1"));
    es := es + [StartSettle(0, "1")];
    RunSnoc(minted, es, look);
    es := es + [look];
    RunSnoc(minted, es, StartRelease(1));
    es := es + [StartRelease(1)];
    RunSnoc(minted, es, Access(1, 0, false));
    es := es + [Access(1, 0, false)];
    RunSnoc(minted, es, Access(1, 0, false));
    es := es + [Access(1, 0, false)];
    RunSnoc(minted, es, look);
    es := es + [look];
    assert Run(minted, es).calls[0] == Missed(Sight(Some(Open), 0), Sight(Some(Released), 1));
  }

  // ----- the atomic forms -----

  /** The Redis script, and the in-memory release: read and write in one step. */
  function Transition(row: Option<Row>, from: State, next: Row -> Row): (Option<Row>, Option<Row>) {
    if StateOf(row) == Some(from) then (Some(next(row.value)), Some(next(row.value))) else (row, None)
  }

  /** The in-memory settle: any row that is not settled yet. */
  function SettleNow(row: Option<Row>, cost: string, at: int): (Option<Row>, Option<Row>) {
    if row.Some? && row.value.state != Settled
    then (Some(AsSettled(row.value, cost, at)), Some(AsSettled(row.value, cost, at))) else (row, None)
  }

  function Answer(pc: Call): Option<Row> {
    if pc.Won? then Some(pc.row) else None
  }

  /** A read and put with nothing in between is the script. */
  lemma ReadThenPutIsTheScript(s: Ledger, c: nat, at: int)
    requires c in s.calls && s.calls[c] == ReleaseRead
    ensures var r := Transition(s.row, Open, (row: Row) => AsReleased(row, at));
            var s1 := Accessed(s, c, at, false);
            var s2 := Accessed(s1, c, at, false);
            s2.row == r.0 && Answer(s2.calls[c]) == r.1
  {
  }

  /** Two tries with nothing in between settle exactly what one atomic settle does. */
  lemma UninterruptedSettleIsAtomic(s: Ledger, c: nat, cost: string, at: int)
    requires c in s.calls && s.calls[c] == SettleRead(cost)
    ensures var r := SettleNow(s.row, cost, at);
            var s1 := Accessed(s, c, at, false);
            var s2 := Accessed(s1, c, at, false);
            var s3 := Accessed(s2, c, at, false);
            s3.row == r.0 && Answer(s3.calls[c]) == r.1
  {
  }

  // ----- the in-memory store -----

  function OpenFor(org: string): Row -> bool {
    (r: Row) => r.org == org && r.state == Open
  }

  function Age(): Row -> int {
    (r: Row) => r.openedAt
  }

  /** The open rows of an organisation. */
  function OpenIds(rows: map<string, Row>, org: string): set<string> {
    set id | id in rows && rows[id].org == org && rows[id].state == Open
  }

  /** Open rows of the organisation, none twice, oldest first, and none left out that is older
      than one listed. */
  ghost predicate Oldest(rows: map<string, Row>, org: string, out: seq<string>) {
    && (forall i :: 0 <= i < |out| ==> out[i] in OpenIds(rows, org))
    && (forall i, j :: 0 <= i < j < |out| ==> out[i] != out[j] && rows[out[i]].openedAt <= rows[out[j]].openedAt)
    && (forall id, i :: id in OpenIds(rows, org) && id !in out && 0 <= i < |out| ==>
          rows[out[i]].openedAt <= rows[id].openedAt)
  }

  class ActivationRows {
    var rows: map<string, Row>

    constructor ()
      ensures rows == map[]
    {
      rows := map[];
    }

    function Find(id: string): Option<Row>
      reads this
    {
      if id in rows then Some(rows[id]) else None
    }

    /** First writer wins. */
    method PutOpen(id: string, a: Row)
      modifies this
      ensures rows == if id in old(rows) then old(rows) else old(rows)[id := a]
    {
      if id !in rows {
        rows := rows[id := a];
      }
    }

    method MarkReleased(id: string, at: int) returns (r: Option<Row>)
      modifies this
      ensures (Find(id), r) == Transition(old(Find(id)), Open, (row: Row) => AsReleased(row, at))
      ensures r.Some? <==> id in old(rows) && old(rows)[id].state == Open
      ensures r.Some? ==> id in rows && r.value == rows[id]
                          && rows[id] == old(rows)[id].(state := Released, releasedAt := Some(at))
      ensures r.None? ==> rows == old(rows)
      ensures rows - {id} == old(rows) - {id}
    {
      if id !in rows || rows[id].state != Open {
        return None;
      }
      rows := rows[id := AsReleased(rows[id], at)];
      r := Some(rows[id]);
    }

    method MarkSettled(id: string, cost: string, at: int) returns (r: Option<Row>)
      modifies this
      ensures (Find(id), r) == SettleNow(old(Find(id)), cost, at)
      ensures r.Some? <==> id in old(rows) && old(rows)[id].state != Settled
      ensures r.Some? ==> id in rows && r.value == rows[id]
                          && rows[id] == old(rows)[id].(state := Settled, cost := Some(cost), settledAt := Some(at))
      ensures r.None? ==> rows == old(rows)
      ensures rows - {id} == old(rows) - {id}
    {
      if id !in rows || rows[id].state == Settled {
        return None;
      }
      rows := rows[id := AsSettled(rows[id], cost, at)];
      r := Some(rows[id]);
    }

    method CountOpen(org: string) returns (n: nat)
      ensures n == |OpenIds(rows, org)|
    {
      assert OpenIds(rows, org) == Chosen(rows, OpenFor(org));
      n := Count(rows, OpenFor(org));
    }

    /** Each open row once, oldest first and, when a limit cuts it, the oldest ones. */
    method ListOpen(org: string, limit: int) returns (out: seq<string>)
      ensures Oldest(rows, org, out)
      ensures |out| == if 0 < limit < |OpenIds(rows, org)| then limit else |OpenIds(rows, org)|
    {
      assert OpenIds(rows, org) == Chosen(rows, OpenFor(org));
      out := List(rows, OpenFor(org), Age(), limit);
    }
  }
}
