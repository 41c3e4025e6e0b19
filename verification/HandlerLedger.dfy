/** The handler ledger: deliveries of one event to one handler are deduplicated by a
    lease while one is in progress and by the recorded outcome afterwards. */
module HandlerLedger {
  import opened CounterStore

  datatype Status = InProgress | Success | Skipped | FailedOnce | FailedPermanent

  predicate IsTerminal(s: Status) {
    s == Success || s == Skipped || s == FailedPermanent
  }

  datatype Row = Row(status: Status, attempts: int, attemptedAt: int, completedAt: Option<int>, leaseUntil: Option<int>,
                     note: string)

  /** An attempt reads the clock three times: to check the lease, to stamp the attempt and
      to start the new lease. */
  datatype Call =
    | Attempt(checked: int, stamped: int, leased: int, lease: int)
    | Outcome(status: Status, attempts: int, note: string, at: int)

  const DEFAULT_LEASE := 60

  function LeaseOf(lease: int): int {
    if lease == 0 then DEFAULT_LEASE else lease
  }

  predicate Blocks(row: Option<Row>, at: int) {
    row.Some? && (IsTerminal(row.value.status)
                  || (row.value.status == InProgress && row.value.leaseUntil.Some? && row.value.leaseUntil.value > at))
  }

  /** The row after one atomic call. */
  function Next(row: Option<Row>, c: Call): Option<Row> {
    match c
    case Attempt(checked, stamped, leased, lease) =>
      if Blocks(row, checked) then row
      else Some(Row(InProgress, if row.Some? then row.value.attempts + 1 else 1, stamped, None,
                    Some(leased + LeaseOf(lease)), ""))
    case Outcome(status, attempts, note, at) =>
      if row.None? then None
      else Some(row.value.(status := status, note := note, completedAt := Some(at), leaseUntil := None,
                           attempts := if attempts > 0 then attempts else row.value.attempts))
  }

  function RowAfter(calls: seq<Call>): Option<Row> {
    if calls == [] then None else Next(RowAfter(calls[..|calls| - 1]), calls[|calls| - 1])
  }

  predicate Proceeds(calls: seq<Call>, i: nat)
    requires i < |calls|
  {
    calls[i].Attempt? && !Blocks(RowAfter(calls[..i]), calls[i].checked)
  }

  function Start(c: Call): int {
    if c.Attempt? then c.checked else c.at
  }

  function End(c: Call): int {
    if c.Attempt? then c.leased else c.at
  }

  /** One call after another on a clock that does not go back. */
  predicate Timely(calls: seq<Call>) {
    && (forall i :: 0 <= i < |calls| && calls[i].Attempt? ==> calls[i].checked <= calls[i].stamped <= calls[i].leased)
    && (forall i, j :: 0 <= i < j < |calls| ==> End(calls[i]) <= Start(calls[j]))
  }

  /** What an attempt and an outcome leave: a blocked attempt nothing; one that proceeds a
      fresh row in progress, one attempt more, under its lease; an outcome its own status and
      note on the row that is there, with the lease ended, the attempts corrected only if a
      positive number is given, and the time of the attempt kept. */
  lemma NextMeans(row: Option<Row>, c: Call)
    ensures c.Attempt? && Blocks(row, c.checked) ==> Next(row, c) == row
    ensures c.Attempt? && !Blocks(row, c.checked) ==>
              var r := Next(row, c);
              && r.Some? && r.value.status == InProgress && r.value.attemptedAt == c.stamped
              && r.value.attempts == (if row.Some? then row.value.attempts + 1 else 1)
              && r.value.completedAt == None && r.value.note == ""
              && r.value.leaseUntil == Some(c.leased + (if c.lease == 0 then 60 else c.lease))
    ensures c.Outcome? ==> (Next(row, c).Some? <==> row.Some?)
    ensures c.Outcome? && row.Some? ==>
              var r := Next(row, c).value;
              && r.status == c.status && r.note == c.note && r.completedAt == Some(c.at) && r.leaseUntil == None
              && r.attemptedAt == row.value.attemptedAt
              && r.attempts == (if c.attempts > 0 then c.attempts else row.value.attempts)
  {
  }

  /** A delivery is blocked by a row that succeeded, was skipped or failed for good, and by
      one in progress whose lease runs past now; by nothing else. */
  lemma BlocksMeans(row: Option<Row>, at: int)
    ensures Blocks(row, at) <==>
            row.Some? && (row.value.status in {Success, Skipped, FailedPermanent}
                          || (row.value.status == InProgress && row.value.leaseUntil.Some?
                              && at < row.value.leaseUntil.value))
  {
  }

  // ----- lease safety -----

  predicate NoOutcome(calls: seq<Call>, i: nat, j: nat) {
    forall k :: i < k < j && k < |calls| ==> calls[k].Attempt?
  }

  /** After a proceed at i and no outcome since, the row still carries i's lease, or a
      later attempt proceeded once it had run out. */
  lemma {:induction false} LeaseHeld(calls: seq<Call>, i: nat, n: nat)
    requires Timely(calls) && i < n <= |calls| && Proceeds(calls, i) && NoOutcome(calls, i, n)
    ensures var until := calls[i].leased + LeaseOf(calls[i].lease);
            || (exists k :: i < k < n && calls[k].Attempt? && calls[k].checked >= until)
            || (RowAfter(calls[..n]).Some? && RowAfter(calls[..n]).value.status == InProgress
                && RowAfter(calls[..n]).value.leaseUntil == Some(until))
  {
    assert calls[..n][..n - 1] == calls[..n - 1] && calls[..n][n - 1] == calls[n - 1];
    if n > i + 1 {
      LeaseHeld(calls, i, n - 1);
    }
  }

  /** Two proceeds with no recorded outcome between them are at least one lease apart. */
  lemma ProceedsAreALeaseApart(calls: seq<Call>, i: nat, j: nat)
    requires Timely(calls) && i < j < |calls|
    requires Proceeds(calls, i) && Proceeds(calls, j) && NoOutcome(calls, i, j)
    ensures var lease := if calls[i].lease == 0 then 60 else calls[i].lease;
            calls[j].checked >= calls[i].leased + lease && calls[j].checked - calls[i].checked >= lease
  {
    LeaseHeld(calls, i, j);
    var until := calls[i].leased + LeaseOf(calls[i].lease);
    if k :| i < k < j && calls[k].Attempt? && calls[k].checked >= until {
      assert End(calls[k]) <= Start(calls[j]);
    }
  }

  /** The status of the last outcome recorded on an existing row. */
  function LastOutcome(calls: seq<Call>): Option<Status> {
    if calls == [] then None
    else
      var front, c := calls[..|calls| - 1], calls[|calls| - 1];
      if c.Outcome? && RowAfter(front).Some? then Some(c.status) else LastOutcome(front)
  }

  predicate Closed(calls: seq<Call>) {
    LastOutcome(calls).Some? && IsTerminal(LastOutcome(calls).value)
  }

  /** Whatever outcomes are recorded: the row is terminal exactly while the last of them is,
      and meanwhile no attempt proceeds. */
  lemma {:induction false} OutcomeIsFinal(calls: seq<Call>, at: int)
    ensures Closed(calls) <==> RowAfter(calls).Some? && IsTerminal(RowAfter(calls).value.status)
    ensures Closed(calls) ==> Blocks(RowAfter(calls), at)
  {
    if calls != [] {
      var c := calls[|calls| - 1];
      OutcomeIsFinal(calls[..|calls| - 1], if c.Attempt? then c.checked else 0);
    }
  }

  /** A terminal outcome stays the last word until one that is not terminal. */
  lemma {:induction false} ClosedStays(calls: seq<Call>, i: nat, n: nat)
    requires i <= n <= |calls| && Closed(calls[..i])
    requires forall k :: i <= k < n && calls[k].Outcome? ==> IsTerminal(calls[k].status)
    ensures Closed(calls[..n])
    ensures n < |calls| && calls[n].Attempt? ==> !Proceeds(calls, n)
  {
    if n > i {
      assert calls[..n][..n - 1] == calls[..n - 1] && calls[..n][n - 1] == calls[n - 1];
      ClosedStays(calls, i, n - 1);
    }
    OutcomeIsFinal(calls[..n], if n < |calls| && calls[n].Attempt? then calls[n].checked else 0);
  }

  // ----- the optimistic Redis store -----

  datatype Want = WantAttempt(lease: int) | WantOutcome(status: Status, attempts: int, note: string)

  /** What the caller is told.  `checked` is the clock a blocked attempt was judged by, and
      `version` the version its load found. */
  datatype Answer = Proceed | Blocked(cached: Row, checked: int, version: nat) | Recorded | NoRow(version: nat)

  datatype Proc =
    | Starting(want: Want, tries: nat)
    | Loaded(want: Want, tries: nat, seen: Option<Row>, version: nat)
    | Decided(want: Want, tries: nat, call: Call, version: nat)
    | Told(want: Want, answer: Answer)
    | Contended

  /** `done` lists the calls whose transaction committed and `callers` who made each; every
      commit changes the version that WATCH compares. */
  datatype Redis = Redis(row: Option<Row>, version: nat, clock: int, procs: map<nat, Proc>, done: seq<Call>,
                         callers: seq<nat>)

  datatype Event =
    | Begin(p: nat, want: Want)
    | Load(p: nat)
    | Decide(p: nat, checked: int, stamped: int)
    | Commit(p: nat)

  const WATCH_TRIES := 20

  function Move(s: Redis, p: nat, pc: Proc): Redis {
    s.(procs := s.procs[p := pc])
  }

  function CallFor(want: Want, checked: int, stamped: int): Call {
    match want
    case WantAttempt(lease) => Attempt(checked, stamped, stamped, lease)
    case WantOutcome(status, attempts, note) => Call.Outcome(status, attempts, note, stamped)
  }

  function AfterDecide(pc: Proc, checked: int, stamped: int): Proc
    requires pc.Loaded?
  {
    if pc.want.WantAttempt? && Blocks(pc.seen, checked) then Told(pc.want, Blocked(pc.seen.value, checked, pc.version))
    else if pc.want.WantOutcome? && pc.seen.None? then Told(pc.want, NoRow(pc.version))
    else Decided(pc.want, pc.tries, CallFor(pc.want, checked, stamped), pc.version)
  }

  function Step(s: Redis, e: Event): Redis {
    match e
    case Begin(p, want) => if p in s.procs then s else Move(s, p, Starting(want, 0))
    case Load(p) =>
      if p in s.procs && s.procs[p].Starting?
      then Move(s, p, Loaded(s.procs[p].want, s.procs[p].tries, s.row, s.version)) else s
    case Decide(p, checked, stamped) =>
      if p in s.procs && s.procs[p].Loaded? && s.clock <= checked <= stamped
      then Move(s.(clock := stamped), p, AfterDecide(s.procs[p], checked, stamped)) else s
    case Commit(p) =>
      if p in s.procs && s.procs[p].Decided? then
        var pc := s.procs[p];
        if pc.version == s.version then
          Move(s.(row := Next(s.row, pc.call), version := s.version + 1,
                  done := s.done + [pc.call], callers := s.callers + [p]),
               p, Told(pc.want, if pc.want.WantAttempt? then Proceed else Recorded))
        else if pc.tries + 1 < WATCH_TRIES then Move(s, p, Starting(pc.want, pc.tries + 1))
        else Move(s, p, Contended)
      else s
  }

  function Run(es: seq<Event>, clock: int): Redis {
    if es == [] then Redis(None, 0, clock, map[], [], []) else Step(Run(es[..|es| - 1], clock), es[|es| - 1])
  }

  /** The call does what was wanted. */
  predicate Serves(call: Call, want: Want) {
    match want
    case WantAttempt(lease) => call.Attempt? && call.lease == lease
    case WantOutcome(status, attempts, note) =>
      call.Outcome? && (call.status, call.attempts, call.note) == (status, attempts, note)
  }

  /** Process p's wish is in the log, once. */
  ghost predicate Logged(s: Redis, p: nat, want: Want) {
    |s.callers| == |s.done| && exists i :: 0 <= i < |s.callers| && s.callers[i] == p && Serves(s.done[i], want)
  }

  /** What a process knows or was told is what the log says. */
  ghost predicate Honest(s: Redis, p: nat, pc: Proc) {
    match pc
    case Starting(_, tries) => tries < WATCH_TRIES && tries <= |s.done|
    case Loaded(_, tries, seen, version) =>
      tries < WATCH_TRIES && tries <= version && version <= |s.done| && seen == RowAfter(s.done[..version])
    case Decided(want, tries, call, version) =>
      && tries <= version <= |s.done| && tries < WATCH_TRIES && Serves(call, want)
      && (call.Attempt? ==> call.checked <= call.stamped <= call.leased)
      && End(call) <= s.clock
      && (version == |s.done| ==>
            && (call.Attempt? ==> !Blocks(s.row, call.checked))
            && (s.done != [] ==> End(s.done[|s.done| - 1]) <= Start(call)))
    case Told(want, Proceed) => want.WantAttempt? && Logged(s, p, want)
    case Told(want, Recorded) => want.WantOutcome? && Logged(s, p, want)
    case Told(want, Blocked(cached, checked, version)) =>
      && want.WantAttempt? && version <= |s.done| && RowAfter(s.done[..version]) == Some(cached)
      && Blocks(Some(cached), checked)
    case Told(want, NoRow(version)) =>
      want.WantOutcome? && version <= |s.done| && RowAfter(s.done[..version]).None?
    case Contended => WATCH_TRIES <= |s.done|
  }

  ghost predicate AllProceed(calls: seq<Call>) {
    forall i :: 0 <= i < |calls| && calls[i].Attempt? ==> Proceeds(calls, i)
  }

  predicate EndsBy(calls: seq<Call>, clock: int) {
    forall i :: 0 <= i < |calls| ==> End(calls[i]) <= clock
  }

  ghost predicate Refines(s: Redis) {
    && s.row == RowAfter(s.done)
    && Timely(s.done) && AllProceed(s.done)
    && EndsBy(s.done, s.clock)
    && s.version == |s.done| == |s.callers|
  }

  /** A process has at most one call in the log, and then it has finished. */
  ghost predicate OneCallEach(s: Redis) {
    && (forall i, j :: 0 <= i < j < |s.callers| ==> s.callers[i] != s.callers[j])
    && (forall p :: p in s.callers ==> p in s.procs && s.procs[p].Told?)
  }

  ghost predicate Inv(s: Redis) {
    Refines(s) && OneCallEach(s) && forall p :: p in s.procs ==> Honest(s, p, s.procs[p])
  }

  /** Appending the next timely call keeps the log in order. */
  lemma AppendTimely(done: seq<Call>, c: Call)
    requires Timely(done)
    requires c.Attempt? ==> c.checked <= c.stamped <= c.leased
    requires done != [] ==> End(done[|done| - 1]) <= Start(c)
    ensures Timely(done + [c])
  {
    forall i | 0 <= i < |done| ensures End(done[i]) <= Start(c) {
      if i < |done| - 1 {
        assert End(done[i]) <= Start(done[|done| - 1]) <= End(done[|done| - 1]);
      }
    }
  }

  lemma AppendProceeds(done: seq<Call>, c: Call)
    requires AllProceed(done) && (c.Attempt? ==> !Blocks(RowAfter(done), c.checked))
    ensures AllProceed(done + [c]) && RowAfter(done + [c]) == Next(RowAfter(done), c)
  {
    var all := done + [c];
    assert all[..|done|] == done;
    forall i | 0 <= i < |all| && all[i].Attempt? ensures Proceeds(all, i) {
      if i < |done| {
        assert all[..i] == done[..i] && Proceeds(done, i);
      }
    }
  }

  lemma AppendEnds(done: seq<Call>, c: Call, clock: int)
    requires EndsBy(done, clock) && End(c) <= clock
    ensures EndsBy(done + [c], clock)
  {
  }

  lemma CommitRefines(s: Redis, p: nat)
    requires Refines(s) && p in s.procs && s.procs[p].Decided? && Honest(s, p, s.procs[p])
             && s.procs[p].version == s.version
    ensures Refines(Step(s, Commit(p)))
  {
    var call := s.procs[p].call;
    CommitIs(s, p);
    AppendTimely(s.done, call);
    AppendProceeds(s.done, call);
    AppendEnds(s.done, call, s.clock);
    hide RowAfter, AllProceed, Timely, EndsBy, Next, Honest, Step;
  }

  lemma CommitIs(s: Redis, p: nat)
    requires p in s.procs && s.procs[p].Decided? && s.procs[p].version == s.version
    ensures var s', call := Step(s, Commit(p)), s.procs[p].call;
            && s'.row == Next(s.row, call) && s'.done == s.done + [call] && s'.callers == s.callers + [p]
            && s'.clock == s.clock && s'.version == s.version + 1
  {
  }

  /** What was honest stays so when the log grows; a decision that was current is now stale. */
  lemma HonestGrows(s: Redis, s': Redis, q: nat, pc: Proc)
    requires Honest(s, q, pc) && s.done < s'.done && s.callers <= s'.callers && |s'.callers| == |s'.done|
             && |s.callers| == |s.done|
    requires s.clock <= s'.clock
    ensures Honest(s', q, pc)
  {
    match pc
    case Loaded(_, _, _, version) => assert s'.done[..version] == s.done[..version];
    case Told(want, Blocked(_, _, version)) => assert s'.done[..version] == s.done[..version];
    case Told(want, NoRow(version)) => assert s'.done[..version] == s.done[..version];
    case Told(want, _) =>
      if Logged(s, q, want) {
        var i :| 0 <= i < |s.callers| && s.callers[i] == q && Serves(s.done[i], want);
        assert s'.callers[i] == q && s'.done[i] == s.done[i];
      }
    case _ =>
  }

  lemma CommitInv(s: Redis, p: nat)
    requires Inv(s) && p in s.procs && s.procs[p].Decided? && s.procs[p].version == s.version
    ensures Inv(Step(s, Commit(p)))
  {
    CommitRefines(s, p);
    CommitHonest(s, p);
    CommitOnce(s, p);
    hide Refines, OneCallEach, Honest, Step;
  }

  lemma CommitHonest(s: Redis, p: nat)
    requires Inv(s) && p in s.procs && s.procs[p].Decided? && s.procs[p].version == s.version
    ensures var s' := Step(s, Commit(p)); forall q :: q in s'.procs ==> Honest(s', q, s'.procs[q])
  {
    var s' := Step(s, Commit(p));
    CommitIs(s, p);
    assert Honest(s, p, s.procs[p]);
    forall q | q in s'.procs ensures Honest(s', q, s'.procs[q]) {
      if q != p {
        HonestGrows(s, s', q, s.procs[q]);
      } else {
        assert s'.callers[|s.callers|] == p && s'.done[|s.done|] == s.procs[p].call;
      }
    }
  }

  lemma CommitOnce(s: Redis, p: nat)
    requires OneCallEach(s) && p in s.procs && s.procs[p].Decided? && s.procs[p].version == s.version
    ensures OneCallEach(Step(s, Commit(p)))
  {
    CommitIs(s, p);
    assert p !in s.callers;
  }

  /** A process moves on, or time passes, without a write. */
  lemma MoveInv(s: Redis, clock: int, p: nat, pc: Proc)
    requires Inv(s) && s.clock <= clock && Honest(s.(clock := clock), p, pc)
    requires p in s.procs ==> !s.procs[p].Told?
    ensures Inv(Move(s.(clock := clock), p, pc))
  {
    var s1 := s.(clock := clock);
    var s' := Move(s1, p, pc);
    assert p !in s.callers;
    forall q | q in s'.procs ensures Honest(s', q, s'.procs[q]) {
      if q != p {
        HonestTicks(s, clock, q, s.procs[q]);
      }
      HonestMoves(s1, s', q, s'.procs[q]);
    }
  }

  lemma HonestTicks(s: Redis, clock: int, q: nat, pc: Proc)
    requires Honest(s, q, pc) && s.clock <= clock
    ensures Honest(s.(clock := clock), q, pc)
  {
  }

  lemma HonestMoves(s: Redis, s': Redis, q: nat, pc: Proc)
    requires Honest(s, q, pc) && s' == s.(procs := s'.procs)
    ensures Honest(s', q, pc)
  {
  }

  lemma DecideInv(s: Redis, p: nat, checked: int, stamped: int)
    requires Inv(s) && p in s.procs && s.procs[p].Loaded? && s.clock <= checked <= stamped
    ensures Inv(Step(s, Decide(p, checked, stamped)))
  {
    var pc := s.procs[p];
    assert Honest(s, p, pc);
    assert s.done[..|s.done|] == s.done;
    MoveInv(s, stamped, p, AfterDecide(pc, checked, stamped));
  }

  lemma StepInv(s: Redis, e: Event)
    requires Inv(s)
    ensures Inv(Step(s, e))
  {
    match e
    case Begin(p, want) =>
      if p !in s.procs {
        assert s.(clock := s.clock) == s;
        MoveInv(s, s.clock, p, Starting(want, 0));
      }
    case Load(p) =>
      if p in s.procs && s.procs[p].Starting? {
        assert Honest(s, p, s.procs[p]) && s.done[..|s.done|] == s.done;
        MoveInv(s, s.clock, p, Step(s, e).procs[p]);
      }
    case Decide(p, checked, stamped) =>
      if p in s.procs && s.procs[p].Loaded? && s.clock <= checked <= stamped { DecideInv(s, p, checked, stamped); }
    case Commit(p) =>
      if p in s.procs && s.procs[p].Decided? {
        assert Honest(s, p, s.procs[p]);
        if s.procs[p].version == s.version {
          CommitInv(s, p);
        } else {
          MoveInv(s, s.clock, p, Step(s, e).procs[p]);
        }
      }
  }

  /** Read, then commit if unchanged, is the atomic ledger: the committed calls, in commit
      order, are a timely run of it with the same row, in which every attempt proceeds;
      whoever was told to proceed or that its outcome is recorded has exactly one such
      call in it; and whoever was blocked was blocked by the row that its load found. */
  lemma {:induction false} RedisRefinesAtomic(es: seq<Event>, clock: int)
    ensures Inv(Run(es, clock))
  {
    if es != [] {
      RedisRefinesAtomic(es[..|es| - 1], clock);
      StepInv(Run(es[..|es| - 1], clock), es[|es| - 1]);
    }
  }

  predicate ToldToProceed(s: Redis, p: nat) {
    p in s.procs && s.procs[p].Told? && s.procs[p].answer == Proceed
  }

  /** The call that process p committed. */
  ghost predicate CallOf(s: Redis, p: nat, i: nat) {
    && i < |s.done| && |s.callers| == |s.done| && s.callers[i] == p && s.done[i].Attempt?
    && p in s.procs && s.procs[p].Told? && s.procs[p].want == WantAttempt(s.done[i].lease)
  }

  /** If i comes first and no outcome was recorded in between, j is at least i's lease later. */
  predicate ALeaseLater(s: Redis, i: nat, j: nat) {
    i < j < |s.done| && s.done[i].Attempt? && s.done[j].Attempt? && NoOutcome(s.done, i, j)
    ==> s.done[j].checked - s.done[i].checked >= (if s.done[i].lease == 0 then 60 else s.done[i].lease)
  }

  /** Two processes told to proceed committed different calls; unless an outcome was
      recorded between them, the later was judged at least one lease of the earlier after it. */
  lemma RedisLeaseSafety(es: seq<Event>, clock: int, p: nat, q: nat) returns (i: nat, j: nat)
    requires ToldToProceed(Run(es, clock), p) && ToldToProceed(Run(es, clock), q) && p != q
    ensures var s := Run(es, clock);
            CallOf(s, p, i) && CallOf(s, q, j) && i != j && ALeaseLater(s, i, j) && ALeaseLater(s, j, i)
  {
    RedisRefinesAtomic(es, clock);
    var s := Run(es, clock);
    i := FindCall(s, p);
    j := FindCall(s, q);
    ALeaseApart(s, i, j);
    ALeaseApart(s, j, i);
  }

  lemma FindCall(s: Redis, p: nat) returns (i: nat)
    requires Inv(s) && ToldToProceed(s, p)
    ensures CallOf(s, p, i)
  {
    assert Honest(s, p, s.procs[p]);
    i :| i < |s.callers| && s.callers[i] == p && Serves(s.done[i], s.procs[p].want);
  }

  lemma ALeaseApart(s: Redis, i: nat, j: nat)
    requires Refines(s)
    ensures ALeaseLater(s, i, j)
  {
    if i < j < |s.done| && s.done[i].Attempt? && s.done[j].Attempt? && NoOutcome(s.done, i, j) {
      assert Proceeds(s.done, i) && Proceeds(s.done, j);
      ProceedsAreALeaseApart(s.done, i, j);
    }
  }

  // ----- outcomes are recorded -----

  /** Rows are never taken away. */
  lemma {:induction false} RowStays(calls: seq<Call>, i: nat, n: nat)
    requires i <= n <= |calls| && RowAfter(calls[..i]).Some?
    ensures RowAfter(calls[..n]).Some?
  {
    if i < n {
      RowStays(calls, i, n - 1);
      assert calls[..n][..n - 1] == calls[..n - 1];
    }
  }

  /** Whatever the process does next rests on a row at least as new as version v. */
  predicate LoadedSince(pc: Proc, v: nat) {
    match pc
    case Loaded(_, _, _, version) => v <= version
    case Decided(_, _, _, version) => v <= version
    case Told(_, NoRow(version)) => v <= version
    case _ => true
  }

  lemma StepLoadsSince(s: Redis, e: Event, p: nat, v: nat)
    requires Inv(s) && v <= |s.done| && (p in s.procs ==> LoadedSince(s.procs[p], v))
    ensures var s' := Step(s, e); v <= |s'.done| && (p in s'.procs ==> LoadedSince(s'.procs[p], v))
  {
  }

  lemma {:induction false} RunLoadsSince(es: seq<Event>, clock: int, n: nat, p: nat)
    requires n <= |es|
    requires var s := Run(es[..n], clock); p in s.procs ==> s.procs[p].Starting?
    ensures var (s, v) := (Run(es, clock), |Run(es[..n], clock).done|);
            v <= |s.done| && (p in s.procs ==> LoadedSince(s.procs[p], v))
    ensures Run(es[..n], clock).done <= Run(es, clock).done
  {
    RedisRefinesAtomic(es[..n], clock);
    if n == |es| {
      assert es[..n] == es;
    } else {
      var front := es[..|es| - 1];
      assert front[..n] == es[..n];
      RunLoadsSince(front, clock, n, p);
      RedisRefinesAtomic(front, clock);
      StepLoadsSince(Run(front, clock), es[|es| - 1], p, |Run(es[..n], clock).done|);
    }
  }

  /** Once an attempt has committed, a process that has yet to load to record its outcome is
      never told that there is no row: it records it, or is given up after its tries. */
  lemma OutcomeFindsTheRow(es: seq<Event>, clock: int, n: nat, p: nat)
    requires n <= |es| && exists i :: 0 <= i < |Run(es[..n], clock).done| && Run(es[..n], clock).done[i].Attempt?
    requires var s := Run(es[..n], clock); p in s.procs ==> s.procs[p].Starting?
    ensures var s := Run(es, clock);
            p in s.procs && s.procs[p].Told? && s.procs[p].want.WantOutcome? ==> s.procs[p].answer == Recorded
  {
    RedisRefinesAtomic(es[..n], clock);
    RedisRefinesAtomic(es, clock);
    RunLoadsSince(es, clock, n, p);
    var (early, s) := (Run(es[..n], clock), Run(es, clock));
    var i :| 0 <= i < |early.done| && early.done[i].Attempt?;
    if p in s.procs && s.procs[p].Told? && s.procs[p].want.WantOutcome? {
      assert Honest(s, p, s.procs[p]);
      match s.procs[p].answer
      case NoRow(version) =>
        assert s.done[..i + 1][..i] == s.done[..i] && s.done[..i + 1][i] == early.done[i];
        RowStays(s.done, i + 1, version);
        assert false;
      case _ =>
    }
  }

  /** From s to s1 the call did what the atomic ledger does, and was told so. */
  predicate Served(s: Redis, s1: Redis, p: nat, want: Want, checked: int, stamped: int) {
    var call := match want
                case WantAttempt(lease) => Attempt(checked, stamped, stamped, lease)
                case WantOutcome(status, attempts, note) => Call.Outcome(status, attempts, note, stamped);
    var answer := if want.WantOutcome? then (if s.row.Some? then Recorded else NoRow(s.version))
                  else if Blocks(s.row, checked) then Blocked(s.row.value, checked, s.version)
                  else Proceed;
    && s1.row == Next(s.row, call) && p in s1.procs && s1.procs[p] == Told(want, answer)
    && (if answer.Blocked? || answer.NoRow? then s1.done == s.done && s1.callers == s.callers
        else s1.done == s.done + [call] && s1.callers == s.callers + [p])
  }

  lemma UninterruptedIsAtomic(s: Redis, p: nat, want: Want, checked: int, stamped: int)
    requires Inv(s) && p !in s.procs && s.clock <= checked <= stamped
    ensures Served(s, Step(Step(Step(Step(s, Begin(p, want)), Load(p)), Decide(p, checked, stamped)), Commit(p)),
                   p, want, checked, stamped)
  {
  }

  lemma RunSnoc(es: seq<Event>, e: Event, clock: int)
    ensures Run(es + [e], clock) == Step(Run(es, clock), e)
  {
    assert (es + [e])[..|es|] == es;
  }

  /** After every run, a call that nobody overtakes does what the atomic ledger does and is
      told so. */
  lemma CallIsServed(es: seq<Event>, clock: int, p: nat, want: Want, checked: int, stamped: int)
    requires var s := Run(es, clock); p !in s.procs && s.clock <= checked <= stamped
    ensures var more := es + [Begin(p, want)] + [Load(p)] + [Decide(p, checked, stamped)] + [Commit(p)];
            Served(Run(es, clock), Run(more, clock), p, want, checked, stamped)
  {
    RedisRefinesAtomic(es, clock);
    UninterruptedIsAtomic(Run(es, clock), p, want, checked, stamped);
    var e1 := es + [Begin(p, want)];
    var e2 := e1 + [Load(p)];
    var e3 := e2 + [Decide(p, checked, stamped)];
    RunSnoc(es, Begin(p, want), clock);
    RunSnoc(e1, Load(p), clock);
    RunSnoc(e2, Decide(p, checked, stamped), clock);
    RunSnoc(e3, Commit(p), clock);
    hide Run, Step, Served;
  }

  /** A process is given up only when others have committed at least twenty times. */
  lemma ContendedIsBusy(es: seq<Event>, clock: int, p: nat)
    requires var s := Run(es, clock); p in s.procs && s.procs[p].Contended?
    ensures |Run(es, clock).done| >= 20
  {
    RedisRefinesAtomic(es, clock);
    assert Honest(Run(es, clock), p, Run(es, clock).procs[p]);
  }

  // ----- the retry loop -----

  datatype Verdict = Nil | SkipWith(reason: string) | SucceedWith(id: string) | Fail(message: string)

  datatype Report = Report(status: Status, attempts: int, note: string)

  /** Runs the handler until it does not fail, it is cancelled while waiting, or the
      attempts are used up; `ran` counts the invocations. */
  method RunWithRetry(configured: int, inner: nat -> Verdict, cancelled: nat -> bool)
    returns (report: Report, ran: nat, ghost max: nat)
    ensures max == (if configured < 1 then 1 else configured) && 1 <= ran <= max
    ensures forall k :: 1 <= k < ran ==> inner(k).Fail? && !cancelled(k)
    ensures IsTerminal(report.status)
    ensures report.status == FailedPermanent <==> inner(ran).Fail?
    ensures report.status == Skipped <==> inner(ran).SkipWith?
    ensures inner(ran).Fail? ==> report.attempts == max && (ran == max || cancelled(ran))
    ensures !inner(ran).Fail? ==> report.attempts == ran
    ensures report.note == match inner(ran)
            case Nil => "" case SkipWith(reason) => reason case SucceedWith(id) => id case Fail(message) => message
  {
    var maxAttempts := if configured < 1 then 1 else configured;
    max := maxAttempts;
    ran := 1;
    while true
      invariant 1 <= ran <= maxAttempts
      invariant forall k :: 1 <= k < ran ==> inner(k).Fail? && !cancelled(k)
      decreases maxAttempts - ran
    {
      match inner(ran)
      case SkipWith(reason) => return Report(Skipped, ran, reason), ran, max;
      case SucceedWith(id) => return Report(Success, ran, id), ran, max;
      case Nil => return Report(Success, ran, ""), ran, max;
      case Fail(message) =>
        if ran == maxAttempts || cancelled(ran) {
          return Report(FailedPermanent, maxAttempts, message), ran, max;
        }
        ran := ran + 1;
    }
  }

  // ----- the in-memory store -----

  class MemoryLedger {
    var rows: map<(string, string), Row>

    constructor ()
      ensures rows == map[]
    {
      rows := map[];
    }

    function Find(k: (string, string)): Option<Row>
      reads this
    {
      if k in rows then Some(rows[k]) else None
    }

    method RecordAttempt(k: (string, string), c: Call) returns (proceed: bool)
      requires c.Attempt?
      modifies this
      ensures Find(k) == Next(old(Find(k)), c) && rows - {k} == old(rows) - {k}
      ensures proceed == !Blocks(old(Find(k)), c.checked)
      ensures !proceed ==> rows == old(rows)
    {
      if k in rows {
        if IsTerminal(rows[k].status) {
          return false;
        }
        if rows[k].status == InProgress && rows[k].leaseUntil.Some? && rows[k].leaseUntil.value > c.checked {
          return false;
        }
      }
      var attempts := if k in rows then rows[k].attempts + 1 else 1;
      var lease := if c.lease == 0 then DEFAULT_LEASE else c.lease;
      rows := rows[k := Row(InProgress, attempts, c.stamped, None, Some(c.leased + lease), "")];
      proceed := true;
    }

    method RecordOutcome(k: (string, string), c: Call)
      requires c.Outcome?
      modifies this
      ensures Find(k) == Next(old(Find(k)), c) && rows - {k} == old(rows) - {k}
    {
      if k in rows {
        var row := rows[k];
        row := row.(status := c.status, note := c.note);
        if c.attempts > 0 {
          row := row.(attempts := c.attempts);
        }
        rows := rows[k := row.(completedAt := Some(c.at), leaseUntil := None)];
      }
    }

    /** A delivery that proceeds ends with a terminal row; one that does not leaves the
        row alone and never runs the handler. */
    method Dispatch(k: (string, string), c: Call, configured: int, inner: nat -> Verdict, cancelled: nat -> bool,
                    at: int)
      returns (ran: nat)
      requires c.Attempt?
      modifies this
      ensures ran > 0 <==> !Blocks(old(Find(k)), c.checked)
      ensures ran == 0 ==> rows == old(rows)
      ensures ran > 0 ==> Find(k).Some? && IsTerminal(Find(k).value.status) && Find(k).value.completedAt == Some(at)
      ensures ran > 0 ==> (Find(k).value.status == FailedPermanent <==> inner(ran).Fail?)
      ensures ran > 0 ==> (Find(k).value.status == Skipped <==> inner(ran).SkipWith?)
      ensures forall n :: 1 <= n < ran ==> inner(n).Fail? && !cancelled(n)
      ensures rows - {k} == old(rows) - {k}
    {
      var proceed := RecordAttempt(k, c);
      if !proceed {
        return 0;
      }
      var report, n, _ := RunWithRetry(configured, inner, cancelled);
      RecordOutcome(k, Call.Outcome(report.status, report.attempts, report.note, at));
      ran := n;
    }
  }
}
