/** Sliding-window rates: every call compacts the list of timestamps in place and
    forgets what fell out of the window, yet counts as if it kept everything. */
module RateWindow {
  import opened CounterStore
  import Migration

  /** The entries at or after the cutoff, in order. */
  function Kept(s: seq<int>, cutoff: int): seq<int> {
    if s == [] then []
    else
      var rest, t := Kept(s[..|s| - 1], cutoff), s[|s| - 1];
      if t >= cutoff then rest + [t] else rest
  }

  lemma {:induction false} KeptConcat(a: seq<int>, b: seq<int>, cutoff: int)
    ensures Kept(a + b, cutoff) == Kept(a, cutoff) + Kept(b, cutoff)
  {
    if b == [] {
      assert a + b == a;
    } else {
      var front := b[..|b| - 1];
      assert (a + b)[..|a + b| - 1] == a + front;
      KeptConcat(a, front, cutoff);
    }
  }

  /** Trimming again, no earlier, gives what trimming the original would. */
  lemma {:induction false} KeptTwice(s: seq<int>, c: int, d: int)
    requires c <= d
    ensures Kept(Kept(s, c), d) == Kept(s, d)
  {
    if s != [] {
      var front, t := s[..|s| - 1], s[|s| - 1];
      KeptTwice(front, c, d);
      if t >= c {
        var k := Kept(front, c) + [t];
        assert k[..|k| - 1] == Kept(front, c);
      }
    }
  }

  lemma {:induction false} KeptNone(s: seq<int>, cutoff: int)
    requires forall i :: 0 <= i < |s| ==> s[i] < cutoff
    ensures Kept(s, cutoff) == []
  {
    if s != [] {
      KeptNone(s[..|s| - 1], cutoff);
    }
  }

  // ----- one key's list -----

  datatype Op = Record(t: int) | Count(t: int) | Trim(t: int)

  function Next(list: seq<int>, op: Op, window: int): seq<int> {
    Kept(if op.Record? then list + [op.t] else list, op.t - window)
  }

  function ListAfter(ops: seq<Op>, window: int): seq<int> {
    if ops == [] then [] else Next(ListAfter(ops[..|ops| - 1], window), ops[|ops| - 1], window)
  }

  /** Everything ever recorded. */
  function Recorded(ops: seq<Op>): seq<int> {
    if ops == [] then []
    else
      var rest, op := Recorded(ops[..|ops| - 1]), ops[|ops| - 1];
      if op.Record? then rest + [op.t] else rest
  }

  predicate ClockHolds(ops: seq<Op>) {
    forall i, j :: 0 <= i < j < |ops| ==> ops[i].t <= ops[j].t
  }

  /** With a clock that does not go back, the trimmed list is exactly the part of the
      whole history that lies in the window. */
  lemma {:induction false} TrimmedListIsExact(ops: seq<Op>, window: int)
    requires ops != [] && ClockHolds(ops)
    ensures ListAfter(ops, window) == Kept(Recorded(ops), ops[|ops| - 1].t - window)
  {
    var front, op := ops[..|ops| - 1], ops[|ops| - 1];
    if front == [] {
      NextIsExact([], [], op, op.t - window, window);
    } else {
      assert front[|front| - 1] == ops[|ops| - 2];
      TrimmedListIsExact(front, window);
      NextIsExact(ListAfter(front, window), Recorded(front), op, ops[|ops| - 2].t - window, window);
    }
  }

  lemma NextIsExact(list: seq<int>, all: seq<int>, op: Op, before: int, window: int)
    requires list == Kept(all, before) && before <= op.t - window
    ensures Next(list, op, window) == Kept(if op.Record? then all + [op.t] else all, op.t - window)
  {
    KeptTwice(all, before, op.t - window);
    if op.Record? {
      KeptConcat(list, [op.t], op.t - window);
      KeptConcat(all, [op.t], op.t - window);
    }
  }

  /** The event recorded by operation i is still there after the first n operations: no trim
      from its own on has had a later cutoff. */
  predicate Survives(ops: seq<Op>, window: int, i: nat, n: nat)
    requires i < n <= |ops|
  {
    ops[i].Record? && forall j :: i <= j < n ==> ops[i].t >= ops[j].t - window
  }

  /** The survivors after n operations among the first m. */
  function Survivors(ops: seq<Op>, window: int, m: nat, n: nat): seq<int>
    requires m <= n <= |ops|
  {
    if m == 0 then []
    else Survivors(ops, window, m - 1, n) + (if Survives(ops, window, m - 1, n) then [ops[m - 1].t] else [])
  }

  /** One more trim removes the survivors below its cutoff. */
  lemma {:induction false} SurvivorsTrimmed(ops: seq<Op>, window: int, m: nat, n: nat)
    requires m < n <= |ops|
    ensures Kept(Survivors(ops, window, m, n - 1), ops[n - 1].t - window) == Survivors(ops, window, m, n)
  {
    if m > 0 {
      SurvivorsTrimmed(ops, window, m - 1, n);
      var last := if Survives(ops, window, m - 1, n - 1) then [ops[m - 1].t] else [];
      KeptConcat(Survivors(ops, window, m - 1, n - 1), last, ops[n - 1].t - window);
      assert [ops[m - 1].t][..0] == [];
    }
  }

  /** Whatever the clock does, the list holds exactly the survivors. */
  lemma {:induction false} ListIsSurvivors(ops: seq<Op>, window: int, n: nat)
    requires n <= |ops|
    ensures ListAfter(ops[..n], window) == Survivors(ops, window, n, n)
  {
    if n > 0 {
      var op := ops[n - 1];
      assert ops[..n][..n - 1] == ops[..n - 1];
      ListIsSurvivors(ops, window, n - 1);
      SurvivorsTrimmed(ops, window, n - 1, n);
      if op.Record? {
        KeptConcat(Survivors(ops, window, n - 1, n - 1), [op.t], op.t - window);
        assert [op.t][..0] == [];
      }
    }
  }

  /** A recorded event of the window ending at `last` was trimmed away on the way. */
  predicate Missed(ops: seq<Op>, window: int, i: nat, cutoff: int)
    requires i < |ops|
  {
    ops[i].Record? && ops[i].t >= cutoff && !Survives(ops, window, i, |ops|)
  }

  /** Counting the first m operations: the survivors fall short of the window exactly by the
      missed ones. */
  lemma {:induction false} SurvivorsVsWindow(ops: seq<Op>, window: int, m: nat, cutoff: int)
    requires m <= |ops| && (ops != [] ==> cutoff == ops[|ops| - 1].t - window)
    ensures var (alive, all) := (|Survivors(ops, window, m, |ops|)|, |Kept(Recorded(ops[..m]), cutoff)|);
            && alive <= all
            && (alive == all <==> forall i :: 0 <= i < m ==> !Missed(ops, window, i, cutoff))
  {
    if m > 0 {
      SurvivorsVsWindow(ops, window, m - 1, cutoff);
      assert ops[..m][..m - 1] == ops[..m - 1];
      var op := ops[m - 1];
      assert Survives(ops, window, m - 1, |ops|) ==> op.t >= ops[|ops| - 1].t - window;
      if op.Record? {
        KeptConcat(Recorded(ops[..m - 1]), [op.t], cutoff);
        assert [op.t][..0] == [];
      }
      var before := forall i :: 0 <= i < m - 1 ==> !Missed(ops, window, i, cutoff);
      assert (forall i :: 0 <= i < m ==> !Missed(ops, window, i, cutoff)) <==>
             before && !Missed(ops, window, m - 1, cutoff);
    }
  }

  /** For any clock and any window: the count is the number of all events recorded in the
      final window exactly when no such event lies below the cutoff of an operation from
      its own on.  Otherwise it is short. */
  lemma CountIsExactIff(ops: seq<Op>, window: int)
    requires ops != []
    ensures var cutoff := ops[|ops| - 1].t - window;
            var (count, truth) := (|ListAfter(ops, window)|, |Kept(Recorded(ops), cutoff)|);
            && count <= truth
            && (count == truth <==>
                forall i, j :: 0 <= i <= j < |ops| && ops[i].Record? && ops[i].t >= cutoff ==>
                  ops[i].t >= ops[j].t - window)
  {
    var cutoff := ops[|ops| - 1].t - window;
    assert ops[..|ops|] == ops;
    ListIsSurvivors(ops, window, |ops|);
    SurvivorsVsWindow(ops, window, |ops|, cutoff);
    MissedMeans(ops, window, cutoff);
  }

  lemma MissedMeans(ops: seq<Op>, window: int, cutoff: int)
    ensures (forall i :: 0 <= i < |ops| ==> !Missed(ops, window, i, cutoff)) <==>
            (forall i, j :: 0 <= i <= j < |ops| && ops[i].Record? && ops[i].t >= cutoff ==>
               ops[i].t >= ops[j].t - window)
  {
    if forall i :: 0 <= i < |ops| ==> !Missed(ops, window, i, cutoff) {
      forall i, j | 0 <= i <= j < |ops| && ops[i].Record? && ops[i].t >= cutoff ensures ops[i].t >= ops[j].t - window {
        assert !Missed(ops, window, i, cutoff);
      }
    }
  }

  /** A clock that goes back by more than the window allows misses any event: a trim at a
      later time has forgotten what an earlier window would show. */
  lemma BackwardClockMisses(t: int, later: int, last: int, window: int)
    requires 0 <= window && later > t + window && last <= t + window
    ensures var ops := [Record(t), Trim(later), Count(last)];
            |ListAfter(ops, window)| < |Kept(Recorded(ops), last - window)|
  {
    var ops := [Record(t), Trim(later), Count(last)];
    CountIsExactIff(ops, window);
    assert !(ops[0].t >= ops[1].t - window);
  }

  // ----- in place -----

  /** One key's timestamps: the first `len` cells of a buffer that is compacted in place. */
  class Entries {
    var buf: array<int>
    var len: nat

    ghost predicate Valid()
      reads this
    {
      len <= buf.Length
    }

    ghost function List(): seq<int>
      requires Valid()
      reads this, buf
    {
      buf[..len]
    }

    constructor ()
      ensures Valid() && fresh(buf) && List() == []
    {
      buf, len := new int[4], 0;
    }

    method Compact(cutoff: int)
      requires Valid()
      modifies this`len, buf
      ensures Valid() && List() == Kept(old(List()), cutoff)
    {
      ghost var was := List();
      var keep, i := 0, 0;
      while i < len
        invariant Valid() && len == |was| && 0 <= keep <= i <= len
        invariant buf[i..len] == was[i..]
        invariant buf[..keep] == Kept(was[..i], cutoff)
      {
        var t := buf[i];
        assert t == was[i];
        assert was[..i + 1][..i] == was[..i];
        ghost var rest := buf[i + 1..len];
        assert rest == was[i + 1..];
        if t >= cutoff {
          buf[keep] := t;
          keep := keep + 1;
        }
        i := i + 1;
      }
      assert was[..i] == was;
      len := keep;
    }

    method Append(t: int)
      requires Valid()
      modifies this, buf
      ensures Valid() && (buf == old(buf) || fresh(buf)) && List() == old(List()) + [t]
    {
      if len == buf.Length {
        var bigger := new int[2 * len + 4];
        forall i | 0 <= i < len {
          bigger[i] := buf[i];
        }
        assert bigger[..len] == buf[..len];
        buf := bigger;
      }
      buf[len] := t;
      len := len + 1;
    }

    method RecordAt(now: int, window: int)
      requires Valid()
      modifies this, buf
      ensures Valid() && (buf == old(buf) || fresh(buf)) && List() == Next(old(List()), Record(now), window)
    {
      Append(now);
      Compact(now - window);
    }

    /** Given the whole history `ops` behind the list, the answer is the number of all
        events ever recorded in the window ending now. */
    method CountAt(now: int, window: int, ghost ops: seq<Op>) returns (n: nat)
      requires Valid() && List() == ListAfter(ops, window) && ClockHolds(ops + [Count(now)])
      modifies this`len, buf
      ensures Valid() && List() == ListAfter(ops + [Count(now)], window)
      ensures n == |Kept(Recorded(ops), now - window)|
    {
      ghost var all := ops + [Count(now)];
      assert all[..|ops|] == ops;
      TrimmedListIsExact(all, window);
      Compact(now - window);
      n := len;
    }
  }

  // ----- two shapes of one rate -----

  /** Before dual-write only the v1 window is written; from then on both.  A read trims
      the shape it reads. */
  datatype PairOp = Before(t: int) | Both(t: int) | Read(t: int, v2: bool)

  function OpsOf(ops: seq<PairOp>, v2: bool): seq<Op> {
    if ops == [] then []
    else
      var rest, op := OpsOf(ops[..|ops| - 1], v2), ops[|ops| - 1];
      match op
      case Before(t) => if v2 then rest else rest + [Record(t)]
      case Both(t) => rest + [Record(t)]
      case Read(t, which) => if which == v2 then rest + [Count(t)] else rest
  }

  /** Every event that happened, whichever shapes recorded it. */
  function Happened(ops: seq<PairOp>): seq<int> {
    if ops == [] then []
    else
      var op := ops[|ops| - 1];
      Happened(ops[..|ops| - 1]) + if op.Read? then [] else [op.t]
  }

  predicate PairClock(ops: seq<PairOp>, now: int) {
    && (forall i, j :: 0 <= i < j < |ops| ==> ops[i].t <= ops[j].t)
    && (forall i :: 0 <= i < |ops| ==> ops[i].t <= now)
  }

  /** Pre-dual records come first, all strictly before dual-write started. */
  predicate DualFrom(ops: seq<PairOp>, dualSince: int) {
    forall i :: 0 <= i < |ops| ==> (ops[i].Before? ==> ops[i].t < dualSince)
  }

  lemma {:induction false} OpsClock(ops: seq<PairOp>, v2: bool, now: int)
    requires PairClock(ops, now)
    ensures ClockHolds(OpsOf(ops, v2)) && forall i :: 0 <= i < |OpsOf(ops, v2)| ==> OpsOf(ops, v2)[i].t <= now
  {
    if ops != [] {
      OpsClock(ops[..|ops| - 1], v2, ops[|ops| - 1].t);
    }
  }

  /** The v1 shape recorded them all, the v2 shape all but some that are older than dual-write. */
  lemma {:induction false} SameRecent(ops: seq<PairOp>, dualSince: int, cutoff: int)
    requires DualFrom(ops, dualSince) && dualSince <= cutoff
    ensures Kept(Recorded(OpsOf(ops, false)), cutoff) == Kept(Happened(ops), cutoff)
    ensures Kept(Recorded(OpsOf(ops, true)), cutoff) == Kept(Happened(ops), cutoff)
  {
    if ops != [] {
      var front, op := ops[..|ops| - 1], ops[|ops| - 1];
      SameRecent(front, dualSince, cutoff);
      RecordedStep(OpsOf(front, false), op.t, cutoff);
      RecordedStep(OpsOf(front, true), op.t, cutoff);
      KeptStep(Happened(front), op.t, cutoff);
    }
  }

  lemma KeptStep(ts: seq<int>, t: int, cutoff: int)
    ensures Kept(ts + [t], cutoff) == Kept(ts, cutoff) + (if t >= cutoff then [t] else [])
    ensures Kept(ts + [], cutoff) == Kept(ts, cutoff)
  {
    assert (ts + [t])[..|ts|] == ts && ts + [] == ts;
  }

  lemma RecordedStep(ops: seq<Op>, t: int, cutoff: int)
    ensures Recorded(ops + [Record(t)]) == Recorded(ops) + [t]
    ensures Recorded(ops + [Count(t)]) == Recorded(ops)
    ensures Kept(Recorded(ops) + [t], cutoff) == Kept(Recorded(ops), cutoff) + (if t >= cutoff then [t] else [])
  {
    assert (ops + [Record(t)])[..|ops|] == ops && (ops + [Count(t)])[..|ops|] == ops;
    assert (Recorded(ops) + [t])[..|Recorded(ops)|] == Recorded(ops);
  }

  /** When the flip gate opens, a rate window no longer than the configured longest one
      counts every event of the window under v1 and under v2. */
  lemma FlipGateRates(ops: seq<PairOp>, marker: Option<Migration.Marker>, now: int, maxRateWindow: int,
                      verifiedOK: bool,
                      window: int)
    requires Migration.FlipGate(marker, now, maxRateWindow, verifiedOK) && window <= maxRateWindow
    requires PairClock(ops, now) && DualFrom(ops, marker.value.dualSince)
    ensures |ListAfter(OpsOf(ops, false) + [Count(now)], window)| == |Kept(Happened(ops), now - window)|
    ensures |ListAfter(OpsOf(ops, true) + [Count(now)], window)| == |Kept(Happened(ops), now - window)|
  {
    SameRecent(ops, marker.value.dualSince, now - window);
    CountNow(ops, false, now, window);
    CountNow(ops, true, now, window);
  }

  lemma ClockAppend(ops: seq<Op>, op: Op)
    requires ClockHolds(ops) && forall i :: 0 <= i < |ops| ==> ops[i].t <= op.t
    ensures ClockHolds(ops + [op])
  {
  }

  lemma CountNow(ops: seq<PairOp>, v2: bool, now: int, window: int)
    requires PairClock(ops, now)
    ensures ListAfter(OpsOf(ops, v2) + [Count(now)], window) == Kept(Recorded(OpsOf(ops, v2)), now - window)
  {
    OpsClock(ops, v2, now);
    ClockAppend(OpsOf(ops, v2), Count(now));
    RecordedStep(OpsOf(ops, v2), now, 0);
    var all := OpsOf(ops, v2) + [Count(now)];
    assert all[|all| - 1] == Count(now);
    hide ClockHolds, OpsOf, Recorded, Kept, ListAfter;
    TrimmedListIsExact(all, window);
  }

  /** Without the wait the shapes differ: an event recorded just before dual-write is counted
      under v1 and not under v2 for as long as the window reaches back to it. */
  lemma WithoutTheWait(t: int, now: int, window: int)
    requires t <= now
    ensures var v1 := ListAfter(OpsOf([Before(t)], false) + [Count(now)], window);
            var v2 := ListAfter(OpsOf([Before(t)], true) + [Count(now)], window);
            |v1| == |v2| <==> t < now - window
  {
    CountNow([Before(t)], false, now, window);
    CountNow([Before(t)], true, now, window);
    assert OpsOf([Before(t)], false) == [] + [Record(t)] && OpsOf([Before(t)], true) == [];
    RecordedStep([], t, now - window);
    KeptStep([], t, now - window);
  }
}
