/** The tier cache: a time-limited cache in front of a lookup that may fail, with the
    last good answer kept in the process and, optionally, in a durable store. */
module TierCache {
  import opened CounterStore

  datatype Cached = Cached(tier: string, exp: int)
  datatype Good = Good(tier: string, ts: int)

  /** What the inner lookup says; a failure may carry a fallback default. */
  datatype Reply = Found(tier: string) | Failed(fallback: string, lookupFailed: bool)

  datatype Result = Served(tier: string) | Error(tier: string)

  /** One call: who asks, the clock before and after the lookup, the lookup's reply, and
      whether the durable store can be read and written. */
  datatype Ask = Ask(user: string, org: string, now: int, later: int, reply: Reply, readable: bool, writable: bool)

  datatype State = State(items: map<string, Cached>, lastGood: map<string, Good>, streaks: map<string, nat>,
                         durable: Option<map<string, Good>>)

  /** `maxAge` 0 keeps a last good answer for ever. */
  datatype Config = Config(ttl: int, maxAge: int)

  function Key(user: string, org: string): string {
    user + "|" + org
  }

  predicate TooOld(g: Good, now: int, cfg: Config) {
    cfg.maxAge > 0 && now - g.ts > cfg.maxAge
  }

  predicate Hit(s: State, a: Ask) {
    Key(a.user, a.org) in s.items && a.now < s.items[Key(a.user, a.org)].exp
  }

  function Streak(s: State, k: string): nat {
    if k in s.streaks then s.streaks[k] else 0
  }

  function Fallback(reply: Reply): Result
    requires reply.Failed?
  {
    if reply.lookupFailed && reply.fallback != "" then Served(reply.fallback) else Error(reply.fallback)
  }

  function DurableGood(s: State, a: Ask, cfg: Config): Option<Good> {
    if a.readable && s.durable.Some? && a.org in s.durable.value && s.durable.value[a.org].tier != ""
       && !TooOld(s.durable.value[a.org], a.later, cfg)
    then Some(s.durable.value[a.org]) else None
  }

  function Get(s: State, a: Ask, cfg: Config): (State, Result) {
    var k := Key(a.user, a.org);
    if cfg.ttl <= 0 then
      match a.reply
      case Found(tier) => (s.(streaks := s.streaks - {k}), Served(tier))
      case Failed(_, _) => (s.(streaks := s.streaks[k := Streak(s, k) + 1]), Fallback(a.reply))
    else if Hit(s, a) then (s, Served(s.items[k].tier))
    else
      match a.reply
      case Found(tier) =>
        (State(s.items[k := Cached(tier, a.later + cfg.ttl)], s.lastGood[k := Good(tier, a.later)], s.streaks - {k},
               if s.durable.Some? && a.writable then Some(s.durable.value[a.org := Good(tier, a.later)])
               else s.durable),
         Served(tier))
      case Failed(_, _) =>
        var s1 := s.(streaks := s.streaks[k := Streak(s, k) + 1]);
        if k in s.lastGood && !TooOld(s.lastGood[k], a.later, cfg) then (s1, Served(s.lastGood[k].tier))
        else
          var d := DurableGood(s, a, cfg);
          if d.Some? then (s1.(lastGood := s.lastGood[k := d.value]), Served(d.value.tier))
          else (s1, Fallback(a.reply))
  }

  function Invalidated(s: State, user: string, org: string): State {
    s.(items := s.items - {Key(user, org)})
  }

  /** A fresh process: only the durable record survives. */
  function Restarted(s: State): State {
    State(map[], map[], map[], s.durable)
  }

  datatype Event = Asked(a: Ask) | Invalidate(user: string, org: string)

  function Step(s: State, e: Event, cfg: Config): State {
    match e case Asked(a) => Get(s, a, cfg).0 case Invalidate(user, org) => Invalidated(s, user, org)
  }

  function Run(s: State, es: seq<Event>, cfg: Config): State {
    if es == [] then s else Step(Run(s, es[..|es| - 1], cfg), es[|es| - 1], cfg)
  }

  // ----- keys -----

  /** Neither name holds the separator. */
  predicate BarFree(user: string, org: string) {
    '|' !in user && '|' !in org
  }

  /** No other pair has this pair's entry. */
  ghost predicate OwnEntry(user: string, org: string) {
    forall u, o :: Key(u, o) == Key(user, org) ==> u == user && o == org
  }

  /** The only bar of a bar-free pair's key is the separator, so the key splits one way. */
  lemma BarFreeSplits(user: string, org: string, u: string, o: string)
    requires BarFree(user, org) && Key(u, o) == Key(user, org)
    ensures u == user && o == org
  {
    var k := Key(user, org);
    assert k[|u|] == '|';
    assert forall i :: 0 <= i < |user| ==> k[i] == user[i];
    assert forall i :: |user| < i < |k| ==> k[i] == org[i - |user| - 1];
    assert |u| == |user|;
    assert u == k[..|u|] && user == k[..|user|];
    assert o == k[|u| + 1..] && org == k[|user| + 1..];
  }

  lemma CutAt(s: string, ch: char) returns (i: nat)
    requires ch in s
    ensures i < |s| && s == s[..i] + [ch] + s[i + 1..]
  {
    i :| i < |s| && s[i] == ch;
  }

  /** A bar on either side lets another pair build the same key. */
  lemma BarSharesEntry(user: string, org: string) returns (u: string, o: string)
    requires !BarFree(user, org)
    ensures Key(u, o) == Key(user, org) && (u != user || o != org)
  {
    if '|' in user {
      var i := CutAt(user, '|');
      u, o := user[..i], user[i + 1..] + "|" + org;
      assert |u| < |user|;
    } else {
      var i := CutAt(org, '|');
      u, o := user + "|" + org[..i], org[i + 1..];
      assert |u| > |user|;
    }
  }

  /** A pair has a cache entry of its own exactly when neither of its names holds a bar. */
  lemma OwnEntryIffBarFree(user: string, org: string)
    ensures OwnEntry(user, org) <==> BarFree(user, org)
  {
    if BarFree(user, org) {
      forall u, o | Key(u, o) == Key(user, org) ensures u == user && o == org {
        BarFreeSplits(user, org, u, o);
      }
    } else {
      var u, o := BarSharesEntry(user, org);
    }
  }

  // ----- never a downgrade -----

  /** The tier of the last lookup made for this pair that succeeded. */
  function Latest(s: State, es: seq<Event>, cfg: Config, user: string, org: string): Option<string> {
    if es == [] then None
    else
      var front, e := es[..|es| - 1], es[|es| - 1];
      if e.Asked? && e.a.user == user && e.a.org == org && e.a.reply.Found? && !Hit(Run(s, front, cfg), e.a)
      then Some(e.a.reply.tier)
      else Latest(s, front, cfg, user, org)
  }

  predicate Remembers(s: State, k: string, tier: string) {
    && k in s.lastGood && s.lastGood[k].tier == tier
    && (k in s.items ==> s.items[k].tier == tier)
  }

  lemma StepRemembers(s: State, e: Event, cfg: Config, user: string, org: string, tier: string)
    requires cfg.ttl > 0 && cfg.maxAge == 0 && OwnEntry(user, org)
    requires Remembers(s, Key(user, org), tier)
    ensures var own := e.Asked? && e.a.user == user && e.a.org == org && e.a.reply.Found? && !Hit(s, e.a);
            Remembers(Step(s, e, cfg), Key(user, org), if own then e.a.reply.tier else tier)
  {
  }

  lemma {:induction false} RunRemembers(s: State, es: seq<Event>, cfg: Config, user: string, org: string)
    requires cfg.ttl > 0 && cfg.maxAge == 0 && OwnEntry(user, org)
    requires Latest(s, es, cfg, user, org).Some?
    ensures Remembers(Run(s, es, cfg), Key(user, org), Latest(s, es, cfg, user, org).value)
  {
    var front, e := es[..|es| - 1], es[|es| - 1];
    var s1 := Run(s, front, cfg);
    if Latest(s, front, cfg, user, org).Some? {
      RunRemembers(s, front, cfg, user, org);
      StepRemembers(s1, e, cfg, user, org, Latest(s, front, cfg, user, org).value);
    }
  }

  /** The call is served without error the tier of the last lookup that succeeded, its own
      included. */
  ghost predicate ServedLatest(s: State, es: seq<Event>, cfg: Config, a: Ask) {
    Latest(s, es, cfg, a.user, a.org).Some? ==>
      var s1 := Run(s, es, cfg);
      Get(s1, a, cfg).1 == if a.reply.Found? && !Hit(s1, a) then Served(a.reply.tier)
                           else Served(Latest(s, es, cfg, a.user, a.org).value)
  }

  /** After the first success for a bar-free pair, through any mix of failures, expiries,
      invalidations and calls of any other pairs, its calls are never downgraded. */
  lemma NeverDowngrades(s: State, es: seq<Event>, cfg: Config, a: Ask)
    requires cfg.ttl > 0 && cfg.maxAge == 0 && BarFree(a.user, a.org)
    ensures ServedLatest(s, es, cfg, a)
  {
    OwnEntryIffBarFree(a.user, a.org);
    if Latest(s, es, cfg, a.user, a.org).Some? {
      RunRemembers(s, es, cfg, a.user, a.org);
    }
  }

  const FRESH := State(map[], map[], map[], None)

  function Lookup(user: string, org: string, now: int, reply: Reply): Ask {
    Ask(user, org, now, now, reply, false, false)
  }

  lemma RunSnoc(s: State, es: seq<Event>, e: Event, cfg: Config, user: string, org: string)
    ensures Run(s, es + [e], cfg) == Step(Run(s, es, cfg), e, cfg)
    ensures Latest(s, es + [e], cfg, user, org)
         == if e.Asked? && e.a.user == user && e.a.org == org && e.a.reply.Found? && !Hit(Run(s, es, cfg), e.a)
            then Some(e.a.reply.tier) else Latest(s, es, cfg, user, org)
  {
    assert (es + [e])[..|es|] == es;
  }

  /** The pair's own success, then another pair's on the same entry: the next failure is
      served the other pair's tier. */
  lemma SharedEntryDowngrades(user: string, org: string, u: string, o: string, cfg: Config)
    requires cfg.ttl > 0 && cfg.maxAge == 0
    requires Key(u, o) == Key(user, org) && (u != user || o != org)
    ensures exists es: seq<Event>, a: Ask :: a.user == user && a.org == org && !ServedLatest(FRESH, es, cfg, a)
  {
    var own, other := Asked(Lookup(user, org, 0, Found("own"))), Asked(Lookup(u, o, cfg.ttl, Found("other")));
    var s1 := Get(FRESH, own.a, cfg).0;
    RunSnoc(FRESH, [], own, cfg, user, org);
    assert s1.items[Key(user, org)].exp == cfg.ttl && !Hit(s1, other.a);
    RunSnoc(FRESH, [] + [own], other, cfg, user, org);
    var e2 := [] + [own] + [other];
    var s2 := Run(FRESH, e2, cfg);
    assert s2 == Get(s1, other.a, cfg).0;
    assert Latest(FRESH, e2, cfg, user, org) == Some("own");
    var a := Lookup(user, org, cfg.ttl, Failed("", true));
    assert "own" != "other" by { assert |"own"| != |"other"|; }
    assert Get(s2, a, cfg).1 == Served("other");
    assert !ServedLatest(FRESH, e2, cfg, a);
  }

  /** Being never downgraded over all runs is exactly being bar-free. */
  lemma NeverDowngradedIffBarFree(user: string, org: string, cfg: Config)
    requires cfg.ttl > 0 && cfg.maxAge == 0
    ensures (forall s: State, es: seq<Event>, a: Ask :: a.user == user && a.org == org ==>
              ServedLatest(s, es, cfg, a))
            <==> BarFree(user, org)
  {
    if BarFree(user, org) {
      forall s: State, es: seq<Event>, a: Ask | a.user == user && a.org == org ensures ServedLatest(s, es, cfg, a) {
        NeverDowngrades(s, es, cfg, a);
      }
    } else {
      var u, o := BarSharesEntry(user, org);
      SharedEntryDowngrades(user, org, u, o, cfg);
    }
  }

  /** Lookups for this pair that failed since its last success. */
  function FailuresInARow(s: State, es: seq<Event>, cfg: Config, user: string, org: string): nat {
    if es == [] then 0
    else
      var front, e := es[..|es| - 1], es[|es| - 1];
      var before := FailuresInARow(s, front, cfg, user, org);
      if e.Asked? && e.a.user == user && e.a.org == org && (cfg.ttl <= 0 || !Hit(Run(s, front, cfg), e.a))
      then (if e.a.reply.Found? then 0 else before + 1)
      else before
  }

  lemma {:induction false} StreakCounts(s: State, es: seq<Event>, cfg: Config, user: string, org: string)
    requires s.streaks == map[] && OwnEntry(user, org)
    ensures Streak(Run(s, es, cfg), Key(user, org)) == FailuresInARow(s, es, cfg, user, org)
  {
    if es != [] {
      StreakCounts(s, es[..|es| - 1], cfg, user, org);
      StepStreak(Run(s, es[..|es| - 1], cfg), es[|es| - 1], cfg, user, org);
    }
  }

  lemma StepStreak(s: State, e: Event, cfg: Config, user: string, org: string)
    requires OwnEntry(user, org)
    ensures var before := Streak(s, Key(user, org));
            Streak(Step(s, e, cfg), Key(user, org))
            == if e.Asked? && e.a.user == user && e.a.org == org && (cfg.ttl <= 0 || !Hit(s, e.a))
               then (if e.a.reply.Found? then 0 else before + 1) else before
  {
  }

  /** The streak behind the sustained-outage alarm is exactly that number. */
  lemma StreakIsExact(s: State, es: seq<Event>, cfg: Config, user: string, org: string)
    requires s.streaks == map[] && BarFree(user, org)
    ensures Streak(Run(s, es, cfg), Key(user, org)) == FailuresInARow(s, es, cfg, user, org)
  {
    OwnEntryIffBarFree(user, org);
    StreakCounts(s, es, cfg, user, org);
  }

  // ----- what is served, and how old it may be -----

  predicate For(e: Event, user: string, org: string) {
    match e case Asked(a) => a.user == user && a.org == org case Invalidate(u, o) => u == user && o == org
  }

  /** What a history of calls leaves cached for a pair, told by the calls alone: its last
      lookup that succeeded, until it is invalidated.  A call within the ttl of it makes no
      lookup. */
  function Entry(es: seq<Event>, ttl: int, user: string, org: string): Option<Good> {
    if es == [] then None
    else
      var was, e := Entry(es[..|es| - 1], ttl, user, org), es[|es| - 1];
      if !For(e, user, org) then was
      else if e.Invalidate? then None
      else if e.a.reply.Found? && !(was.Some? && e.a.now < was.value.ts + ttl)
      then Some(Good(e.a.reply.tier, e.a.later))
      else was
  }

  /** The last lookup for the pair that succeeded. */
  function LastSuccess(es: seq<Event>, ttl: int, user: string, org: string): Option<Good> {
    if es == [] then None
    else
      var front, e := es[..|es| - 1], es[|es| - 1];
      var was := Entry(front, ttl, user, org);
      if e.Asked? && For(e, user, org) && e.a.reply.Found? && !(was.Some? && e.a.now < was.value.ts + ttl)
      then Some(Good(e.a.reply.tier, e.a.later))
      else LastSuccess(front, ttl, user, org)
  }

  /** A process that has just started. */
  predicate Blank(s: State) {
    s.items == map[] && s.lastGood == map[]
  }

  lemma {:induction false} EntryIsCached(s: State, es: seq<Event>, cfg: Config, user: string, org: string)
    requires Blank(s) && cfg.ttl > 0 && OwnEntry(user, org)
    ensures var (t, e, k) := (Run(s, es, cfg), Entry(es, cfg.ttl, user, org), Key(user, org));
            && (k in t.items <==> e.Some?)
            && (e.Some? ==> t.items[k] == Cached(e.value.tier, e.value.ts + cfg.ttl))
            && (e.Some? ==> e == LastSuccess(es, cfg.ttl, user, org))
  {
    if es != [] {
      EntryIsCached(s, es[..|es| - 1], cfg, user, org);
    }
  }

  /** A call for a bar-free pair is answered without a lookup exactly within the ttl of the
      pair's last success since it was invalidated, and then with that tier; a lookup that
      succeeds is answered with its own. */
  lemma CachedExactlyWithinTtl(s: State, es: seq<Event>, cfg: Config, a: Ask)
    requires Blank(s) && cfg.ttl > 0 && BarFree(a.user, a.org)
    ensures var (t, e) := (Run(s, es, cfg), Entry(es, cfg.ttl, a.user, a.org));
            if e.Some? && a.now < e.value.ts + cfg.ttl then Get(t, a, cfg) == (t, Served(e.value.tier))
            else a.reply.Found? ==> Get(t, a, cfg).1 == Served(a.reply.tier)
  {
    OwnEntryIffBarFree(a.user, a.org);
    EntryIsCached(s, es, cfg, a.user, a.org);
  }

  /** No call came later than this one. */
  predicate NoneLater(es: seq<Event>, later: int) {
    forall i :: 0 <= i < |es| && es[i].Asked? ==> es[i].a.later <= later
  }

  lemma {:induction false} SuccessIsKept(s: State, es: seq<Event>, cfg: Config, user: string, org: string, later: int)
    requires Blank(s) && cfg.ttl > 0 && OwnEntry(user, org)
    requires var g := LastSuccess(es, cfg.ttl, user, org);
             g.Some? && (cfg.maxAge <= 0 || (later - g.value.ts <= cfg.maxAge && NoneLater(es, later)))
    ensures var t := Run(s, es, cfg);
            Key(user, org) in t.lastGood && t.lastGood[Key(user, org)] == LastSuccess(es, cfg.ttl, user, org).value
  {
    var front, e := es[..|es| - 1], es[|es| - 1];
    EntryIsCached(s, front, cfg, user, org);
    if LastSuccess(es, cfg.ttl, user, org) == LastSuccess(front, cfg.ttl, user, org) {
      forall i | 0 <= i < |front| ensures front[i] == es[i] {
      }
      SuccessIsKept(s, front, cfg, user, org, later);
    }
  }

  /** Up to the maximum age, the age itself included, a failing lookup is answered with
      the last tier that was looked up, whatever happened in between. */
  lemma HeldUpToMaxAge(s: State, es: seq<Event>, cfg: Config, a: Ask)
    requires Blank(s) && cfg.ttl > 0 && BarFree(a.user, a.org) && a.reply.Failed?
    requires var g := LastSuccess(es, cfg.ttl, a.user, a.org);
             g.Some? && (cfg.maxAge <= 0 || (a.later - g.value.ts <= cfg.maxAge && NoneLater(es, a.later)))
    ensures Get(Run(s, es, cfg), a, cfg).1 == Served(LastSuccess(es, cfg.ttl, a.user, a.org).value.tier)
  {
    OwnEntryIffBarFree(a.user, a.org);
    EntryIsCached(s, es, cfg, a.user, a.org);
    SuccessIsKept(s, es, cfg, a.user, a.org, a.later);
  }

  /** Lookup i succeeded for this organisation, at g.ts, with g.tier. */
  predicate Confirmed(es: seq<Event>, i: nat, org: string, g: Good) {
    i < |es| && es[i].Asked? && es[i].a.org == org && es[i].a.reply == Found(g.tier) && es[i].a.later == g.ts
  }

  ghost predicate Known(es: seq<Event>, org: string, g: Good) {
    exists i :: Confirmed(es, i, org, g)
  }

  lemma KnownLater(es: seq<Event>, org: string, g: Good)
    requires es != [] && Known(es[..|es| - 1], org, g)
    ensures Known(es, org, g)
  {
    var i :| Confirmed(es[..|es| - 1], i, org, g);
    assert Confirmed(es, i, org, g);
  }

  /** Nothing is remembered for the pair or its organisation that no lookup said. */
  lemma {:induction false} RememberedWasSaid(s: State, es: seq<Event>, cfg: Config, user: string, org: string)
    requires Blank(s) && (s.durable.Some? ==> s.durable.value == map[]) && OwnEntry(user, org)
    ensures var t := Run(s, es, cfg);
            && (Key(user, org) in t.lastGood ==> Known(es, org, t.lastGood[Key(user, org)]))
            && (t.durable.Some? && org in t.durable.value ==> Known(es, org, t.durable.value[org]))
  {
    if es != [] {
      var front, e := es[..|es| - 1], es[|es| - 1];
      RememberedWasSaid(s, front, cfg, user, org);
      forall g | Known(front, org, g) ensures Known(es, org, g) {
        KnownLater(es, org, g);
      }
      if e.Asked? && e.a.org == org && e.a.reply.Found? {
        assert Confirmed(es, |es| - 1, org, Good(e.a.reply.tier, e.a.later));
      }
    }
  }

  /** An answer to a failed lookup is the provider's default, or else a tier some lookup of
      this organisation returned, no longer ago than the maximum age; an error carries the
      default and comes only when there is no such tier in reach and no usable default. */
  lemma ServedIsRecent(s: State, es: seq<Event>, cfg: Config, a: Ask)
    requires Blank(s) && (s.durable.Some? ==> s.durable.value == map[])
    requires cfg.ttl > 0 && BarFree(a.user, a.org) && a.reply.Failed? && !Hit(Run(s, es, cfg), a)
    ensures var r := Get(Run(s, es, cfg), a, cfg).1;
            || r == (if a.reply.lookupFailed && a.reply.fallback != "" then Served(a.reply.fallback)
                     else Error(a.reply.fallback))
            || exists g: Good :: r == Served(g.tier) && Known(es, a.org, g)
                                 && (cfg.maxAge > 0 ==> a.later - g.ts <= cfg.maxAge)
  {
    OwnEntryIffBarFree(a.user, a.org);
    RememberedWasSaid(s, es, cfg, a.user, a.org);
  }

  /** With caching off every call looks up: a success is served, a failure gets the default
      if there is a usable one, and nothing is remembered but the streak. */
  lemma CachingOff(s: State, a: Ask, cfg: Config)
    requires cfg.ttl <= 0
    ensures var (t, r) := Get(s, a, cfg);
            && t.(streaks := s.streaks) == s
            && (a.reply.Found? ==> r == Served(a.reply.tier))
            && (a.reply.Failed? ==> r == if a.reply.lookupFailed && a.reply.fallback != "" then Served(a.reply.fallback)
                                         else Error(a.reply.fallback))
  {
  }

  // ----- restart in an outage -----

  /** Every lookup for the organisation fails. */
  predicate Outage(es: seq<Event>, org: string) {
    forall i :: 0 <= i < |es| && es[i].Asked? && es[i].a.org == org ==> es[i].a.reply.Failed?
  }

  /** What is remembered about the pair came from the durable record. */
  ghost predicate FromDurable(s: State, user: string, org: string, tier: string) {
    && Key(user, org) !in s.items
    && s.durable.Some? && org in s.durable.value && s.durable.value[org].tier == tier
    && (Key(user, org) in s.lastGood ==> s.lastGood[Key(user, org)].tier == tier)
  }

  lemma {:induction false} OutageServesDurable(s: State, es: seq<Event>, cfg: Config, user: string, org: string,
                                               tier: string)
    requires cfg.ttl > 0 && cfg.maxAge == 0 && Outage(es, org) && OwnEntry(user, org)
    requires s.durable.Some? && org in s.durable.value && s.durable.value[org].tier == tier
    ensures FromDurable(Run(Restarted(s), es, cfg), user, org, tier)
  {
    if es != [] {
      var front, e := es[..|es| - 1], es[|es| - 1];
      OutageServesDurable(s, front, cfg, user, org, tier);
      if e.Asked? && e.a.org == org {
        assert es[|es| - 1].a.reply.Failed?;
      }
    }
  }

  /** After a restart during an outage every bar-free user of an organisation is served the
      last tier stored for it, whatever other callers do. */
  lemma RestartServesStoredTier(s: State, es: seq<Event>, cfg: Config, a: Ask)
    requires cfg.ttl > 0 && cfg.maxAge == 0 && Outage(es, a.org) && BarFree(a.user, a.org)
    requires a.reply.Failed? && a.readable
    requires s.durable.Some? && a.org in s.durable.value && s.durable.value[a.org].tier != ""
    ensures Get(Run(Restarted(s), es, cfg), a, cfg).1 == Served(s.durable.value[a.org].tier)
  {
    OwnEntryIffBarFree(a.user, a.org);
    OutageServesDurable(s, es, cfg, a.user, a.org, s.durable.value[a.org].tier);
  }

  /** A success that could be written through survives: after a restart, and for as long
      as the organisation's lookups fail, its bar-free users are served it. */
  lemma SuccessSurvivesRestart(s: State, first: Ask, es: seq<Event>, cfg: Config, a: Ask)
    requires cfg.ttl > 0 && cfg.maxAge == 0 && Outage(es, a.org) && BarFree(a.user, a.org)
    requires s.durable.Some? && !Hit(s, first) && first.writable
    requires first.org == a.org && first.reply.Found? && first.reply.tier != "" && a.reply.Failed? && a.readable
    ensures Get(Run(Restarted(Get(s, first, cfg).0), es, cfg), a, cfg).1 == Served(first.reply.tier)
  {
    RestartServesStoredTier(Get(s, first, cfg).0, es, cfg, a);
  }

  // ----- the object -----

  class Cache {
    var items: map<string, Cached>
    var lastGood: map<string, Good>
    var streaks: map<string, nat>
    var durable: Option<map<string, Good>>
    const cfg: Config

    ghost function Contents(): State
      reads this
    {
      State(items, lastGood, streaks, durable)
    }

    constructor (c: Config, store: Option<map<string, Good>>)
      ensures Contents() == State(map[], map[], map[], store) && cfg == c
    {
      items, lastGood, streaks, durable, cfg := map[], map[], map[], store, c;
    }

    method NoteFailure(k: string) returns (streak: nat)
      modifies this`streaks
      ensures streaks == old(streaks)[k := streak] && streak == Streak(old(Contents()), k) + 1
    {
      streak := (if k in streaks then streaks[k] else 0) + 1;
      streaks := streaks[k := streak];
    }

    method GetTier(a: Ask) returns (r: Result)
      modifies this
      ensures (Contents(), r) == Get(old(Contents()), a, cfg)
    {
      var k := a.user + "|" + a.org;
      if cfg.ttl <= 0 {
        if a.reply.Found? {
          streaks := streaks - {k};
          return Served(a.reply.tier);
        }
        var _ := NoteFailure(k);
        return Fallback(a.reply);
      }
      if k in items && a.now < items[k].exp {
        return Served(items[k].tier);
      }
      if a.reply.Failed? {
        var _ := NoteFailure(k);
        if k in lastGood && !TooOld(lastGood[k], a.later, cfg) {
          return Served(lastGood[k].tier);
        }
        if durable.Some? && a.readable && a.org in durable.value {
          var g := durable.value[a.org];
          if g.tier != "" && !TooOld(g, a.later, cfg) {
            lastGood := lastGood[k := g];
            return Served(g.tier);
          }
        }
        return Fallback(a.reply);
      }
      items := items[k := Cached(a.reply.tier, a.later + cfg.ttl)];
      lastGood := lastGood[k := Good(a.reply.tier, a.later)];
      streaks := streaks - {k};
      if durable.Some? && a.writable {
        durable := Some(durable.value[a.org := Good(a.reply.tier, a.later)]);
      }
      r := Served(a.reply.tier);
    }

    method Invalidate(user: string, org: string)
      modifies this`items
      ensures Contents() == Invalidated(old(Contents()), user, org)
    {
      items := items - {user + "|" + org};
    }
  }
}
