/** Key shapes.  v1: quota:{org}:{rk}:{tail}; v2: quota:v2:{svc/org}:{rk}:{tail}, with
    literal braces so that one service and org share a Redis hash tag. */
module Keyspace {
  import opened CounterStore
  import opened DualRefinement

  // ----- scopes -----

  predicate Versionish(s: string) {
    |s| >= 2 && s[0] == 'v' && forall i :: 1 <= i < |s| ==> '0' <= s[i] <= '9'
  }

  /** A service or org value that may be embedded in a key. */
  predicate ValidScope(s: string) {
    s != "" && '{' !in s && '}' !in s && '/' !in s && ':' !in s && !Versionish(s)
  }

  /** A declared keyspace: the four legal states, and a service wherever v2 is written. */
  predicate LegalKeyspace(service: string, version: int, dual: bool) {
    && (version == 1 || version == 2)
    && (service != "" ==> ValidScope(service))
    && (version == 2 || dual ==> service != "")
  }

  // ----- builders -----

  function V1Key(org: string, rk: string, tail: string): string {
    "quota:" + (org + ":" + (rk + ":" + tail))
  }

  function V2Key(svc: string, org: string, rk: string, tail: string): string {
    "quota:v2:{" + (svc + "/" + (org + "}" + (":" + (rk + ":" + tail))))
  }

  const UNUSED := "__unused__"

  datatype Counter =
    | GaugeOf(org: string, rk: string)
    | UserOf(org: string, rk: string, uid: string)
    | SeqOf(org: string, rk: string, uid: string)
    | AccOf(org: string, rk: string, period: string)
    | IdemOf(org: string, rk: string, key: string)
    | RateOf(org: string, rk: string)

  function Tail(c: Counter): string {
    match c
    case GaugeOf(_, _) => "gauge"
    case UserOf(_, _, uid) => "gauge:user:" + uid
    case SeqOf(_, _, uid) => "gauge:seq:user:" + uid
    case AccOf(_, _, period) => "acc:" + period
    case IdemOf(_, _, key) => "idem:" + (if key == "" then UNUSED else key)
    case RateOf(_, _) => "rate"
  }

  /** `version` 1 or 2. */
  function KeyOf(svc: string, c: Counter, version: int): string {
    if version == 1 then V1Key(c.org, c.rk, Tail(c)) else V2Key(svc, c.org, c.rk, Tail(c))
  }

  /** What follows the resource key, as it stands in Redis. */
  function Suffix(c: Counter): string {
    match c
    case GaugeOf(_, _) => ":gauge"
    case UserOf(_, _, uid) => ":gauge:user:" + uid
    case SeqOf(_, _, uid) => ":gauge:seq:user:" + uid
    case AccOf(_, _, period) => ":acc:" + period
    case IdemOf(_, _, key) => if key == "" then ":idem:__unused__" else ":idem:" + key
    case RateOf(_, _) => ":rate"
  }

  lemma SuffixIsTail(c: Counter)
    ensures Suffix(c) == ":" + Tail(c)
  {
    match c
    case UserOf(_, _, uid) => Colon(":gauge:user:", "gauge:user:", uid);
    case SeqOf(_, _, uid) => Colon(":gauge:seq:user:", "gauge:seq:user:", uid);
    case AccOf(_, _, period) => Colon(":acc:", "acc:", period);
    case IdemOf(_, _, key) => Colon(":idem:", "idem:", if key == "" then UNUSED else key);
      assert ":idem:" + UNUSED == ":idem:__unused__";
    case _ =>
  }

  lemma Colon(a: string, b: string, x: string)
    requires a == ":" + b
    ensures a + x == ":" + (b + x)
  {
  }

  lemma Prefixed(svc: string, o: string, r: string, t: string)
    ensures V1Key(o, r, t) == "quota:" + o + ":" + r + (":" + t)
    ensures V2Key(svc, o, r, t) == "quota:v2:{" + svc + "/" + o + "}:" + r + (":" + t)
  {
  }

  /** The keys as they stand in Redis. */
  lemma KeyStrings(svc: string, c: Counter)
    ensures KeyOf(svc, c, 1) == "quota:" + c.org + ":" + c.rk + Suffix(c)
    ensures KeyOf(svc, c, 2) == "quota:v2:{" + svc + "/" + c.org + "}:" + c.rk + Suffix(c)
  {
    SuffixIsTail(c);
    Prefixed(svc, c.org, c.rk, Tail(c));
    hide Suffix, Tail, V1Key, V2Key;
  }

  predicate Digits(d: string) {
    forall ch :: ch in d ==> ch in "0123456789"
  }

  /** A scope is refused exactly when it is empty, holds a brace, a slash or a colon, or is
      `v` and a number. */
  lemma ScopeIsExact(s: string)
    ensures ValidScope(s) <==>
              && s != "" && (forall ch :: ch in s ==> ch !in "{}/:")
              && !(exists d: string :: d != "" && Digits(d) && s == "v" + d)
  {
    if Versionish(s) {
      assert s == "v" + s[1..] && Digits(s[1..]);
    }
    if d: string :| d != "" && Digits(d) && s == "v" + d {
      forall i | 1 <= i < |s| ensures '0' <= s[i] <= '9' {
        assert d[i - 1] in d && s[i] == d[i - 1];
      }
    }
  }

  /** The legal declarations: no service, version 1 alone; or a valid service and any
      version and dual-write. */
  lemma DeclarationIsExact(service: string, version: int, dual: bool)
    ensures LegalKeyspace(service, version, dual) <==>
              (service == "" && version == 1 && !dual) || (ValidScope(service) && version in {1, 2})
  {
  }

  predicate ValidCounter(c: Counter) {
    ValidScope(c.org) && ':' !in c.rk
  }

  // ----- cutting a string at a character -----

  function IndexOf(s: string, ch: char): (i: nat)
    ensures i <= |s| && ch !in s[..i] && (i < |s| ==> s[i] == ch)
    ensures i == |s| ==> ch !in s
  {
    if s == "" then 0 else if s[0] == ch then 0
    else
      var j := IndexOf(s[1..], ch);
      assert s[..j + 1] == [s[0]] + s[1..][..j];
      assert s == [s[0]] + s[1..];
      j + 1
  }

  /** What precedes the first occurrence of a character, and what follows it, is determined. */
  lemma CutUnique(a: string, b: string, c: string, d: string, ch: char)
    requires a + [ch] + b == c + [ch] + d && ch !in a && ch !in c
    ensures a == c && b == d
  {
    var s, t := a + [ch] + b, c + [ch] + d;
    assert s[|a|] == ch && t[|c|] == ch;
    assert forall i :: 0 <= i < |a| ==> s[i] == a[i];
    assert forall i :: 0 <= i < |c| ==> t[i] == c[i];
    assert |a| == |c|;
    assert s[..|a|] == a && t[..|c|] == c;
    assert s[|a| + 1..] == b && t[|c| + 1..] == d;
  }

  lemma Cut(a: string, rest: string, b: string, rest': string, ch: char)
    requires a + ([ch] + rest) == b + ([ch] + rest') && ch !in a && ch !in b
    ensures a == b && rest == rest'
  {
    assert a + [ch] + rest == a + ([ch] + rest);
    assert b + [ch] + rest' == b + ([ch] + rest');
    CutUnique(a, rest, b, rest', ch);
  }

  lemma DropPrefix(p: string, a: string, b: string)
    requires p + a == p + b
    ensures a == b
  {
    assert (p + a)[|p|..] == a && (p + b)[|p|..] == b;
  }

  // ----- injectivity -----

  lemma V1Injective(o: string, r: string, t: string, o': string, r': string, t': string)
    requires ':' !in o && ':' !in r && ':' !in o' && ':' !in r'
    requires V1Key(o, r, t) == V1Key(o', r', t')
    ensures o == o' && r == r' && t == t'
  {
    DropPrefix("quota:", o + (":" + (r + (":" + t))), o' + (":" + (r' + (":" + t')))) by {
      Reassoc(o, r, t);
      Reassoc(o', r', t');
    }
    Cut(o, r + (":" + t), o', r' + (":" + t'), ':');
    Cut(r, t, r', t', ':');
  }

  lemma Reassoc(o: string, r: string, t: string)
    ensures V1Key(o, r, t) == "quota:" + (o + (":" + (r + (":" + t))))
  {
    assert r + ":" + t == r + (":" + t);
    assert o + ":" + (r + (":" + t)) == o + (":" + (r + (":" + t)));
  }

  lemma Reassoc2(s: string, o: string, r: string, t: string)
    ensures V2Key(s, o, r, t) == "quota:v2:{" + (s + ("/" + (o + ("}" + (":" + (r + (":" + t)))))))
  {
    assert r + ":" + t == r + (":" + t);
    var rest := ":" + (r + (":" + t));
    assert o + "}" + rest == o + ("}" + rest);
    assert s + "/" + (o + ("}" + rest)) == s + ("/" + (o + ("}" + rest)));
  }

  lemma V2Injective(s: string, o: string, r: string, t: string, s': string, o': string, r': string, t': string)
    requires '/' !in s && '/' !in s' && '}' !in o && '}' !in o' && ':' !in r && ':' !in r'
    requires V2Key(s, o, r, t) == V2Key(s', o', r', t')
    ensures s == s' && o == o' && r == r' && t == t'
  {
    Reassoc2(s, o, r, t);
    Reassoc2(s', o', r', t');
    var x, x' := ":" + (r + (":" + t)), ":" + (r' + (":" + t'));
    DropPrefix("quota:v2:{", s + ("/" + (o + ("}" + x))), s' + ("/" + (o' + ("}" + x'))));
    Cut(s, o + ("}" + x), s', o' + ("}" + x'), '/');
    Cut(o, x, o', x', '}');
    DropPrefix(":", r + (":" + t), r' + (":" + t'));
    Cut(r, t, r', t', ':');
  }

  /** The v1 key of a valid org is never a v2 key. */
  lemma ShapesDisjoint(o: string, r: string, t: string, s': string, o': string, r': string, t': string)
    requires ValidScope(o)
    ensures V1Key(o, r, t) != V2Key(s', o', r', t')
    ensures !("quota:v2:" <= V1Key(o, r, t))
  {
    NotV2Prefix(o, r, t);
    assert "quota:v2:" <= V2Key(s', o', r', t');
  }

  lemma NotV2Prefix(o: string, r: string, t: string)
    requires ':' !in o && !Versionish(o)
    ensures !("quota:v2:" <= V1Key(o, r, t))
  {
    assert Versionish("v2");
    if "quota:v2:" <= V1Key(o, r, t) {
      var k := V1Key(o, r, t);
      Reassoc(o, r, t);
      var rest := k[9..];
      assert k == "quota:v2:" + rest;
      assert k == "quota:" + ("v2" + (":" + rest));
      DropPrefix("quota:", "v2" + (":" + rest), o + (":" + (r + (":" + t))));
      Cut("v2", rest, o, r + (":" + t), ':');
    }
  }

  // ----- the classifier -----

  function Split(s: string, ch: char): (parts: seq<string>)
    ensures |parts| >= 1
    decreases |s|
  {
    var i := IndexOf(s, ch);
    if i == |s| then [s] else [s[..i]] + Split(s[i + 1..], ch)
  }

  function Join(parts: seq<string>, ch: char): string
    requires |parts| >= 1
  {
    if |parts| == 1 then parts[0] else parts[0] + ([ch] + Join(parts[1..], ch))
  }

  lemma CutBack(s: string, i: nat)
    requires i < |s|
    ensures s == s[..i] + ([s[i]] + s[i + 1..])
  {
  }

  lemma TailOf<T>(x: T, xs: seq<T>)
    ensures ([x] + xs)[0] == x && ([x] + xs)[1..] == xs
  {
  }

  lemma SplitUnfold(s: string, ch: char)
    ensures var i := IndexOf(s, ch);
            if i == |s| then Split(s, ch) == [s]
            else Split(s, ch)[0] == s[..i] && Split(s, ch)[1..] == Split(s[i + 1..], ch)
                 && s == s[..i] + ([ch] + s[i + 1..]) && |Split(s, ch)| > 1
  {
    var i := IndexOf(s, ch);
    if i < |s| {
      CutBack(s, i);
      TailOf(s[..i], Split(s[i + 1..], ch));
    }
  }

  lemma {:induction false} JoinSplit(s: string, ch: char)
    ensures Join(Split(s, ch), ch) == s
    decreases |s|
  {
    SplitUnfold(s, ch);
    var i := IndexOf(s, ch);
    if i < |s| {
      JoinSplit(s[i + 1..], ch);
    }
  }

  /** The first separator stands right after a text without one. */
  lemma {:induction false} FirstIndex(a: string, rest: string, ch: char)
    requires ch !in a
    ensures IndexOf(a + ([ch] + rest), ch) == |a|
  {
    var s := a + ([ch] + rest);
    if a == "" {
      assert s[0] == ch;
    } else {
      FirstIndex(a[1..], rest, ch);
      assert s[0] == a[0] && s[1..] == a[1..] + ([ch] + rest);
    }
  }

  lemma SplitCut(a: string, rest: string, ch: char)
    requires ch !in a
    ensures Split(a + ([ch] + rest), ch) == [a] + Split(rest, ch)
  {
    var s := a + ([ch] + rest);
    FirstIndex(a, rest, ch);
    assert s[..|a|] == a && s[|a| + 1..] == rest;
  }

  function Rest(s: string, ch: char): string {
    var i := IndexOf(s, ch);
    if i == |s| then "" else s[i + 1..]
  }

  lemma SplitStep(s: string, ch: char)
    requires |Split(s, ch)| > 1
    ensures ch !in Split(s, ch)[0]
    ensures s == Split(s, ch)[0] + ([ch] + Rest(s, ch))
    ensures Split(s, ch)[1..] == Split(Rest(s, ch), ch)
  {
    SplitUnfold(s, ch);
    hide Split, IndexOf;
  }

  /** (org, rk, tail) of a v1 counter key. */
  function Classify(key: string): Option<(string, string, string)> {
    if !("quota:" <= key) || "quota:v2:" <= key then None
    else
      var parts := Split(key, ':');
      if |parts| < 4 || '.' !in parts[2] || Versionish(parts[1]) then None
      else Some((parts[1], parts[2], Join(parts[3..], ':')))
  }

  predicate Classifiable(o: string, r: string) {
    ':' !in o && ':' !in r && '.' in r && !Versionish(o)
  }

  lemma SplitTwice(o: string, r: string, t: string)
    requires ':' !in o && ':' !in r
    ensures Split(o + (":" + (r + (":" + t))), ':') == [o] + ([r] + Split(t, ':'))
  {
    SplitCut(o, r + (":" + t), ':');
    SplitCut(r, t, ':');
  }

  lemma SplitV1(o: string, r: string, t: string)
    requires ':' !in o && ':' !in r
    ensures Split(V1Key(o, r, t), ':') == ["quota"] + ([o] + ([r] + Split(t, ':')))
  {
    var k1 := o + (":" + (r + (":" + t)));
    Reassoc(o, r, t);
    assert "quota:" + k1 == "quota" + (":" + k1);
    SplitCut("quota", k1, ':');
    SplitTwice(o, r, t);
  }

  lemma ClassifyRecovers(o: string, r: string, t: string)
    requires Classifiable(o, r)
    ensures Classify(V1Key(o, r, t)) == Some((o, r, t))
  {
    NotV2Prefix(o, r, t);
    SplitV1(o, r, t);
    var parts := Split(V1Key(o, r, t), ':');
    assert parts[1] == o && parts[2] == r && parts[3..] == Split(t, ':');
    JoinSplit(t, ':');
  }

  lemma ClassifySound(key: string)
    requires Classify(key).Some?
    ensures var (o, r, t) := Classify(key).value;
            Classifiable(o, r) && key == V1Key(o, r, t)
  {
    var parts := Split(key, ':');
    var r1 := Rest(key, ':');
    SplitStep(key, ':');
    SplitTail(parts, r1, ':');
    SplitStep(r1, ':');
    var r2 := Rest(r1, ':');
    SplitTail(parts[1..], r2, ':');
    SplitStep(r2, ':');
    var t := Rest(r2, ':');
    assert parts[1..][1..] == parts[2..] && parts[2..][1..] == parts[3..];
    JoinSplit(t, ':');
    QuotaFirst(key, parts[0], r1);
    Reassoc(parts[1], parts[2], t);
  }

  lemma SplitTail(parts: seq<string>, rest: string, ch: char)
    requires |parts| > 2 && parts[1..] == Split(rest, ch)
    ensures |Split(rest, ch)| > 1 && Split(rest, ch)[0] == parts[1]
  {
  }

  lemma QuotaFirst(key: string, head: string, rest: string)
    requires "quota:" <= key && key == head + (":" + rest) && ':' !in head
    ensures key == "quota:" + rest
  {
    var tail := key[6..];
    assert key == "quota" + (":" + tail);
    Cut(head, rest, "quota", tail, ':');
  }

  /** A key classifies exactly when it is the v1 key of a classifiable org and resource,
      and then to its own parts. */
  lemma ClassifyExact(key: string)
    ensures Classify(key).Some? <==> exists o, r, t :: Classifiable(o, r) && key == V1Key(o, r, t)
  {
    if Classify(key).Some? {
      ClassifySound(key);
    } else if exists o, r, t :: Classifiable(o, r) && key == V1Key(o, r, t) {
      var o, r, t :| Classifiable(o, r) && key == V1Key(o, r, t);
      ClassifyRecovers(o, r, t);
    }
  }

  /** v2 keys, the migration marker, the reconciler's activity record and the tier
      record are never taken for v1 counters, so no reap deletes them. */
  lemma OtherKeysNeverClassify(svc: string, o: string, r: string, t: string)
    ensures Classify(V2Key(svc, o, r, t)).None?
    ensures Classify("quota:keyspace:meta:" + svc).None?
    ensures Classify("quota:reconcile:recent:" + o).None?
    ensures Classify("quota:tier:lkg:" + o).None?
  {
    assert "quota:v2:" <= V2Key(svc, o, r, t);
    ThirdPart("keyspace", "meta", svc);
    ThirdPart("reconcile", "recent", o);
    ThirdPart("tier", "lkg", o);
    Literals(svc, o);
  }

  lemma Literals(svc: string, o: string)
    ensures "quota:keyspace:meta:" + svc == V1Key("keyspace", "meta", svc)
    ensures "quota:reconcile:recent:" + o == V1Key("reconcile", "recent", o)
    ensures "quota:tier:lkg:" + o == V1Key("tier", "lkg", o)
  {
  }

  lemma ThirdPart(a: string, b: string, rest: string)
    requires ':' !in a && ':' !in b && '.' !in b
    ensures Classify(V1Key(a, b, rest)).None?
  {
    SplitV1(a, b, rest);
    assert Split(V1Key(a, b, rest), ':')[2] == b;
  }

  // ----- hash tags (section "Hash tags" of the Redis Cluster Specification) -----

  /** What Redis Cluster hashes: the text between the first `{` and the first `}` after
      it when that is not empty, else the whole key. */
  function HashTag(key: string): string {
    var i := IndexOf(key, '{');
    if i == |key| then key
    else
      var after := key[i + 1..];
      var j := IndexOf(after, '}');
      if j == |after| || j == 0 then key else after[..j]
  }

  lemma HashTagOf(before: string, tag: string, rest: string)
    requires '{' !in before && '}' !in tag && tag != ""
    ensures HashTag(before + (['{'] + (tag + (['}'] + rest)))) == tag
  {
    var inner := tag + (['}'] + rest);
    FirstIndex(before, inner, '{');
    assert (before + (['{'] + inner))[|before| + 1..] == inner;
    FirstIndex(tag, rest, '}');
    assert inner[..|tag|] == tag;
  }

  /** Without an opening brace, or with nothing between the braces, the whole key is hashed. */
  lemma HashTagWhole(before: string, rest: string)
    requires '{' !in before
    ensures HashTag(before) == before
    ensures HashTag(before + (['{'] + (['}'] + rest))) == before + (['{'] + (['}'] + rest))
  {
    var inner := ['}'] + rest;
    FirstIndex(before, inner, '{');
    assert (before + (['{'] + inner))[|before| + 1..] == inner;
    assert inner[0] == '}';
  }

  lemma HashTagIsScope(svc: string, org: string, rk: string, tail: string)
    requires ValidScope(svc) && ValidScope(org)
    ensures HashTag(V2Key(svc, org, rk, tail)) == svc + "/" + org
  {
    Reassoc2(svc, org, rk, tail);
    var rest := ":" + (rk + (":" + tail));
    assert svc + ("/" + (org + ("}" + rest))) == (svc + "/" + org) + (['}'] + rest);
    assert V2Key(svc, org, rk, tail) == "quota:v2:" + (['{'] + ((svc + "/" + org) + (['}'] + rest)));
    HashTagOf("quota:v2:", svc + "/" + org, rest);
  }

  /** Two scopes share a slot by hash tag only if they are the same service and org. */
  lemma HashTagsSeparate(svc: string, org: string, svc': string, org': string)
    requires ValidScope(svc) && ValidScope(org) && ValidScope(svc') && ValidScope(org')
    requires svc + "/" + org == svc' + "/" + org'
    ensures svc == svc' && org == org'
  {
    CutUnique(svc, org, svc', org', '/');
  }

  // ----- tails -----

  /** The same counter, or the empty idempotency key and its placeholder. */
  predicate SameKey(c: Counter, c': Counter) {
    || c == c'
    || (c.IdemOf? && c' == c.(key := UNUSED) && c.key == "")
    || (c'.IdemOf? && c == c'.(key := UNUSED) && c'.key == "")
  }

  lemma TailInjective(c: Counter, c': Counter)
    requires Tail(c) == Tail(c') && c.org == c'.org && c.rk == c'.rk
    ensures SameKey(c, c')
  {
    TailShape(c);
    TailShape(c');
    match c
    case UserOf(_, _, uid) => if c'.UserOf? { DropPrefix("gauge:user:", uid, c'.uid); }
    case SeqOf(_, _, uid) => if c'.SeqOf? { DropPrefix("gauge:seq:user:", uid, c'.uid); }
    case AccOf(_, _, period) => if c'.AccOf? { DropPrefix("acc:", period, c'.period); }
    case IdemOf(_, _, key) =>
      if c'.IdemOf? {
        DropPrefix("idem:", if key == "" then UNUSED else key, if c'.key == "" then UNUSED else c'.key);
      }
    case _ =>
  }

  /** Characters that tell the tails apart. */
  lemma TailShape(c: Counter)
    ensures var t := Tail(c);
            match c
            case GaugeOf(_, _) => |t| == 5 && t[0] == 'g'
            case UserOf(_, _, _) => |t| >= 11 && t[0] == 'g' && t[6] == 'u'
            case SeqOf(_, _, _) => |t| >= 15 && t[0] == 'g' && t[6] == 's'
            case AccOf(_, _, _) => |t| >= 4 && t[0] == 'a'
            case IdemOf(_, _, _) => |t| >= 5 && t[0] == 'i'
            case RateOf(_, _) => |t| == 4 && t[0] == 'r'
  {
  }

  /** Two counters share a key in one shape exactly when they are the same counter, except
      that the empty idempotency key shares the key of `__unused__`; no v1 key is a v2 key. */
  lemma BuildersInjective(svc: string, c: Counter, c': Counter, v: int, v': int)
    requires ValidScope(svc) && ValidCounter(c) && ValidCounter(c') && 1 <= v <= 2 && 1 <= v' <= 2
    ensures KeyOf(svc, c, v) == KeyOf(svc, c', v') <==> v == v' && SameKey(c, c')
  {
    assert SameKey(c, c') ==> Tail(c) == Tail(c');
    if v != v' {
      ShapesDisjoint(c.org, c.rk, Tail(c), svc, c'.org, c'.rk, Tail(c'));
      ShapesDisjoint(c'.org, c'.rk, Tail(c'), svc, c.org, c.rk, Tail(c));
    } else if KeyOf(svc, c, v) == KeyOf(svc, c', v) {
      if v == 1 {
        V1Injective(c.org, c.rk, Tail(c), c'.org, c'.rk, Tail(c'));
      } else {
        V2Injective(svc, c.org, c.rk, Tail(c), svc, c'.org, c'.rk, Tail(c'));
      }
      TailInjective(c, c');
    }
  }

  // ----- the pairs the engine builds are a consistent universe -----

  function KindOf(c: Counter, ttlOf: string -> int): Kind {
    match c
    case AccOf(_, _, period) => Acc(ttlOf(period))
    case IdemOf(_, _, _) => Latch
    case _ => Gauge
  }

  function PairOf(svc: string, c: Counter, ttlOf: string -> int): KeyPair<string> {
    KeyPair(KeyOf(svc, c, 1), KeyOf(svc, c, 2), KindOf(c, ttlOf))
  }

  /** Every counter pair of one service: valid orgs, colon-free resource keys. */
  ghost function Universe(svc: string, ttlOf: string -> int): iset<KeyPair<string>> {
    iset c: Counter | ValidCounter(c) && !c.RateOf? :: PairOf(svc, c, ttlOf)
  }

  lemma PairsConsistent(svc: string, c: Counter, c': Counter, ttlOf: string -> int)
    requires ValidScope(svc) && ValidCounter(c) && ValidCounter(c')
    ensures var p, q := PairOf(svc, c, ttlOf), PairOf(svc, c', ttlOf);
            p.v1 != q.v2 && (p.v1 == q.v1 ==> p == q) && (p.v2 == q.v2 ==> p == q)
  {
    BuildersInjective(svc, c, c', 1, 2);
    BuildersInjective(svc, c, c', 1, 1);
    BuildersInjective(svc, c, c', 2, 2);
    if SameKey(c, c') {
      assert KindOf(c, ttlOf) == KindOf(c', ttlOf);
    }
  }

  lemma UniverseConsistent(svc: string, ttlOf: string -> int)
    requires ValidScope(svc)
    ensures Consistent(Universe(svc, ttlOf))
  {
    forall p, q | p in Universe(svc, ttlOf) && q in Universe(svc, ttlOf)
      ensures p.v1 != q.v2 && (p.v1 == q.v1 ==> p == q) && (p.v2 == q.v2 ==> p == q)
    {
      var c :| ValidCounter(c) && p == PairOf(svc, c, ttlOf);
      var c' :| ValidCounter(c') && q == PairOf(svc, c', ttlOf);
      PairsConsistent(svc, c, c', ttlOf);
    }
  }

  /** The (version, dual-write) declaration as a mode; an absent version is 1. */
  function ModeOf(version: int, dual: bool): Mode {
    if dual then Dual(version == 2) else if version == 2 then V2Only else V1Only
  }

  /** What the pair builders hand to the store: the declared shape first and, during
      dual-write, the other one. */
  function EnginePair(svc: string, version: int, dual: bool, c: Counter): DualPair<string> {
    var primary := if version == 0 then 1 else version;
    DualPair(KeyOf(svc, c, primary), if dual then Some(KeyOf(svc, c, if primary == 1 then 2 else 1)) else None)
  }

  /** In every legal declaration the engine works on the pairs of the refinement, in the
      mode the declaration names, and wherever v2 keys occur their service is a valid scope. */
  lemma LegalDeclarationIsAMode(svc: string, version: int, dual: bool, c: Counter, ttlOf: string -> int)
    requires LegalKeyspace(svc, if version == 0 then 1 else version, dual)
    ensures EnginePair(svc, version, dual, c) == Resolve(ModeOf(version, dual), PairOf(svc, c, ttlOf))
    ensures version == 2 || dual ==> ValidScope(svc)
  {
  }
}
