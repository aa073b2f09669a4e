/** Regular expressions with the constructs that SpitfireUtils.IceParser uses, and a backtracking matcher that
    yields all matches of a prefix in the order in which the engine tries them. */
module IceRegex {
  import opened Options

  datatype Class = Digit | Hex | Token | Ice | LowerAlnum | LowerAlnumDash | Space | NotNewline

  predicate IsDigit(c: char) {
    '0' <= c <= '9'
  }

  predicate IsLower(c: char) {
    'a' <= c <= 'z'
  }

  predicate IsUpper(c: char) {
    'A' <= c <= 'Z'
  }

  /** The characters that \s matches. */
  predicate IsSpace(c: char) {
    var n := c as int;
    9 <= n <= 13 || n == 32 || n == 0x85 || n == 0xA0 || n == 0x1680 || 0x2000 <= n <= 0x200A
    || n == 0x2028 || n == 0x2029 || n == 0x202F || n == 0x205F || n == 0x3000
  }

  predicate Member(cls: Class, c: char) {
    match cls
    case Digit => IsDigit(c)
    case Hex => IsDigit(c) || 'a' <= c <= 'f' || 'A' <= c <= 'F'
    case Token => IsDigit(c) || IsLower(c) || IsUpper(c) || c in "-.!%*_+`'~"
    case Ice => IsDigit(c) || IsLower(c) || IsUpper(c) || c == '+' || c == '/'
    case LowerAlnum => IsDigit(c) || IsLower(c)
    case LowerAlnumDash => IsDigit(c) || IsLower(c) || c == '-'
    case Space => IsSpace(c)
    case NotNewline => c != '\n'
  }

  /** The upper bound of a repetition. */
  datatype Bound = AtMost(n: nat) | Unbounded

  predicate Within(n: nat, max: Bound) {
    max.AtMost? ==> n <= max.n
  }

  datatype Regex =
    | Lit(text: string)
    | Chars(cls: Class, min: nat, max: Bound)
    | Seq(first: Regex, second: Regex)
    | Alt(left: Regex, right: Regex)
    | Opt(inner: Regex)
    | Plus(inner: Regex)
    | Group(k: nat, inner: Regex)

  predicate AllIn(cls: Class, s: string) {
    forall i :: 0 <= i < |s| ==> Member(cls, s[i])
  }

  /** The language of an expression: what it matches, whatever the order of trying. */
  ghost predicate In(r: Regex, t: string)
    decreases r, |t|
  {
    match r
    case Lit(text) => t == text
    case Chars(cls, min, max) => min <= |t| && Within(|t|, max) && AllIn(cls, t)
    case Seq(a, b) => exists k :: 0 <= k <= |t| && In(a, t[..k]) && In(b, t[k..])
    case Alt(a, b) => In(a, t) || In(b, t)
    case Opt(a) => t == "" || In(a, t)
    case Plus(a) => exists k :: 0 <= k <= |t| && In(a, t[..k]) && (k == |t| || (0 < k && In(r, t[k..])))
    case Group(_, a) => In(a, t)
  }

  /** A match of the first `taken` characters, with what the groups captured. */
  datatype Match = Match(taken: nat, groups: map<nat, string>)

  /** How many leading characters are in the class, as far as the bound allows. */
  function Extent(cls: Class, s: string, max: Bound): (n: nat)
    ensures n <= |s| && Within(n, max) && AllIn(cls, s[..n])
    ensures n < |s| && Within(n + 1, max) ==> !Member(cls, s[n])
  {
    if s == "" || max == AtMost(0) || !Member(cls, s[0]) then 0
    else
      var n := 1 + Extent(cls, s[1..], if max.AtMost? then AtMost(max.n - 1) else Unbounded);
      assert s[..n] == [s[0]] + s[1..][..n - 1];
      n
  }

  /** Greedy: the longest first. */
  function Descending(hi: nat, lo: nat): seq<Match> {
    if hi < lo then [] else [Match(hi, map[])] + if hi == 0 then [] else Descending(hi - 1, lo)
  }

  /** The match m continued by the matches ms of what follows it. */
  function Continue(m: Match, ms: seq<Match>): (r: seq<Match>)
    ensures |r| == |ms|
    ensures forall j :: 0 <= j < |ms| ==> r[j] == Match(m.taken + ms[j].taken, m.groups + ms[j].groups)
  {
    if ms == [] then [] else [Match(m.taken + ms[0].taken, m.groups + ms[0].groups)] + Continue(m, ms[1..])
  }

  /** All matches of prefixes of s, in the order in which a backtracking engine finds them. */
  function Run(r: Regex, s: string): (ms: seq<Match>)
    ensures forall j :: 0 <= j < |ms| ==> ms[j].taken <= |s|
    decreases r, |s|, 1, 0
  {
    match r
    case Lit(text) => if |text| <= |s| && s[..|text|] == text then [Match(|text|, map[])] else []
    case Chars(cls, min, max) =>
      var ms := Descending(Extent(cls, s, max), min);
      DescendingFacts(Extent(cls, s, max), min);
      ms
    case Seq(a, b) => Then(Run(a, s), b, s)
    case Alt(a, b) => Run(a, s) + Run(b, s)
    case Opt(a) => Run(a, s) + [Match(0, map[])]
    case Plus(a) => Loop(Run(a, s), a, s)
    case Group(k, a) => Capture(k, Run(a, s), s)
  }

  function Then(ms: seq<Match>, b: Regex, s: string): (r: seq<Match>)
    requires forall j :: 0 <= j < |ms| ==> ms[j].taken <= |s|
    ensures forall j :: 0 <= j < |r| ==> r[j].taken <= |s|
    decreases b, |s| + 1, 0, |ms|
  {
    if ms == [] then [] else Continue(ms[0], Run(b, s[ms[0].taken..])) + Then(ms[1..], b, s)
  }

  /** After an iteration that consumed something, more iterations are tried before stopping. */
  function Loop(ms: seq<Match>, a: Regex, s: string): (r: seq<Match>)
    requires forall j :: 0 <= j < |ms| ==> ms[j].taken <= |s|
    ensures forall j :: 0 <= j < |r| ==> r[j].taken <= |s|
    decreases Plus(a), |s|, 0, |ms|
  {
    if ms == [] then []
    else
      (if ms[0].taken == 0 then [] else Continue(ms[0], Run(Plus(a), s[ms[0].taken..])))
      + [ms[0]] + Loop(ms[1..], a, s)
  }

  function Capture(k: nat, ms: seq<Match>, s: string): (r: seq<Match>)
    requires forall j :: 0 <= j < |ms| ==> ms[j].taken <= |s|
    ensures |r| == |ms|
    ensures forall j :: 0 <= j < |r| ==> r[j].taken == ms[j].taken
    ensures forall j :: 0 <= j < |r| ==> ms[j].taken <= |s| && r[j].groups == ms[j].groups[k := s[..ms[j].taken]]
  {
    if ms == [] then []
    else [Match(ms[0].taken, ms[0].groups[k := s[..ms[0].taken]])] + Capture(k, ms[1..], s)
  }

  lemma {:induction false} DescendingFacts(hi: nat, lo: nat)
    ensures forall j :: 0 <= j < |Descending(hi, lo)| ==>
              lo <= Descending(hi, lo)[j].taken <= hi && Descending(hi, lo)[j].groups == map[]
    ensures forall n :: lo <= n <= hi ==> Match(n, map[]) in Descending(hi, lo)
  {
    if hi > 0 && lo <= hi { DescendingFacts(hi - 1, lo); }
  }

  // ---- The matcher finds exactly the language ----

  predicate EndsAt(ms: seq<Match>, n: nat) {
    exists j :: 0 <= j < |ms| && ms[j].taken == n
  }

  ghost predicate AllWithin(ms: seq<Match>, r: Regex, s: string) {
    forall j :: 0 <= j < |ms| ==> ms[j].taken <= |s| && In(r, s[..ms[j].taken])
  }

  lemma {:induction false} ContinueSound(m: Match, ms: seq<Match>, a: Regex, b: Regex, s: string)
    requires m.taken <= |s| && In(a, s[..m.taken])
    requires AllWithin(ms, b, s[m.taken..])
    ensures AllWithin(Continue(m, ms), Seq(a, b), s)
  {
    forall j | 0 <= j < |ms| ensures m.taken + ms[j].taken <= |s| && In(Seq(a, b), s[..m.taken + ms[j].taken]) {
      var t := s[..m.taken + ms[j].taken];
      assert t[..m.taken] == s[..m.taken];
      assert t[m.taken..] == s[m.taken..][..ms[j].taken];
    }
  }

  lemma {:induction false} AgainSound(m: Match, ms: seq<Match>, a: Regex, s: string)
    requires 0 < m.taken <= |s| && In(a, s[..m.taken])
    requires AllWithin(ms, Plus(a), s[m.taken..])
    ensures AllWithin(Continue(m, ms), Plus(a), s)
  {
    forall j | 0 <= j < |ms| ensures m.taken + ms[j].taken <= |s| && In(Plus(a), s[..m.taken + ms[j].taken]) {
      var t := s[..m.taken + ms[j].taken];
      assert t[..m.taken] == s[..m.taken];
      assert t[m.taken..] == s[m.taken..][..ms[j].taken];
    }
  }

  lemma {:induction false} OnceIsPlus(a: Regex, t: string)
    requires In(a, t)
    ensures In(Plus(a), t)
  {
    assert t[..|t|] == t;
  }

  lemma {:induction false} Sound(r: Regex, s: string)
    ensures AllWithin(Run(r, s), r, s)
    decreases r, |s|, 1, 0
  {
    match r
    case Lit(text) =>
    case Chars(cls, min, max) =>
      var n := Extent(cls, s, max);
      DescendingFacts(n, min);
      forall k | min <= k <= n ensures In(r, s[..k]) {
        assert forall i :: 0 <= i < k ==> s[..k][i] == s[..n][i];
      }
    case Seq(a, b) => Sound(a, s); ThenSound(Run(a, s), a, b, s);
    case Alt(a, b) => Sound(a, s); Sound(b, s);
    case Opt(a) => Sound(a, s);
    case Plus(a) => Sound(a, s); LoopSound(Run(a, s), a, s);
    case Group(k, a) => Sound(a, s);
  }

  lemma {:induction false} ThenSound(ms: seq<Match>, a: Regex, b: Regex, s: string)
    requires AllWithin(ms, a, s)
    ensures AllWithin(Then(ms, b, s), Seq(a, b), s)
    decreases b, |s| + 1, 0, |ms|
  {
    if ms != [] {
      Sound(b, s[ms[0].taken..]);
      ContinueSound(ms[0], Run(b, s[ms[0].taken..]), a, b, s);
      ThenSound(ms[1..], a, b, s);
    }
  }

  lemma {:induction false} LoopSound(ms: seq<Match>, a: Regex, s: string)
    requires AllWithin(ms, a, s)
    ensures AllWithin(Loop(ms, a, s), Plus(a), s)
    decreases Plus(a), |s|, 0, |ms|
  {
    if ms != [] {
      var m := ms[0];
      OnceIsPlus(a, s[..m.taken]);
      LoopSound(ms[1..], a, s);
      if m.taken > 0 {
        Sound(Plus(a), s[m.taken..]);
        AgainSound(m, Run(Plus(a), s[m.taken..]), a, s);
      }
    }
  }

  lemma {:induction false} Complete(r: Regex, s: string, n: nat)
    requires n <= |s| && In(r, s[..n])
    ensures EndsAt(Run(r, s), n)
    decreases r, n
  {
    match r
    case Lit(text) => assert Run(r, s)[0].taken == n;
    case Chars(cls, min, max) =>
      ExtentIsLongest(cls, s, max, n);
      DescendingFacts(Extent(cls, s, max), min);
      assert Match(n, map[]) in Run(r, s);
    case Seq(a, b) =>
      var k :| 0 <= k <= n && In(a, s[..n][..k]) && In(b, s[..n][k..]);
      assert s[..n][..k] == s[..k] && s[..n][k..] == s[k..][..n - k];
      Complete(a, s, k);
      Complete(b, s[k..], n - k);
      ThenReaches(Run(a, s), b, s, k, n);
    case Alt(a, b) =>
      if In(a, s[..n]) { Complete(a, s, n); AppendEndsAt(Run(a, s), Run(b, s), n); }
      else { Complete(b, s, n); AppendEndsAt(Run(a, s), Run(b, s), n); }
    case Opt(a) =>
      if n > 0 { Complete(a, s, n); } else { assert [Match(0, map[])][0].taken == n; }
      AppendEndsAt(Run(a, s), [Match(0, map[])], n);
    case Plus(a) =>
      var k :| 0 <= k <= n && In(a, s[..n][..k]) && (k == n || (0 < k && In(r, s[..n][k..])));
      assert s[..n][..k] == s[..k] && s[..n][k..] == s[k..][..n - k];
      Complete(a, s, k);
      if k < n { Complete(r, s[k..], n - k); }
      LoopReaches(Run(a, s), a, s, k, n);
    case Group(g, a) =>
      Complete(a, s, n);
      var j :| 0 <= j < |Run(a, s)| && Run(a, s)[j].taken == n;
      assert Run(r, s)[j].taken == n;
  }

  lemma {:induction false} ExtentIsLongest(cls: Class, s: string, max: Bound, n: nat)
    requires n <= |s| && Within(n, max) && AllIn(cls, s[..n])
    ensures n <= Extent(cls, s, max)
  {
    var e := Extent(cls, s, max);
    assert forall i :: 0 <= i < n ==> s[i] == s[..n][i];
  }

  lemma {:induction false} AppendEndsAt(xs: seq<Match>, ys: seq<Match>, n: nat)
    ensures EndsAt(xs + ys, n) <==> EndsAt(xs, n) || EndsAt(ys, n)
  {
    if EndsAt(xs, n) {
      var j :| 0 <= j < |xs| && xs[j].taken == n;
      assert (xs + ys)[j].taken == n;
    }
    if EndsAt(ys, n) {
      var j :| 0 <= j < |ys| && ys[j].taken == n;
      assert (xs + ys)[|xs| + j].taken == n;
    }
  }

  lemma {:induction false} ContinueEndsAt(m: Match, ms: seq<Match>, n: nat)
    requires EndsAt(ms, n)
    ensures EndsAt(Continue(m, ms), m.taken + n)
  {
    var j :| 0 <= j < |ms| && ms[j].taken == n;
    assert Continue(m, ms)[j].taken == m.taken + n;
  }

  lemma {:induction false} ThenReaches(ms: seq<Match>, b: Regex, s: string, k: nat, n: nat)
    requires forall j :: 0 <= j < |ms| ==> ms[j].taken <= |s|
    requires EndsAt(ms, k) && k <= n <= |s| && EndsAt(Run(b, s[k..]), n - k)
    ensures EndsAt(Then(ms, b, s), n)
  {
    var here := Continue(ms[0], Run(b, s[ms[0].taken..]));
    if ms[0].taken == k {
      ContinueEndsAt(ms[0], Run(b, s[k..]), n - k);
    } else {
      assert EndsAt(ms[1..], k) by {
        var j :| 0 <= j < |ms| && ms[j].taken == k;
        assert ms[1..][j - 1].taken == k;
      }
      ThenReaches(ms[1..], b, s, k, n);
    }
    AppendEndsAt(here, Then(ms[1..], b, s), n);
  }

  lemma {:induction false} LoopReaches(ms: seq<Match>, a: Regex, s: string, k: nat, n: nat)
    requires forall j :: 0 <= j < |ms| ==> ms[j].taken <= |s|
    requires EndsAt(ms, k) && k <= n <= |s|
    requires k == n || (0 < k && EndsAt(Run(Plus(a), s[k..]), n - k))
    ensures EndsAt(Loop(ms, a, s), n)
  {
    var m := ms[0];
    var more := if m.taken == 0 then [] else Continue(m, Run(Plus(a), s[m.taken..]));
    if m.taken == k {
      if k == n { assert [m][0].taken == n; } else { ContinueEndsAt(m, Run(Plus(a), s[k..]), n - k); }
    } else {
      assert EndsAt(ms[1..], k) by {
        var j :| 0 <= j < |ms| && ms[j].taken == k;
        assert ms[1..][j - 1].taken == k;
      }
      LoopReaches(ms[1..], a, s, k, n);
    }
    AppendEndsAt(more, [m], n);
    AppendEndsAt(more + [m], Loop(ms[1..], a, s), n);
  }

  /** Whatever the order of trying and the greediness, a prefix is matched exactly when it is in the language. */
  lemma {:induction false} MatcherFindsTheLanguage(r: Regex, s: string, n: nat)
    requires n <= |s|
    ensures EndsAt(Run(r, s), n) <==> In(r, s[..n])
  {
    Sound(r, s);
    if In(r, s[..n]) { Complete(r, s, n); }
  }

  // ---- What the engine returns: the first match ----

  predicate GroupFree(r: Regex) {
    match r
    case Lit(_) => true
    case Chars(_, _, _) => true
    case Seq(a, b) => GroupFree(a) && GroupFree(b)
    case Alt(a, b) => GroupFree(a) && GroupFree(b)
    case Opt(a) => GroupFree(a)
    case Plus(a) => GroupFree(a)
    case Group(_, _) => false
  }

  predicate NoneCaptured(ms: seq<Match>) {
    forall j :: 0 <= j < |ms| ==> ms[j].groups == map[]
  }

  lemma {:induction false} GroupFreeCapturesNothing(r: Regex, s: string)
    requires GroupFree(r)
    ensures NoneCaptured(Run(r, s))
    decreases r, |s|, 1, 0
  {
    match r
    case Lit(text) =>
    case Chars(cls, min, max) => DescendingFacts(Extent(cls, s, max), min);
    case Seq(a, b) => GroupFreeCapturesNothing(a, s); ThenCapturesNothing(Run(a, s), b, s);
    case Alt(a, b) => GroupFreeCapturesNothing(a, s); GroupFreeCapturesNothing(b, s);
    case Opt(a) => GroupFreeCapturesNothing(a, s);
    case Plus(a) => GroupFreeCapturesNothing(a, s); LoopCapturesNothing(Run(a, s), a, s);
  }

  lemma {:induction false} ThenCapturesNothing(ms: seq<Match>, b: Regex, s: string)
    requires forall j :: 0 <= j < |ms| ==> ms[j].taken <= |s|
    requires GroupFree(b) && NoneCaptured(ms)
    ensures NoneCaptured(Then(ms, b, s))
    decreases b, |s| + 1, 0, |ms|
  {
    if ms != [] {
      GroupFreeCapturesNothing(b, s[ms[0].taken..]);
      ThenCapturesNothing(ms[1..], b, s);
    }
  }

  lemma {:induction false} LoopCapturesNothing(ms: seq<Match>, a: Regex, s: string)
    requires forall j :: 0 <= j < |ms| ==> ms[j].taken <= |s|
    requires GroupFree(a) && NoneCaptured(ms)
    ensures NoneCaptured(Loop(ms, a, s))
    decreases Plus(a), |s|, 0, |ms|
  {
    if ms != [] {
      if ms[0].taken > 0 { GroupFreeCapturesNothing(Plus(a), s[ms[0].taken..]); }
      LoopCapturesNothing(ms[1..], a, s);
    }
  }

  /** The first match of a continuation, when only matches that end at k can be continued and all of those
      captured g. */
  lemma {:induction false} FirstOfThen(ms: seq<Match>, b: Regex, s: string, k: nat, g: map<nat, string>)
    requires forall j :: 0 <= j < |ms| ==> ms[j].taken <= |s|
    requires EndsAt(ms, k) && k <= |s| && Run(b, s[k..]) != []
    requires forall j :: 0 <= j < |ms| && ms[j].taken == k ==> ms[j].groups == g
    requires forall j :: 0 <= j < |ms| && ms[j].taken != k ==> Run(b, s[ms[j].taken..]) == []
    ensures Then(ms, b, s) != []
    ensures Then(ms, b, s)[0] == Match(k + Run(b, s[k..])[0].taken, g + Run(b, s[k..])[0].groups)
  {
    if ms[0].taken != k {
      assert EndsAt(ms[1..], k) by {
        var j :| 0 <= j < |ms| && ms[j].taken == k;
        assert ms[1..][j - 1].taken == k;
      }
      FirstOfThen(ms[1..], b, s, k, g);
      assert Continue(ms[0], []) == [];
    }
  }

  /** No match at all, when no match of the first part can be continued. */
  lemma {:induction false} NoneOfThen(ms: seq<Match>, b: Regex, s: string)
    requires forall j :: 0 <= j < |ms| ==> ms[j].taken <= |s| && Run(b, s[ms[j].taken..]) == []
    ensures Then(ms, b, s) == []
  {
    if ms != [] { NoneOfThen(ms[1..], b, s); }
  }

  /** The first match of r at the front of s takes n characters and captures g. */
  predicate Gives(r: Regex, s: string, n: nat, g: map<nat, string>) {
    Run(r, s) != [] && Run(r, s)[0] == Match(n, g)
  }

  /** Where a match was found, from the left, and the match. */
  datatype Found = Found(start: nat, m: Match)

  /** The leftmost position at which there is a match, and the first match there. */
  function Search(r: Regex, s: string): (f: Option<Found>)
    ensures f.Some? ==> f.value.start + f.value.m.taken <= |s|
    ensures f.Some? ==> f.value.start <= |s| && Gives(r, s[f.value.start..], f.value.m.taken, f.value.m.groups)
    ensures forall i :: 0 <= i <= |s| && (f.None? || i < f.value.start) ==> Run(r, s[i..]) == []
    decreases |s|
  {
    assert s[0..] == s;
    if Run(r, s) != [] then Some(Found(0, Run(r, s)[0]))
    else if s == "" then None
    else
      assert forall i :: 0 < i <= |s| ==> s[i..] == s[1..][i - 1..];
      match Search(r, s[1..])
      case None => None
      case Some(f) => Some(Found(f.start + 1, f.m))
  }

  // ---- First matches of the shapes that a candidate is made of ----

  function Ws(): Regex {
    Chars(Space, 1, AtMost(1))
  }

  lemma {:induction false} WsRuns(s: string)
    ensures Run(Ws(), s) == if s != "" && IsSpace(s[0]) then [Match(1, map[])] else []
  {
    if s != "" && IsSpace(s[0]) {
      assert Extent(Space, s, AtMost(1)) == 1;
      assert Descending(0, 1) == [];
    }
  }

  lemma {:induction false} WsFails(next: Regex, s: string)
    requires s == "" || !IsSpace(s[0])
    ensures Run(Seq(Ws(), next), s) == []
  {
    WsRuns(s);
  }

  lemma {:induction false} LitFails(text: string, next: Regex, s: string)
    requires !(text <= s)
    ensures Run(Seq(Lit(text), next), s) == []
  {
  }

  /** One match of the first part only: the first match is that of the continuation. */
  lemma {:induction false} OnlyOneGives(a: Regex, next: Regex, s: string, k: nat, n: nat, g: map<nat, string>)
    requires k <= |s| && Run(a, s) == [Match(k, map[])] && Gives(next, s[k..], n, g)
    ensures Gives(Seq(a, next), s, k + n, g)
  {
    assert map[] + g == g;
  }

  lemma {:induction false} WsGives(next: Regex, rest: string, n: nat, g: map<nat, string>)
    requires Gives(next, rest, n, g)
    ensures Gives(Seq(Ws(), next), " " + rest, 1 + n, g)
  {
    var s := " " + rest;
    WsRuns(s);
    assert s[1..] == rest;
    OnlyOneGives(Ws(), next, s, 1, n, g);
  }

  lemma {:induction false} WsThenFails(next: Regex, rest: string)
    requires Run(next, rest) == []
    ensures Run(Seq(Ws(), next), " " + rest) == []
  {
    var s := " " + rest;
    WsRuns(s);
    assert s[1..] == rest;
    NoneOfThen(Run(Ws(), s), next, s);
  }

  lemma {:induction false} LitGives(text: string, next: Regex, rest: string, n: nat, g: map<nat, string>)
    requires Gives(next, rest, n, g)
    ensures Gives(Seq(Lit(text), next), text + rest, |text| + n, g)
  {
    var s := text + rest;
    assert s[..|text|] == text && s[|text|..] == rest;
    OnlyOneGives(Lit(text), next, s, |text|, n, g);
  }

  lemma {:induction false} LitThenFails(text: string, next: Regex, rest: string)
    requires Run(next, rest) == []
    ensures Run(Seq(Lit(text), next), text + rest) == []
  {
    var s := text + rest;
    assert s[..|text|] == text && s[|text|..] == rest;
    NoneOfThen(Run(Lit(text), s), next, s);
  }

  /** Optional and there. */
  lemma {:induction false} OptGives(r: Regex, next: Regex, s: string,
                                    n: nat, g: map<nat, string>, m: nat, h: map<nat, string>)
    requires Gives(r, s, n, g) && n <= |s| && Gives(next, s[n..], m, h)
    ensures Gives(Seq(Opt(r), next), s, n + m, g + h)
  {
    var ms := Run(Opt(r), s);
    assert ms[0] == Match(n, g);
  }

  /** Optional and not there. */
  lemma {:induction false} OptSkips(r: Regex, next: Regex, s: string, n: nat, g: map<nat, string>)
    requires Run(r, s) == [] && Gives(next, s, n, g)
    ensures Gives(Seq(Opt(r), next), s, n, g)
  {
    assert s[0..] == s;
    OnlyOneGives(Opt(r), next, s, 0, n, g);
  }

  /** What is captured is determined by where the match ends. */
  lemma {:induction false} GroupRuns(k: nat, r: Regex, s: string)
    requires GroupFree(r)
    ensures forall j :: 0 <= j < |Run(Group(k, r), s)| ==>
              var m := Run(Group(k, r), s)[j];
              m.taken <= |s| && m.groups == map[k := s[..m.taken]] && In(r, s[..m.taken])
  {
    Sound(r, s);
    GroupFreeCapturesNothing(r, s);
  }

  /** A captured field and the white space after it. */
  function Field(k: nat, r: Regex, next: Regex): Regex {
    Seq(Group(k, r), Seq(Ws(), next))
  }

  /** The field ends at k, if a match that ends anywhere else cannot be continued. */
  lemma {:induction false} FieldGives(k: nat, r: Regex, next: Regex, tok: string, rest: string,
                                      n: nat, g: map<nat, string>)
    requires GroupFree(r) && In(r, tok) && Gives(next, rest, n, g)
    requires var s := tok + (" " + rest);
             forall j :: 0 <= j <= |s| && j != |tok| && In(r, s[..j]) ==> Run(Seq(Ws(), next), s[j..]) == []
    ensures Gives(Field(k, r, next), tok + (" " + rest), |tok| + 1 + n, map[k := tok] + g)
  {
    var s := tok + (" " + rest);
    assert s[..|tok|] == tok && s[|tok|..] == " " + rest;
    var ms := Run(Group(k, r), s);
    GroupRuns(k, r, s);
    Complete(Group(k, r), s, |tok|);
    WsGives(next, rest, n, g);
    FirstOfThen(ms, Seq(Ws(), next), s, |tok|, map[k := tok]);
  }

  /** No match, if no match of the field can be continued. */
  lemma {:induction false} FieldFails(k: nat, r: Regex, next: Regex, s: string)
    requires GroupFree(r)
    requires forall j :: 0 <= j <= |s| && In(r, s[..j]) ==> Run(Seq(Ws(), next), s[j..]) == []
    ensures Run(Field(k, r, next), s) == []
  {
    GroupRuns(k, r, s);
    NoneOfThen(Run(Group(k, r), s), Seq(Ws(), next), s);
  }

  predicate SpaceFree(cls: Class) {
    cls != Space && cls != NotNewline
  }

  lemma {:induction false} SpaceFreeMember(cls: Class, c: char)
    requires SpaceFree(cls) && Member(cls, c)
    ensures !IsSpace(c)
  {
  }

  /** A run of characters in a class without white space can only end where the white space is. */
  lemma {:induction false} TokenStops(cls: Class, min: nat, max: Bound, next: Regex, tok: string, rest: string, j: nat)
    requires SpaceFree(cls) && AllIn(cls, tok)
    requires j <= |tok + (" " + rest)| && j != |tok|
    requires In(Chars(cls, min, max), (tok + (" " + rest))[..j])
    ensures Run(Seq(Ws(), next), (tok + (" " + rest))[j..]) == []
  {
    var s := tok + (" " + rest);
    assert s[|tok|] == ' ';
    assert forall i :: 0 <= i < j ==> s[i] == s[..j][i];
    assert j < |tok|;
    assert s[j..][0] == tok[j];
    SpaceFreeMember(cls, tok[j]);
    WsFails(next, s[j..]);
  }

  lemma {:induction false} TokenGives(k: nat, cls: Class, min: nat, max: Bound, next: Regex, tok: string, rest: string,
                                      n: nat, g: map<nat, string>)
    requires SpaceFree(cls) && In(Chars(cls, min, max), tok) && Gives(next, rest, n, g)
    ensures Gives(Field(k, Chars(cls, min, max), next), tok + (" " + rest), |tok| + 1 + n, map[k := tok] + g)
  {
    var s := tok + (" " + rest);
    forall j | 0 <= j <= |s| && j != |tok| && In(Chars(cls, min, max), s[..j])
      ensures Run(Seq(Ws(), next), s[j..]) == []
    {
      TokenStops(cls, min, max, next, tok, rest, j);
    }
    FieldGives(k, Chars(cls, min, max), next, tok, rest, n, g);
  }

  /** A run that is longer than the bound, or that is followed by something that does not match, is not accepted. */
  lemma {:induction false} TokenFails(k: nat, cls: Class, min: nat, max: Bound, next: Regex, tok: string, rest: string)
    requires SpaceFree(cls) && AllIn(cls, tok)
    requires !Within(|tok|, max) || Run(next, rest) == []
    ensures Run(Field(k, Chars(cls, min, max), next), tok + (" " + rest)) == []
  {
    var s := tok + (" " + rest);
    forall j | 0 <= j <= |s| && In(Chars(cls, min, max), s[..j]) ensures Run(Seq(Ws(), next), s[j..]) == [] {
      if j == |tok| {
        assert s[j..] == " " + rest;
        WsThenFails(next, rest);
      } else {
        TokenStops(cls, min, max, next, tok, rest, j);
      }
    }
    FieldFails(k, Chars(cls, min, max), next, s);
  }

  /** As much of a run of characters as the bound lets through. */
  function Cut(v: string, max: Bound): (c: string)
    ensures c <= v && Within(|c|, max)
    ensures Within(|v|, max) ==> c == v
  {
    if max.AtMost? && max.n < |v| then v[..max.n] else v
  }

  lemma {:induction false} ExtentIsCut(cls: Class, v: string, rest: string, max: Bound)
    requires AllIn(cls, v) && (rest == "" || !Member(cls, rest[0]))
    ensures Extent(cls, v + rest, max) == |Cut(v, max)|
  {
    var s, e, c := v + rest, Extent(cls, v + rest, max), Cut(v, max);
    assert s[..|c|] == c;
    ExtentIsLongest(cls, s, max, |c|);
    assert forall i :: 0 <= i < e ==> s[i] == s[..e][i];
    assert rest != "" ==> s[|v|] == rest[0];
  }

  /** A captured run that nothing has to follow: the longest that the bound allows. */
  lemma {:induction false} GreedyGives(k: nat, cls: Class, max: Bound, v: string, rest: string)
    requires v != "" && AllIn(cls, v) && (rest == "" || !Member(cls, rest[0])) && Within(1, max)
    ensures Gives(Group(k, Chars(cls, 1, max)), v + rest, |Cut(v, max)|, map[k := Cut(v, max)])
  {
    var s, c := v + rest, Cut(v, max);
    ExtentIsCut(cls, v, rest, max);
    assert s[..|c|] == c;
    assert Run(Chars(cls, 1, max), s)[0] == Match(|c|, map[]);
    assert Run(Group(k, Chars(cls, 1, max)), s)[0] == Match(|c|, map[][k := s[..|c|]]);
  }

  lemma {:induction false} FirstContinues(a: Regex, next: Regex, s: string,
                                          n: nat, g: map<nat, string>, m: nat, h: map<nat, string>)
    requires Gives(a, s, n, g) && n <= |s| && Gives(next, s[n..], m, h)
    ensures Gives(Seq(a, next), s, n + m, g + h)
  {
  }
}
