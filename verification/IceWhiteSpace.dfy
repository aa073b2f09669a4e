/** Any white space but a line feed between the fields of a candidate: parsing does not depend on which. */
module IceWhiteSpace {
  import opened Options
  import opened IceRegex
  import opened IceGrammar
  import opened IceMatching
  import opened IceParser
  import opened IceRoundTrip

  /** The white space of .NET regular expressions, without the line feed. */
  predicate White(c: char) {
    var n := c as int;
    n == 9 || n == 11 || n == 12 || n == 13 || n == 32 || n == 0x85 || n == 0xA0 || n == 0x1680
    || 0x2000 <= n <= 0x200A || n == 0x2028 || n == 0x2029 || n == 0x202F || n == 0x205F || n == 0x3000
  }

  /** The same text, up to which white space it has. */
  predicate Alike(s: string, t: string) {
    |s| == |t| && forall i :: 0 <= i < |s| ==> s[i] == t[i] || (White(s[i]) && White(t[i]))
  }

  ghost predicate AlikeGroups(g: map<nat, string>, h: map<nat, string>) {
    g.Keys == h.Keys && forall k :: k in g ==> Alike(g[k], h[k])
  }

  ghost predicate AlikeMatch(m: Match, n: Match) {
    m.taken == n.taken && AlikeGroups(m.groups, n.groups)
  }

  ghost predicate AlikeMatches(ms: seq<Match>, ns: seq<Match>) {
    |ms| == |ns| && forall j :: 0 <= j < |ms| ==> AlikeMatch(ms[j], ns[j])
  }

  /** No literal has white space in it. */
  predicate Blind(r: Regex) {
    match r
    case Lit(text) => forall i :: 0 <= i < |text| ==> !White(text[i])
    case Chars(_, _, _) => true
    case Seq(a, b) => Blind(a) && Blind(b)
    case Alt(a, b) => Blind(a) && Blind(b)
    case Opt(a) => Blind(a)
    case Plus(a) => Blind(a)
    case Group(_, a) => Blind(a)
  }

  // ---- The matcher does not see the difference ----

  lemma {:induction false} SpaceIff(c: char)
    ensures Member(Space, c) <==> White(c) || c == '\n'
  {
  }

  lemma {:induction false} MemberAlike(cls: Class, c: char, d: char)
    requires White(c) && White(d)
    ensures Member(cls, c) == Member(cls, d)
  {
    SpaceIff(c);
    SpaceIff(d);
  }

  lemma {:induction false} ExtentAlike(cls: Class, s: string, t: string, max: Bound)
    requires Alike(s, t)
    ensures Extent(cls, s, max) == Extent(cls, t, max)
  {
    if s != "" && max != AtMost(0) {
      if s[0] != t[0] { MemberAlike(cls, s[0], t[0]); }
      ExtentAlike(cls, s[1..], t[1..], if max.AtMost? then AtMost(max.n - 1) else Unbounded);
    }
  }

  lemma {:induction false} LitAlike(text: string, s: string, t: string)
    requires Blind(Lit(text)) && Alike(s, t)
    ensures Run(Lit(text), s) == Run(Lit(text), t)
  {
    if |text| <= |s| {
      var k := |text|;
      assert s[..k] == text <==> t[..k] == text by {
        assert forall i :: 0 <= i < k ==> s[..k][i] == s[i] && t[..k][i] == t[i];
        if s[..k] == text { assert forall i :: 0 <= i < k ==> t[i] == text[i]; }
        if t[..k] == text { assert forall i :: 0 <= i < k ==> s[i] == text[i]; }
      }
    }
  }

  lemma {:induction false} SameMatches(ms: seq<Match>)
    ensures AlikeMatches(ms, ms)
  {
  }

  lemma {:induction false} UnionAlike(g: map<nat, string>, h: map<nat, string>, g': map<nat, string>, h': map<nat, string>)
    requires AlikeGroups(g, h) && AlikeGroups(g', h')
    ensures AlikeGroups(g + g', h + h')
  {
  }

  lemma {:induction false} ContinueAlike(m: Match, n: Match, ms: seq<Match>, ns: seq<Match>)
    requires AlikeMatch(m, n) && AlikeMatches(ms, ns)
    ensures AlikeMatches(Continue(m, ms), Continue(n, ns))
  {
    forall j | 0 <= j < |ms| ensures AlikeMatch(Continue(m, ms)[j], Continue(n, ns)[j]) {
      UnionAlike(m.groups, n.groups, ms[j].groups, ns[j].groups);
    }
  }

  lemma {:induction false} AppendAlike(a: seq<Match>, b: seq<Match>, c: seq<Match>, d: seq<Match>)
    requires AlikeMatches(a, b) && AlikeMatches(c, d)
    ensures AlikeMatches(a + c, b + d)
  {
  }

  lemma {:induction false} CaptureAlike(k: nat, ms: seq<Match>, ns: seq<Match>, s: string, t: string)
    requires Alike(s, t) && AlikeMatches(ms, ns) && forall j :: 0 <= j < |ms| ==> ms[j].taken <= |s|
    ensures AlikeMatches(Capture(k, ms, s), Capture(k, ns, t))
  {
    forall j | 0 <= j < |ms| ensures AlikeMatch(Capture(k, ms, s)[j], Capture(k, ns, t)[j]) {
      assert AlikeMatch(ms[j], ns[j]);
      assert Alike(s[..ms[j].taken], t[..ms[j].taken]);
    }
  }

  /** All matches are the same, in the same order, up to the white space in what they capture. */
  lemma {:induction false} RunAlike(r: Regex, s: string, t: string)
    requires Blind(r) && Alike(s, t)
    ensures AlikeMatches(Run(r, s), Run(r, t))
    decreases r, |s|, 1, 0
  {
    match r
    case Lit(text) => LitAlike(text, s, t); SameMatches(Run(r, s));
    case Chars(cls, min, max) => ExtentAlike(cls, s, t, max); SameMatches(Run(r, s));
    case Seq(a, b) => RunAlike(a, s, t); ThenAlike(Run(a, s), Run(a, t), b, s, t);
    case Alt(a, b) => RunAlike(a, s, t); RunAlike(b, s, t); AppendAlike(Run(a, s), Run(a, t), Run(b, s), Run(b, t));
    case Opt(a) =>
      RunAlike(a, s, t);
      SameMatches([Match(0, map[])]);
      AppendAlike(Run(a, s), Run(a, t), [Match(0, map[])], [Match(0, map[])]);
    case Plus(a) => RunAlike(a, s, t); LoopAlike(Run(a, s), Run(a, t), a, s, t);
    case Group(k, a) => RunAlike(a, s, t); CaptureAlike(k, Run(a, s), Run(a, t), s, t);
  }

  lemma {:induction false} ThenAlike(ms: seq<Match>, ns: seq<Match>, b: Regex, s: string, t: string)
    requires Blind(b) && Alike(s, t) && AlikeMatches(ms, ns) && forall j :: 0 <= j < |ms| ==> ms[j].taken <= |s|
    ensures AlikeMatches(Then(ms, b, s), Then(ns, b, t))
    decreases b, |s| + 1, 0, |ms|
  {
    if ms != [] {
      assert AlikeMatch(ms[0], ns[0]);
      var u, v := s[ms[0].taken..], t[ms[0].taken..];
      RunAlike(b, u, v);
      ContinueAlike(ms[0], ns[0], Run(b, u), Run(b, v));
      ThenAlike(ms[1..], ns[1..], b, s, t);
      AppendAlike(Continue(ms[0], Run(b, u)), Continue(ns[0], Run(b, v)), Then(ms[1..], b, s), Then(ns[1..], b, t));
    }
  }

  lemma {:induction false} LoopAlike(ms: seq<Match>, ns: seq<Match>, a: Regex, s: string, t: string)
    requires Blind(a) && Alike(s, t) && AlikeMatches(ms, ns) && forall j :: 0 <= j < |ms| ==> ms[j].taken <= |s|
    ensures AlikeMatches(Loop(ms, a, s), Loop(ns, a, t))
    decreases Plus(a), |s|, 0, |ms|
  {
    if ms != [] {
      var m, n := ms[0], ns[0];
      assert AlikeMatch(m, n);
      var more, more' := if m.taken == 0 then [] else Continue(m, Run(Plus(a), s[m.taken..])),
                         if n.taken == 0 then [] else Continue(n, Run(Plus(a), t[n.taken..]));
      if m.taken > 0 {
        RunAlike(Plus(a), s[m.taken..], t[m.taken..]);
        ContinueAlike(m, n, Run(Plus(a), s[m.taken..]), Run(Plus(a), t[m.taken..]));
      }
      LoopAlike(ms[1..], ns[1..], a, s, t);
      AppendAlike(more, more', [m], [n]);
      AppendAlike(more + [m], more' + [n], Loop(ms[1..], a, s), Loop(ns[1..], a, t));
    }
  }

  ghost predicate AlikeFound(f: Option<Found>, g: Option<Found>) {
    if f.None? then g.None? else g.Some? && f.value.start == g.value.start && AlikeMatch(f.value.m, g.value.m)
  }

  lemma {:induction false} SearchAlike(r: Regex, s: string, t: string)
    requires Blind(r) && Alike(s, t)
    ensures AlikeFound(Search(r, s), Search(r, t))
    decreases |s|
  {
    RunAlike(r, s, t);
    if Run(r, s) != [] {
      assert AlikeMatch(Run(r, s)[0], Run(r, t)[0]);
    } else if s != "" {
      SearchAlike(r, s[1..], t[1..]);
    }
  }

  // ---- The candidate expression ----

  lemma {:induction false} AddressIsBlind()
    ensures Blind(Address())
  {
    assert Blind(Dotted(0)) && Blind(Dotted(1)) && Blind(Dotted(2));
    assert Blind(Lit(":")) && Blind(Lit("."));
    assert Blind(Ipv6()) && Blind(Domain());
  }

  lemma {:induction false} BlindSeq(a: Regex, b: Regex)
    requires Blind(a) && Blind(b)
    ensures Blind(Seq(a, b))
  {
  }

  lemma {:induction false} BlindWord(text: string, next: Regex)
    requires Blind(Lit(text)) && Blind(next)
    ensures Blind(Seq(Ws(), Seq(Lit(text), Seq(Ws(), next)))) && Blind(Seq(Lit(text), Seq(Ws(), next)))
  {
    assert Blind(Ws());
    BlindSeq(Ws(), next);
    BlindSeq(Lit(text), Seq(Ws(), next));
    BlindSeq(Ws(), Seq(Lit(text), Seq(Ws(), next)));
  }

  lemma {:induction false} BlindField(k: nat, r: Regex, next: Regex)
    requires Blind(r) && Blind(next)
    ensures Blind(Field(k, r, next))
  {
    assert Blind(Ws()) && Blind(Group(k, r));
    BlindSeq(Ws(), next);
    BlindSeq(Group(k, r), Seq(Ws(), next));
  }

  lemma {:induction false} BlindChars(k: nat, cls: Class, max: Bound)
    ensures Blind(Chars(cls, 1, max)) && Blind(Group(k, Chars(cls, 1, max)))
  {
    assert Blind(Chars(cls, 1, max));
  }

  lemma {:induction false} ItemsAreBlind(attrs: seq<Attribute>)
    requires forall i :: 0 <= i < |attrs| ==> Blind(Lit(attrs[i].name))
    ensures Blind(Items(attrs))
  {
    if attrs == [] {
      assert Blind(Lit(""));
    } else {
      var a := attrs[0];
      BlindChars(a.k, a.cls, a.max);
      BlindWord(a.name, Group(a.k, Chars(a.cls, 1, a.max)));
      assert Blind(Opt(Item(a)));
      ItemsAreBlind(attrs[1..]);
    }
  }

  lemma {:induction false} RelatedIsBlind()
    ensures Blind(Related())
  {
    assert Blind(Lit("rport")) && Blind(Lit("raddr"));
    AddressIsBlind();
    BlindChars(9, Digit, AtMost(5));
    BlindWord("rport", Group(9, Chars(Digit, 1, AtMost(5))));
    BlindField(8, Address(), Rport());
    BlindWord("raddr", Field(8, Address(), Rport()));
  }

  lemma {:induction false} NameIsBlind(i: nat)
    requires i < |Attributes()|
    ensures Blind(Lit(Attributes()[i].name))
  {
    var text := Attributes()[i].name;
    assert forall k :: 0 <= k < |text| ==> !White(text[k]);
  }

  lemma {:induction false} AttributesAreBlind()
    ensures Blind(Items(Attributes()))
  {
    var attrs := Attributes();
    forall i | 0 <= i < |attrs| ensures Blind(Lit(attrs[i].name)) { NameIsBlind(i); }
    ItemsAreBlind(attrs);
  }

  lemma {:induction false} OptionalIsBlind(r: Regex, next: Regex)
    requires Blind(r) && Blind(next)
    ensures Blind(Seq(Opt(r), next))
  {
    BlindSeq(Opt(r), next);
  }

  lemma {:induction false} TailIsBlind()
    ensures Blind(Tail())
  {
    AttributesAreBlind();
    RelatedIsBlind();
    OptionalIsBlind(Related(), Items(Attributes()));
  }

  lemma {:induction false} TypeIsBlind(tail: Regex)
    requires Blind(tail)
    ensures Blind(Seq(Lit("typ"), Seq(Ws(), Seq(Group(7, Chars(Token, 1, Unbounded)), tail))))
  {
    BlindChars(7, Token, Unbounded);
    BlindSeq(Group(7, Chars(Token, 1, Unbounded)), tail);
    assert Blind(Lit("typ"));
    BlindWord("typ", Seq(Group(7, Chars(Token, 1, Unbounded)), tail));
  }

  lemma {:induction false} FieldsAreBlind(address: Regex, next: Regex)
    requires Blind(address) && Blind(next)
    ensures var port := Field(6, Chars(Digit, 1, AtMost(5)), next);
            var priority := Field(4, Chars(Digit, 1, AtMost(10)), Field(5, address, port));
            var transport := Field(3, Chars(Token, 1, Unbounded), priority);
            Blind(Field(1, Chars(Ice, 1, Unbounded), Field(2, Chars(Digit, 1, AtMost(5)), transport)))
  {
    var five, ten := Chars(Digit, 1, AtMost(5)), Chars(Digit, 1, AtMost(10));
    var port := Field(6, five, next);
    var priority := Field(4, ten, Field(5, address, port));
    var transport := Field(3, Chars(Token, 1, Unbounded), priority);
    BlindField(6, five, next);
    BlindField(5, address, port);
    BlindField(4, ten, Field(5, address, port));
    BlindField(3, Chars(Token, 1, Unbounded), priority);
    BlindField(2, five, transport);
    BlindField(1, Chars(Ice, 1, Unbounded), Field(2, five, transport));
  }

  lemma {:induction false} BodyIsBlind()
    ensures Blind(Body())
  {
    TailIsBlind();
    TypeIsBlind(Tail());
    AddressIsBlind();
    FieldsAreBlind(Address(), FromType());
  }

  lemma {:induction false} FrontIsBlind(body: Regex)
    requires Blind(body)
    ensures Blind(Seq(Opt(Lit("a=")), Seq(Lit("candidate:"), body)))
  {
    var word, prefix := Lit("candidate:"), Lit("a=");
    assert Blind(word) && Blind(prefix);
    BlindSeq(word, body);
    BlindSeq(Opt(prefix), Seq(word, body));
  }

  lemma {:induction false} MasterIsBlind()
    ensures Blind(Master())
  {
    BodyIsBlind();
    FrontIsBlind(Body());
  }

  // ---- What is read ----

  lemma {:induction false} AlikeWithoutSpace(x: string, y: string)
    requires SpaceFreeText(x) && Alike(x, y)
    ensures x == y
  {
    forall i | 0 <= i < |x| ensures x[i] == y[i] { assert !IsSpace(x[i]); }
  }

  lemma {:induction false} WordsHaveNoSpace(cls: Class, t: string)
    requires SpaceFree(cls) && AllIn(cls, t)
    ensures SpaceFreeText(t)
  {
    forall i | 0 <= i < |t| ensures !IsSpace(t[i]) { SpaceFreeMember(cls, t[i]); }
  }

  lemma {:induction false} OptionalHasNoSpace(cls: Class, v: Option<string>)
    requires SpaceFree(cls) && (v.Some? ==> AllIn(cls, v.value))
    ensures SpaceFreeText(TextOr(v))
  {
    if v.Some? { WordsHaveNoSpace(cls, v.value); }
  }

  lemma {:induction false} FieldsHaveNoSpace(l: Line, raw: string, i: nat)
    requires WfLine(l) && 0 < i < 14
    ensures SpaceFreeText(FieldOf(l, raw, i))
  {
    WordsHaveNoSpace(Ice, l.foundation);
    WordsHaveNoSpace(Digit, l.component);
    WordsHaveNoSpace(Token, l.transport);
    WordsHaveNoSpace(Digit, l.priority);
    WordsHaveNoSpace(Digit, l.port);
    WordsHaveNoSpace(Token, l.kind);
    if l.related.Some? { WordsHaveNoSpace(Digit, l.related.value.port); }
    OptionalHasNoSpace(Digit, l.generation);
    OptionalHasNoSpace(Ice, l.ufrag);
    OptionalHasNoSpace(Digit, l.networkId);
    OptionalHasNoSpace(Digit, l.networkCost);
  }

  /** Only the text that was matched is different. */
  lemma {:induction false} ValuesAlike(l: Line, s: string, t: string, raw: string, g: map<nat, string>)
    requires WfLine(l) && raw <= s && Alike(s, t) && AlikeGroups(Groups(l), g)
    ensures GroupValues(t, Found(0, Match(|raw|, g))) == FieldValues(l, raw)[0 := t[..|raw|]]
  {
    var vs := GroupValues(t, Found(0, Match(|raw|, g)));
    assert t[0..|raw|] == t[..|raw|];
    forall i | 0 < i < 14 ensures vs[i] == FieldOf(l, raw, i) {
      GroupsHoldFields(l, raw, i);
      FieldsHaveNoSpace(l, raw, i);
      assert i in g ==> Alike(Groups(l)[i], g[i]);
      AlikeWithoutSpace(FieldOf(l, raw, i), vs[i]);
    }
  }

  lemma {:induction false} ReadAlike(vs: seq<string>, raw: string)
    requires |vs| == 14 && !IsBlank(raw)
    ensures Read(vs[0 := raw])
            == match Read(vs) case Ok(r) => Ok(r.(raw := Some(raw))) case Err => Err
  {
    var ws := vs[0 := raw];
    ReadableFields(vs);
    ReadableFields(ws);
    AllFields(vs);
    AllFields(ws);
  }

  lemma {:induction false} BeginningIsNotBlank(l: Line, m: Line, t: string)
    requires Alike(Print(l), t) && Print(m) <= Print(l)
    ensures |Print(m)| <= |t|
    ensures !IsBlank(t[..|Print(m)|])
  {
    assert Print(m)[0] == Print(l)[0];
    assert !White(Print(m)[0]) && !Member(Space, Print(m)[0]);
    assert t[..|Print(m)|][0] == Print(l)[0];
  }

  /** A line with other white space is read like the line. */
  lemma {:induction false} LineIsReadAlike(l: Line, t: string)
    requires WfLine(l) && WfLine(Seen(l)) && Alike(Print(l), t)
    ensures |Print(Seen(l))| <= |t|
    ensures Parsed(t)
            == if Fits(l) then Read(FieldValues(Seen(l), Print(Seen(l)))[0 := t[..|Print(Seen(l))|]]) else Err
  {
    LineIsMatched(l);
    SeenIsAPrefix(l);
    MasterIsBlind();
    SearchAlike(Master(), Print(l), t);
    if Fits(l) {
      ValuesAlike(Seen(l), Print(l), t, Print(Seen(l)), Search(Master(), t).value.m.groups);
    }
  }

  /** A printed candidate with any white space but line feeds in place of its spaces is parsed as before: the same record
      but for the text itself, or a failure. */
  lemma {:induction false} AnyWhiteSpace(c: Candidate, t: string)
    requires WfCandidate(c) && Alike(Print(LineOf(c)), t)
    ensures |Print(LineOf(SeenOf(c)))| <= |t|
    ensures Parsed(t)
            == if InRange(SeenOf(c))
               then Ok(RecordOf(SeenOf(c)).(raw := Some(t[..|Print(LineOf(SeenOf(c)))|]))) else Err
  {
    var l, m := LineOf(c), LineOf(SeenOf(c));
    LineOfIsWf(c);
    SeenKeeps(c);
    LineOfIsWf(SeenOf(c));
    SeenOfPrinted(c);
    LineIsReadAlike(l, t);
    SeenIsAPrefix(l);
    BeginningIsNotBlank(l, m, t);
    ReadAlike(FieldValues(m, Print(m)), t[..|Print(m)|]);
    FieldsAreRead(SeenOf(c));
    FitsIff(c);
  }
}
