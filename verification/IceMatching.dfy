/** What the candidate expression captures from a whole candidate line, and which lines it rejects. */
module IceMatching {
  import opened Options
  import opened IceRegex
  import opened IceGrammar

  // ---- Addresses ----

  /** No character that the expression can match is c. */
  predicate Avoids(r: Regex, c: char) {
    match r
    case Lit(text) => c !in text
    case Chars(cls, _, _) => !Member(cls, c)
    case Seq(a, b) => Avoids(a, c) && Avoids(b, c)
    case Alt(a, b) => Avoids(a, c) && Avoids(b, c)
    case Opt(a) => Avoids(a, c)
    case Plus(a) => Avoids(a, c)
    case Group(_, a) => Avoids(a, c)
  }

  lemma {:induction false} AvoidedIsNotMatched(r: Regex, c: char, t: string)
    requires Avoids(r, c) && In(r, t)
    ensures c !in t
    decreases r, |t|
  {
    match r
    case Lit(text) =>
    case Chars(cls, min, max) =>
    case Seq(a, b) =>
      var k :| 0 <= k <= |t| && In(a, t[..k]) && In(b, t[k..]);
      AvoidedIsNotMatched(a, c, t[..k]);
      AvoidedIsNotMatched(b, c, t[k..]);
      assert t == t[..k] + t[k..];
    case Alt(a, b) => if In(a, t) { AvoidedIsNotMatched(a, c, t); } else { AvoidedIsNotMatched(b, c, t); }
    case Opt(a) => if t != "" { AvoidedIsNotMatched(a, c, t); }
    case Plus(a) =>
      var k :| 0 <= k <= |t| && In(a, t[..k]) && (k == |t| || (0 < k && In(r, t[k..])));
      AvoidedIsNotMatched(a, c, t[..k]);
      if k < |t| { AvoidedIsNotMatched(r, c, t[k..]); }
      assert t == t[..k] + t[k..];
    case Group(_, a) => AvoidedIsNotMatched(a, c, t);
  }

  /** Starts and ends with a digit, and of two neighbours at least one is a digit. */
  predicate Sparse(t: string) {
    && t != "" && IsDigit(t[0]) && IsDigit(t[|t| - 1])
    && forall i :: 0 <= i < |t| - 1 ==> IsDigit(t[i]) || IsDigit(t[i + 1])
  }

  lemma {:induction false} SparseJoin(d: string, x: char, t: string)
    requires Word(Digit, d) && Sparse(t)
    ensures Sparse(d + ([x] + t))
  {
    var u := d + ([x] + t);
    assert u[|u| - 1] == t[|t| - 1];
    forall i | 0 <= i < |u| - 1 ensures IsDigit(u[i]) || IsDigit(u[i + 1]) {
      if i > |d| { assert u[i] == t[i - |d| - 1] && u[i + 1] == t[i - |d|]; }
    }
  }

  lemma {:induction false} Split(a: Regex, b: Regex, t: string) returns (k: nat)
    requires In(Seq(a, b), t)
    ensures k <= |t| && In(a, t[..k]) && In(b, t[k..])
  {
    k :| 0 <= k <= |t| && In(a, t[..k]) && In(b, t[k..]);
  }

  lemma {:induction false} OnceSplits(cls: Class, next: Regex, t: string) returns (c: char, u: string)
    requires In(Seq(Once(cls), next), t)
    ensures t == [c] + u && Member(cls, c) && In(next, u)
  {
    var k := Split(Once(cls), next, t);
    assert |t[..k]| == 1 && Member(cls, t[..k][0]);
    c, u := t[0], t[1..];
  }

  lemma {:induction false} DigitsAreAWord(t: string)
    requires In(Chars(Digit, 1, AtMost(3)), t)
    ensures Word(Digit, t) && Sparse(t)
  {
  }

  lemma {:induction false} DottedSplits(n: nat, t: string) returns (d: string, x: char, u: string)
    requires n > 0 && In(Dotted(n), t)
    ensures t == d + ([x] + u) && In(Chars(Digit, 1, AtMost(3)), d) && x != '\n' && In(Dotted(n - 1), u)
  {
    var k := Split(Chars(Digit, 1, AtMost(3)), Seq(Once(NotNewline), Dotted(n - 1)), t);
    d := t[..k];
    x, u := OnceSplits(NotNewline, Dotted(n - 1), t[k..]);
  }

  lemma {:induction false} DottedIsSparse(n: nat, t: string)
    requires In(Dotted(n), t)
    ensures Sparse(t)
  {
    if n == 0 {
      DigitsAreAWord(t);
    } else {
      var d, x, u := DottedSplits(n, t);
      DigitsAreAWord(d);
      DottedIsSparse(n - 1, u);
      SparseJoin(d, x, u);
    }
  }

  lemma {:induction false} Ipv6Avoids(c: char)
    requires !Member(Hex, c) && c != ':'
    ensures Avoids(Ipv6(), c)
  {
    assert Avoids(Lit(":"), c);
    assert Avoids(Opt(Lit(":")), c);
    assert Avoids(Seq(Chars(Hex, 0, AtMost(4)), Opt(Lit(":"))), c);
    assert Avoids(Plus(Seq(Chars(Hex, 0, AtMost(4)), Opt(Lit(":")))), c);
  }

  lemma {:induction false} DomainAvoids(c: char)
    requires !Member(LowerAlnumDash, c) && c != '.'
    ensures Avoids(Domain(), c)
  {
    var middle := Chars(LowerAlnumDash, 0, AtMost(61));
    assert Avoids(Lit("."), c) && Avoids(Once(LowerAlnum), c);
    assert Avoids(Seq(middle, Once(LowerAlnum)), c);
    assert Avoids(Seq(Once(LowerAlnum), Seq(middle, Once(LowerAlnum))), c);
    var inner := Seq(Opt(Seq(middle, Once(LowerAlnum))), Lit("."));
    assert Avoids(Opt(Seq(middle, Once(LowerAlnum))), c);
    assert Avoids(inner, c);
    assert Avoids(Seq(Once(LowerAlnum), inner), c);
    assert Avoids(Plus(Seq(Once(LowerAlnum), inner)), c);
  }

  /** What matches as an address either has no white space in it or is sparse. */
  lemma {:induction false} AddressShape(t: string)
    requires In(Address(), t)
    ensures SpaceFreeText(t) || Sparse(t)
  {
    if In(Ipv4(), t) {
      DottedIsSparse(3, t);
    } else {
      forall i | 0 <= i < |t| ensures !IsSpace(t[i]) {
        if IsSpace(t[i]) {
          if In(Ipv6(), t) { Ipv6Avoids(t[i]); AvoidedIsNotMatched(Ipv6(), t[i], t); }
          else { DomainAvoids(t[i]); AvoidedIsNotMatched(Domain(), t[i], t); }
        }
      }
    }
  }

  lemma {:induction false} AddressGroupFree()
    ensures GroupFree(Address())
  {
    assert GroupFree(Dotted(0)) && GroupFree(Dotted(1)) && GroupFree(Dotted(2));
  }

  /** A match that goes beyond the address, over the white space after it, is sparse. */
  lemma {:induction false} BeyondIsSparse(a: string, rest: string, j: nat)
    requires |a| < j <= |a + (" " + rest)| && In(Address(), (a + (" " + rest))[..j])
    ensures Sparse((a + (" " + rest))[..j])
  {
    var t := (a + (" " + rest))[..j];
    AddressShape(t);
    assert t[|a|] == ' ';
  }

  lemma {:induction false} ShortOfAddress(a: string, rest: string, next: Regex, j: nat)
    requires SpaceFreeText(a) && j < |a|
    ensures Run(Seq(Ws(), next), (a + (" " + rest))[j..]) == []
  {
    var s := a + (" " + rest);
    assert s[j..][0] == a[j];
    WsFails(next, s[j..]);
  }

  /** An address before a word ends where the white space is. */
  lemma {:induction false} NotBeyond(a: string, rest: string, j: nat)
    requires rest != "" && !IsDigit(rest[0]) && |a| < j <= |a + (" " + rest)|
    ensures !In(Address(), (a + (" " + rest))[..j])
  {
    var s := a + (" " + rest);
    assert s[|a|] == ' ' && s[|a| + 1] == rest[0];
    assert forall i :: 0 <= i < j ==> s[i] == s[..j][i];
    assert !Sparse(s[..j]) by {
      assert j == |a| + 1 ==> s[..j][j - 1] == ' ';
      assert j > |a| + 1 ==> s[..j][|a|] == ' ' && s[..j][|a| + 1] == rest[0];
    }
    if In(Address(), s[..j]) { BeyondIsSparse(a, rest, j); }
  }

  /** An address before a number can be matched together with the number, but then what follows the number
      would have to be a number too. */
  lemma {:induction false} AddressBeforeNumber(a: string, d: string, more: string, next: Regex, j: nat)
    requires WfAddress(a) && Word(Digit, d) && more != "" && !IsDigit(more[0]) && Run(next, more) == []
    requires var s := a + (" " + (d + (" " + more)));
             j <= |s| && j != |a| && In(Address(), s[..j])
    ensures Run(Seq(Ws(), next), (a + (" " + (d + (" " + more))))[j..]) == []
  {
    var rest := d + (" " + more);
    var s := a + (" " + rest);
    if j < |a| {
      ShortOfAddress(a, rest, next, j);
    } else {
      var p := |a| + 1 + |d|;
      BeyondIsSparse(a, rest, j);
      NumberEnds(a, d, more, j);
      if j == p {
        assert s[p..] == " " + more;
        WsThenFails(next, more);
      } else {
        assert s[j..][0] == s[j] == d[j - |a| - 1];
        WsFails(next, s[j..]);
      }
    }
  }

  lemma {:induction false} NumberEnds(a: string, d: string, more: string, j: nat)
    requires Word(Digit, d) && more != "" && !IsDigit(more[0])
    requires var s := a + (" " + (d + (" " + more)));
             |a| < j <= |s| && Sparse(s[..j])
    ensures |a| + 1 < j <= |a| + 1 + |d|
  {
    var s, p := a + (" " + (d + (" " + more))), |a| + 1 + |d|;
    assert s[|a|] == ' ' && s[p] == ' ' && s[p + 1] == more[0];
    assert s[j - 1] == s[..j][j - 1];
    assert forall i :: 0 <= i < j ==> s[i] == s[..j][i];
  }

  lemma {:induction false} AddressGivesBeforeWord(k: nat, next: Regex, a: string, rest: string,
                                                  n: nat, g: map<nat, string>)
    requires WfAddress(a) && rest != "" && !IsDigit(rest[0]) && Gives(next, rest, n, g)
    ensures Gives(Field(k, Address(), next), a + (" " + rest), |a| + 1 + n, map[k := a] + g)
  {
    var s := a + (" " + rest);
    AddressGroupFree();
    forall j | 0 <= j <= |s| && j != |a| && In(Address(), s[..j]) ensures Run(Seq(Ws(), next), s[j..]) == [] {
      if j > |a| { NotBeyond(a, rest, j); } else { ShortOfAddress(a, rest, next, j); }
    }
    FieldGives(k, Address(), next, a, rest, n, g);
  }

  lemma {:induction false} AddressGivesBeforeNumber(k: nat, next: Regex, a: string, d: string, more: string,
                                                    n: nat, g: map<nat, string>)
    requires WfAddress(a) && Word(Digit, d) && more != "" && !IsDigit(more[0]) && Run(next, more) == []
    requires Gives(next, d + (" " + more), n, g)
    ensures Gives(Field(k, Address(), next), a + (" " + (d + (" " + more))), |a| + 1 + n, map[k := a] + g)
  {
    var rest := d + (" " + more);
    var s := a + (" " + rest);
    AddressGroupFree();
    forall j | 0 <= j <= |s| && j != |a| && In(Address(), s[..j]) ensures Run(Seq(Ws(), next), s[j..]) == [] {
      AddressBeforeNumber(a, d, more, next, j);
    }
    FieldGives(k, Address(), next, a, rest, n, g);
  }

  lemma {:induction false} AddressFailsBeforeNumber(k: nat, next: Regex, a: string, d: string, more: string)
    requires WfAddress(a) && Word(Digit, d) && more != "" && !IsDigit(more[0]) && Run(next, more) == []
    requires Run(next, d + (" " + more)) == []
    ensures Run(Field(k, Address(), next), a + (" " + (d + (" " + more)))) == []
  {
    var rest := d + (" " + more);
    var s := a + (" " + rest);
    AddressGroupFree();
    forall j | 0 <= j <= |s| && In(Address(), s[..j]) ensures Run(Seq(Ws(), next), s[j..]) == [] {
      if j == |a| {
        assert s[j..] == " " + rest;
        WsThenFails(next, rest);
      } else {
        AddressBeforeNumber(a, d, more, next, j);
      }
    }
    FieldFails(k, Address(), next, s);
  }

  // ---- The end of a candidate ----

  lemma {:induction false} RelatedGives(e: Endpoint, rest: string)
    requires WfAddress(e.ip) && Word(Digit, e.port) && (rest == "" || !IsDigit(rest[0]))
    ensures var c := Cut(e.port, AtMost(5));
            Gives(Related(), RelatedText(Some(e)) + rest, |RelatedText(Some(e.(port := c)))|,
                  map[8 := e.ip] + map[9 := c])
  {
    var c := Cut(e.port, AtMost(5));
    var n, g := |c|, map[9 := c];
    var digits := Group(9, Chars(Digit, 1, AtMost(5)));
    GreedyGives(9, Digit, AtMost(5), e.port, rest);
    WsGives(digits, e.port + rest, n, g);
    LitGives("rport", Seq(Ws(), digits), " " + (e.port + rest), 1 + n, g);
    var t := "rport" + (" " + (e.port + rest));
    AddressGivesBeforeWord(8, Rport(), e.ip, t, 5 + (1 + n), g);
    var m, h := |e.ip| + 1 + (5 + (1 + n)), map[8 := e.ip] + g;
    var field := Field(8, Address(), Rport());
    WsGives(field, e.ip + (" " + t), m, h);
    LitGives("raddr", Seq(Ws(), field), " " + (e.ip + (" " + t)), 1 + m, h);
    WsGives(Seq(Lit("raddr"), Seq(Ws(), field)), "raddr" + (" " + (e.ip + (" " + t))), 5 + (1 + m), h);
    RelatedAppend(e, rest);
  }

  lemma {:induction false} RelatedAppend(e: Endpoint, rest: string)
    ensures RelatedText(Some(e)) + rest
            == " " + ("raddr" + (" " + (e.ip + (" " + ("rport" + (" " + (e.port + rest)))))))
  {
    var t := "rport" + (" " + e.port);
    assert t + rest == "rport" + (" " + (e.port + rest));
    var u := e.ip + (" " + t);
    assert u + rest == e.ip + (" " + (t + rest));
    assert (" " + ("raddr" + (" " + u))) + rest == " " + ("raddr" + (" " + (u + rest)));
  }

  lemma {:induction false} RelatedAbsent(l: Line)
    ensures Run(Related(), ItemsText(Attributes(), Values(l))) == []
  {
    var s, attrs := ItemsText(Attributes(), Values(l)), Attributes();
    var next := Seq(Ws(), Field(8, Address(), Rport()));
    ItemsStart(attrs, Values(l));
    if s == "" {
      WsFails(Seq(Lit("raddr"), next), s);
    } else {
      var i :| 0 <= i < |attrs| && Values(l)[i].Some? && " " + (attrs[i].name + " ") <= s;
      RaddrDiffers(i);
      OtherName("raddr", attrs[i].name, next, s);
    }
  }

  lemma {:induction false} RaddrDiffers(i: nat)
    requires i < |Attributes()|
    ensures Differ("raddr", Attributes()[i].name)
  {
    DifferAt("raddr", Attributes()[i].name, 0);
  }

  lemma {:induction false} SeenValues(l: Line)
    requires !(l.related.Some? && |l.related.value.port| > 5)
    ensures Values(Seen(l)) == SeenItems(Attributes(), Values(l)) && Seen(l).related == l.related
  {
  }

  lemma {:induction false} TailGives(l: Line)
    requires WfLine(l)
    ensures Gives(Tail(), TailText(l), |TailText(Seen(l))|, TailGroups(Seen(l)))
  {
    if l.related.None? {
      TailWithoutRelated(l);
    } else if |l.related.value.port| > 5 {
      TailCut(l);
    } else {
      TailWithRelated(l);
    }
  }

  lemma {:induction false} TailWithoutRelated(l: Line)
    requires WfLine(l) && l.related.None?
    ensures Gives(Tail(), TailText(l), |TailText(Seen(l))|, TailGroups(Seen(l)))
  {
    AttributesApart();
    WfAttributes(l);
    RelatedAbsent(l);
    ItemsAlone(Attributes(), Values(l));
    TailIsItems(l);
    SeenValues(l);
    TailIsItems(Seen(l));
  }

  lemma {:induction false} TailIsItems(l: Line)
    requires l.related.None?
    ensures TailText(l) == ItemsText(Attributes(), Values(l))
    ensures TailGroups(l) == map[] + ItemsGroups(Attributes(), Values(l))
  {
    AttributesAreItems(l);
  }

  lemma {:induction false} ItemsAlone(attrs: seq<Attribute>, vs: seq<Option<string>>)
    requires WfItems(attrs, vs) && Apart(attrs) && Run(Related(), ItemsText(attrs, vs)) == []
    ensures var seen := SeenItems(attrs, vs);
            Gives(Seq(Opt(Related()), Items(attrs)), ItemsText(attrs, vs), |ItemsText(attrs, seen)|,
                  map[] + ItemsGroups(attrs, seen))
  {
    var seen := SeenItems(attrs, vs);
    ItemsGive(attrs, vs);
    assert map[] + ItemsGroups(attrs, seen) == ItemsGroups(attrs, seen);
    OptSkips(Related(), Items(attrs), ItemsText(attrs, vs), |ItemsText(attrs, seen)|, ItemsGroups(attrs, seen));
  }

  lemma {:induction false} TailWithRelated(l: Line)
    requires WfLine(l) && l.related.Some? && |l.related.value.port| <= 5
    ensures Gives(Tail(), TailText(l), |TailText(Seen(l))|, TailGroups(Seen(l)))
  {
    AttributesApart();
    WfAttributes(l);
    AttributesAreItems(l);
    AttributesAreItems(Seen(l));
    SeenValues(l);
    RelatedAndItems(l.related.value, Attributes(), Values(l));
  }

  lemma {:induction false} RelatedAndItems(e: Endpoint, attrs: seq<Attribute>, vs: seq<Option<string>>)
    requires WfItems(attrs, vs) && Apart(attrs)
    requires WfAddress(e.ip) && Word(Digit, e.port) && |e.port| <= 5
    ensures var seen := SeenItems(attrs, vs);
            Gives(Seq(Opt(Related()), Items(attrs)), RelatedText(Some(e)) + ItemsText(attrs, vs),
                  |RelatedText(Some(e)) + ItemsText(attrs, seen)|, RelatedGroups(Some(e)) + ItemsGroups(attrs, seen))
  {
    var items, seen, s := ItemsText(attrs, vs), SeenItems(attrs, vs), RelatedText(Some(e)) + ItemsText(attrs, vs);
    ItemsGive(attrs, vs);
    ItemsTextStart(attrs, vs);
    RelatedGives(e, items);
    assert s[|RelatedText(Some(e))|..] == items;
    OptGives(Related(), Items(attrs), s, |RelatedText(Some(e))|, RelatedGroups(Some(e)),
             |ItemsText(attrs, seen)|, ItemsGroups(attrs, seen));
  }

  lemma {:induction false} TailCut(l: Line)
    requires WfLine(l) && l.related.Some? && |l.related.value.port| > 5
    ensures Gives(Tail(), TailText(l), |TailText(Seen(l))|, TailGroups(Seen(l)))
  {
    var attrs := Attributes();
    AttributesAreItems(l);
    AttributesAreItems(Seen(l));
    CutRelated(l.related.value, attrs, Values(l));
    assert Values(Seen(l)) == NoValues(|attrs|);
    NoValuesText(attrs);
  }

  /** After a port that is cut off there is no white space. */
  lemma {:induction false} AfterCut(e: Endpoint, rest: string, n: nat)
    requires Word(Digit, e.port) && |e.port| > 5 && n == |RelatedText(Some(e.(port := Cut(e.port, AtMost(5)))))|
    ensures var s := RelatedText(Some(e)) + rest;
            n < |s| && !IsSpace(s[n..][0])
  {
    var s := RelatedText(Some(e)) + rest;
    RelatedCut(e, rest);
    assert s[n] == e.port[5..][0] == e.port[5];
    SpaceFreeMember(Digit, e.port[5]);
  }

  lemma {:induction false} CutRelated(e: Endpoint, attrs: seq<Attribute>, vs: seq<Option<string>>)
    requires |attrs| == |vs| && WfAddress(e.ip) && Word(Digit, e.port) && |e.port| > 5
    ensures var cut := e.(port := Cut(e.port, AtMost(5)));
            Gives(Seq(Opt(Related()), Items(attrs)), RelatedText(Some(e)) + ItemsText(attrs, vs),
                  |RelatedText(Some(cut))|, RelatedGroups(Some(cut)) + map[])
  {
    var items, cut := ItemsText(attrs, vs), e.(port := Cut(e.port, AtMost(5)));
    var s, n := RelatedText(Some(e)) + items, |RelatedText(Some(cut))|;
    ItemsTextStart(attrs, vs);
    RelatedGives(e, items);
    AfterCut(e, items, n);
    ItemsGiveNothing(attrs, s[n..]);
    OptGives(Related(), Items(attrs), s, n, RelatedGroups(Some(cut)), 0, map[]);
  }

  lemma {:induction false} RelatedCut(e: Endpoint, rest: string)
    requires |e.port| > 5
    ensures RelatedText(Some(e)) + rest
            == RelatedText(Some(e.(port := Cut(e.port, AtMost(5))))) + (e.port[5..] + rest)
  {
    var c, d := Cut(e.port, AtMost(5)), e.port[5..];
    RelatedAppend(e.(port := c), d);
    assert e.port == c + d;
    var x := RelatedText(Some(e.(port := c)));
    assert (x + d) + rest == x + (d + rest);
  }

  lemma {:induction false} TailStart(l: Line)
    ensures TailText(l) == "" || TailText(l)[0] == ' '
  {
    AttributesAreItems(l);
    ItemsTextStart(Attributes(), Values(l));
  }

  lemma {:induction false} KindGives(kind: string, next: Regex, tail: string, n: nat, g: map<nat, string>)
    requires Word(Token, kind) && (tail == "" || tail[0] == ' ') && Gives(next, tail, n, g)
    ensures Gives(Seq(Group(7, Chars(Token, 1, Unbounded)), next), kind + tail, |kind| + n, map[7 := kind] + g)
  {
    GreedyGives(7, Token, Unbounded, kind, tail);
    assert (kind + tail)[|kind|..] == tail;
    FirstContinues(Group(7, Chars(Token, 1, Unbounded)), next, kind + tail, |kind|, map[7 := kind], n, g);
  }

  lemma {:induction false} TypeGives(l: Line)
    requires WfLine(l)
    ensures Gives(FromType(), TypeText(l), |TypeText(Seen(l))|, map[7 := l.kind] + TailGroups(Seen(l)))
  {
    var n, g := |l.kind| + |TailText(Seen(l))|, map[7 := l.kind] + TailGroups(Seen(l));
    var r, t := Seq(Group(7, Chars(Token, 1, Unbounded)), Tail()), l.kind + TailText(l);
    TailGives(l);
    TailStart(l);
    KindGives(l.kind, Tail(), TailText(l), |TailText(Seen(l))|, TailGroups(Seen(l)));
    WsGives(r, t, n, g);
    LitGives("typ", Seq(Ws(), r), " " + t, 1 + n, g);
  }

  // ---- A whole candidate ----

  /** The port is not found where the word "typ" is. */
  lemma {:induction false} NoPortAtType(l: Line)
    ensures Run(FromPort(), TypeText(l)) == []
  {
    var digits := Chars(Digit, 1, AtMost(5));
    forall j | 0 <= j <= |TypeText(l)| ensures !In(digits, TypeText(l)[..j]) {
      assert 0 < j ==> TypeText(l)[..j][0] == 't';
    }
    FieldFails(6, digits, FromType(), TypeText(l));
  }

  lemma {:induction false} AddressGives(l: Line)
    requires WfLine(l) && |l.port| <= 5
    ensures Gives(Field(5, Address(), FromPort()), AddressText(l), |AddressText(Seen(l))|,
                  map[5 := l.ip] + (map[6 := l.port] + (map[7 := l.kind] + TailGroups(Seen(l)))))
  {
    var n, g := |TypeText(Seen(l))|, map[7 := l.kind] + TailGroups(Seen(l));
    TypeGives(l);
    TokenGives(6, Digit, 1, AtMost(5), FromType(), l.port, TypeText(l), n, g);
    NoPortAtType(l);
    AddressGivesBeforeNumber(5, FromPort(), l.ip, l.port, TypeText(l), |l.port| + 1 + n, map[6 := l.port] + g);
  }

  /** The groups from the transport on. */
  function TransportGroups(l: Line): map<nat, string> {
    map[3 := l.transport] + (map[4 := l.priority]
    + (map[5 := l.ip] + (map[6 := l.port] + (map[7 := l.kind] + TailGroups(l)))))
  }

  lemma {:induction false} TransportGives(l: Line)
    requires WfLine(l) && |l.priority| <= 10 && |l.port| <= 5
    ensures Gives(FromTransport(), TransportText(l), |TransportText(Seen(l))|, TransportGroups(Seen(l)))
  {
    var n := |AddressText(Seen(l))|;
    var g := map[5 := l.ip] + (map[6 := l.port] + (map[7 := l.kind] + TailGroups(Seen(l))));
    AddressGives(l);
    var address := Field(5, Address(), FromPort());
    TokenGives(4, Digit, 1, AtMost(10), address, l.priority, AddressText(l), n, g);
    TokenGives(3, Token, 1, Unbounded, Field(4, Chars(Digit, 1, AtMost(10)), address), l.transport,
               l.priority + (" " + AddressText(l)), |l.priority| + 1 + n, map[4 := l.priority] + g);
  }

  lemma {:induction false} BodyGives(l: Line)
    requires WfLine(l) && Fits(l)
    ensures Gives(Body(), BodyText(l), |BodyText(Seen(l))|, Groups(Seen(l)))
  {
    var n, g := |TransportText(Seen(l))|, TransportGroups(Seen(l));
    TransportGives(l);
    TokenGives(2, Digit, 1, AtMost(5), FromTransport(), l.component, TransportText(l), n, g);
    TokenGives(1, Ice, 1, Unbounded, Field(2, Chars(Digit, 1, AtMost(5)), FromTransport()), l.foundation,
               l.component + (" " + TransportText(l)), |l.component| + 1 + n, map[2 := l.component] + g);
  }

  lemma {:induction false} AddressFails(l: Line)
    requires WfLine(l) && |l.port| > 5
    ensures Run(Field(5, Address(), FromPort()), AddressText(l)) == []
  {
    TokenFails(6, Digit, 1, AtMost(5), FromType(), l.port, TypeText(l));
    NoPortAtType(l);
    AddressFailsBeforeNumber(5, FromPort(), l.ip, l.port, TypeText(l));
  }

  lemma {:induction false} TransportFails(l: Line)
    requires WfLine(l) && (|l.priority| > 10 || |l.port| > 5)
    ensures Run(FromTransport(), TransportText(l)) == []
  {
    var address := Field(5, Address(), FromPort());
    if |l.port| > 5 { AddressFails(l); }
    TokenFails(4, Digit, 1, AtMost(10), address, l.priority, AddressText(l));
    TokenFails(3, Token, 1, Unbounded, Field(4, Chars(Digit, 1, AtMost(10)), address), l.transport,
               l.priority + (" " + AddressText(l)));
  }

  lemma {:induction false} BodyFails(l: Line)
    requires WfLine(l) && !Fits(l)
    ensures Run(Body(), BodyText(l)) == []
  {
    if |l.component| <= 5 { TransportFails(l); }
    TokenFails(2, Digit, 1, AtMost(5), FromTransport(), l.component, TransportText(l));
    TokenFails(1, Ice, 1, Unbounded, Field(2, Chars(Digit, 1, AtMost(5)), FromTransport()), l.foundation,
               l.component + (" " + TransportText(l)));
  }

  lemma {:induction false} PrefixGives(next: Regex, t: string, n: nat, g: map<nat, string>)
    requires Gives(next, t, n, g)
    ensures Gives(Seq(Opt(Lit("a=")), next), "a=" + t, 2 + n, g)
  {
    var s := "a=" + t;
    assert s[..2] == "a=" && s[2..] == t;
    assert map[] + g == g;
    OptGives(Lit("a="), next, s, 2, map[], n, g);
  }

  lemma {:induction false} NoPrefixGives(next: Regex, t: string, n: nat, g: map<nat, string>)
    requires Gives(next, t, n, g) && t != "" && t[0] != 'a'
    ensures Gives(Seq(Opt(Lit("a=")), next), t, n, g)
  {
    OptSkips(Lit("a="), next, t, n, g);
  }

  lemma {:induction false} FrontGives(sdp: bool, body: Regex, t: string, n: nat, g: map<nat, string>)
    requires Gives(body, t, n, g)
    ensures Gives(Seq(Opt(Lit("a=")), Seq(Lit("candidate:"), body)), (if sdp then "a=" else "") + ("candidate:" + t),
                  (if sdp then 2 else 0) + (10 + n), g)
  {
    var r, u := Seq(Lit("candidate:"), body), "candidate:" + t;
    LitGives("candidate:", body, t, n, g);
    if sdp {
      PrefixGives(r, u, 10 + n, g);
    } else {
      NoPrefixGives(r, u, 10 + n, g);
      assert "" + u == u;
    }
  }

  lemma {:induction false} MasterGives(l: Line)
    requires WfLine(l) && Fits(l)
    ensures Gives(Master(), Print(l), |Print(Seen(l))|, Groups(Seen(l)))
  {
    BodyGives(l);
    FrontGives(l.sdp, Body(), BodyText(l), |BodyText(Seen(l))|, Groups(Seen(l)));
  }

  // ---- A candidate is found at the front or not at all ----

  /** The end of the word that every candidate starts with. */
  predicate MarkAt(t: string, q: nat) {
    q + 2 < |t| && t[q] == 't' && t[q + 1] == 'e' && t[q + 2] == ':'
  }

  predicate Clean(t: string) {
    forall q :: 0 <= q < |t| ==> !MarkAt(t, q)
  }

  lemma {:induction false} CleanJoin(x: string, y: string)
    requires Clean(x) && Clean(y)
    ensures Clean(x + (" " + y))
  {
    var t := x + (" " + y);
    forall q | 0 <= q < |t| ensures !MarkAt(t, q) {
      if q < |x| {
        assert !MarkAt(x, q);
        assert t[|x|] == ' ';
      } else if q > |x| {
        assert !MarkAt(y, q - |x| - 1);
      }
    }
  }

  lemma {:induction false} NoColonIsClean(t: string)
    requires ':' !in t
    ensures Clean(t)
  {
  }

  lemma {:induction false} WordIsClean(cls: Class, t: string)
    requires SpaceFree(cls) && AllIn(cls, t)
    ensures ':' !in t && Clean(t)
  {
    assert !Member(cls, ':');
  }

  lemma {:induction false} AddressIsClean(a: string)
    requires In(Address(), a)
    ensures Clean(a)
  {
    if In(Ipv4(), a) {
      DottedIsSparse(3, a);
      forall q | 0 <= q < |a| ensures !MarkAt(a, q) {
        assert q + 1 < |a| ==> IsDigit(a[q]) || IsDigit(a[q + 1]);
      }
    } else if In(Ipv6(), a) {
      Ipv6Avoids('t');
      AvoidedIsNotMatched(Ipv6(), 't', a);
    } else {
      DomainAvoids(':');
      AvoidedIsNotMatched(Domain(), ':', a);
    }
  }

  lemma {:induction false} ItemsHaveNoColon(attrs: seq<Attribute>, vs: seq<Option<string>>)
    requires WfItems(attrs, vs)
    requires forall i :: 0 <= i < |attrs| ==> SpaceFree(attrs[i].cls) && ':' !in attrs[i].name
    ensures ':' !in ItemsText(attrs, vs)
  {
    if attrs != [] {
      if vs[0].Some? { WordIsClean(attrs[0].cls, vs[0].value); }
      ItemsHaveNoColon(attrs[1..], vs[1..]);
    }
  }

  lemma {:induction false} AttributesHaveNoColon(i: nat)
    requires i < |Attributes()|
    ensures SpaceFree(Attributes()[i].cls) && ':' !in Attributes()[i].name
  {
  }

  lemma {:induction false} TailIsClean(l: Line)
    requires WfLine(l)
    ensures Clean(TailText(l))
  {
    var items := ItemsText(Attributes(), Values(l));
    forall i | 0 <= i < |Attributes()| ensures SpaceFree(Attributes()[i].cls) && ':' !in Attributes()[i].name {
      AttributesHaveNoColon(i);
    }
    WfAttributes(l);
    ItemsHaveNoColon(Attributes(), Values(l));
    AttributesAreItems(l);
    NoColonIsClean(items);
    if l.related.Some? { RelatedIsClean(l.related.value, items); }
  }

  lemma {:induction false} RelatedIsClean(e: Endpoint, items: string)
    requires WfAddress(e.ip) && Word(Digit, e.port) && ':' !in items
    ensures Clean(RelatedText(Some(e)) + items)
  {
    WordIsClean(Digit, e.port);
    AddressIsClean(e.ip);
    var t := "rport" + (" " + (e.port + items));
    NoColonIsClean(t);
    CleanJoin(e.ip, t);
    CleanJoin("raddr", e.ip + (" " + t));
    var u := "raddr" + (" " + (e.ip + (" " + t)));
    CleanJoin("", u);
    assert "" + (" " + u) == " " + u;
    RelatedAppend(e, items);
  }

  lemma {:induction false} KindIsClean(kind: string, tail: string)
    requires Word(Token, kind) && Clean(tail) && (tail == "" || tail[0] == ' ')
    ensures Clean(kind + tail)
  {
    WordIsClean(Token, kind);
    if tail == "" {
      assert kind + tail == kind;
    } else {
      var t := tail[1..];
      assert tail == " " + t;
      assert forall q :: 0 <= q < |t| && MarkAt(t, q) ==> MarkAt(tail, q + 1);
      CleanJoin(kind, t);
    }
  }

  lemma {:induction false} TypeIsClean(l: Line)
    requires WfLine(l)
    ensures Clean(TypeText(l))
  {
    TailIsClean(l);
    TailStart(l);
    KindIsClean(l.kind, TailText(l));
    NoColonIsClean("typ");
    CleanJoin("typ", l.kind + TailText(l));
  }

  lemma {:induction false} BodyIsClean(l: Line)
    requires WfLine(l)
    ensures Clean(BodyText(l))
  {
    WordIsClean(Digit, l.port);
    WordIsClean(Digit, l.priority);
    WordIsClean(Token, l.transport);
    WordIsClean(Digit, l.component);
    WordIsClean(Ice, l.foundation);
    AddressIsClean(l.ip);
    TypeIsClean(l);
    CleanJoin(l.port, TypeText(l));
    CleanJoin(l.ip, l.port + (" " + TypeText(l)));
    CleanJoin(l.priority, AddressText(l));
    CleanJoin(l.transport, l.priority + (" " + AddressText(l)));
    CleanJoin(l.component, TransportText(l));
    CleanJoin(l.foundation, l.component + (" " + TransportText(l)));
  }

  /** The word that a candidate starts with is at position p of s. */
  predicate StartsAt(s: string, p: nat) {
    p + 10 <= |s| && s[p..p + 10] == "candidate:"
  }

  function Front(l: Line): (h: string)
    ensures |h| == 10 || |h| == 12
    ensures h[|h| - 3] == 't' && forall q :: 0 <= q < |h| && q != |h| - 3 ==> h[q] != 't'
  {
    if l.sdp then "a=candidate:" else "candidate:"
  }

  lemma {:induction false} PrintFront(l: Line)
    ensures Print(l) == Front(l) + BodyText(l)
  {
    assert "a=" + "candidate:" == "a=candidate:";
  }

  lemma {:induction false} StartHasMark(s: string, p: nat)
    requires StartsAt(s, p)
    ensures MarkAt(s, p + 7)
  {
    var t := s[p..p + 10];
    assert t[7] == s[p + 7] && t[8] == s[p + 8] && t[9] == s[p + 9];
  }

  lemma {:induction false} MarkIsInFront(h: string, t: string, q: nat)
    requires |h| >= 3 && Clean(t) && MarkAt(h + t, q)
    requires forall i :: 0 <= i < |h| && i != |h| - 3 ==> h[i] != 't'
    ensures q == |h| - 3
  {
    var s := h + t;
    if q >= |h| {
      assert s[q] == t[q - |h|] && s[q + 1] == t[q - |h| + 1] && s[q + 2] == t[q - |h| + 2];
      assert MarkAt(t, q - |h|);
    }
  }

  lemma {:induction false} StartsOnlyAtTheFront(l: Line, p: nat)
    requires WfLine(l) && StartsAt(Print(l), p)
    ensures p + 10 == |Front(l)| && Print(l)[p + 10..] == BodyText(l)
  {
    PrintFront(l);
    StartHasMark(Print(l), p);
    BodyIsClean(l);
    MarkIsInFront(Front(l), BodyText(l), p + 7);
  }

  lemma {:induction false} PrefixRuns(s: string)
    ensures forall j :: 0 <= j < |Run(Opt(Lit("a=")), s)| ==>
              var m := Run(Opt(Lit("a=")), s)[j];
              m.taken == 0 || (m.taken == 2 && 2 <= |s|)
  {
    assert forall j :: 0 <= j < |Run(Lit("a="), s)| ==> Run(Lit("a="), s)[j].taken == 2;
  }

  /** No match where the word is followed by nothing that matches. */
  lemma {:induction false} MasterFails(s: string)
    requires StartsAt(s, 0) ==> Run(Body(), s[10..]) == []
    requires StartsAt(s, 2) ==> Run(Body(), s[12..]) == []
    ensures Run(Master(), s) == []
  {
    var r := Seq(Lit("candidate:"), Body());
    WordFails(s, 0);
    if |s| >= 2 { WordFails(s, 2); }
    PrefixRuns(s);
    NoneOfThen(Run(Opt(Lit("a=")), s), r, s);
  }

  lemma {:induction false} WordFails(s: string, p: nat)
    requires p <= |s| && (StartsAt(s, p) ==> Run(Body(), s[p + 10..]) == [])
    ensures Run(Seq(Lit("candidate:"), Body()), s[p..]) == []
  {
    var t := s[p..];
    if "candidate:" <= t {
      assert s[p..p + 10] == t[..10] == "candidate:";
      assert t == "candidate:" + s[p + 10..];
      LitThenFails("candidate:", Body(), s[p + 10..]);
    } else {
      LitFails("candidate:", Body(), t);
    }
  }

  lemma {:induction false} NotFoundAt(l: Line, i: nat)
    requires WfLine(l) && !Fits(l) && i <= |Print(l)|
    ensures Run(Master(), Print(l)[i..]) == []
  {
    var s, t := Print(l), Print(l)[i..];
    BodyFails(l);
    if StartsAt(t, 0) {
      assert s[i..i + 10] == t[0..10] && s[i + 10..] == t[10..];
      StartsOnlyAtTheFront(l, i);
    }
    if StartsAt(t, 2) {
      assert s[i + 2..i + 12] == t[2..12] && s[i + 12..] == t[12..];
      StartsOnlyAtTheFront(l, i + 2);
    }
    MasterFails(t);
  }

  /** The expression matches a well formed line exactly when the fields that must be there are short enough; it
      then matches at the front, and the groups are the fields of the line as the parser sees it. */
  lemma {:induction false} LineIsMatched(l: Line)
    requires WfLine(l)
    ensures Search(Master(), Print(l))
            == if Fits(l) then Some(Found(0, Match(|Print(Seen(l))|, Groups(Seen(l))))) else None
  {
    var s := Print(l);
    assert s[0..] == s;
    if Fits(l) {
      MasterGives(l);
    } else {
      forall i | 0 <= i <= |s| ensures Run(Master(), s[i..]) == [] { NotFoundAt(l, i); }
    }
  }

  // ---- What the parser sees ----

  lemma {:induction false} SeenItemsText(attrs: seq<Attribute>, vs: seq<Option<string>>)
    requires |attrs| == |vs|
    ensures ItemsText(attrs, SeenItems(attrs, vs)) <= ItemsText(attrs, vs)
  {
    if attrs != [] {
      var seen, rest := SeenItems(attrs, vs), ItemsText(attrs[1..], vs[1..]);
      if vs[0].None? || Within(|vs[0].value|, attrs[0].max) {
        SeenItemsText(attrs[1..], vs[1..]);
        assert seen[1..] == SeenItems(attrs[1..], vs[1..]);
      } else {
        assert seen[1..] == NoValues(|vs| - 1);
        NoValuesText(attrs[1..]);
        CutText(attrs[0], vs[0].value, rest);
      }
    }
  }

  lemma {:induction false} SeenTailIsAPrefix(l: Line)
    ensures TailText(Seen(l)) <= TailText(l)
  {
    var attrs := Attributes();
    AttributesAreItems(l);
    AttributesAreItems(Seen(l));
    if l.related.Some? && |l.related.value.port| > 5 {
      assert Values(Seen(l)) == NoValues(|attrs|);
      NoValuesText(attrs);
      RelatedCut(l.related.value, ItemsText(attrs, Values(l)));
    } else {
      SeenValues(l);
      SeenItemsText(attrs, Values(l));
      Grows(RelatedText(l.related), ItemsText(attrs, SeenItems(attrs, Values(l))), ItemsText(attrs, Values(l)));
    }
  }

  /** What the parser sees is a beginning of the line. */
  lemma {:induction false} SeenIsAPrefix(l: Line)
    ensures Print(Seen(l)) <= Print(l)
  {
    SeenTailIsAPrefix(l);
    HeadGrows(l, Seen(l));
  }

  lemma {:induction false} Grows(x: string, y: string, z: string)
    requires y <= z
    ensures x + y <= x + z
  {
    assert z == y + z[|y|..];
    assert x + z == (x + y) + z[|y|..];
  }

  lemma {:induction false} JoinGrows(x: string, y: string, z: string)
    requires y <= z
    ensures x + (" " + y) <= x + (" " + z)
  {
    Grows(" ", y, z);
    Grows(x, " " + y, " " + z);
  }

  /** A line with the same fields in front and a longer tail is longer. */
  lemma {:induction false} HeadGrows(l: Line, m: Line)
    requires m == l.(related := m.related, generation := m.generation, ufrag := m.ufrag,
                     networkId := m.networkId, networkCost := m.networkCost)
    requires TailText(m) <= TailText(l)
    ensures Print(m) <= Print(l)
  {
    Grows(l.kind, TailText(m), TailText(l));
    JoinGrows("typ", l.kind + TailText(m), l.kind + TailText(l));
    JoinGrows(l.port, TypeText(m), TypeText(l));
    JoinGrows(l.ip, l.port + (" " + TypeText(m)), l.port + (" " + TypeText(l)));
    JoinGrows(l.priority, AddressText(m), AddressText(l));
    JoinGrows(l.transport, l.priority + (" " + AddressText(m)), l.priority + (" " + AddressText(l)));
    JoinGrows(l.component, TransportText(m), TransportText(l));
    JoinGrows(l.foundation, l.component + (" " + TransportText(m)), l.component + (" " + TransportText(l)));
    PrintFront(l);
    PrintFront(m);
    Grows(Front(l), BodyText(m), BodyText(l));
  }
}
