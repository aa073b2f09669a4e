/** Which texts the address expression of SpitfireUtils.IceParser accepts in full, without reference to it. */
module IceAddresses {
  import opened Options
  import opened IceRegex
  import opened IceGrammar
  import opened IceMatching

  // ---- The three kinds of addresses ----

  predicate IsHexDigit(c: char) {
    '0' <= c <= '9' || 'a' <= c <= 'f' || 'A' <= c <= 'F'
  }

  predicate IsNameChar(c: char) {
    '0' <= c <= '9' || 'a' <= c <= 'z'
  }

  /** One to three decimal digits. */
  predicate Quad(t: string) {
    1 <= |t| <= 3 && forall i :: 0 <= i < |t| ==> '0' <= t[i] <= '9'
  }

  /** Four numbers with anything but a line feed between them: the dots in the expression are not escaped. */
  ghost predicate Quads(t: string) {
    exists a, x, b, y, c, z, d :: Quadruple(t, a, x, b, y, c, z, d)
  }

  predicate Quadruple(t: string, a: string, x: char, b: string, y: char, c: string, z: char, d: string) {
    && Quad(a) && Quad(b) && Quad(c) && Quad(d) && x != '\n' && y != '\n' && z != '\n'
    && t == a + ([x] + (b + ([y] + (c + ([z] + d)))))
  }

  /** Hexadecimal digits and colons in any number and order: each part of the expression can be left out. */
  predicate HexAndColons(t: string) {
    forall i :: 0 <= i < |t| ==> IsHexDigit(t[i]) || t[i] == ':'
  }

  /** Up to 63 lower case letters, digits and dashes, without a dash at either end. */
  predicate Label(t: string) {
    && 1 <= |t| <= 63 && IsNameChar(t[0]) && IsNameChar(t[|t| - 1])
    && forall i :: 0 <= i < |t| ==> IsNameChar(t[i]) || t[i] == '-'
  }

  predicate Labels(labels: seq<string>) {
    forall i :: 0 <= i < |labels| ==> Label(labels[i])
  }

  /** Every label with a dot after it. */
  function WithDots(labels: seq<string>): string {
    if labels == [] then "" else (labels[0] + ".") + WithDots(labels[1..])
  }

  /** A last label of at least two characters, and other labels before it. */
  predicate NameOf(t: string, labels: seq<string>, last: string) {
    labels != [] && Labels(labels) && Label(last) && |last| >= 2 && t == WithDots(labels) + last
  }

  ghost predicate DomainName(t: string) {
    exists labels, last :: NameOf(t, labels, last)
  }

  ghost predicate IsAddress(t: string) {
    Quads(t) || HexAndColons(t) || DomainName(t)
  }

  // ---- Four numbers ----

  lemma {:induction false} JoinIn(a: Regex, b: Regex, x: string, y: string)
    requires In(a, x) && In(b, y)
    ensures In(Seq(a, b), x + y)
  {
    var t := x + y;
    assert t[..|x|] == x && t[|x|..] == y;
  }

  lemma {:induction false} QuadIn(t: string)
    ensures Quad(t) <==> In(Chars(Digit, 1, AtMost(3)), t)
  {
  }

  lemma {:induction false} DottedIn(n: nat, d: string, x: char, rest: string)
    requires Quad(d) && x != '\n' && In(Dotted(n), rest)
    ensures In(Dotted(n + 1), d + ([x] + rest))
  {
    QuadIn(d);
    assert In(Once(NotNewline), [x]);
    JoinIn(Once(NotNewline), Dotted(n), [x], rest);
    JoinIn(Chars(Digit, 1, AtMost(3)), Seq(Once(NotNewline), Dotted(n)), d, [x] + rest);
  }

  lemma {:induction false} QuadrupleIn(t: string, a: string, x: char, b: string, y: char, c: string, z: char, d: string)
    requires Quadruple(t, a, x, b, y, c, z, d)
    ensures In(Ipv4(), t)
  {
    QuadIn(d);
    DottedIn(0, c, z, d);
    DottedIn(1, b, y, c + ([z] + d));
    DottedIn(2, a, x, b + ([y] + (c + ([z] + d))));
  }

  lemma {:induction false} QuadsIff(t: string)
    ensures In(Ipv4(), t) <==> Quads(t)
  {
    if In(Ipv4(), t) {
      var a, x, u := DottedSplits(3, t);
      var b, y, v := DottedSplits(2, u);
      var c, z, d := DottedSplits(1, v);
      QuadIn(a);
      QuadIn(b);
      QuadIn(c);
      QuadIn(d);
      assert Quadruple(t, a, x, b, y, c, z, d);
    }
    if Quads(t) {
      var a, x, b, y, c, z, d :| Quadruple(t, a, x, b, y, c, z, d);
      QuadrupleIn(t, a, x, b, y, c, z, d);
    }
  }

  // ---- Hexadecimal digits and colons ----

  function HexGroup(): Regex {
    Seq(Chars(Hex, 0, AtMost(4)), Opt(Lit(":")))
  }

  lemma {:induction false} PlusMore(a: Regex, x: string, y: string)
    requires x != "" && In(a, x) && In(Plus(a), y)
    ensures In(Plus(a), x + y)
  {
    var t := x + y;
    assert t[..|x|] == x && t[|x|..] == y;
  }

  lemma {:induction false} HexGroupIn(t: string)
    requires |t| <= 1 && HexAndColons(t)
    ensures In(HexGroup(), t)
  {
    var digits, colon := Chars(Hex, 0, AtMost(4)), Opt(Lit(":"));
    assert In(digits, "") && In(colon, "");
    if t == ":" {
      assert In(Lit(":"), ":");
      JoinIn(digits, colon, "", ":");
      assert "" + ":" == t;
    } else {
      assert In(digits, t);
      JoinIn(digits, colon, t, "");
      assert t + "" == t;
    }
  }

  lemma {:induction false} HexGroupsIn(t: string)
    requires HexAndColons(t)
    ensures In(Plus(HexGroup()), t)
  {
    if |t| <= 1 {
      HexGroupIn(t);
      OnceIsPlus(HexGroup(), t);
    } else {
      HexGroupIn(t[..1]);
      HexGroupsIn(t[1..]);
      PlusMore(HexGroup(), t[..1], t[1..]);
      assert t == t[..1] + t[1..];
    }
  }

  lemma {:induction false} HexAndColonsIff(t: string)
    ensures In(Ipv6(), t) <==> HexAndColons(t)
  {
    if In(Ipv6(), t) {
      forall i | 0 <= i < |t| ensures IsHexDigit(t[i]) || t[i] == ':' {
        if !IsHexDigit(t[i]) && t[i] != ':' {
          Ipv6Avoids(t[i]);
          AvoidedIsNotMatched(Ipv6(), t[i], t);
        }
      }
    }
    if HexAndColons(t) {
      HexGroupsIn(t);
      assert In(Opt(Lit(":")), "");
      JoinIn(Opt(Lit(":")), Plus(HexGroup()), "", t);
      assert "" + t == t;
    }
  }

  // ---- Domain names ----

  function Middle(): Regex {
    Chars(LowerAlnumDash, 0, AtMost(61))
  }

  function Ending(): Regex {
    Seq(Middle(), Once(LowerAlnum))
  }

  function DottedLabel(): Regex {
    Seq(Once(LowerAlnum), Seq(Opt(Ending()), Lit(".")))
  }

  function LastLabel(): Regex {
    Seq(Once(LowerAlnum), Ending())
  }

  /** A label without its first character. */
  predicate Rest(t: string) {
    1 <= |t| <= 62 && IsNameChar(t[|t| - 1]) && forall i :: 0 <= i < |t| ==> IsNameChar(t[i]) || t[i] == '-'
  }

  lemma {:induction false} EndingIff(t: string)
    ensures In(Ending(), t) <==> Rest(t)
  {
    if In(Ending(), t) {
      var k := Split(Middle(), Once(LowerAlnum), t);
      assert |t[k..]| == 1 && Member(LowerAlnum, t[k..][0]);
      assert forall i :: 0 <= i < k ==> t[i] == t[..k][i];
    }
    if Rest(t) {
      var k := |t| - 1;
      assert In(Middle(), t[..k]) && In(Once(LowerAlnum), t[k..]);
    }
  }

  lemma {:induction false} LastLabelIff(t: string)
    ensures In(LastLabel(), t) <==> Label(t) && |t| >= 2
  {
    if In(LastLabel(), t) {
      var c, r := OnceSplits(LowerAlnum, Ending(), t);
      EndingIff(r);
      LabelOfParts(c, r);
    }
    if Label(t) && |t| >= 2 {
      assert In(Once(LowerAlnum), t[..1]);
      EndingIff(t[1..]);
      assert Rest(t[1..]);
    }
  }

  lemma {:induction false} LabelIn(l: string)
    requires Label(l)
    ensures In(DottedLabel(), l + ".")
  {
    var h, r := l[..1], l[1..];
    assert In(Once(LowerAlnum), h);
    assert In(Opt(Ending()), r) by { if r != "" { EndingIff(r); assert Rest(r); } }
    assert In(Lit("."), ".");
    JoinIn(Opt(Ending()), Lit("."), r, ".");
    JoinIn(Once(LowerAlnum), Seq(Opt(Ending()), Lit(".")), h, r + ".");
    assert l + "." == h + (r + ".");
  }

  lemma {:induction false} LabelOfParts(c: char, r: string)
    requires IsNameChar(c) && (r == "" || Rest(r))
    ensures Label([c] + r)
  {
    var l := [c] + r;
    assert forall i :: 0 < i < |l| ==> l[i] == r[i - 1];
  }

  lemma {:induction false} LitEnds(a: Regex, text: string, t: string) returns (r: string)
    requires In(Seq(a, Lit(text)), t)
    ensures t == r + text && In(a, r)
  {
    var k := Split(a, Lit(text), t);
    r := t[..k];
  }

  lemma {:induction false} LabelOut(t: string) returns (l: string)
    requires In(DottedLabel(), t)
    ensures Label(l) && t == l + "."
  {
    var c, u := OnceSplits(LowerAlnum, Seq(Opt(Ending()), Lit(".")), t);
    var r := LitEnds(Opt(Ending()), ".", u);
    EndingIff(r);
    LabelOfParts(c, r);
    l := [c] + r;
  }

  lemma {:induction false} LabelsIn(labels: seq<string>)
    requires labels != [] && Labels(labels)
    ensures In(Plus(DottedLabel()), WithDots(labels))
  {
    LabelIn(labels[0]);
    if |labels| == 1 {
      assert WithDots(labels[1..]) == "" && WithDots(labels) == labels[0] + ".";
      OnceIsPlus(DottedLabel(), labels[0] + ".");
    } else {
      LabelsIn(labels[1..]);
      PlusMore(DottedLabel(), labels[0] + ".", WithDots(labels[1..]));
    }
  }

  lemma {:induction false} LabelsOut(t: string) returns (labels: seq<string>)
    requires In(Plus(DottedLabel()), t)
    ensures labels != [] && Labels(labels) && t == WithDots(labels)
    decreases |t|
  {
    var r := Plus(DottedLabel());
    var k :| 0 <= k <= |t| && In(DottedLabel(), t[..k]) && (k == |t| || (0 < k && In(r, t[k..])));
    var first := t[..k];
    var l := LabelOut(first);
    if k == |t| {
      labels := [l];
      assert labels[1..] == [] && WithDots([]) == "";
    } else {
      var rest := LabelsOut(t[k..]);
      labels := [l] + rest;
      assert labels[1..] == rest && t == first + t[k..];
    }
  }

  lemma {:induction false} DomainNameIff(t: string)
    ensures In(Domain(), t) <==> DomainName(t)
  {
    if In(Domain(), t) {
      var k := Split(Plus(DottedLabel()), LastLabel(), t);
      var labels := LabelsOut(t[..k]);
      LastLabelIff(t[k..]);
      assert NameOf(t, labels, t[k..]);
    }
    if DomainName(t) {
      var labels, last :| NameOf(t, labels, last);
      LabelsIn(labels);
      LastLabelIff(last);
      JoinIn(Plus(DottedLabel()), LastLabel(), WithDots(labels), last);
    }
  }

  /** The expression accepts in full exactly the addresses of the three kinds. */
  lemma {:induction false} AcceptedIff(t: string)
    ensures In(Address(), t) <==> IsAddress(t)
  {
    QuadsIff(t);
    HexAndColonsIff(t);
    DomainNameIff(t);
    assert In(Alt(Ipv6(), Domain()), t) <==> In(Ipv6(), t) || In(Domain(), t);
  }
}
