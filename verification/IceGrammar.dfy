/** The expression that SpitfireUtils.IceParser matches a candidate with, and what it captures from every
    candidate line of section 15.1 of RFC 5245 with the extension attributes that WebRTC writes. */
module IceGrammar {
  import opened Options
  import opened IceRegex

  // ---- The expressions ----

  function Once(cls: Class): Regex {
    Chars(cls, 1, AtMost(1))
  }

  /** The dots are not escaped: they stand for any character but a line feed. */
  function Dotted(n: nat): Regex {
    var digits := Chars(Digit, 1, AtMost(3));
    if n == 0 then digits else Seq(digits, Seq(Once(NotNewline), Dotted(n - 1)))
  }

  function Ipv4(): Regex {
    Dotted(3)
  }

  function Ipv6(): Regex {
    Seq(Opt(Lit(":")), Plus(Seq(Chars(Hex, 0, AtMost(4)), Opt(Lit(":")))))
  }

  function Domain(): Regex {
    var middle := Chars(LowerAlnumDash, 0, AtMost(61));
    Seq(Plus(Seq(Once(LowerAlnum), Seq(Opt(Seq(middle, Once(LowerAlnum))), Lit(".")))),
        Seq(Once(LowerAlnum), Seq(middle, Once(LowerAlnum))))
  }

  function Address(): Regex {
    Alt(Ipv4(), Alt(Ipv6(), Domain()))
  }

  /** An optional attribute at the end of a candidate: its name, its group and the characters of its value. */
  datatype Attribute = Attribute(name: string, k: nat, cls: Class, max: Bound)

  function Attributes(): seq<Attribute> {
    [Attribute("generation", 10, Digit, Unbounded), Attribute("ufrag", 11, Ice, Unbounded),
     Attribute("network-id", 12, Digit, AtMost(10)), Attribute("network-cost", 13, Digit, AtMost(10))]
  }

  function Item(a: Attribute): Regex {
    Seq(Ws(), Seq(Lit(a.name), Seq(Ws(), Group(a.k, Chars(a.cls, 1, a.max)))))
  }

  function Items(attrs: seq<Attribute>): Regex {
    if attrs == [] then Lit("") else Seq(Opt(Item(attrs[0])), Items(attrs[1..]))
  }

  function Rport(): Regex {
    Seq(Lit("rport"), Seq(Ws(), Group(9, Chars(Digit, 1, AtMost(5)))))
  }

  function Related(): Regex {
    Seq(Ws(), Seq(Lit("raddr"), Seq(Ws(), Field(8, Address(), Rport()))))
  }

  function Tail(): Regex {
    Seq(Opt(Related()), Items(Attributes()))
  }

  function FromType(): Regex {
    Seq(Lit("typ"), Seq(Ws(), Seq(Group(7, Chars(Token, 1, Unbounded)), Tail())))
  }

  function FromPort(): Regex {
    Field(6, Chars(Digit, 1, AtMost(5)), FromType())
  }

  function FromTransport(): Regex {
    Field(3, Chars(Token, 1, Unbounded), Field(4, Chars(Digit, 1, AtMost(10)), Field(5, Address(), FromPort())))
  }

  function Body(): Regex {
    Field(1, Chars(Ice, 1, Unbounded), Field(2, Chars(Digit, 1, AtMost(5)), FromTransport()))
  }

  function Master(): Regex {
    Seq(Opt(Lit("a=")), Seq(Lit("candidate:"), Body()))
  }

  // ---- Candidate lines ----

  datatype Endpoint = Endpoint(ip: string, port: string)

  /** A candidate line, field by field; sdp says whether it is written as the SDP attribute, with "a=" in front. */
  datatype Line = Line(
    sdp: bool, foundation: string, component: string, transport: string, priority: string,
    ip: string, port: string, kind: string, related: Option<Endpoint>,
    generation: Option<string>, ufrag: Option<string>, networkId: Option<string>, networkCost: Option<string>)

  function Values(l: Line): seq<Option<string>> {
    [l.generation, l.ufrag, l.networkId, l.networkCost]
  }

  function ItemText(a: Attribute, v: Option<string>): string {
    if v.None? then "" else " " + (a.name + (" " + v.value))
  }

  function ItemsText(attrs: seq<Attribute>, vs: seq<Option<string>>): string
    requires |attrs| == |vs|
  {
    if attrs == [] then "" else ItemText(attrs[0], vs[0]) + ItemsText(attrs[1..], vs[1..])
  }

  function RelatedText(e: Option<Endpoint>): string {
    if e.None? then "" else " " + ("raddr" + (" " + (e.value.ip + (" " + ("rport" + (" " + e.value.port))))))
  }

  function OptionalText(words: string, v: Option<string>): string {
    if v.None? then "" else words + v.value
  }

  /** The optional attributes in the order and with the names that WebRTC writes. */
  function AttributesText(l: Line): string {
    OptionalText(" generation ", l.generation) + (OptionalText(" ufrag ", l.ufrag)
    + (OptionalText(" network-id ", l.networkId) + OptionalText(" network-cost ", l.networkCost)))
  }

  function TailText(l: Line): string {
    RelatedText(l.related) + AttributesText(l)
  }

  function TypeText(l: Line): string {
    "typ" + (" " + (l.kind + TailText(l)))
  }

  function AddressText(l: Line): string {
    l.ip + (" " + (l.port + (" " + TypeText(l))))
  }

  function TransportText(l: Line): string {
    l.transport + (" " + (l.priority + (" " + AddressText(l))))
  }

  function BodyText(l: Line): string {
    l.foundation + (" " + (l.component + (" " + TransportText(l))))
  }

  function Print(l: Line): string {
    (if l.sdp then "a=" else "") + ("candidate:" + BodyText(l))
  }

  predicate Word(cls: Class, t: string) {
    t != "" && AllIn(cls, t)
  }

  predicate SpaceFreeText(t: string) {
    forall i :: 0 <= i < |t| ==> !IsSpace(t[i])
  }

  /** An address that the expression accepts in full and that has no white space in it. */
  ghost predicate WfAddress(a: string) {
    SpaceFreeText(a) && In(Address(), a)
  }

  ghost predicate WfItems(attrs: seq<Attribute>, vs: seq<Option<string>>) {
    |attrs| == |vs| && forall i :: 0 <= i < |vs| && vs[i].Some? ==> Word(attrs[i].cls, vs[i].value)
  }

  /** Every field is made of the characters that it may have, in any number. */
  ghost predicate WfLine(l: Line) {
    && Word(Ice, l.foundation) && Word(Digit, l.component) && Word(Token, l.transport) && Word(Digit, l.priority)
    && WfAddress(l.ip) && Word(Digit, l.port) && Word(Token, l.kind)
    && (l.related.Some? ==> WfAddress(l.related.value.ip) && Word(Digit, l.related.value.port))
    && (l.generation.Some? ==> Word(Digit, l.generation.value)) && (l.ufrag.Some? ==> Word(Ice, l.ufrag.value))
    && (l.networkId.Some? ==> Word(Digit, l.networkId.value))
    && (l.networkCost.Some? ==> Word(Digit, l.networkCost.value))
  }

  lemma {:induction false} WfAttributes(l: Line)
    requires WfLine(l)
    ensures WfItems(Attributes(), Values(l))
  {
    var attrs := Attributes();
    assert attrs[0].cls == Digit && attrs[1].cls == Ice && attrs[2].cls == Digit && attrs[3].cls == Digit;
  }

  lemma {:induction false} OptionalIsItem(words: string, a: Attribute, v: Option<string>)
    requires words == " " + a.name + " "
    ensures OptionalText(words, v) == ItemText(a, v)
  {
    if v.Some? { assert words + v.value == " " + (a.name + (" " + v.value)); }
  }

  lemma {:induction false} FourItems(a: Attribute, b: Attribute, c: Attribute, d: Attribute,
                                     v: Option<string>, w: Option<string>, x: Option<string>, y: Option<string>)
    ensures ItemsText([a, b, c, d], [v, w, x, y])
            == ItemText(a, v) + (ItemText(b, w) + (ItemText(c, x) + ItemText(d, y)))
  {
    assert [a, b, c, d][1..] == [b, c, d] && [b, c, d][1..] == [c, d] && [c, d][1..] == [d] && [d][1..] == [];
    assert [v, w, x, y][1..] == [w, x, y] && [w, x, y][1..] == [x, y] && [x, y][1..] == [y] && [y][1..] == [];
    assert ItemsText([d], [y]) == ItemText(d, y) + "";
    assert ItemsText([c, d], [x, y]) == ItemText(c, x) + ItemText(d, y);
    assert ItemsText([b, c, d], [w, x, y]) == ItemText(b, w) + (ItemText(c, x) + ItemText(d, y));
  }

  /** The names and the order of the attributes in the expression are those that are written. */
  lemma {:induction false} AttributesAreItems(l: Line)
    ensures AttributesText(l) == ItemsText(Attributes(), Values(l))
  {
    var a := Attributes();
    OptionalIsItem(" generation ", a[0], l.generation);
    OptionalIsItem(" ufrag ", a[1], l.ufrag);
    OptionalIsItem(" network-id ", a[2], l.networkId);
    OptionalIsItem(" network-cost ", a[3], l.networkCost);
    FourItems(a[0], a[1], a[2], a[3], l.generation, l.ufrag, l.networkId, l.networkCost);
    assert a == [a[0], a[1], a[2], a[3]];
  }

  /** The fields that must be there are not longer than the expression lets them be. */
  predicate Fits(l: Line) {
    |l.component| <= 5 && |l.priority| <= 10 && |l.port| <= 5
  }

  // ---- What is left of the optional attributes when one of them is too long ----

  function NoValues(n: nat): (vs: seq<Option<string>>)
    ensures |vs| == n && forall i :: 0 <= i < n ==> vs[i] == None
  {
    seq(n, i => None)
  }

  /** A value that is too long is cut off, and what follows it is not seen at all. */
  function SeenItems(attrs: seq<Attribute>, vs: seq<Option<string>>): (r: seq<Option<string>>)
    requires |attrs| == |vs|
    ensures |r| == |vs|
  {
    if attrs == [] then []
    else if vs[0].None? || Within(|vs[0].value|, attrs[0].max) then [vs[0]] + SeenItems(attrs[1..], vs[1..])
    else [Some(Cut(vs[0].value, attrs[0].max))] + NoValues(|vs| - 1)
  }

  /** The line that the parser sees. */
  function Seen(l: Line): Line {
    if l.related.Some? && |l.related.value.port| > 5 then
      l.(related := Some(l.related.value.(port := Cut(l.related.value.port, AtMost(5)))),
         generation := None, ufrag := None, networkId := None, networkCost := None)
    else
      var vs := SeenItems(Attributes(), Values(l));
      l.(generation := vs[0], ufrag := vs[1], networkId := vs[2], networkCost := vs[3])
  }

  function ItemsGroups(attrs: seq<Attribute>, vs: seq<Option<string>>): map<nat, string>
    requires |attrs| == |vs|
  {
    if attrs == [] then map[]
    else (if vs[0].None? then map[] else map[attrs[0].k := vs[0].value]) + ItemsGroups(attrs[1..], vs[1..])
  }

  function RelatedGroups(e: Option<Endpoint>): map<nat, string> {
    if e.None? then map[] else map[8 := e.value.ip] + map[9 := e.value.port]
  }

  function TailGroups(l: Line): map<nat, string> {
    RelatedGroups(l.related) + ItemsGroups(Attributes(), Values(l))
  }

  /** The groups of a line: each holds its own field. */
  function Groups(l: Line): map<nat, string> {
    map[1 := l.foundation] + (map[2 := l.component] + (map[3 := l.transport] + (map[4 := l.priority]
    + (map[5 := l.ip] + (map[6 := l.port] + (map[7 := l.kind] + TailGroups(l)))))))
  }

  // ---- The optional attributes ----

  ghost predicate Differ(x: string, y: string) {
    exists k :: 0 <= k < |x| && k < |y| && x[k] != y[k]
  }

  /** Any two names differ somewhere, and no value has white space in it. */
  ghost predicate Apart(attrs: seq<Attribute>) {
    && (forall i, j :: 0 <= i < j < |attrs| ==> Differ(attrs[i].name, attrs[j].name))
    && (forall i :: 0 <= i < |attrs| ==> SpaceFree(attrs[i].cls) && Within(1, attrs[i].max))
  }

  lemma {:induction false} DifferAt(x: string, y: string, k: nat)
    requires k < |x| && k < |y| && x[k] != y[k]
    ensures Differ(x, y)
  {
  }

  lemma {:induction false} FourApart(a: Attribute, b: Attribute, c: Attribute, d: Attribute)
    requires Differ(a.name, b.name) && Differ(a.name, c.name) && Differ(a.name, d.name)
    requires Differ(b.name, c.name) && Differ(b.name, d.name) && Differ(c.name, d.name)
    requires SpaceFree(a.cls) && SpaceFree(b.cls) && SpaceFree(c.cls) && SpaceFree(d.cls)
    requires Within(1, a.max) && Within(1, b.max) && Within(1, c.max) && Within(1, d.max)
    ensures Apart([a, b, c, d])
  {
  }

  lemma {:induction false} AttributesApart()
    ensures Apart(Attributes())
  {
    DifferAt("generation", "ufrag", 0);
    DifferAt("generation", "network-id", 0);
    DifferAt("generation", "network-cost", 0);
    DifferAt("ufrag", "network-id", 0);
    DifferAt("ufrag", "network-cost", 0);
    DifferAt("network-id", "network-cost", 8);
    FourApart(Attributes()[0], Attributes()[1], Attributes()[2], Attributes()[3]);
  }

  /** The attributes that are not there do not change what follows. */
  lemma {:induction false} ItemsStart(attrs: seq<Attribute>, vs: seq<Option<string>>)
    requires |attrs| == |vs|
    ensures ItemsText(attrs, vs) == ""
            || exists i :: 0 <= i < |attrs| && vs[i].Some? && " " + (attrs[i].name + " ") <= ItemsText(attrs, vs)
  {
    if attrs != [] {
      if vs[0].Some? {
        assert " " + (attrs[0].name + " ") <= ItemText(attrs[0], vs[0]) <= ItemsText(attrs, vs);
      } else {
        ItemsStart(attrs[1..], vs[1..]);
        assert ItemsText(attrs, vs) == ItemsText(attrs[1..], vs[1..]);
        if ItemsText(attrs, vs) != "" {
          var i :| 0 <= i < |attrs| - 1 && vs[1..][i].Some?
                   && " " + (attrs[1..][i].name + " ") <= ItemsText(attrs[1..], vs[1..]);
          assert vs[i + 1].Some? && attrs[i + 1] == attrs[1..][i];
        }
      }
    }
  }

  /** A name is not matched where one that differs from it is written. */
  lemma {:induction false} OtherName(name: string, other: string, next: Regex, s: string)
    requires Differ(name, other) && " " + (other + " ") <= s
    ensures Run(Seq(Ws(), Seq(Lit(name), next)), s) == []
  {
    var rest := s[1..];
    assert s == " " + rest;
    var k :| 0 <= k < |name| && k < |other| && name[k] != other[k];
    assert (" " + (other + " "))[k + 1] == other[k] == s[k + 1] == rest[k];
    LitFails(name, next, rest);
    WsThenFails(Seq(Lit(name), next), rest);
  }

  /** An attribute that is there is captured as far as its bound. */
  lemma {:induction false} ItemGives(a: Attribute, v: string, rest: string)
    requires Word(a.cls, v) && Within(1, a.max) && (rest == "" || !Member(a.cls, rest[0]))
    ensures Gives(Item(a), ItemText(a, Some(v)) + rest, |ItemText(a, Some(Cut(v, a.max)))|, map[a.k := Cut(v, a.max)])
  {
    var c, n, g := Cut(v, a.max), |Cut(v, a.max)|, map[a.k := Cut(v, a.max)];
    var r := Group(a.k, Chars(a.cls, 1, a.max));
    GreedyGives(a.k, a.cls, a.max, v, rest);
    WsGives(r, v + rest, n, g);
    LitGives(a.name, Seq(Ws(), r), " " + (v + rest), 1 + n, g);
    WsGives(Seq(Lit(a.name), Seq(Ws(), r)), a.name + (" " + (v + rest)), |a.name| + (1 + n), g);
    ItemAppend(a, v, rest);
  }

  lemma {:induction false} ItemAppend(a: Attribute, v: string, rest: string)
    ensures ItemText(a, Some(v)) + rest == " " + (a.name + (" " + (v + rest)))
  {
    var t := " " + v;
    assert t + rest == " " + (v + rest);
    assert (a.name + t) + rest == a.name + (t + rest);
  }

  /** Nothing is captured where the text does not start with white space. */
  lemma {:induction false} ItemsGiveNothing(attrs: seq<Attribute>, s: string)
    requires s == "" || !IsSpace(s[0])
    ensures Gives(Items(attrs), s, 0, map[])
  {
    if attrs != [] {
      ItemsGiveNothing(attrs[1..], s);
      WsFails(Seq(Lit(attrs[0].name), Seq(Ws(), Group(attrs[0].k, Chars(attrs[0].cls, 1, attrs[0].max)))), s);
      OptSkips(Item(attrs[0]), Items(attrs[1..]), s, 0, map[]);
    }
  }

  lemma {:induction false} NoValuesText(attrs: seq<Attribute>)
    ensures ItemsText(attrs, NoValues(|attrs|)) == ""
    ensures ItemsGroups(attrs, NoValues(|attrs|)) == map[]
  {
    if attrs != [] {
      assert NoValues(|attrs|)[1..] == NoValues(|attrs| - 1);
      NoValuesText(attrs[1..]);
    }
  }

  lemma {:induction false} WfItemsRest(attrs: seq<Attribute>, vs: seq<Option<string>>)
    requires attrs != [] && WfItems(attrs, vs) && Apart(attrs)
    ensures WfItems(attrs[1..], vs[1..]) && Apart(attrs[1..])
  {
  }

  lemma {:induction false} ItemsGive(attrs: seq<Attribute>, vs: seq<Option<string>>)
    requires WfItems(attrs, vs) && Apart(attrs)
    ensures var seen := SeenItems(attrs, vs);
            Gives(Items(attrs), ItemsText(attrs, vs), |ItemsText(attrs, seen)|, ItemsGroups(attrs, seen))
  {
    if attrs != [] {
      var seen, s := SeenItems(attrs, vs), ItemsText(attrs, vs);
      WfItemsRest(attrs, vs);
      if vs[0].None? {
        ItemsGive(attrs[1..], vs[1..]);
        ItemAbsent(attrs, vs);
        assert seen[1..] == SeenItems(attrs[1..], vs[1..]);
        var g := ItemsGroups(attrs[1..], seen[1..]);
        assert map[] + g == g && s == ItemsText(attrs[1..], vs[1..]);
        OptSkips(Item(attrs[0]), Items(attrs[1..]), s, |ItemsText(attrs[1..], seen[1..])|, g);
      } else if Within(|vs[0].value|, attrs[0].max) {
        ItemsGive(attrs[1..], vs[1..]);
        ItemWhole(attrs, vs);
      } else {
        ItemCut(attrs, vs);
      }
    }
  }

  lemma {:induction false} ItemAbsent(attrs: seq<Attribute>, vs: seq<Option<string>>)
    requires attrs != [] && WfItems(attrs, vs) && Apart(attrs) && vs[0].None?
    ensures Run(Item(attrs[0]), ItemsText(attrs, vs)) == []
  {
    var s, a := ItemsText(attrs, vs), attrs[0];
    var next := Seq(Ws(), Group(a.k, Chars(a.cls, 1, a.max)));
    ItemsStart(attrs, vs);
    if s == "" {
      WsFails(Seq(Lit(a.name), next), s);
    } else {
      var i :| 0 <= i < |attrs| && vs[i].Some? && " " + (attrs[i].name + " ") <= s;
      OtherName(a.name, attrs[i].name, next, s);
    }
  }

  lemma {:induction false} ItemsTextStart(attrs: seq<Attribute>, vs: seq<Option<string>>)
    requires |attrs| == |vs|
    ensures ItemsText(attrs, vs) == "" || ItemsText(attrs, vs)[0] == ' '
  {
    ItemsStart(attrs, vs);
  }

  lemma {:induction false} SpaceNotIn(cls: Class)
    requires SpaceFree(cls)
    ensures !Member(cls, ' ')
  {
  }

  lemma {:induction false} ItemWhole(attrs: seq<Attribute>, vs: seq<Option<string>>)
    requires attrs != [] && WfItems(attrs, vs) && Apart(attrs) && vs[0].Some? && Within(|vs[0].value|, attrs[0].max)
    requires var seen := SeenItems(attrs[1..], vs[1..]);
             Gives(Items(attrs[1..]), ItemsText(attrs[1..], vs[1..]), |ItemsText(attrs[1..], seen)|,
                   ItemsGroups(attrs[1..], seen))
    ensures var seen := SeenItems(attrs, vs);
            Gives(Items(attrs), ItemsText(attrs, vs), |ItemsText(attrs, seen)|, ItemsGroups(attrs, seen))
  {
    var a, v, rest := attrs[0], vs[0].value, ItemsText(attrs[1..], vs[1..]);
    var seen := SeenItems(attrs[1..], vs[1..]);
    ItemsTextStart(attrs[1..], vs[1..]);
    SpaceNotIn(a.cls);
    ItemGives(a, v, rest);
    var s, n := ItemsText(attrs, vs), |ItemText(a, Some(v))|;
    assert s[n..] == rest;
    OptGives(Item(a), Items(attrs[1..]), s, n, map[a.k := v],
             |ItemsText(attrs[1..], seen)|, ItemsGroups(attrs[1..], seen));
    assert SeenItems(attrs, vs)[1..] == seen;
  }

  lemma {:induction false} CutText(a: Attribute, v: string, rest: string)
    ensures ItemText(a, Some(v)) + rest
            == ItemText(a, Some(Cut(v, a.max))) + (v[|Cut(v, a.max)|..] + rest)
  {
    var c := Cut(v, a.max);
    var d := v[|c|..];
    assert v == c + d;
    var x := " " + (a.name + (" " + c));
    assert " " + (a.name + (" " + v)) == x + d;
    assert (x + d) + rest == x + (d + rest);
  }

  lemma {:induction false} ItemCut(attrs: seq<Attribute>, vs: seq<Option<string>>)
    requires attrs != [] && WfItems(attrs, vs) && Apart(attrs) && vs[0].Some? && !Within(|vs[0].value|, attrs[0].max)
    ensures var seen := SeenItems(attrs, vs);
            Gives(Items(attrs), ItemsText(attrs, vs), |ItemsText(attrs, seen)|, ItemsGroups(attrs, seen))
  {
    var a, v, rest := attrs[0], vs[0].value, ItemsText(attrs[1..], vs[1..]);
    var c, none := Cut(v, a.max), NoValues(|vs| - 1);
    ItemsTextStart(attrs[1..], vs[1..]);
    SpaceNotIn(a.cls);
    ItemGives(a, v, rest);
    var s, n := ItemsText(attrs, vs), |ItemText(a, Some(c))|;
    CutText(a, v, rest);
    assert s[n..] == v[|c|..] + rest;
    SpaceFreeMember(a.cls, v[|c|]);
    ItemsGiveNothing(attrs[1..], s[n..]);
    OptGives(Item(a), Items(attrs[1..]), s, n, map[a.k := c], 0, map[]);
    assert SeenItems(attrs, vs)[1..] == none;
    NoValuesText(attrs[1..]);
  }
}
