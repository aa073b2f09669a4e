/** Printing a candidate and parsing it again: every candidate comes back as it was exactly when its numbers are in
    range, and otherwise it is rejected or comes back cut off. */
module IceRoundTrip {
  import opened Options
  import opened IceRegex
  import opened IceGrammar
  import opened IceMatching
  import opened IceAddresses
  import opened IceParser

  // ---- Decimal numbers ----

  function DigitChar(n: nat): char
    requires n < 10
  {
    '0' + (n as char)
  }

  /** The decimal digits of n. */
  function Dec(n: nat): (t: string)
    ensures Word(Digit, t)
  {
    if n < 10 then [DigitChar(n)] else Dec(n / 10) + [DigitChar(n % 10)]
  }

  function Pow10(k: nat): (p: nat)
    ensures p > 0
  {
    if k == 0 then 1 else 10 * Pow10(k - 1)
  }

  lemma {:induction false} ValueOfDec(n: nat)
    ensures Value(Dec(n)) == n
  {
    if n >= 10 {
      ValueOfDec(n / 10);
      assert Dec(n)[..|Dec(n)| - 1] == Dec(n / 10);
    } else {
      assert Dec(n)[..0] == "";
    }
  }

  lemma {:induction false} LengthOfDec(n: nat, k: nat)
    requires k > 0
    ensures |Dec(n)| <= k <==> n < Pow10(k)
  {
    if n >= 10 && k > 1 {
      LengthOfDec(n / 10, k - 1);
    } else if n < 10 {
      PowGrows(k);
    }
  }

  lemma {:induction false} PowGrows(k: nat)
    requires k > 0
    ensures Pow10(k) >= 10
  {
    if k > 1 { PowGrows(k - 1); }
  }

  /** The number that the first k decimal digits of n make. */
  function Leading(n: nat, k: nat): (r: nat)
    requires k > 0
    ensures r < Pow10(k)
    ensures n < Pow10(k) <==> r == n
    decreases n
  {
    if n < Pow10(k) then n else PowGrows(k); Leading(n / 10, k)
  }

  lemma {:induction false} CutOfDec(n: nat, k: nat)
    requires k > 0
    ensures Cut(Dec(n), AtMost(k)) == Dec(Leading(n, k))
    decreases n
  {
    LengthOfDec(n, k);
    if n >= Pow10(k) {
      PowGrows(k);
      CutOfDec(n / 10, k);
      assert Dec(n)[..k] == Dec(n / 10)[..k];
    }
  }

  lemma {:induction false} ParseDec(n: nat, max: nat)
    ensures !IsBlank(Dec(n))
    ensures ParseNumber(Dec(n), max) == if n <= max then Some(n) else None
  {
    assert Member(Digit, Dec(n)[0]);
    ValueOfDec(n);
  }

  // ---- The groups of a printed line ----

  function TextOr(v: Option<string>): string {
    if v.Some? then v.value else ""
  }

  /** The field that belongs to group i; group 0 is the text that was matched. */
  function FieldOf(l: Line, raw: string, i: nat): string {
    match i
    case 0 => raw
    case 1 => l.foundation
    case 2 => l.component
    case 3 => l.transport
    case 4 => l.priority
    case 5 => l.ip
    case 6 => l.port
    case 7 => l.kind
    case 8 => if l.related.Some? then l.related.value.ip else ""
    case 9 => if l.related.Some? then l.related.value.port else ""
    case 10 => TextOr(l.generation)
    case 11 => TextOr(l.ufrag)
    case 12 => TextOr(l.networkId)
    case _ => TextOr(l.networkCost)
  }

  function FieldValues(l: Line, raw: string): (vs: seq<string>)
    ensures |vs| == 14 && forall i :: 0 <= i < 14 ==> vs[i] == FieldOf(l, raw, i)
  {
    seq(14, i requires 0 <= i < 14 => FieldOf(l, raw, i))
  }

  lemma {:induction false} ItemsCaptured(attrs: seq<Attribute>, vs: seq<Option<string>>, i: nat)
    requires |attrs| == |vs| && forall j :: 0 <= j < |attrs| ==> attrs[j].k == i + j
    ensures forall k :: k in ItemsGroups(attrs, vs) ==> i <= k < i + |attrs|
    ensures forall j :: 0 <= j < |attrs| ==> Captured(ItemsGroups(attrs, vs), i + j) == TextOr(vs[j])
  {
    if attrs != [] {
      ItemsCaptured(attrs[1..], vs[1..], i + 1);
      var g := ItemsGroups(attrs[1..], vs[1..]);
      assert i !in g;
      forall j | 0 <= j < |attrs| ensures Captured(ItemsGroups(attrs, vs), i + j) == TextOr(vs[j]) {
        if j > 0 { assert Captured(g, i + 1 + (j - 1)) == TextOr(vs[1..][j - 1]); }
      }
    }
  }

  lemma {:induction false} TailCaptured(l: Line, raw: string)
    ensures forall k :: k in TailGroups(l) ==> 8 <= k < 14
    ensures forall k :: 8 <= k < 14 ==> Captured(TailGroups(l), k) == FieldOf(l, raw, k)
  {
    var vs, g := Values(l), ItemsGroups(Attributes(), Values(l));
    ItemsCaptured(Attributes(), vs, 10);
    TailUnion(l.related, g, vs);
  }

  lemma {:induction false} TailUnion(e: Option<Endpoint>, g: map<nat, string>, vs: seq<Option<string>>)
    requires |vs| == 4 && forall k :: k in g ==> 10 <= k < 14
    requires forall j :: 0 <= j < 4 ==> Captured(g, 10 + j) == TextOr(vs[j])
    ensures var h := RelatedGroups(e) + g;
            && (forall k :: k in h ==> 8 <= k < 14)
            && Captured(h, 8) == (if e.Some? then e.value.ip else "")
            && Captured(h, 9) == (if e.Some? then e.value.port else "")
            && Captured(h, 10) == TextOr(vs[0]) && Captured(h, 11) == TextOr(vs[1])
            && Captured(h, 12) == TextOr(vs[2]) && Captured(h, 13) == TextOr(vs[3])
  {
    assert Captured(g, 10 + 0) == TextOr(vs[0]) && Captured(g, 10 + 1) == TextOr(vs[1])
           && Captured(g, 10 + 2) == TextOr(vs[2]) && Captured(g, 10 + 3) == TextOr(vs[3]);
  }

  lemma {:induction false} FirstCaptured(l: Line, t: map<nat, string>, i: nat)
    requires 0 < i && forall k :: k in t ==> 4 <= k
    ensures Captured(map[1 := l.foundation] + (map[2 := l.component] + (map[3 := l.transport] + t)), i)
            == if i == 1 then l.foundation else if i == 2 then l.component else if i == 3 then l.transport
               else Captured(t, i)
  {
  }

  lemma {:induction false} MiddleCaptured(l: Line, t: map<nat, string>, i: nat)
    requires 4 <= i && forall k :: k in t ==> 8 <= k
    ensures Captured(map[4 := l.priority] + (map[5 := l.ip] + (map[6 := l.port] + (map[7 := l.kind] + t))), i)
            == if i == 4 then l.priority else if i == 5 then l.ip else if i == 6 then l.port else if i == 7 then l.kind
               else Captured(t, i)
  {
  }

  /** Every group of a printed line holds its own field. */
  lemma {:induction false} GroupsHoldFields(l: Line, raw: string, i: nat)
    requires 0 < i < 14
    ensures Captured(Groups(l), i) == FieldOf(l, raw, i)
  {
    var t := TailGroups(l);
    TailCaptured(l, raw);
    var u := map[4 := l.priority] + (map[5 := l.ip] + (map[6 := l.port] + (map[7 := l.kind] + t)));
    FirstCaptured(l, u, i);
    if 4 <= i { MiddleCaptured(l, t, i); }
  }

  lemma {:induction false} MatchHoldsFields(s: string, l: Line, raw: string)
    requires raw <= s
    ensures GroupValues(s, Found(0, Match(|raw|, Groups(l)))) == FieldValues(l, raw)
  {
    var vs := GroupValues(s, Found(0, Match(|raw|, Groups(l))));
    assert s[0..|raw|] == raw;
    forall i | 0 < i < 14 ensures vs[i] == FieldOf(l, raw, i) { GroupsHoldFields(l, raw, i); }
  }

  /** Parsing a well formed line reads the line that the parser sees. */
  lemma {:induction false} LineIsRead(l: Line)
    requires WfLine(l)
    ensures Parsed(Print(l)) == if Fits(l) then Read(FieldValues(Seen(l), Print(Seen(l)))) else Err
  {
    LineIsMatched(l);
    if Fits(l) {
      SeenIsAPrefix(l);
      MatchHoldsFields(Print(l), Seen(l), Print(Seen(l)));
    }
  }

  lemma {:induction false} SeenNames(l: Line)
    ensures Seen(l).transport == l.transport && Seen(l).kind == l.kind
  {
  }

  lemma {:induction false} OneUnreadable(vs: seq<string>, i: nat)
    requires |vs| == 14 && i < 14 && !Readable(i, vs[i])
    ensures Read(vs) == Err
  {
  }

  // ---- Names ----

  /** c is the lower case letter d or its capital. */
  predicate SameLetter(c: char, d: char) {
    c == d || ('a' <= d <= 'z' && c as int + 32 == d as int)
  }

  /** The word, with any of its letters in capitals. */
  predicate Spells(t: string, word: string) {
    |t| == |word| && forall i :: 0 <= i < |t| ==> SameLetter(t[i], word[i])
  }

  function TransportWord(x: IceTransport): string {
    match x
    case Udp => "udp"
    case Tcp => "tcp"
  }

  function TypeWord(x: IceType): string {
    match x
    case Host => "host"
    case Srflx => "srflx"
    case Prflx => "prflx"
    case Relay => "relay"
  }

  predicate LowerCase(word: string) {
    forall i :: 0 <= i < |word| ==> 'a' <= word[i] <= 'z'
  }

  lemma {:induction false} SpellsOn(t: string, word: string)
    requires t != "" && |t| == |word|
    ensures Spells(t, word) <==> SameLetter(t[0], word[0]) && Spells(t[1..], word[1..])
  {
    if SameLetter(t[0], word[0]) && Spells(t[1..], word[1..]) {
      forall i | 0 <= i < |t| ensures SameLetter(t[i], word[i]) {
        if i > 0 { assert SameLetter(t[1..][i - 1], word[1..][i - 1]); }
      }
    }
  }

  lemma {:induction false} ToLowerIff(t: string, word: string)
    requires LowerCase(word)
    ensures ToLower(t) == word <==> Spells(t, word)
  {
    if t != "" && |word| == |t| {
      ToLowerIff(t[1..], word[1..]);
      assert t == [t[0]] + t[1..] && word == [word[0]] + word[1..];
      SpellsOn(t, word);
    }
  }

  /** A transport is known by its word, however it is capitalised, and only so. */
  lemma {:induction false} TransportIff(t: string, x: IceTransport)
    ensures TransportOf(t) == Some(x) <==> Spells(t, TransportWord(x))
  {
    ToLowerIff(t, "udp");
    ToLowerIff(t, "tcp");
  }

  /** So is a type. */
  lemma {:induction false} TypeIff(t: string, x: IceType)
    ensures TypeOf(t) == Some(x) <==> Spells(t, TypeWord(x))
  {
    ToLowerIff(t, "host");
    ToLowerIff(t, "srflx");
    ToLowerIff(t, "prflx");
    ToLowerIff(t, "relay");
  }

  lemma {:induction false} SpelledIsAToken(t: string, word: string)
    requires Spells(t, word) && LowerCase(word) && word != ""
    ensures Word(Token, t)
  {
    forall i | 0 <= i < |t| ensures Member(Token, t[i]) {
      assert SameLetter(t[i], word[i]);
    }
  }

  predicate KnownTransport(t: string) {
    Spells(t, "udp") || Spells(t, "tcp")
  }

  predicate KnownType(t: string) {
    Spells(t, "host") || Spells(t, "srflx") || Spells(t, "prflx") || Spells(t, "relay")
  }

  lemma {:induction false} NamesAreKnownIff(transport: string, kind: string)
    ensures TransportOf(transport).Some? <==> KnownTransport(transport)
    ensures TypeOf(kind).Some? <==> KnownType(kind)
  {
    TransportIff(transport, Udp);
    TransportIff(transport, Tcp);
    TypeIff(kind, Host);
    TypeIff(kind, Srflx);
    TypeIff(kind, Prflx);
    TypeIff(kind, Relay);
  }

  /** A line whose transport or type is none of the known words, in any capitalisation, is rejected, whatever else it
      says. */
  lemma {:induction false} UnknownNameIsRejected(l: Line)
    requires WfLine(l) && (!KnownTransport(l.transport) || !KnownType(l.kind))
    ensures Parsed(Print(l)) == Err
  {
    var vs := FieldValues(Seen(l), Print(Seen(l)));
    SeenNames(l);
    NamesAreKnownIff(l.transport, l.kind);
    if !KnownTransport(l.transport) {
      WordIsNotBlank(Token, l.transport);
      assert !Readable(3, vs[3]);
      OneUnreadable(vs, 3);
    } else {
      WordIsNotBlank(Token, l.kind);
      assert !Readable(7, vs[7]);
      OneUnreadable(vs, 7);
    }
    LineIsRead(l);
  }

  // ---- Foundations that are not plain numbers ----

  predicate Digits(t: string) {
    t != "" && forall i :: 0 <= i < |t| ==> '0' <= t[i] <= '9'
  }

  /** A foundation that is not a number, though RFC 5245 allows it, is rejected. */
  lemma {:induction false} OddFoundationIsRejected(l: Line)
    requires WfLine(l) && !Digits(l.foundation) && !(l.foundation[0] == '+' && Digits(l.foundation[1..]))
    ensures Parsed(Print(l)) == Err
  {
    var vs := FieldValues(Seen(l), Print(Seen(l)));
    assert vs[1] == l.foundation;
    WordIsNotBlank(Ice, l.foundation);
    assert forall d :: Word(Digit, d) ==> Digits(d);
    assert ParseNumber(l.foundation, UINT64) == None;
    assert !Readable(1, vs[1]);
    OneUnreadable(vs, 1);
    LineIsRead(l);
  }

  lemma {:induction false} PlusReadsTheSame(t: string)
    requires Digits(t)
    ensures Readable(1, "+" + t) == Readable(1, t) && NumberOf(1, "+" + t) == NumberOf(1, t)
  {
    assert ("+" + t)[1..] == t;
    assert !IsBlank(t) by { assert !Member(Space, t[0]); }
    assert !IsBlank("+" + t) by { assert !Member(Space, ("+" + t)[0]); }
  }

  /** A plus sign in front of the foundation makes no difference but in the text. */
  lemma {:induction false} PlusIsIgnored(l: Line)
    requires WfLine(l) && Digits(l.foundation)
    ensures var m := l.(foundation := "+" + l.foundation);
            Parsed(Print(m)) == match Parsed(Print(l))
                                case Ok(r) => Ok(r.(raw := Some(Print(Seen(m))))) case Err => Err
  {
    var m := l.(foundation := "+" + l.foundation);
    SignedIsWf(l);
    LineIsRead(l);
    LineIsRead(m);
    SeenOfSigned(l);
    if Fits(l) { FoundationOnly(Seen(l), Seen(m), Print(Seen(l)), Print(Seen(m))); }
  }

  lemma {:induction false} SignedIsWf(l: Line)
    requires WfLine(l)
    ensures WfLine(l.(foundation := "+" + l.foundation))
  {
    var t := "+" + l.foundation;
    assert Word(Ice, t) by {
      forall i | 0 <= i < |t| ensures Member(Ice, t[i]) {
        if i > 0 { assert t[i] == l.foundation[i - 1]; }
      }
    }
  }

  lemma {:induction false} SeenOfSigned(l: Line)
    ensures var m := l.(foundation := "+" + l.foundation);
            Seen(m) == Seen(l).(foundation := m.foundation) && Fits(m) == Fits(l)
  {
    assert Values(l.(foundation := "+" + l.foundation)) == Values(l);
  }

  lemma {:induction false} FoundationOnly(l: Line, m: Line, raw: string, raw': string)
    requires m == l.(foundation := "+" + l.foundation) && Digits(l.foundation)
    requires raw == Print(l) && raw' == Print(m)
    ensures Read(FieldValues(m, raw'))
            == match Read(FieldValues(l, raw)) case Ok(r) => Ok(r.(raw := Some(raw'))) case Err => Err
  {
    var vs, ws := FieldValues(l, raw), FieldValues(m, raw');
    PlusReadsTheSame(l.foundation);
    PrintIsNotBlank(m);
    assert forall i :: 1 < i < 14 ==> ws[i] == vs[i];
    ReadableFields(vs);
    ReadableFields(ws);
    AllFields(vs);
    AllFields(ws);
  }

  // ---- Candidates with numbers ----

  datatype Remote = Remote(ip: string, port: nat)

  /** A candidate to be printed. Its numbers are not bounded; transportName and kindName are how the words for its
      transport and its type are capitalised. */
  datatype Candidate = Candidate(
    sdp: bool, foundation: nat, component: nat, transport: IceTransport, transportName: string, priority: nat,
    ip: string, port: nat, kind: IceType, kindName: string,
    related: Option<Remote>, generation: Option<nat>, ufrag: Option<string>,
    networkId: Option<nat>, networkCost: Option<nat>)

  function DecOf(n: Option<nat>): Option<string> {
    if n.None? then None else Some(Dec(n.value))
  }

  function LineOf(c: Candidate): Line {
    Line(c.sdp, Dec(c.foundation), Dec(c.component), c.transportName, Dec(c.priority), c.ip, Dec(c.port), c.kindName,
         if c.related.None? then None else Some(Endpoint(c.related.value.ip, Dec(c.related.value.port))),
         DecOf(c.generation), c.ufrag, DecOf(c.networkId), DecOf(c.networkCost))
  }

  predicate IsIceChar(c: char) {
    '0' <= c <= '9' || 'a' <= c <= 'z' || 'A' <= c <= 'Z' || c == '+' || c == '/'
  }

  predicate IceWord(t: string) {
    t != "" && forall i :: 0 <= i < |t| ==> IsIceChar(t[i])
  }

  lemma {:induction false} IceWordIff(t: string)
    ensures Word(Ice, t) <==> IceWord(t)
  {
    assert forall c :: Member(Ice, c) <==> IsIceChar(c);
  }

  ghost predicate PlainAddress(a: string) {
    IsAddress(a) && SpaceFreeText(a)
  }

  /** The names are spelled right, the addresses are addresses without white space, and the user fragment is made of
      ice-chars. */
  ghost predicate WfCandidate(c: Candidate) {
    && Spells(c.transportName, TransportWord(c.transport)) && Spells(c.kindName, TypeWord(c.kind))
    && PlainAddress(c.ip) && (c.related.Some? ==> PlainAddress(c.related.value.ip))
    && (c.ufrag.Some? ==> IceWord(c.ufrag.value))
  }

  predicate AtMostOpt(n: Option<nat>, max: nat) {
    n.Some? ==> n.value <= max
  }

  /** Every number is one that its field can hold and that is not too long for the expression. */
  predicate InRange(c: Candidate) {
    && c.foundation <= 18_446_744_073_709_551_615 && c.component < 100_000 && c.priority < 10_000_000_000
    && c.port <= 65_535 && OptionalInRange(c)
  }

  predicate OptionalInRange(c: Candidate) {
    && (c.related.Some? ==> c.related.value.port <= 65_535) && AtMostOpt(c.generation, 4_294_967_295)
    && AtMostOpt(c.networkId, 2_147_483_647) && AtMostOpt(c.networkCost, 2_147_483_647)
  }

  function NumberOr(n: Option<nat>): nat {
    if n.Some? then n.value else 0
  }

  function AddressOr(a: string): Option<string> {
    if a == "" then None else Some(a)
  }

  /** The record of a candidate: what is missing is null or zero. */
  function RecordOf(c: Candidate): IceCandidate {
    IceCandidate(
      Some(Print(LineOf(c))), c.foundation, c.component, c.transport, c.priority, AddressOr(c.ip), c.port, c.kind,
      if c.related.Some? then AddressOr(c.related.value.ip) else None,
      if c.related.Some? then c.related.value.port else 0, NumberOr(c.generation), c.ufrag, NumberOr(c.networkId),
      NumberOr(c.networkCost))
  }

  function LeadingOpt(n: Option<nat>): Option<nat> {
    if n.None? then None else Some(Leading(n.value, 10))
  }

  /** The candidate that the parser sees: an optional number that is too long keeps its leading digits, and what
      follows it is lost. */
  function SeenOf(c: Candidate): Candidate {
    if c.related.Some? && c.related.value.port >= 100_000 then
      c.(related := Some(c.related.value.(port := Leading(c.related.value.port, 5))),
         generation := None, ufrag := None, networkId := None, networkCost := None)
    else if c.networkId.Some? && c.networkId.value >= 10_000_000_000 then
      c.(networkId := LeadingOpt(c.networkId), networkCost := None)
    else
      c.(networkCost := LeadingOpt(c.networkCost))
  }

  lemma {:induction false} Powers()
    ensures Pow10(5) == 100_000 && Pow10(10) == 10_000_000_000
  {
    assert Pow10(3) == 1000;
    assert Pow10(5) == 100_000;
    assert Pow10(8) == 100_000_000;
  }

  lemma {:induction false} LineOfIsWf(c: Candidate)
    requires WfCandidate(c)
    ensures WfLine(LineOf(c))
  {
    var l := LineOf(c);
    assert Word(Ice, l.foundation) by {
      assert forall i :: 0 <= i < |l.foundation| ==> Member(Digit, l.foundation[i]);
    }
    SpelledIsAToken(c.transportName, TransportWord(c.transport));
    SpelledIsAToken(c.kindName, TypeWord(c.kind));
    AcceptedIff(c.ip);
    if c.related.Some? { AcceptedIff(c.related.value.ip); }
    if c.ufrag.Some? { IceWordIff(c.ufrag.value); }
  }

  // ---- What the parser sees of a candidate ----

  function CutOpt(v: Option<string>): Option<string> {
    if v.None? then None else Some(Cut(v.value, AtMost(10)))
  }

  lemma {:induction false} SeenOfOne(a: Attribute, v: Option<string>)
    ensures SeenItems([a], [v]) == [if v.None? then None else Some(Cut(v.value, a.max))]
  {
    assert [v][1..] == [] && [a][1..] == [];
  }

  lemma {:induction false} SeenOfTwo(a: Attribute, b: Attribute, v: Option<string>, w: Option<string>)
    requires a.max == AtMost(10) && b.max == AtMost(10)
    ensures SeenItems([a, b], [v, w])
            == if v.Some? && |v.value| > 10 then [CutOpt(v), None] else [v, CutOpt(w)]
  {
    assert [v, w][1..] == [w] && [a, b][1..] == [b];
    SeenOfOne(b, w);
    assert NoValues(1) == [None];
  }

  lemma {:induction false} SeenOfUnbounded(attrs: seq<Attribute>, vs: seq<Option<string>>)
    requires |attrs| == |vs| && attrs != [] && attrs[0].max == Unbounded
    ensures SeenItems(attrs, vs) == [vs[0]] + SeenItems(attrs[1..], vs[1..])
  {
  }

  lemma {:induction false} SeenOfFour(l: Line)
    ensures SeenItems(Attributes(), Values(l))
            == if l.networkId.Some? && |l.networkId.value| > 10
               then [l.generation, l.ufrag, CutOpt(l.networkId), None]
               else [l.generation, l.ufrag, l.networkId, CutOpt(l.networkCost)]
  {
    var a, vs := Attributes(), Values(l);
    SeenOfUnbounded(a, vs);
    SeenOfUnbounded(a[1..], vs[1..]);
    assert a[1..][1..] == [a[2], a[3]] && vs[1..][1..] == [vs[2], vs[3]];
    SeenOfTwo(a[2], a[3], vs[2], vs[3]);
  }

  lemma {:induction false} CutOptOfDec(n: Option<nat>)
    ensures CutOpt(DecOf(n)) == DecOf(LeadingOpt(n))
  {
    if n.Some? { CutOfDec(n.value, 10); }
  }

  /** Seeing a printed candidate is printing the seen candidate. */
  lemma {:induction false} SeenOfPrinted(c: Candidate)
    ensures Seen(LineOf(c)) == LineOf(SeenOf(c))
  {
    Powers();
    if c.related.Some? { LengthOfDec(c.related.value.port, 5); CutOfDec(c.related.value.port, 5); }
    if c.networkId.Some? { LengthOfDec(c.networkId.value, 10); }
    CutOptOfDec(c.networkId);
    CutOptOfDec(c.networkCost);
    SeenOfFour(LineOf(c));
  }

  // ---- Reading the fields of a candidate ----

  lemma {:induction false} ReadNumber(i: nat, n: nat)
    requires MaxOf(i).Some?
    ensures Readable(i, Dec(n)) <==> n <= MaxOf(i).value
    ensures n <= MaxOf(i).value ==> NumberOf(i, Dec(n)) == n
  {
    ParseDec(n, MaxOf(i).value);
  }

  lemma {:induction false} ReadOptional(i: nat, n: Option<nat>)
    requires MaxOf(i).Some?
    ensures Readable(i, TextOr(DecOf(n))) <==> AtMostOpt(n, MaxOf(i).value)
    ensures AtMostOpt(n, MaxOf(i).value) ==> NumberOf(i, TextOr(DecOf(n))) == NumberOr(n)
  {
    if n.Some? { ReadNumber(i, n.value); }
  }

  lemma {:induction false} WordIsNotBlank(cls: Class, t: string)
    requires SpaceFree(cls) && Word(cls, t)
    ensures !IsBlank(t)
  {
    assert Member(cls, t[0]);
    SpaceFreeMember(cls, t[0]);
  }

  lemma {:induction false} ReadAddress(a: string)
    requires SpaceFreeText(a)
    ensures TextOf(a) == AddressOr(a)
  {
    if a != "" { assert !IsSpace(a[0]); assert !IsBlank(a) by { assert !Member(Space, a[0]); } }
  }

  /** The numbers of a candidate are those that its record can hold. */
  predicate Holdable(c: Candidate) {
    && c.foundation <= 18_446_744_073_709_551_615 && c.component <= 4_294_967_295
    && c.priority <= 18_446_744_073_709_551_615 && c.port <= 65_535 && OptionalInRange(c)
  }

  lemma {:induction false} ReadableFields(vs: seq<string>)
    requires |vs| == 14
    ensures AllReadable(vs) <==>
            && Readable(1, vs[1]) && Readable(2, vs[2]) && Readable(3, vs[3]) && Readable(4, vs[4])
            && Readable(6, vs[6]) && Readable(7, vs[7]) && Readable(9, vs[9]) && Readable(10, vs[10])
            && Readable(12, vs[12]) && Readable(13, vs[13])
  {
    assert Readable(0, vs[0]) && Readable(5, vs[5]) && Readable(8, vs[8]) && Readable(11, vs[11]);
  }

  lemma {:induction false} ReadRelated(e: Option<Remote>)
    ensures var t := if e.Some? then Dec(e.value.port) else "";
            && (Readable(9, t) <==> (e.Some? ==> e.value.port <= 65_535))
            && ((e.Some? ==> e.value.port <= 65_535) ==> NumberOf(9, t) == if e.Some? then e.value.port else 0)
  {
    if e.Some? { ReadNumber(9, e.value.port); }
  }

  lemma {:induction false} ReadableNumbers(c: Candidate)
    ensures Holdable(c) <==>
            && Readable(1, Dec(c.foundation)) && Readable(2, Dec(c.component)) && Readable(4, Dec(c.priority))
            && Readable(6, Dec(c.port)) && Readable(9, if c.related.Some? then Dec(c.related.value.port) else "")
            && Readable(10, TextOr(DecOf(c.generation))) && Readable(12, TextOr(DecOf(c.networkId)))
            && Readable(13, TextOr(DecOf(c.networkCost)))
  {
    ReadNumber(1, c.foundation);
    ReadNumber(2, c.component);
    ReadNumber(4, c.priority);
    ReadNumber(6, c.port);
    ReadRelated(c.related);
    ReadOptional(10, c.generation);
    ReadOptional(12, c.networkId);
    ReadOptional(13, c.networkCost);
  }

  /** vs holds the texts of the fields of c. */
  predicate TextsOf(vs: seq<string>, c: Candidate) {
    && |vs| == 14 && vs[1] == Dec(c.foundation) && vs[2] == Dec(c.component) && vs[3] == c.transportName
    && vs[4] == Dec(c.priority) && vs[5] == c.ip && vs[6] == Dec(c.port) && vs[7] == c.kindName
    && vs[8] == (if c.related.Some? then c.related.value.ip else "")
    && vs[9] == (if c.related.Some? then Dec(c.related.value.port) else "")
    && vs[10] == TextOr(DecOf(c.generation)) && vs[11] == TextOr(c.ufrag) && vs[12] == TextOr(DecOf(c.networkId))
    && vs[13] == TextOr(DecOf(c.networkCost))
  }

  lemma {:induction false} TextsOfLine(c: Candidate, raw: string)
    ensures TextsOf(FieldValues(LineOf(c), raw), c) && FieldValues(LineOf(c), raw)[0] == raw
  {
  }

  lemma {:induction false} TransportIsRead(t: string, x: IceTransport)
    requires Spells(t, TransportWord(x))
    ensures Readable(3, t) && TransportOr(t, Tcp) == x
  {
    TransportIff(t, x);
    SpelledIsAToken(t, TransportWord(x));
    WordIsNotBlank(Token, t);
  }

  lemma {:induction false} TypeIsRead(t: string, x: IceType)
    requires Spells(t, TypeWord(x))
    ensures Readable(7, t) && TypeOr(t, Host) == x
  {
    TypeIff(t, x);
    SpelledIsAToken(t, TypeWord(x));
    WordIsNotBlank(Token, t);
  }

  lemma {:induction false} NamesAreRead(c: Candidate)
    requires WfCandidate(c)
    ensures Readable(3, c.transportName) && Readable(7, c.kindName)
    ensures TransportOr(c.transportName, Tcp) == c.transport && TypeOr(c.kindName, Host) == c.kind
  {
    TransportIsRead(c.transportName, c.transport);
    TypeIsRead(c.kindName, c.kind);
  }

  lemma {:induction false} ReadableIffHoldable(vs: seq<string>, c: Candidate)
    requires TextsOf(vs, c) && WfCandidate(c)
    ensures AllReadable(vs) <==> Holdable(c)
  {
    ReadableNumbers(c);
    NamesAreRead(c);
    ReadableFields(vs);
  }

  lemma {:induction false} AllFields(vs: seq<string>)
    requires |vs| == 14
    ensures FirstFields(vs, 14)
            == IceCandidate(TextOf(vs[0]), NumberOf(1, vs[1]), NumberOf(2, vs[2]), TransportOr(vs[3], Tcp),
                            NumberOf(4, vs[4]), TextOf(vs[5]), NumberOf(6, vs[6]), TypeOr(vs[7], Host), TextOf(vs[8]),
                            NumberOf(9, vs[9]), NumberOf(10, vs[10]), TextOf(vs[11]), NumberOf(12, vs[12]),
                            NumberOf(13, vs[13]))
  {
  }

  lemma {:induction false} NumbersAreRead(c: Candidate)
    requires Holdable(c)
    ensures NumberOf(1, Dec(c.foundation)) == c.foundation && NumberOf(2, Dec(c.component)) == c.component
    ensures NumberOf(4, Dec(c.priority)) == c.priority && NumberOf(6, Dec(c.port)) == c.port
    ensures NumberOf(9, if c.related.Some? then Dec(c.related.value.port) else "")
            == if c.related.Some? then c.related.value.port else 0
    ensures NumberOf(10, TextOr(DecOf(c.generation))) == NumberOr(c.generation)
    ensures NumberOf(12, TextOr(DecOf(c.networkId))) == NumberOr(c.networkId)
    ensures NumberOf(13, TextOr(DecOf(c.networkCost))) == NumberOr(c.networkCost)
  {
    ReadNumber(1, c.foundation);
    ReadNumber(2, c.component);
    ReadNumber(4, c.priority);
    ReadNumber(6, c.port);
    ReadRelated(c.related);
    ReadOptional(10, c.generation);
    ReadOptional(12, c.networkId);
    ReadOptional(13, c.networkCost);
  }

  lemma {:induction false} TextsAreRead(c: Candidate)
    requires WfCandidate(c)
    ensures TextOf(c.ip) == AddressOr(c.ip) && TextOf(TextOr(c.ufrag)) == c.ufrag
    ensures TextOf(if c.related.Some? then c.related.value.ip else "")
            == if c.related.Some? then AddressOr(c.related.value.ip) else None
  {
    ReadAddress(c.ip);
    if c.related.Some? { ReadAddress(c.related.value.ip); }
    if c.ufrag.Some? { IceWordIff(c.ufrag.value); WordIsNotBlank(Ice, c.ufrag.value); }
  }

  lemma {:induction false} FieldsAreTheRecord(c: Candidate)
    requires WfCandidate(c) && Holdable(c)
    ensures FirstFields(FieldValues(LineOf(c), Print(LineOf(c))), 14) == RecordOf(c)
  {
    TextsOfLine(c, Print(LineOf(c)));
    AllFields(FieldValues(LineOf(c), Print(LineOf(c))));
    NumbersAreRead(c);
    NamesAreRead(c);
    TextsAreRead(c);
    PrintIsNotBlank(LineOf(c));
  }

  lemma {:induction false} PrintIsNotBlank(l: Line)
    ensures !IsBlank(Print(l))
  {
    assert !Member(Space, Print(l)[0]);
  }

  // ---- The round trip ----

  /** The fields that must be there are not too long for the expression. */
  predicate FitsOf(c: Candidate) {
    c.component < 100_000 && c.priority < 10_000_000_000 && c.port < 100_000
  }

  lemma {:induction false} FitsIff(c: Candidate)
    ensures Fits(LineOf(c)) <==> FitsOf(c)
  {
    Powers();
    LengthOfDec(c.component, 5);
    LengthOfDec(c.priority, 10);
    LengthOfDec(c.port, 5);
  }

  lemma {:induction false} SeenKeeps(c: Candidate)
    requires WfCandidate(c)
    ensures WfCandidate(SeenOf(c))
    ensures InRange(SeenOf(c)) <==> FitsOf(c) && Holdable(SeenOf(c))
  {
  }

  lemma {:induction false} FieldsAreRead(c: Candidate)
    requires WfCandidate(c)
    ensures Read(FieldValues(LineOf(c), Print(LineOf(c)))) == if Holdable(c) then Ok(RecordOf(c)) else Err
  {
    TextsOfLine(c, Print(LineOf(c)));
    ReadableIffHoldable(FieldValues(LineOf(c), Print(LineOf(c))), c);
    if Holdable(c) { FieldsAreTheRecord(c); }
  }

  /** What parsing a printed candidate returns, for all numbers: the record of the candidate that the parser sees,
      if all of its numbers are in range, and a failure otherwise. */
  lemma {:induction false} PrintedIsParsed(c: Candidate)
    requires WfCandidate(c)
    ensures Parsed(Print(LineOf(c))) == if InRange(SeenOf(c)) then Ok(RecordOf(SeenOf(c))) else Err
  {
    LineOfIsWf(c);
    LineIsRead(LineOf(c));
    FitsIff(c);
    SeenOfPrinted(c);
    SeenKeeps(c);
    FieldsAreRead(SeenOf(c));
  }

  lemma {:induction false} InRangeIsSeen(c: Candidate)
    requires InRange(c)
    ensures SeenOf(c) == c
  {
    Powers();
  }

  /** Nothing is cut off, if the numbers that can be cut off are the same. */
  lemma {:induction false} SameNumbersSeen(c: Candidate)
    requires var d := SeenOf(c);
             && (c.related.Some? ==> d.related.value.port == c.related.value.port)
             && NumberOr(d.networkId) == NumberOr(c.networkId) && NumberOr(d.networkCost) == NumberOr(c.networkCost)
    ensures SeenOf(c) == c
  {
    Powers();
  }

  lemma {:induction false} SameRecordSeen(c: Candidate)
    requires WfCandidate(c) && WfCandidate(SeenOf(c)) && RecordOf(SeenOf(c)) == RecordOf(c)
    ensures SeenOf(c) == c
  {
    var d := SeenOf(c);
    assert RecordOf(d).remotePort == RecordOf(c).remotePort && RecordOf(d).networkId == RecordOf(c).networkId
           && RecordOf(d).networkCost == RecordOf(c).networkCost;
    SameNumbersSeen(c);
  }

  /** A candidate comes back as it was exactly when its numbers are in range. */
  lemma {:induction false} RoundTrip(c: Candidate)
    requires WfCandidate(c)
    ensures Parsed(Print(LineOf(c))) == Ok(RecordOf(c)) <==> InRange(c)
  {
    PrintedIsParsed(c);
    SeenKeeps(c);
    if InRange(c) {
      InRangeIsSeen(c);
    } else if InRange(SeenOf(c)) && RecordOf(SeenOf(c)) == RecordOf(c) {
      SameRecordSeen(c);
    }
  }

  /** A number is out of range that must be there, or one that need not be there and of which the parser sees enough. */
  predicate Rejected(c: Candidate) {
    || c.foundation > 18_446_744_073_709_551_615 || c.component >= 100_000 || c.priority >= 10_000_000_000
    || c.port > 65_535
    || (if c.related.Some? && c.related.value.port >= 100_000 then Leading(c.related.value.port, 5) > 65_535
        else
          || (c.related.Some? && c.related.value.port > 65_535)
          || !AtMostOpt(c.generation, 4_294_967_295)
          || !AtMostOpt(LeadingOpt(c.networkId), 2_147_483_647)
          || (AtMostOpt(c.networkId, 9_999_999_999) && !AtMostOpt(LeadingOpt(c.networkCost), 2_147_483_647)))
  }

  lemma {:induction false} SeenInRangeIff(c: Candidate)
    ensures InRange(SeenOf(c)) <==> !Rejected(c)
  {
    Powers();
  }

  /** Exactly when parsing a printed candidate fails. */
  lemma {:induction false} RejectedIff(c: Candidate)
    requires WfCandidate(c)
    ensures Parsed(Print(LineOf(c))) == Err <==> Rejected(c)
  {
    PrintedIsParsed(c);
    SeenInRangeIff(c);
  }

  /** A remote port that is out of range need not be rejected: 100000 is read as 10000, and the attributes after it
      are lost. */
  lemma {:induction false} LongRemotePortIsCutOff(c: Candidate)
    requires WfCandidate(c) && InRange(c) && c.related.Some?
    ensures var d := c.(related := Some(c.related.value.(port := 100_000)));
            var r := Parsed(Print(LineOf(d)));
            r.Ok? && r.value.remotePort == 10_000 && r.value.generation == 0 && r.value.ufrag == None
            && r.value.networkId == 0 && r.value.networkCost == 0
  {
    var d := c.(related := Some(c.related.value.(port := 100_000)));
    PrintedIsParsed(d);
    LeadingExample();
    assert InRange(SeenOf(d));
    assert RecordOf(SeenOf(d)).remotePort == 10_000;
  }

  lemma {:induction false} LeadingExample()
    ensures Leading(100_000, 5) == 10_000
  {
    Powers();
    assert Leading(10_000, 5) == 10_000;
  }
}
