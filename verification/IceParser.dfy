/** SpitfireUtils.IceParser.Parse: the groups of the match become the fields of a candidate record. */
module IceParser {
  import opened Options
  import opened IceRegex
  import opened IceGrammar
  import opened IceMatching

  datatype IceType = Host | Srflx | Prflx | Relay

  datatype IceTransport = Tcp | Udp

  datatype IceCandidate = IceCandidate(
    raw: Option<string>, foundation: nat, componentId: nat, transport: IceTransport, priority: nat,
    localIp: Option<string>, localPort: nat, kind: IceType, remoteIp: Option<string>, remotePort: nat,
    generation: nat, ufrag: Option<string>, networkId: nat, networkCost: nat)

  /** Err stands for the DataException that every failure is turned into. */
  datatype Result = Ok(value: IceCandidate) | Err

  const UINT16: nat := 0xFFFF
  const UINT32: nat := 0xFFFF_FFFF
  const INT32: nat := 0x7FFF_FFFF
  const UINT64: nat := 0xFFFF_FFFF_FFFF_FFFF

  // ---- Reading one group ----

  function ToLower(t: string): (r: string)
    ensures |r| == |t|
  {
    if t == "" then ""
    else [if IsUpper(t[0]) then ((t[0] as int) + 32) as char else t[0]] + ToLower(t[1..])
  }

  function TransportOf(t: string): Option<IceTransport> {
    match ToLower(t)
    case "udp" => Some(Udp)
    case "tcp" => Some(Tcp)
    case _ => None
  }

  function TypeOf(t: string): Option<IceType> {
    match ToLower(t)
    case "host" => Some(Host)
    case "srflx" => Some(Srflx)
    case "prflx" => Some(Prflx)
    case "relay" => Some(Relay)
    case _ => None
  }

  /** The value of a string of decimal digits. */
  function Value(t: string): (n: nat)
    requires AllIn(Digit, t)
  {
    if t == "" then 0 else Value(t[..|t| - 1]) * 10 + (t[|t| - 1] as int - '0' as int)
  }

  /** The unsigned or non-negative number that is written, if it is one and not greater than max. */
  function ParseNumber(t: string, max: nat): Option<nat> {
    var d := if t != "" && t[0] == '+' then t[1..] else t;
    if Word(Digit, d) && Value(d) <= max then Some(Value(d)) else None
  }

  predicate IsBlank(t: string) {
    AllIn(Space, t)
  }

  /** The largest number that the field of group i can hold, for the groups that are numbers. */
  function MaxOf(i: nat): Option<nat> {
    match i
    case 1 => Some(UINT64)
    case 2 => Some(UINT32)
    case 4 => Some(UINT64)
    case 6 => Some(UINT16)
    case 9 => Some(UINT16)
    case 10 => Some(UINT32)
    case 12 => Some(INT32)
    case 13 => Some(INT32)
    case _ => None
  }

  /** Group i can be turned into its field. A blank group is skipped. */
  predicate Readable(i: nat, t: string) {
    IsBlank(t)
    || (if i == 3 then TransportOf(t).Some? else if i == 7 then TypeOf(t).Some?
        else MaxOf(i).Some? ==> ParseNumber(t, MaxOf(i).value).Some?)
  }

  // ---- The record of the groups ----

  function TextOf(t: string): Option<string> {
    if IsBlank(t) then None else Some(t)
  }

  function NumberOf(i: nat, t: string): nat
    requires MaxOf(i).Some?
  {
    if IsBlank(t) then 0 else match ParseNumber(t, MaxOf(i).value) case Some(n) => n case None => 0
  }

  function TransportOr(t: string, default: IceTransport): IceTransport {
    if IsBlank(t) then default else match TransportOf(t) case Some(x) => x case None => default
  }

  function TypeOr(t: string, default: IceType): IceType {
    if IsBlank(t) then default else match TypeOf(t) case Some(x) => x case None => default
  }

  /** What a new record holds. */
  function NewCandidate(): IceCandidate {
    IceCandidate(None, 0, 0, Tcp, 0, None, 0, Host, None, 0, 0, None, 0, 0)
  }

  function Before(vs: seq<string>, n: nat, k: nat): string
    requires k < |vs|
  {
    if k < n then vs[k] else ""
  }

  /** The record whose field k is read from vs[k], for the first n fields. */
  function FirstFields(vs: seq<string>, n: nat): IceCandidate
    requires |vs| == 14
  {
    IceCandidate(
      TextOf(Before(vs, n, 0)), NumberOf(1, Before(vs, n, 1)), NumberOf(2, Before(vs, n, 2)),
      TransportOr(Before(vs, n, 3), Tcp), NumberOf(4, Before(vs, n, 4)), TextOf(Before(vs, n, 5)),
      NumberOf(6, Before(vs, n, 6)), TypeOr(Before(vs, n, 7), Host), TextOf(Before(vs, n, 8)),
      NumberOf(9, Before(vs, n, 9)), NumberOf(10, Before(vs, n, 10)), TextOf(Before(vs, n, 11)),
      NumberOf(12, Before(vs, n, 12)), NumberOf(13, Before(vs, n, 13)))
  }

  ghost predicate AllReadable(vs: seq<string>) {
    forall i :: 0 <= i < |vs| ==> Readable(i, vs[i])
  }

  /** All groups or none. */
  ghost function Read(vs: seq<string>): Result
    requires |vs| == 14
  {
    if AllReadable(vs) then Ok(FirstFields(vs, 14)) else Err
  }

  // ---- Parse ----

  function CountGroups(r: Regex): nat {
    match r
    case Lit(_) => 0
    case Chars(_, _, _) => 0
    case Seq(a, b) => CountGroups(a) + CountGroups(b)
    case Alt(a, b) => CountGroups(a) + CountGroups(b)
    case Opt(a) => CountGroups(a)
    case Plus(a) => CountGroups(a)
    case Group(_, a) => 1 + CountGroups(a)
  }

  function Captured(g: map<nat, string>, k: nat): string {
    if k in g then g[k] else ""
  }

  /** The whole match and the thirteen groups; a group that took no part in the match is empty. */
  function GroupValues(s: string, f: Found): (vs: seq<string>)
    requires f.start + f.m.taken <= |s|
    ensures |vs| == 14 && vs[0] == s[f.start..f.start + f.m.taken]
    ensures forall i :: 0 < i < 14 ==> vs[i] == Captured(f.m.groups, i)
  {
    seq(14, i requires 0 <= i < 14 => if i == 0 then s[f.start..f.start + f.m.taken] else Captured(f.m.groups, i))
  }

  /** What parsing means: the leftmost match, all of whose groups can be read. */
  ghost function Parsed(s: string): Result {
    match Search(Master(), s)
    case None => Err
    case Some(f) => Read(GroupValues(s, f))
  }

  /** One turn of the loop: a group goes into its field. */
  method ReadGroup(vs: seq<string>, c: IceCandidate, i: nat) returns (ok: bool, d: IceCandidate)
    requires |vs| == 14 && i < 14 && c == FirstFields(vs, i)
    ensures ok <==> Readable(i, vs[i])
    ensures ok ==> d == FirstFields(vs, i + 1)
  {
    var value := vs[i];
    d := c;
    if IsBlank(value) { return true, d; }
    ok := Readable(i, value);
    if !ok { return; }
    match i
    case 0 => d := c.(raw := Some(value));
    case 1 => d := c.(foundation := NumberOf(1, value));
    case 2 => d := c.(componentId := NumberOf(2, value));
    case 3 => d := c.(transport := TransportOf(value).value);
    case 4 => d := c.(priority := NumberOf(4, value));
    case 5 => d := c.(localIp := Some(value));
    case 6 => d := c.(localPort := NumberOf(6, value));
    case 7 => d := c.(kind := TypeOf(value).value);
    case 8 => d := c.(remoteIp := Some(value));
    case 9 => d := c.(remotePort := NumberOf(9, value));
    case 10 => d := c.(generation := NumberOf(10, value));
    case 11 => d := c.(ufrag := Some(value));
    case 12 => d := c.(networkId := NumberOf(12, value));
    case _ => d := c.(networkCost := NumberOf(13, value));
  }

  method ReadGroups(vs: seq<string>) returns (r: Result)
    requires |vs| == 14
    ensures r == Read(vs)
  {
    var c := NewCandidate();
    for i := 0 to 14
      invariant c == FirstFields(vs, i)
      invariant forall j :: 0 <= j < i ==> Readable(j, vs[j])
    {
      var ok, d := ReadGroup(vs, c, i);
      if !ok { return Err; }
      c := d;
    }
    return Ok(c);
  }

  lemma {:induction false} WsCount(next: Regex)
    ensures CountGroups(Seq(Ws(), next)) == CountGroups(next)
  {
    assert CountGroups(Ws()) == 0;
  }

  lemma {:induction false} LitCount(text: string, next: Regex)
    ensures CountGroups(Seq(Lit(text), next)) == CountGroups(next)
  {
    assert CountGroups(Lit(text)) == 0;
  }

  lemma {:induction false} GroupCount(k: nat, cls: Class, max: Bound)
    ensures CountGroups(Group(k, Chars(cls, 1, max))) == 1
  {
    assert CountGroups(Chars(cls, 1, max)) == 0;
  }

  lemma {:induction false} FieldCount(k: nat, r: Regex, next: Regex)
    requires CountGroups(r) == 0
    ensures CountGroups(Field(k, r, next)) == 1 + CountGroups(next)
  {
    WsCount(next);
  }

  lemma {:induction false} ItemsCount(attrs: seq<Attribute>)
    ensures CountGroups(Items(attrs)) == |attrs|
  {
    if attrs != [] {
      var a, value := attrs[0], Group(attrs[0].k, Chars(attrs[0].cls, 1, attrs[0].max));
      GroupCount(a.k, a.cls, a.max);
      WsCount(value);
      LitCount(a.name, Seq(Ws(), value));
      WsCount(Seq(Lit(a.name), Seq(Ws(), value)));
      assert CountGroups(Opt(Item(a))) == 1;
      ItemsCount(attrs[1..]);
    }
  }

  lemma {:induction false} AddressCount()
    ensures CountGroups(Address()) == 0
  {
    assert CountGroups(Dotted(0)) == 0 && CountGroups(Dotted(1)) == 0 && CountGroups(Dotted(2)) == 0;
    assert CountGroups(Ipv6()) == 0 && CountGroups(Domain()) == 0;
  }

  lemma {:induction false} RelatedCount(address: Regex, port: Regex)
    requires CountGroups(address) == 0
    ensures CountGroups(Seq(Ws(), Seq(Lit("raddr"), Seq(Ws(), Field(8, address, Seq(Lit("rport"), Seq(Ws(), port)))))))
            == 1 + CountGroups(port)
  {
    var rport := Seq(Lit("rport"), Seq(Ws(), port));
    var field := Field(8, address, rport);
    WsCount(port);
    LitCount("rport", Seq(Ws(), port));
    FieldCount(8, address, rport);
    WsCount(field);
    LitCount("raddr", Seq(Ws(), field));
    WsCount(Seq(Lit("raddr"), Seq(Ws(), field)));
  }

  lemma {:induction false} RelatedHasTwo()
    ensures CountGroups(Related()) == 2
  {
    AddressCount();
    GroupCount(9, Digit, AtMost(5));
    RelatedCount(Address(), Group(9, Chars(Digit, 1, AtMost(5))));
  }

  lemma {:induction false} OptionalCount(r: Regex, attrs: seq<Attribute>)
    ensures CountGroups(Seq(Opt(r), Items(attrs))) == CountGroups(r) + |attrs|
  {
    ItemsCount(attrs);
  }

  lemma {:induction false} TailCount()
    ensures CountGroups(Tail()) == 6
  {
    RelatedHasTwo();
    OptionalCount(Related(), Attributes());
  }

  lemma {:induction false} TypeCount()
    ensures CountGroups(FromType()) == 7
  {
    var kind := Group(7, Chars(Token, 1, Unbounded));
    TailCount();
    GroupCount(7, Token, Unbounded);
    WsCount(Seq(kind, Tail()));
    LitCount("typ", Seq(Ws(), Seq(kind, Tail())));
  }

  lemma {:induction false} FieldsCount(address: Regex, next: Regex)
    requires CountGroups(address) == 0
    ensures var port := Field(6, Chars(Digit, 1, AtMost(5)), next);
            var priority := Field(4, Chars(Digit, 1, AtMost(10)), Field(5, address, port));
            var transport := Field(3, Chars(Token, 1, Unbounded), priority);
            CountGroups(Field(1, Chars(Ice, 1, Unbounded), Field(2, Chars(Digit, 1, AtMost(5)), transport)))
            == 6 + CountGroups(next)
  {
    var five, ten := Chars(Digit, 1, AtMost(5)), Chars(Digit, 1, AtMost(10));
    var port := Field(6, five, next);
    var priority := Field(4, ten, Field(5, address, port));
    var transport := Field(3, Chars(Token, 1, Unbounded), priority);
    FieldCount(6, five, next);
    FieldCount(5, address, port);
    FieldCount(4, ten, Field(5, address, port));
    FieldCount(3, Chars(Token, 1, Unbounded), priority);
    FieldCount(2, five, transport);
    FieldCount(1, Chars(Ice, 1, Unbounded), Field(2, five, transport));
  }

  lemma {:induction false} BodyCount()
    ensures CountGroups(Body()) == 13
  {
    TypeCount();
    AddressCount();
    FieldsCount(Address(), FromType());
  }

  /** The guard on the number of groups always holds. */
  lemma {:induction false} MasterHasThirteenGroups()
    ensures CountGroups(Master()) + 1 == 14
  {
    BodyCount();
    LitCount("candidate:", Body());
    assert CountGroups(Lit("a=")) == 0;
    assert CountGroups(Opt(Lit("a="))) == 0;
  }

  method Parse(candidate: string) returns (r: Result)
    ensures r == Parsed(candidate)
  {
    var parsed := Search(Master(), candidate);
    MasterHasThirteenGroups();
    if parsed.None? || CountGroups(Master()) + 1 != 14 { return Err; }
    r := ReadGroups(GroupValues(candidate, parsed.value));
  }
}
