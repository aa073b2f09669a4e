/** base::ReadBigEndian and WriteBigEndian, for an integer type T of any width and either signedness. */
module BigEndian {
  import opened Division

  /** char, which is signed here. */
  newtype Char = x: int | -128 <= x < 128

  /** static_cast<uint8_t> */
  function Unsigned(c: Char): (b: int)
    ensures 0 <= b < 256
  {
    (c as int) % 256
  }

  /** static_cast<char> of a value below 256 */
  function AsChar(b: int): (c: Char)
    requires 0 <= b < 256
    ensures Unsigned(c) == b
  {
    if b < 128 then b as Char else (b - 256) as Char
  }

  function Pow256(n: nat): (p: int)
    ensures p > 0
  {
    if n == 0 then 1 else 256 * Pow256(n - 1)
  }

  /** An integer type of width bytes. */
  datatype Type = Type(width: nat, signed: bool)

  predicate Fits(t: Type, v: int) {
    if t.signed then -Pow256(t.width) <= 2 * v < Pow256(t.width) else 0 <= v < Pow256(t.width)
  }

  /** Conversion to T: the low bits of v, read with T's sign. */
  function Convert(t: Type, v: int): int {
    var w := v % Pow256(t.width);
    if t.signed && 2 * w >= Pow256(t.width) then w - Pow256(t.width) else w
  }

  /** a | b, bit by bit. */
  function Or(a: nat, b: nat): nat {
    if a == 0 && b == 0 then 0 else 2 * Or(a / 2, b / 2) + if a % 2 == 1 || b % 2 == 1 then 1 else 0
  }

  /** x | b, where b has 8 bits. */
  function OrByte(x: int, b: nat): int {
    x - x % 256 + Or(x % 256, b)
  }

  /** The number that bytes spell, most significant first. */
  function Value(bytes: seq<Char>): (v: nat)
    ensures v < Pow256(|bytes|)
  {
    if bytes == [] then 0 else 256 * Value(bytes[..|bytes| - 1]) + Unsigned(bytes[|bytes| - 1])
  }

  /** The bytes that spell the low bits of v, most significant first. */
  function Bytes(n: nat, v: int): (bytes: seq<Char>)
    ensures |bytes| == n
  {
    if n == 0 then [] else Bytes(n - 1, v / 256) + [AsChar(v % 256)]
  }

  // ----- Arithmetic modulo 256^n -----

  lemma {:induction false} ModAdd(v: int, k: int, p: int)
    requires p > 0
    ensures (v + k * p) % p == v % p
  {
    assert v + k * p == (v / p + k) * p + v % p;
    ModUnique(v + k * p, v / p + k, v % p, p);
  }

  lemma {:induction false} ModAsAdd(v: int, p: int)
    requires p > 0
    ensures v % p == v + (-(v / p)) * p
  {
    var q := v / p;
    assert v == q * p + v % p;
    assert (-q) * p == -(q * p);
  }

  lemma {:induction false} ModStep(v: int, p: int)
    requires p > 0
    ensures 256 * (v / 256 % p) + v % 256 == v % (256 * p) && v / 256 / p == v / (256 * p)
  {
    var h, r := v / 256, v % 256;
    var q, s := h / p, h % p;
    var a := q * p;
    assert h == a + s && v == 256 * a + (256 * s + r);
    assert q * (256 * p) == 256 * a;
    ModUnique(v, q, 256 * s + r, 256 * p);
  }

  /** What conversion changes is a multiple of 256^width. */
  lemma {:induction false} ConvertAdd(t: Type, v: int, k: int)
    ensures Convert(t, v + k * Pow256(t.width)) == Convert(t, v)
  {
    ModAdd(v, k, Pow256(t.width));
  }

  lemma {:induction false} ConvertShift(t: Type, v: int) returns (k: int)
    ensures Convert(t, v) == v + k * Pow256(t.width)
  {
    var p := Pow256(t.width);
    ModAsAdd(v, p);
    k := if Convert(t, v) == v % p then -(v / p) else -(v / p) - 1;
    assert (-(v / p) - 1) * p == (-(v / p)) * p - p;
  }

  lemma {:induction false} ConvertIdentity(t: Type, v: int)
    requires Fits(t, v)
    ensures Convert(t, v) == v
  {
    var p := Pow256(t.width);
    if v >= 0 {
      ModUnique(v, 0, v, p);
    } else {
      ModUnique(v, -1, v + p, p);
    }
  }

  // ----- Bytes and values -----

  /** Spelling v and reading it gives v modulo 256^n. */
  lemma {:induction false} ValueOfBytes(n: nat, v: int)
    ensures Value(Bytes(n, v)) == v % Pow256(n)
  {
    if n > 0 {
      var bytes := Bytes(n, v);
      assert bytes[..n - 1] == Bytes(n - 1, v / 256) && bytes[n - 1] == AsChar(v % 256);
      ValueOfBytes(n - 1, v / 256);
      ModStep(v, Pow256(n - 1));
    }
  }

  /** Reading bytes and spelling the value, up to multiples of 256^n, gives the bytes. */
  lemma {:induction false} BytesOfValue(bytes: seq<Char>, k: int)
    ensures Bytes(|bytes|, Value(bytes) + k * Pow256(|bytes|)) == bytes
  {
    if bytes != [] {
      var n := |bytes| - 1;
      var init, last := bytes[..n], bytes[n];
      var v := Value(bytes) + k * Pow256(n + 1);
      var h := Value(init) + k * Pow256(n);
      assert k * Pow256(n + 1) == 256 * (k * Pow256(n));
      assert v == h * 256 + Unsigned(last);
      ModUnique(v, h, Unsigned(last), 256);
      BytesOfValue(init, k);
      assert AsChar(Unsigned(last)) == last;
      assert bytes == init + [last];
    }
  }

  /** Which byte is where: byte i of n has the weight 256^(n-1-i), so the most significant one comes first. */
  lemma {:induction false} ByteAt(n: nat, v: int, i: nat)
    requires i < n
    ensures Unsigned(Bytes(n, v)[i]) == v / Pow256(n - 1 - i) % 256
  {
    if i == n - 1 {
      assert Pow256(0) == 1;
    } else {
      ByteAt(n - 1, v / 256, i);
      ModStep(v, Pow256(n - 2 - i));
    }
  }

  lemma {:induction false} Weighted(u: int, p: int, x: int, c: int)
    ensures 256 * (u * p + x) + c == u * (256 * p) + (256 * x + c)
  {
    assert 256 * (u * p) == u * (256 * p);
  }

  /** The first byte that is read has the greatest weight. */
  lemma {:induction false} ValueFromTheFront(bytes: seq<Char>)
    requires bytes != []
    ensures Value(bytes) == Unsigned(bytes[0]) * Pow256(|bytes| - 1) + Value(bytes[1..])
  {
    var n := |bytes|;
    if n == 1 {
      assert bytes[..0] == [] && bytes[1..] == [];
    } else {
      var front, back, c := bytes[..n - 1], bytes[1..], Unsigned(bytes[n - 1]);
      ValueFromTheFront(front);
      assert front[0] == bytes[0] && front[1..] == back[..n - 2] && back[n - 2] == bytes[n - 1];
      assert Value(bytes) == 256 * Value(front) + c;
      assert Value(back) == 256 * Value(front[1..]) + c;
      Weighted(Unsigned(bytes[0]), Pow256(n - 2), Value(front[1..]), c);
    }
  }

  /** Write then read returns the value, for every type and every value of it. */
  lemma {:induction false} WriteThenRead(t: Type, v: int)
    requires Fits(t, v)
    ensures Convert(t, Value(Bytes(t.width, v))) == v
  {
    var p := Pow256(t.width);
    ValueOfBytes(t.width, v);
    ModAsAdd(v, p);
    ConvertAdd(t, v, -(v / p));
    ConvertIdentity(t, v);
  }

  /** Read then write restores the bytes. */
  lemma {:induction false} ReadThenWrite(t: Type, bytes: seq<Char>)
    requires |bytes| == t.width
    ensures Bytes(t.width, Convert(t, Value(bytes))) == bytes
  {
    var k := ConvertShift(t, Value(bytes));
    BytesOfValue(bytes, k);
  }

  // ----- The loops -----

  /** What the reading loop accumulates, in unbounded arithmetic: the first char comes in with its sign. */
  function Accumulated(bytes: seq<Char>): int
    requires bytes != []
  {
    if |bytes| == 1 then bytes[0] as int
    else 256 * Accumulated(bytes[..|bytes| - 1]) + Unsigned(bytes[|bytes| - 1])
  }

  /** The sign of the first char is off by a multiple of 256^n after n - 1 shifts, hence lost in n bytes. */
  lemma {:induction false} SignIsShiftedOut(bytes: seq<Char>)
    requires bytes != []
    ensures Accumulated(bytes) == Value(bytes) - if bytes[0] < 0 then Pow256(|bytes|) else 0
  {
    var n := |bytes|;
    if n == 1 {
      assert bytes[..0] == [];
      assert Pow256(1) == 256 * Pow256(0) == 256;
    } else {
      var front, last := bytes[..n - 1], Unsigned(bytes[n - 1]);
      SignIsShiftedOut(front);
      assert front[0] == bytes[0];
      assert Accumulated(bytes) == 256 * Accumulated(front) + last;
      assert Value(bytes) == 256 * Value(front) + last;
      assert Pow256(n) == 256 * Pow256(n - 1);
    }
  }

  lemma {:induction false} OrIntoZeroes(y: int, h: int, b: int)
    requires y == 256 * h && 0 <= b < 256
    ensures OrByte(y, b) == y + b
  {
    assert y % 256 == 0;
    OrZero(b);
  }

  lemma {:induction false} OrZero(b: nat)
    ensures Or(0, b) == b
  {
    if b != 0 { OrZero(b / 2); }
  }

  lemma {:induction false} Scaled(k: int, n: nat)
    requires n > 0
    ensures 256 * (k * Pow256(n)) == (256 * k) * Pow256(n)
    ensures k * Pow256(n) == 256 * (k * Pow256(n - 1))
  {
  }

  /** Shifting the converted value is shifting the value, converted, and leaves the low byte zero. */
  lemma {:induction false} ShiftOf(t: Type, x: int) returns (m: int)
    requires t.width > 0
    ensures Convert(t, Convert(t, x) * 256) == Convert(t, 256 * x) == 256 * x + m * Pow256(t.width)
    ensures Convert(t, 256 * x) == 256 * (x + m * Pow256(t.width - 1))
  {
    var p := Pow256(t.width);
    var k := ConvertShift(t, x);
    Scaled(k, t.width);
    assert Convert(t, x) * 256 == 256 * x + (256 * k) * p;
    ConvertAdd(t, 256 * x, 256 * k);
    m := ConvertShift(t, 256 * x);
    Scaled(m, t.width);
  }

  /** One turn of the reading loop. */
  lemma {:induction false} ShiftAndOr(t: Type, x: int, b: int)
    requires t.width > 0 && 0 <= b < 256
    ensures Convert(t, OrByte(Convert(t, Convert(t, x) * 256), b)) == Convert(t, 256 * x + b)
  {
    var m := ShiftOf(t, x);
    var y := Convert(t, 256 * x);
    OrIntoZeroes(y, x + m * Pow256(t.width - 1), b);
    assert OrByte(y, b) == (256 * x + b) + m * Pow256(t.width);
    ConvertAdd(t, 256 * x + b, m);
  }

  method ReadBigEndian(t: Type, buf: array<Char>) returns (out: int)
    requires 0 < t.width <= buf.Length
    ensures out == Convert(t, Value(buf[..t.width]))
  {
    out := Convert(t, buf[0] as int);
    assert buf[..1] == [buf[0]];
    var i := 1;
    while i < t.width
      invariant 1 <= i <= t.width
      invariant out == Convert(t, Accumulated(buf[..i]))
    {
      assert buf[..i + 1][..i] == buf[..i];
      ShiftAndOr(t, Accumulated(buf[..i]), Unsigned(buf[i]));
      out := Convert(t, out * 256);
      out := Convert(t, OrByte(out, Unsigned(buf[i])));
      i := i + 1;
    }
    SignIsShiftedOut(buf[..i]);
    ConvertAdd(t, Value(buf[..i]), -1);
  }

  method WriteBigEndian(t: Type, buf: array<Char>, val: int)
    requires t.width <= buf.Length && Fits(t, val)
    modifies buf
    ensures buf[..t.width] == Bytes(t.width, val) && buf[t.width..] == old(buf[t.width..])
  {
    var i, v, n := 0, val, t.width;
    while i < n
      invariant 0 <= i <= n
      invariant Bytes(n - i, v) + buf[n - i..n] == Bytes(n, val)
      invariant buf[n..] == old(buf[n..])
    {
      ghost var tail := buf[n - i..n];
      buf[n - i - 1] := AsChar(v % 256);
      assert buf[n - i - 1..n] == [AsChar(v % 256)] + tail;
      v := v / 256;
      i := i + 1;
    }
  }
}
