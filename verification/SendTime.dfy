/** The absolute send time of RTPHeaderExtension: a 24-bit counter of 2^-18 seconds, and the signed differences
    between two of its values, which wrap around. */
module SendTime {

  const WRAP: int := 0x100_0000        // 2^24 ticks
  const HALF: int := 0x80_0000
  const WORD: int := 0x1_0000_0000     // 2^32
  const SECOND: int := 0x4_0000        // 2^18 ticks, kAbsSendTimeFraction
  const MICROS: int := 1_000_000

  predicate IsTicks(t: int) {
    0 <= t < WRAP
  }

  /** C++ integer division. */
  function TruncDiv(a: int, b: int): int
    requires b > 0
  {
    if a >= 0 then a / b else -(-a / b)
  }

  /** A uint32_t read as an int32_t. */
  function AsSigned(w: int): int
    requires 0 <= w < WORD
  {
    if w < WORD / 2 then w else w - WORD
  }

  function Timestamp(t: int): int
    requires IsTicks(t)
  {
    TruncDiv(t * MICROS, SECOND)
  }

  /** static_cast<int32_t>((t - previous) << 8) >> 8, on uint32_t. */
  function Delta(t: int, previous: int): int
    requires IsTicks(t) && IsTicks(previous)
  {
    var difference := (t - previous) % WORD;
    AsSigned(difference * 256 % WORD) / 256
  }

  function DeltaMicros(t: int, previous: int): int
    requires IsTicks(t) && IsTicks(previous)
  {
    TruncDiv(Delta(t, previous) * MICROS, SECOND)
  }

  /** Shifting up and down by 8 keeps the low 24 bits of the difference and extends their sign. */
  lemma {:induction false} DeltaIsCentred(t: int, previous: int)
    requires IsTicks(t) && IsTicks(previous)
    ensures -HALF <= Delta(t, previous) < HALF
    ensures (Delta(t, previous) - (t - previous)) % WRAP == 0
  {
    var d := t - previous;
    var low := d % WRAP;
    assert d % WORD * 256 % WORD == low * 256 by {
      assert d % WORD == if d >= 0 then d else d + WORD;
      assert low == if d >= 0 then d else d + WRAP;
    }
    assert Delta(t, previous) == if low < HALF then low else low - WRAP;
  }

  function Low(x: int): (t: int)
    ensures IsTicks(t)
  {
    x % WRAP
  }

  lemma {:induction false} CongruentAndCentred(a: int, b: int)
    requires (a - b) % WRAP == 0 && -HALF <= a < HALF && -HALF <= b < HALF
    ensures a == b
  {
  }

  /** The delta of the low bits of two true times is their true difference if and only if that is less than
      half the wrap-around period. */
  lemma {:induction false} DeltaRecovers(x: int, y: int)
    ensures Delta(Low(x), Low(y)) == x - y <==> -HALF <= x - y < HALF
  {
    DeltaIsCentred(Low(x), Low(y));
    if -HALF <= x - y < HALF {
      var d := Delta(Low(x), Low(y));
      assert (d - (x - y)) % WRAP == 0 by {
        assert x == WRAP * (x / WRAP) + Low(x) && y == WRAP * (y / WRAP) + Low(y);
        var k := (d - (Low(x) - Low(y))) / WRAP;
        assert d - (Low(x) - Low(y)) == WRAP * k;
        assert d - (x - y) == WRAP * (k - x / WRAP + y / WRAP);
      }
      CongruentAndCentred(d, x - y);
    }
  }

  /** True times whose neighbours are less than half a period apart. */
  predicate Smooth(times: seq<int>) {
    |times| < 2 || (-HALF <= times[1] - times[0] < HALF && Smooth(times[1..]))
  }

  function SumDeltas(times: seq<int>): int {
    if |times| < 2 then 0 else Delta(Low(times[1]), Low(times[0])) + SumDeltas(times[1..])
  }

  function SumMicros(times: seq<int>): int {
    if |times| < 2 then 0 else DeltaMicros(Low(times[1]), Low(times[0])) + SumMicros(times[1..])
  }

  /** However often the counter wraps, the deltas add up to the true time that has passed. */
  lemma {:induction false} DeltasTelescope(times: seq<int>)
    requires times != [] && Smooth(times)
    ensures SumDeltas(times) == times[|times| - 1] - times[0]
  {
    if |times| >= 2 {
      DeltaRecovers(times[1], times[0]);
      DeltasTelescope(times[1..]);
    }
  }

  /** The division drops the fraction: the result is never farther from zero than the quotient. */
  lemma {:induction false} TruncDivError(a: int, b: int)
    requires b > 0
    ensures 0 <= a ==> 0 <= a - b * TruncDiv(a, b) < b
    ensures a <= 0 ==> -b < a - b * TruncDiv(a, b) <= 0
  {
    if a >= 0 {
      assert a == b * (a / b) + a % b;
    } else {
      assert -a == b * (-a / b) + -a % b;
    }
  }

  /** A timestamp is the whole number of microseconds in t ticks of which there are 2^18 in a second. */
  lemma {:induction false} TimestampIsWholeMicros(t: int)
    requires IsTicks(t)
    ensures 0 <= 1_000_000 * t - 262_144 * Timestamp(t) < 262_144
  {
    TruncDivError(t * MICROS, SECOND);
  }

  /** The delta of two true times less than half a period apart, in microseconds, drops the fraction: it is not later
      than the true difference after the previous time, and not earlier before it. */
  lemma {:induction false} DeltaMicrosTowardZero(x: int, y: int)
    requires -HALF <= x - y < HALF
    ensures var error := 1_000_000 * (x - y) - 262_144 * DeltaMicros(Low(x), Low(y));
            if x >= y then 0 <= error < 262_144 else -262_144 < error <= 0
  {
    DeltaRecovers(x, y);
    TruncDivError((x - y) * MICROS, SECOND);
  }

  /** Each of the n results is truncated, so their sum is off by less than n microseconds (in ticks: 2^18 times
      the sum, against 10^6 times the true difference). */
  lemma {:induction false} MicrosWithinOneEach(times: seq<int>)
    requires times != [] && Smooth(times)
    ensures var n := |times| - 1;
            var error := SECOND * SumMicros(times) - MICROS * (times[|times| - 1] - times[0]);
            if n == 0 then error == 0 else -n * SECOND < error < n * SECOND
  {
    if |times| >= 2 {
      var d := Delta(Low(times[1]), Low(times[0]));
      DeltaRecovers(times[1], times[0]);
      TruncDivError(d * MICROS, SECOND);
      MicrosWithinOneEach(times[1..]);
    }
  }

  /** Without a wrap between them, two timestamps differ by the delta to within two microseconds, and no
      intermediate product leaves 64 bits. */
  lemma {:induction false} TimestampsAgreeWithDelta(t: int, previous: int)
    requires IsTicks(t) && IsTicks(previous) && -HALF <= t - previous < HALF
    ensures -2 <= Timestamp(t) - Timestamp(previous) - DeltaMicros(t, previous) <= 2
    ensures t * MICROS < 0x8000_0000_0000_0000
    ensures -0x8000_0000_0000_0000 < Delta(t, previous) * MICROS < 0x8000_0000_0000_0000
  {
    assert Low(t) == t && Low(previous) == previous;
    DeltaRecovers(t, previous);
    TruncDivError(t * MICROS, SECOND);
    TruncDivError(previous * MICROS, SECOND);
    TruncDivError(Delta(t, previous) * MICROS, SECOND);
  }
}
