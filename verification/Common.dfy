/** Concepts that several models share. */
module Options {

  datatype Option<T> = None | Some(value: T)
}

/** Which observers a notification reaches: also those added while it is under way, or not. */
module Policies {

  datatype Policy = All | ExistingOnly
}

/** What giving up a reference tells its caller. */
module RefCounting {

  datatype ReleaseStatus = DroppedLastRef | OtherRefsRemained
}

module Division {

  /** Quotient and remainder are unique. */
  lemma {:induction false} ModUnique(a: int, q: int, r: int, p: int)
    requires p > 0 && a == q * p + r && 0 <= r < p
    ensures a % p == r && a / p == q
  {
    var d := q - a / p;
    assert d * p == a % p - r;
    assert d > 0 ==> d * p >= p;
    assert d < 0 ==> d * p <= -p;
  }
}

module Sequences {

  lemma {:induction false} Associative<T>(a: seq<T>, b: seq<T>, c: seq<T>)
    ensures (a + b) + c == a + (b + c)
  {
  }
}
