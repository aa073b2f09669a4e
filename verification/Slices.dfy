/** The buffer copies of SpitfireUtils.DataChannelUtils: byte by byte through moving pointers, and by memcpy.
    Offsets must lie inside the arrays; the source does not check them. */
module Slices {
  import opened Division

  newtype Byte = b: int | 0 <= b < 256

  predicate Inside(length: nat, offset: nat, count: nat) {
    offset + count <= length
  }

  /** target with count bytes of source in the window at targetOffset. */
  function BlockCopied(source: seq<Byte>, sourceOffset: nat, target: seq<Byte>, targetOffset: nat, count: nat)
    : (r: seq<Byte>)
    requires Inside(|source|, sourceOffset, count) && Inside(|target|, targetOffset, count)
    ensures |r| == |target|
    ensures forall j {:trigger r[j]} :: 0 <= j < |r| ==>
              r[j] == if targetOffset <= j < targetOffset + count
                      then source[sourceOffset + j - targetOffset] else target[j]
  {
    seq(|target|, j requires 0 <= j < |target| =>
      if targetOffset <= j < targetOffset + count then source[sourceOffset + j - targetOffset] else target[j])
  }

  /** Which byte of the source window ends up in place j of the target window, within one array: copying upwards
      by d bytes reads bytes that were written before. */
  function Origin(sourceOffset: nat, targetOffset: nat, j: nat): (o: nat)
    ensures o <= j
  {
    if sourceOffset < targetOffset then j % (targetOffset - sourceOffset) else j
  }

  /** The array after a byte by byte copy within it. */
  function Smeared(s: seq<Byte>, sourceOffset: nat, targetOffset: nat, count: nat): (r: seq<Byte>)
    requires Inside(|s|, sourceOffset, count) && Inside(|s|, targetOffset, count)
    ensures |r| == |s|
    ensures forall j {:trigger r[j]} :: targetOffset <= j < targetOffset + count ==>
              r[j] == s[sourceOffset + Origin(sourceOffset, targetOffset, j - targetOffset)]
    ensures forall j {:trigger r[j]} :: 0 <= j < |r| && !(targetOffset <= j < targetOffset + count) ==> r[j] == s[j]
  {
    seq(|s|, j requires 0 <= j < |s| =>
      if targetOffset <= j < targetOffset + count
      then s[sourceOffset + Origin(sourceOffset, targetOffset, j - targetOffset)] else s[j])
  }

  lemma {:induction false} ModBack(j: nat, d: nat)
    requires 0 < d <= j
    ensures j % d == (j - d) % d
  {
    var q, r := (j - d) / d, (j - d) % d;
    assert j == (q + 1) * d + r;
    ModUnique(j, q + 1, r, d);
  }

  /** One turn of the copying loop within one array finds, at the place it reads, the byte that Origin names. */
  lemma {:induction false} ReadFindsOrigin(s: seq<Byte>, sourceOffset: nat, targetOffset: nat, i: nat)
    requires Inside(|s|, sourceOffset, i + 1) && Inside(|s|, targetOffset, i + 1)
    ensures Smeared(s, sourceOffset, targetOffset, i)[sourceOffset + i]
         == s[sourceOffset + Origin(sourceOffset, targetOffset, i)]
  {
    if sourceOffset < targetOffset {
      var d := targetOffset - sourceOffset;
      if i < d {
        ModUnique(i, 0, i, d);
      } else {
        ModBack(i, d);
      }
    }
  }

  method Slice(source: array<Byte>, sourceOffset: nat, target: array<Byte>, targetOffset: nat, count: nat)
    requires Inside(source.Length, sourceOffset, count) && Inside(target.Length, targetOffset, count)
    modifies target
    ensures source != target ==>
              target[..] == BlockCopied(source[..], sourceOffset, old(target[..]), targetOffset, count)
    ensures source == target ==> target[..] == Smeared(old(target[..]), sourceOffset, targetOffset, count)
  {
    ghost var s := source[..];
    var ps, pt := sourceOffset, targetOffset;
    var i := 0;
    while i < count
      invariant 0 <= i <= count && ps == sourceOffset + i && pt == targetOffset + i
      invariant source != target ==>
                  target[..] == BlockCopied(s, sourceOffset, old(target[..]), targetOffset, i)
      invariant source == target ==> target[..] == Smeared(s, sourceOffset, targetOffset, i)
    {
      if source == target {
        ReadFindsOrigin(s, sourceOffset, targetOffset, i);
        assert source[ps] == target[..][ps];
      }
      target[pt] := source[ps];
      ps, pt, i := ps + 1, pt + 1, i + 1;
    }
  }

  /** The first n bytes of s, then those of t. */
  function Overlaid(s: seq<Byte>, t: seq<Byte>, n: nat): seq<Byte>
    requires n <= |s| && n <= |t|
  {
    s[..n] + t[n..]
  }

  lemma {:induction false} OverlayOne(s: seq<Byte>, t: seq<Byte>, n: nat)
    requires n < |s| && n < |t|
    ensures Overlaid(s, t, n)[n := s[n]] == Overlaid(s, t, n + 1)
  {
  }

  /** t with m bytes of s from n on. */
  function Replaced(s: seq<Byte>, t: seq<Byte>, n: nat, m: nat): seq<Byte>
    requires n + m <= |s| && n + m <= |t|
  {
    t[..n] + s[n..n + m] + t[n + m..]
  }

  lemma {:induction false} OverlayMore(s: seq<Byte>, t: seq<Byte>, n: nat, m: nat)
    requires n + m <= |s| && n + m <= |t|
    ensures Replaced(s, Overlaid(s, t, n), n, m) == Overlaid(s, t, n + m)
  {
  }

  /** Within one array nothing changes at all. */
  lemma {:induction false} OverlaySelf(s: seq<Byte>, n: nat)
    requires n <= |s|
    ensures Overlaid(s, s, n) == s
  {
  }

  lemma {:induction false} OverlayNone(s: seq<Byte>, t: seq<Byte>)
    ensures Overlaid(s, t, 0) == t
  {
  }

  /** And where the pieces are all of an array, all of it is there. */
  lemma {:induction false} OverlayAll(s: seq<Byte>, t: seq<Byte>)
    requires |s| == |t|
    ensures Overlaid(s, t, |s|) == s
  {
  }

  /** Copying nothing, or an array onto itself, leaves it as it is. */
  method Resize(source: array<Byte>, target: array<Byte>, count: int)
    requires count <= source.Length && count <= target.Length
    modifies target
    ensures target[..] == Overlaid(old(source[..]), old(target[..]), if count < 0 then 0 else count)
  {
    ghost var s, t := source[..], target[..];
    var i := 0;
    while i < count
      invariant 0 <= i && (i <= count || (count < 0 && i == 0))
      invariant target[..] == Overlaid(s, t, i) && source[..] == s
    {
      OverlayOne(s, t, i);
      target[i] := source[i];
      i := i + 1;
      if source == target { OverlaySelf(s, i); }
    }
  }

  /** memcpy, which may not be used on overlapping windows. */
  method MemorySlice(source: array<Byte>, sourceOffset: nat, target: array<Byte>, targetOffset: nat, count: nat)
    requires Inside(source.Length, sourceOffset, count) && Inside(target.Length, targetOffset, count)
    requires source == target ==> sourceOffset + count <= targetOffset || targetOffset + count <= sourceOffset
    modifies target
    ensures target[..] == BlockCopied(old(source[..]), sourceOffset, old(target[..]), targetOffset, count)
  {
    forall j | 0 <= j < count {
      target[targetOffset + j] := source[sourceOffset + j];
    }
  }

  predicate OverlapsUpwards(sourceOffset: nat, targetOffset: nat, count: nat) {
    sourceOffset < targetOffset < sourceOffset + count
  }

  /** Copying downwards, or between windows that do not overlap, is a block copy of the old contents. */
  lemma {:induction false} SmearedIsBlockCopy(s: seq<Byte>, sourceOffset: nat, targetOffset: nat, count: nat)
    requires Inside(|s|, sourceOffset, count) && Inside(|s|, targetOffset, count)
    requires !OverlapsUpwards(sourceOffset, targetOffset, count)
    ensures Smeared(s, sourceOffset, targetOffset, count) == BlockCopied(s, sourceOffset, s, targetOffset, count)
  {
    var r, b := Smeared(s, sourceOffset, targetOffset, count), BlockCopied(s, sourceOffset, s, targetOffset, count);
    forall k | 0 <= k < |s| ensures r[k] == b[k] {
      if targetOffset <= k < targetOffset + count { OriginOfFirst(sourceOffset, targetOffset, k - targetOffset); }
    }
  }

  lemma {:induction false} OriginOfFirst(sourceOffset: nat, targetOffset: nat, j: nat)
    requires sourceOffset < targetOffset ==> j < targetOffset - sourceOffset
    ensures Origin(sourceOffset, targetOffset, j) == j
  {
    if sourceOffset < targetOffset { ModUnique(j, 0, j, targetOffset - sourceOffset); }
  }

  lemma {:induction false} SmearedDiffers(s: seq<Byte>, sourceOffset: nat, targetOffset: nat, count: nat)
    requires Inside(|s|, sourceOffset, count) && Inside(|s|, targetOffset, count)
    requires OverlapsUpwards(sourceOffset, targetOffset, count) && s[sourceOffset] != s[targetOffset]
    ensures Smeared(s, sourceOffset, targetOffset, count) != BlockCopied(s, sourceOffset, s, targetOffset, count)
  {
    var d := targetOffset - sourceOffset;
    ModUnique(d, 1, 0, d);
    assert Smeared(s, sourceOffset, targetOffset, count)[targetOffset + d] == s[sourceOffset];
  }

  /** Within one array, the byte by byte copy is a block copy, on all contents, if and only if the target window
      does not start inside the source window. */
  lemma {:induction false} SmearedIsBlockCopyIff(n: nat, sourceOffset: nat, targetOffset: nat, count: nat)
    requires Inside(n, sourceOffset, count) && Inside(n, targetOffset, count)
    ensures (forall s: seq<Byte> | |s| == n ::
               Smeared(s, sourceOffset, targetOffset, count) == BlockCopied(s, sourceOffset, s, targetOffset, count))
            <==> !OverlapsUpwards(sourceOffset, targetOffset, count)
  {
    if OverlapsUpwards(sourceOffset, targetOffset, count) {
      SmearedDiffers(seq(n, j => if j == targetOffset then 1 else 0), sourceOffset, targetOffset, count);
    } else {
      forall s: seq<Byte> | |s| == n
        ensures Smeared(s, sourceOffset, targetOffset, count) == BlockCopied(s, sourceOffset, s, targetOffset, count)
      {
        SmearedIsBlockCopy(s, sourceOffset, targetOffset, count);
      }
    }
  }

  /** Copying upwards by d within the window repeats the first d source bytes with period d. */
  lemma {:induction false} UpwardCopyIsPeriodic(s: seq<Byte>, sourceOffset: nat, targetOffset: nat, count: nat, j: nat)
    requires Inside(|s|, sourceOffset, count) && Inside(|s|, targetOffset, count)
    requires sourceOffset < targetOffset && j < count
    ensures var r, d := Smeared(s, sourceOffset, targetOffset, count), targetOffset - sourceOffset;
            r[targetOffset + j] == if j < d then s[sourceOffset + j] else r[targetOffset + j - d]
  {
    var d := targetOffset - sourceOffset;
    if j < d { ModUnique(j, 0, j, d); } else { ModBack(j, d); }
  }

  function Sum(cuts: seq<nat>): nat {
    if cuts == [] then 0 else cuts[0] + Sum(cuts[1..])
  }

  /** One piece out of source into a buffer of its own, and back into target at the same place. */
  method PieceOutAndBack(source: array<Byte>, target: array<Byte>, at: nat, count: nat)
    requires Inside(source.Length, at, count) && Inside(target.Length, at, count)
    modifies target
    ensures target[..] == Replaced(old(source[..]), old(target[..]), at, count)
  {
    var piece := new Byte[count];
    Slice(source, at, piece, 0, count);
    assert piece[..] == source[at..at + count];
    Slice(piece, 0, target, at, count);
  }

  /** With the first bytes of s in place, the next piece puts the next ones in place. */
  method NextPiece(source: array<Byte>, target: array<Byte>, at: nat, count: nat,
                   ghost s: seq<Byte>, ghost t: seq<Byte>)
    requires source[..] == s && |t| == target.Length && at + count <= |s| && at + count <= |t|
    requires target[..] == Overlaid(s, t, at) && (source == target ==> s == t)
    modifies target
    ensures target[..] == Overlaid(s, t, at + count) && source[..] == s
  {
    OverlayMore(s, t, at, count);
    PieceOutAndBack(source, target, at, count);
    if source == target { OverlaySelf(s, at + count); }
  }

  method PiecesFrom(source: array<Byte>, target: array<Byte>, at: nat, cuts: seq<nat>,
                    ghost s: seq<Byte>, ghost t: seq<Byte>)
    requires source[..] == s && |t| == target.Length && at + Sum(cuts) <= |s| && at + Sum(cuts) <= |t|
    requires target[..] == Overlaid(s, t, at) && (source == target ==> s == t)
    modifies target
    ensures target[..] == Overlaid(s, t, at + Sum(cuts))
    decreases |cuts|
  {
    if cuts != [] {
      NextPiece(source, target, at, cuts[0], s, t);
      PiecesFrom(source, target, at + cuts[0], cuts[1..], s, t);
    }
  }

  /** Pieces of any lengths, one after another, out of source and back: what is sliced out and back is what was
      there, and nothing else changes. */
  method OutAndBack(source: array<Byte>, target: array<Byte>, cuts: seq<nat>)
    requires Sum(cuts) <= source.Length && Sum(cuts) <= target.Length
    modifies target
    ensures target[..] == Overlaid(old(source[..]), old(target[..]), Sum(cuts))
    ensures Sum(cuts) == source.Length == target.Length ==> target[..] == old(source[..])
  {
    ghost var s, t := source[..], target[..];
    OverlayNone(s, t);
    PiecesFrom(source, target, 0, cuts, s, t);
    if |s| == |t| { OverlayAll(s, t); }
  }
}
