/** Small types and sequence helpers shared by every module. */
module Basics {

  const U32_MAX: nat := 0xFFFF_FFFF
  const I64_MAX: nat := 0x7FFF_FFFF_FFFF_FFFF
  const U64_MAX: nat := 0xFFFF_FFFF_FFFF_FFFF

  datatype Option<+T> = None | Some(value: T)

  datatype Result<+T> = Ok(value: T) | Err(error: string)

  function Min(a: int, b: int): int {
    if a < b then a else b
  }

  function Max(a: int, b: int): int {
    if a < b then b else a
  }

  lemma SubsetSize<T>(a: set<T>, b: set<T>)
    requires a <= b
    ensures |a| <= |b|
  {
    assert b == a + (b - a);
  }

  /** The `len` elements that end at position `end`. */
  function Piece<T>(s: seq<T>, end: nat, len: nat): (r: seq<T>)
    requires len <= end <= |s|
    ensures |r| == len
  {
    seq(len, i requires 0 <= i < len => s[end - len + i])
  }

  /** The last `n` elements, or all of them when there are fewer. */
  function Last<T>(s: seq<T>, n: nat): (r: seq<T>)
    ensures |r| == Min(n, |s|)
  {
    if |s| <= n then s else Piece(s, |s|, n)
  }

  /** `r` is the last `n` elements of `s`, position by position. */
  ghost predicate EndsWith<T>(s: seq<T>, r: seq<T>, n: nat) {
    |r| == n <= |s| && forall i :: 0 <= i < n ==> r[i] == s[|s| - n + i]
  }

  lemma PieceFacts<T>(s: seq<T>, n: nat)
    ensures Last(s, n) == Piece(s, |s|, Min(n, |s|))
  {
  }

  lemma PieceJoins<T>(s: seq<T>, mid: nat, len: nat, more: nat)
    requires len <= mid && mid + more <= |s|
    ensures Piece(s, mid, len) + Piece(s, mid + more, more) == Piece(s, mid + more, len + more)
  {
  }

  lemma PieceOfGrown<T>(s: seq<T>, data: seq<T>, end: nat, len: nat)
    requires len <= end <= |s|
    ensures Piece(s + data, end, len) == Piece(s, end, len)
  {
  }

  /** A long enough piece ends like the whole. */
  lemma LastOfPiece<T>(s: seq<T>, end: nat, len: nat, n: nat)
    requires Min(n, end) <= len <= end <= |s|
    ensures Last(Piece(s, end, len), n) == Last(s[..end], n)
  {
    var a, b := Last(Piece(s, end, len), n), Last(s[..end], n);
    assert |a| == |b|;
    forall i | 0 <= i < |a| ensures a[i] == b[i] {
      LastAt(Piece(s, end, len), n, i);
      LastAt(s[..end], n, i);
    }
  }

  lemma LastAt<T>(s: seq<T>, n: nat, i: nat)
    requires i < Min(n, |s|)
    ensures Last(s, n)[i] == s[|s| - Min(n, |s|) + i]
  {
  }

  lemma LastOfLast<T>(s: seq<T>, m: nat, n: nat)
    ensures Last(Last(s, m), n) == Last(s, Min(m, n))
  {
  }

  /** Keeping the last `n` of a growing sequence needs only the last `n` so far. */
  lemma LastOfGrown<T>(s: seq<T>, data: seq<T>, n: nat)
    ensures Last(s + data, n) == Last(Last(s, n) + data, n)
  {
    var kept := Last(s, n);
    var a, b := Last(s + data, n), Last(kept + data, n);
    assert |a| == |b|;
    forall i | 0 <= i < |a| ensures a[i] == b[i] {
      LastAt(s + data, n, i);
      LastAt(kept + data, n, i);
      var j := |kept| + |data| - |a| + i;
      if j < |kept| { LastAt(s, n, j); }
    }
  }
}
