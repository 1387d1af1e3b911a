/** The bit buffer and the sliding window of inflate, as values. */
module InflateState {
  import opened Bits
  import opened Deflate

  /** Bytes of input as one number, first bit lowest. */
  function BytesValue(s: seq<Byte>): (r: nat) {
    if s == [] then 0 else s[0] + Shl(BytesValue(s[1..]), 8)
  }

  /** The bits that remain: k in the buffer b, then the bytes from position p on. */
  ghost function Stream(input: seq<Byte>, p: nat, b: nat, k: nat): (r: nat)
    requires p <= |input|
  {
    b + Shl(BytesValue(input[p..]), k)
  }

  ghost function Avail(input: seq<Byte>, p: nat, k: nat): (r: nat)
    requires p <= |input|
  {
    k + 8 * (|input| - p)
  }

  /** Moving a byte into the buffer keeps the stream. */
  lemma FetchByte(input: seq<Byte>, p: nat, b: nat, k: nat)
    requires p < |input| && b < Pow2(k)
    ensures b + Shl(input[p], k) < Pow2(k + 8)
    ensures Stream(input, p + 1, b + Shl(input[p], k), k + 8) == Stream(input, p, b, k)
  {
    hide Pow2, Shl;
    var rest := BytesValue(input[p + 1..]);
    assert input[p..][1..] == input[p + 1..];
    var x: nat := input[p];
    EightBits();
    ShlAdd(x, Shl(rest, 8), k);
    ShlShl(rest, 8, k);
    ShlMono(x, Pow2(8), k);
    ShlPow2(8, k);
  }

  lemma EightBits()
    ensures Pow2(8) == 256
  {
    assert Pow2(4) == 16;
  }

  /** Looking at n buffered bits looks at the stream. */
  lemma PeekBits(input: seq<Byte>, p: nat, b: nat, k: nat, n: nat)
    requires p <= |input| && n <= k && b < Pow2(k)
    ensures Low(b, n) == Low(Stream(input, p, b, k), n)
    ensures Shr(b, n) < Pow2(k - n)
    ensures Stream(input, p, Shr(b, n), k - n) == Shr(Stream(input, p, b, k), n)
  {
    hide Pow2, Shl, Low, Shr;
    var rest := BytesValue(input[p..]);
    Decompose(b, n);
    ShlShl(rest, k - n, n);
    ShlAdd(Shr(b, n), Shl(rest, k - n), n);
    Recompose(Shr(b, n) + Shl(rest, k - n), Low(b, n), n);
    ShrBound(b, n, k - n);
  }

  /** The window still holds the end of what was flushed where it is not yet overwritten. */
  ghost predicate WindowOk(past: seq<Byte>, win: seq<Byte>, w: nat) {
    && w <= |win| <= |past|
    && past[|past| - (|win| - w)..] == win[w..]
  }

  /** Writing a byte moves the window on. */
  lemma WindowPut(past: seq<Byte>, win: seq<Byte>, w: nat, x: Byte)
    requires WindowOk(past, win, w) && w < |win|
    ensures WindowOk(past, win[w := x], w + 1)
    ensures past + win[w := x][..w + 1] == past + win[..w] + [x]
  {
    assert win[w := x][w + 1..] == win[w..][1..];
    assert past[|past| - (|win| - (w + 1))..] == past[|past| - (|win| - w)..][1..];
  }

  /** A full window is flushed. */
  lemma WindowFlush(past: seq<Byte>, win: seq<Byte>)
    requires |win| <= |past|
    ensures WindowOk(past + win, win, 0)
    ensures past + win + win[..0] == past + win[..|win|]
  {
    assert (past + win)[|past + win| - |win|..] == win;
  }

  /** Window position d holds the byte `dist` back from position w. */
  predicate Lags(n: nat, w: nat, d: nat, dist: nat) {
    d < n && (d + dist == w || d + dist == w + n)
  }

  lemma WindowGet(past: seq<Byte>, win: seq<Byte>, w: nat, d: nat, dist: nat)
    requires WindowOk(past, win, w) && w < |win| && 1 <= dist <= |win| && Lags(|win|, w, d, dist)
    ensures var hist := past + win[..w]; dist <= |hist| && win[d] == hist[|hist| - dist]
  {
    if d + dist == w + |win| {
      assert win[d] == win[w..][d - w];
      assert past[|past| - (|win| - w)..][d - w] == past[|past| - (|win| - w) + (d - w)];
    }
  }

  /** Copying bytes in ascending order, each read after the ones before it are written. */
  function CopyUp(win: seq<Byte>, w: nat, d: nat, e: nat): (r: seq<Byte>)
    requires w + e <= |win| && d + e <= |win|
    ensures |r| == |win|
    decreases e
  {
    if e == 0 then win else CopyUp(win[w := win[d]], w + 1, d + 1, e - 1)
  }

  lemma {:induction false} CopyUpStep(win: seq<Byte>, w: nat, d: nat, e: nat)
    requires w + e < |win| && d + e < |win|
    ensures var r := CopyUp(win, w, d, e); CopyUp(win, w, d, e + 1) == r[w + e := r[d + e]]
    decreases e
  {
    if e != 0 { CopyUpStep(win[w := win[d]], w + 1, d + 1, e - 1); }
  }

  /** A run of window copies is a run of the back reference. */
  lemma {:induction false} CopyUpIsMatch(past: seq<Byte>, win: seq<Byte>, w: nat, d: nat, e: nat, dist: nat)
    requires WindowOk(past, win, w) && w + e <= |win| && d + e <= |win|
    requires 1 <= dist <= |win| && (d + dist == w || d + dist == w + |win|)
    ensures WindowOk(past, CopyUp(win, w, d, e), w + e) && dist <= |past + win[..w]|
    ensures past + CopyUp(win, w, d, e)[..w + e] == CopyMatch(past + win[..w], dist, e)
    decreases e
  {
    if e != 0 {
      var hist := past + win[..w];
      WindowGet(past, win, w, d, dist);
      WindowPut(past, win, w, win[d]);
      CopyUpIsMatch(past, win[w := win[d]], w + 1, d + 1, e - 1, dist);
    }
  }
}
