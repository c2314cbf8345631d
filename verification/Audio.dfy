/** 16-bit PCM on the wire: bytes and samples, cutting into chunks and collecting them again. */
module Audio {
  import opened Bytes

  type Sample = x: int | -0x8000 <= x < 0x8000

  // -------- samples as bytes

  function Unsigned(x: Sample): (u: nat)
    ensures u < 0x10000
  {
    if x < 0 then x + 0x10000 else x
  }

  /** The memory image of the samples, low byte first. */
  function ToBytes(pcm: seq<Sample>): (b: seq<byte>)
    ensures |b| == 2 * |pcm|
  {
    seq(2 * |pcm|, i requires 0 <= i < 2 * |pcm| =>
      if i % 2 == 0 then (Unsigned(pcm[i / 2]) % 0x100) as byte else (Unsigned(pcm[i / 2]) / 0x100) as byte)
  }

  function SampleAt(b: seq<byte>, i: nat): Sample
    requires 2 * i + 1 < |b|
  {
    var u := b[2 * i] as int + 0x100 * b[2 * i + 1] as int;
    if u < 0x8000 then u else u - 0x10000
  }

  /** The samples in a payload; an odd last byte is dropped. */
  function ToSamples(b: seq<byte>): (pcm: seq<Sample>)
    ensures |pcm| == |b| / 2
  {
    seq(|b| / 2, i requires 0 <= i < |b| / 2 => SampleAt(b, i))
  }

  lemma BytePair(b: seq<byte>, pcm: seq<Sample>, i: nat)
    requires b == ToBytes(pcm) && i < |pcm|
    ensures SampleAt(b, i) == pcm[i]
  {
    var u := Unsigned(pcm[i]);
    assert b[2 * i] as int == u % 0x100 by {
      assert 2 * i % 2 == 0 && 2 * i / 2 == i;
    }
    assert b[2 * i + 1] as int == u / 0x100 by {
      assert (2 * i + 1) % 2 == 1 && (2 * i + 1) / 2 == i;
    }
    assert u == u % 0x100 + 0x100 * (u / 0x100);
  }

  /** Samples survive the wire, with or without a stray byte behind them. */
  lemma SamplesSurvive(pcm: seq<Sample>, stray: seq<byte>)
    requires |stray| <= 1
    ensures ToSamples(ToBytes(pcm) + stray) == pcm
  {
    var b := ToBytes(pcm);
    forall i | 0 <= i < |pcm| ensures SampleAt(b + stray, i) == pcm[i] {
      BytePair(b, pcm, i);
    }
  }

  // -------- cutting

  /** The next `k` samples at a time, fewer in the last piece. */
  function Chunks(pcm: seq<Sample>, k: nat): seq<seq<Sample>>
    requires k > 0
    decreases |pcm|
  {
    if pcm == [] then []
    else if |pcm| <= k then [pcm]
    else [pcm[..k]] + Chunks(pcm[k..], k)
  }

  function Flatten(chunks: seq<seq<Sample>>): seq<Sample> {
    if chunks == [] then [] else chunks[0] + Flatten(chunks[1..])
  }

  /** Cutting loses nothing, and every piece is small and not empty. */
  lemma {:induction false} ChunksConserve(pcm: seq<Sample>, k: nat)
    requires k > 0
    ensures var c := Chunks(pcm, k);
            Flatten(c) == pcm && forall i :: 0 <= i < |c| ==> 0 < |c[i]| <= k
    decreases |pcm|
  {
    if |pcm| > k {
      ChunksConserve(pcm[k..], k);
      assert pcm[..k] + pcm[k..] == pcm;
      assert Chunks(pcm, k)[1..] == Chunks(pcm[k..], k);
    } else if pcm != [] {
      assert [pcm][1..] == [];
      assert Flatten([pcm]) == pcm + [];
    }
  }

  /** Piece `i` are the samples from `k * i` on, `k` of them or all that are left. */
  lemma {:induction false} ChunkAt(pcm: seq<Sample>, k: nat, i: nat)
    requires k > 0 && i < |Chunks(pcm, k)|
    ensures k * i < |pcm| && Chunks(pcm, k)[i] == pcm[k * i..if k * i + k < |pcm| then k * i + k else |pcm|]
    decreases i
  {
    if i == 0 {
      assert pcm[0..|pcm|] == pcm;
    } else {
      ChunkAt(pcm[k..], k, i - 1);
      var from := k * (i - 1);
      Shifted(k, i);
      var end := if from + k + k < |pcm| then from + k + k else |pcm|;
      assert pcm[k..][from..end - k] == pcm[from + k..end];
    }
  }

  lemma Shifted(k: nat, i: nat)
    requires i > 0
    ensures k * i == k * (i - 1) + k
  {
  }

  /** How many pieces there are: the length over `k`, rounded up. */
  lemma {:induction false} ChunkCount(pcm: seq<Sample>, k: nat)
    requires k > 0
    ensures |Chunks(pcm, k)| == (|pcm| + k - 1) / k
    decreases |pcm|
  {
    if |pcm| > k {
      ChunkCount(pcm[k..], k);
      OneMore(|pcm| - 1, k);
    } else if pcm != [] {
      OneMore(|pcm| - 1, k);
      Small(|pcm| - 1, k);
    } else {
      Small(k - 1, k);
    }
  }

  lemma OneMore(n: nat, k: nat)
    requires k > 0
    ensures (n + k) / k == n / k + 1
  {
    var q, r := n / k, n % k;
    assert n == q * k + r;
    assert n + k == (q + 1) * k + r;
    Quotient(n + k, k, q + 1, r);
  }

  lemma Quotient(n: nat, k: nat, q: nat, r: nat)
    requires k > 0 && n == q * k + r && r < k
    ensures n / k == q
  {
    DivIsLargest(n, k, q);
    if n / k > q {
      MulStrict(n / k, q, k);
      assert false;
    }
  }

  lemma MulStrict(a: nat, b: nat, k: nat)
    requires a > b
    ensures a * k >= b * k + k
  {
    var d := a - b - 1;
    assert a * k == (b + 1 + d) * k == b * k + k + d * k;
  }

  /** The quotient is the largest factor that fits. */
  lemma DivIsLargest(n: nat, k: nat, q: nat)
    requires k > 0 && q * k <= n
    ensures q <= n / k && n / k * k <= n
  {
    var d := n / k;
    assert n == d * k + n % k;
    if q > d {
      MulStrict(q, d, k);
      assert false;
    }
  }

  lemma Small(n: nat, k: nat)
    requires n < k
    ensures n / k == 0
  {
    Quotient(n, k, 0, n);
  }

  // -------- collecting

  function Power2(n: nat): (p: nat)
    ensures p > 0
  {
    if n == 0 then 1 else 2 * Power2(n - 1)
  }

  /** A buffer that grows to twice what is needed, and to `least` samples at first. */
  class Collector {
    const least: nat
    var pcm: array<Sample>
    var total: nat
    ghost var growths: nat        // how often the buffer was reallocated

    constructor (least: nat)
      requires least > 0
      ensures Valid() && Contents() == [] && this.least == least && growths == 0 && fresh(pcm)
    {
      this.least := least;
      pcm := new Sample[0];
      total, growths := 0, 0;
    }

    /** The samples fit, and r growths need at least 2^(r-1) times the first capacity. */
    ghost predicate Valid()
      reads this`pcm, this`total, this`growths
    {
      && least > 0
      && total <= pcm.Length
      && (growths == 0 ==> pcm.Length == 0)
      && (growths > 0 ==> least * Power2(growths - 1) <= pcm.Length)
      && (growths > 0 ==> pcm.Length <= least || pcm.Length <= 2 * total)
    }

    ghost function Contents(): seq<Sample>
      requires total <= pcm.Length
      reads this`pcm, this`total, pcm
    {
      pcm[..total]
    }

    /** The capacity check and the copy of one chunk. */
    method Append(chunk: seq<Sample>)
      requires Valid()
      modifies this`pcm, this`total, this`growths, pcm
      ensures Valid() && Contents() == old(Contents()) + chunk
      ensures pcm == old(pcm) || fresh(pcm)
    {
      if total + |chunk| > pcm.Length {
        Grow(total + |chunk|);
      }
      ghost var before := Contents();
      forall i | 0 <= i < |chunk| {
        pcm[total + i] := chunk[i];
      }
      total := total + |chunk|;
      assert pcm[..total] == before + chunk;
    }

    /** realloc to twice the need, keeping the samples. */
    method Grow(need: nat)
      requires Valid() && need > pcm.Length
      modifies this`pcm, this`growths
      ensures fresh(pcm) && pcm.Length == (if 2 * need < least then least else 2 * need)
      ensures pcm[..total] == old(Contents()) && growths == old(growths) + 1
      ensures least * Power2(growths - 1) <= pcm.Length
    {
      var capacity := need * 2;
      if capacity < least {
        capacity := least;
      }
      var bigger := new Sample[capacity];
      forall i | 0 <= i < total {
        bigger[i] := pcm[i];
      }
      assert bigger[..total] == pcm[..total];
      pcm := bigger;
      growths := growths + 1;
      if growths > 1 {
        Doubled(least, Power2(growths - 2));
      }
    }
  }

  lemma Doubled(a: nat, p: nat)
    ensures a * (2 * p) == 2 * (a * p)
  {
  }

  function Log2(n: nat): (k: nat)
    requires n > 0
    ensures Power2(k) <= n
  {
    if n == 1 then 0 else 1 + Log2(n / 2)
  }

  lemma {:induction false} Log2IsLargest(n: nat, k: nat)
    requires n > 0 && Power2(k) <= n
    ensures k <= Log2(n)
  {
    if k > 0 {
      DivIsLargest(n, 2, Power2(k - 1));
      Log2IsLargest(n / 2, k - 1);
    }
  }

  /** Collecting N samples takes at most 1 + log2(max(N, least/2) / (least/2)) growths. */
  lemma GrowthsAreLogarithmic(c: Collector, half: nat)
    requires c.Valid() && c.least == 2 * half
    ensures var n := if c.total < half then half else c.total;
            half > 0 && n / half > 0 && c.growths <= 1 + Log2(n / half)
  {
    var n := if c.total < half then half else c.total;
    DivIsLargest(n, half, 1);
    if c.growths > 0 {
      var p := Power2(c.growths - 1);
      DoubledBound(c.least, half, p, c.pcm.Length, n);
      DivIsLargest(n, half, p);
      Log2IsLargest(n / half, c.growths - 1);
    }
  }

  lemma DoubledBound(least: nat, half: nat, p: nat, length: nat, n: nat)
    requires least == 2 * half && least * p <= length <= 2 * n
    ensures p * half <= n
  {
    assert least * p == 2 * (p * half);
  }
}
