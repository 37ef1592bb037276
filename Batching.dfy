/**
 * Splitting a table into the slices `iloc[i:i + batch_size]` for
 * `i in range(0, len(df), batch_size)`, and the facts about them.
 */
module Batching {

  function Min(a: int, b: int): int
  {
    if a <= b then a else b
  }

  /** Number of batches a table of `n` rows yields: the ceiling of n / size. */
  function CeilDiv(n: nat, size: nat): nat
    requires size > 0
  {
    (n + size - 1) / size
  }

  function Flatten<T>(bs: seq<seq<T>>): seq<T>
  {
    if bs == [] then [] else bs[0] + Flatten(bs[1..])
  }

  /**
   * Consecutive slices of `size` elements, the last one possibly shorter;
   * an empty table yields no batch.
   */
  function Batches<T>(s: seq<T>, size: nat): (bs: seq<seq<T>>)
    requires size > 0
    ensures bs == [] <==> s == []
    decreases |s|
  {
    if |s| == 0 then []
    else if |s| <= size then [s]
    else [s[..size]] + Batches(s[size..], size)
  }

  /** Every batch is non-empty and at most B long, and all but the last are exactly B long. */
  lemma {:induction false} BatchSizes<T>(s: seq<T>, size: nat)
    requires size > 0
    ensures forall k | 0 <= k < |Batches(s, size)| :: 0 < |Batches(s, size)[k]| <= size
    ensures forall k | 0 <= k < |Batches(s, size)| - 1 :: |Batches(s, size)[k]| == size
    decreases |s|
  {
    if |s| > size {
      BatchSizes(s[size..], size);
      var bs, rest := Batches(s, size), Batches(s[size..], size);
      assert bs == [s[..size]] + rest && |bs| == |rest| + 1;
      assert |bs[0]| == size;
      assert forall k | 1 <= k < |bs| :: bs[k] == rest[k - 1];
    } else if |s| > 0 {
      assert Batches(s, size) == [s];
    }
  }

  lemma {:induction false} FlattenAppend<T>(bs: seq<seq<T>>, b: seq<T>)
    ensures Flatten(bs + [b]) == Flatten(bs) + b
  {
    if bs == [] {
      assert [] + [b] == [b];
      assert Flatten([b]) == b + Flatten([b][1..]);
    } else {
      assert (bs + [b])[1..] == bs[1..] + [b];
      FlattenAppend(bs[1..], b);
    }
  }

  /** The batches partition the table: concatenated in order they give it back. */
  lemma {:induction false} BatchesFlatten<T>(s: seq<T>, size: nat)
    requires size > 0
    ensures Flatten(Batches(s, size)) == s
    decreases |s|
  {
    if |s| == 0 {
    } else if |s| <= size {
      assert Flatten([s]) == s + Flatten([s][1..]);
    } else {
      var bs := Batches(s, size);
      BatchesFlatten(s[size..], size);
      assert bs[0] == s[..size] && bs[1..] == Batches(s[size..], size);
      assert s[..size] + s[size..] == s;
    }
  }

  lemma SliceJoin<T>(s: seq<T>, lo: nat, hi: nat)
    requires lo <= hi <= |s|
    ensures s[..lo] + s[lo..hi] == s[..hi]
  {
  }

  lemma SliceShift<T>(s: seq<T>, d: nat, lo: nat, hi: nat)
    requires d <= |s| && lo <= hi <= |s| - d
    ensures s[d..][lo..hi] == s[lo + d..hi + d]
  {
  }

  lemma MulSucc(k: int, d: int)
    ensures (k + 1) * d == k * d + d
  {
  }

  lemma {:induction false} MulSign(x: int, d: int)
    requires d > 0
    ensures x >= 1 ==> x * d >= d
    ensures x <= -1 ==> x * d <= -d
    decreases if x < 0 then -x else x
  {
    if x > 1 {
      MulSign(x - 1, d);
      assert x * d == (x - 1) * d + d;
    } else if x < -1 {
      MulSign(x + 1, d);
      assert x * d == (x + 1) * d - d;
    }
  }

  /** Quotient and remainder are determined by the bounds that define them. */
  lemma DivModUnique(n: int, d: int, q: int, r: int)
    requires d > 0 && 0 <= r < d && n == q * d + r
    ensures n / d == q && n % d == r
  {
    var q', r' := n / d, n % d;
    assert n == q' * d + r';
    assert (q - q') * d == r' - r;
    MulSign(q - q', d);
  }

  lemma DivModStep(n: nat, d: nat)
    requires d > 0
    ensures (n + d) / d == n / d + 1 && (n + d) % d == n % d
  {
    var q, r := n / d, n % d;
    assert (q + 1) * d == q * d + d;
    DivModUnique(n + d, d, q + 1, r);
  }

  /** There are ceil(N / B) batches. */
  lemma {:induction false} BatchesCount<T>(s: seq<T>, size: nat)
    requires size > 0
    ensures |Batches(s, size)| == CeilDiv(|s|, size)
    decreases |s|
  {
    if |s| == 0 {
      DivModUnique(size - 1, size, 0, size - 1);
    } else if |s| <= size {
      DivModUnique(|s| + size - 1, size, 1, |s| - 1);
    } else {
      BatchesCount(s[size..], size);
      assert |s[size..]| + size - 1 == |s| - 1;
      DivModStep(|s| - 1, size);
    }
  }

  /** Batch k is the contiguous slice s[k*B .. min((k+1)*B, N)]. */
  lemma {:induction false} BatchAt<T>(s: seq<T>, size: nat, k: nat)
    requires size > 0 && k < |Batches(s, size)|
    ensures k * size < |s|
    ensures Batches(s, size)[k] == s[k * size .. Min((k + 1) * size, |s|)]
    decreases k
  {
    if k > 0 {
      var rest := s[size..];
      var rs := Batches(rest, size);
      assert |s| > size;
      assert Batches(s, size) == [s[..size]] + rs;
      assert Batches(s, size)[k] == rs[k - 1];
      BatchAt(rest, size, k - 1);
      var lo, hi := (k - 1) * size, Min(k * size, |rest|);
      MulSucc(k - 1, size);
      MulSucc(k, size);
      assert k * size == lo + size;
      assert Min((k + 1) * size, |s|) == hi + size;
      assert rs[k - 1] == rest[lo..hi];
      SliceShift(s, size, lo, hi);
    }
  }

  /** The first k batches hold exactly the first min(k*B, N) rows. */
  lemma {:induction false} BatchesPrefix<T>(s: seq<T>, size: nat, k: nat)
    requires size > 0 && k <= |Batches(s, size)|
    ensures Flatten(Batches(s, size)[..k]) == s[..Min(k * size, |s|)]
    decreases k
  {
    var bs := Batches(s, size);
    if k == 0 {
      assert bs[..0] == [];
    } else {
      var before, last := bs[..k - 1], bs[k - 1];
      BatchesPrefix(s, size, k - 1);
      BatchAt(s, size, k - 1);
      MulSucc(k - 1, size);
      var lo, hi := (k - 1) * size, Min(k * size, |s|);
      assert Flatten(before) == s[..lo];
      assert last == s[lo..hi];
      assert bs[..k] == before + [last];
      FlattenAppend(before, last);
      SliceJoin(s, lo, hi);
    }
  }

  /** The last batch holds N mod B rows, or B when B divides N. */
  lemma {:induction false} LastBatchSize<T>(s: seq<T>, size: nat)
    requires size > 0 && |s| > 0
    ensures var bs := Batches(s, size);
            |bs[|bs| - 1]| == if |s| % size == 0 then size else |s| % size
    decreases |s|
  {
    if |s| > size {
      LastBatchSize(s[size..], size);
      var bs := Batches(s, size);
      assert bs[|bs| - 1] == Batches(s[size..], size)[|Batches(s[size..], size)| - 1];
      assert (|s| - size) % size == |s| % size by {
        DivModStep(|s| - size, size);
      }
    }
  }

  /** The batches of a suffix s[i..]: the slice s[i..min(i+B, N)], then the batches after it. */
  lemma BatchesFrom<T>(s: seq<T>, size: nat, i: nat)
    requires size > 0 && i < |s|
    ensures Batches(s[i..], size) == [s[i..Min(i + size, |s|)]] + Batches(s[Min(i + size, |s|)..], size)
  {
    var rest := s[i..];
    if |rest| <= size {
      assert s[Min(i + size, |s|)..] == [];
      assert rest == s[i..Min(i + size, |s|)];
    } else {
      assert rest[..size] == s[i..i + size];
      assert rest[size..] == s[i + size..];
    }
  }

  /**
   * When batches k.. are the batches of s[i..], batch k is the slice starting
   * at i, and the batches after it are those of the rows after that slice.
   */
  lemma NextBatch<T>(s: seq<T>, size: nat, k: nat, i: nat)
    requires size > 0 && k <= |Batches(s, size)| && i < |s|
    requires Batches(s, size)[k..] == Batches(s[i..], size)
    ensures k < |Batches(s, size)|
    ensures Batches(s, size)[k] == s[i..Min(i + size, |s|)]
    ensures Batches(s, size)[k + 1..] == Batches(s[Min(i + size, |s|)..], size)
  {
    var bs := Batches(s, size);
    BatchesFrom(s, size, i);
    assert bs[k..][0] == bs[k];
    assert bs[k + 1..] == bs[k..][1..];
  }
}
