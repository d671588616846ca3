/**
 * Splitting a list of records into consecutive batches, as the three upsert
 * loops do with Python slicing, and the two ways the loops react to the
 * store: count what each batch reply credits and go on, or stop at the first
 * batch the store refuses.
 */
module Batches {

  function Min(a: nat, b: nat): nat {
    if a <= b then a else b
  }

  /** Python's `s[i:j]` for non-negative bounds: the end is clamped to the length. */
  function Slice<T>(s: seq<T>, i: nat, j: nat): seq<T> {
    if i < |s| && i < j then s[i..Min(j, |s|)] else []
  }

  lemma MulStep(k: nat, b: nat)
    ensures (k + 1) * b == k * b + b
  {
  }

  /** `math.ceil(n / bs)` for a positive batch size: the least `k` with `k * bs >= n`. */
  function CeilDiv(n: nat, bs: nat): (k: nat)
    requires bs > 0
    ensures k * bs >= n
    ensures k > 0 ==> (k - 1) * bs < n
    decreases n
  {
    if n == 0 then 0
    else if n <= bs then 1
    else
      var k := CeilDiv(n - bs, bs);
      MulStep(k, bs);
      k + 1
  }

  /** The concatenation of a list of batches. */
  function Flatten<T>(cs: seq<seq<T>>): seq<T> {
    if cs == [] then [] else cs[0] + Flatten(cs[1..])
  }

  /** The consecutive batches of at most `bs` records that cover `s` in order. */
  function Chunks<T>(s: seq<T>, bs: nat): (cs: seq<seq<T>>)
    requires bs > 0
    decreases |s|
  {
    if s == [] then [] else [s[..Min(bs, |s|)]] + Chunks(s[Min(bs, |s|)..], bs)
  }

  /** Every batch holds at least one record and at most `bs`. */
  lemma {:induction false} ChunkSizes<T>(s: seq<T>, bs: nat, k: nat)
    requires bs > 0 && k < |Chunks(s, bs)|
    ensures 0 < |Chunks(s, bs)[k]| <= bs
    decreases |s|
  {
    if k > 0 {
      ChunkShift(s, bs, k);
      ChunkSizes(s[bs..], bs, k - 1);
    }
  }

  /** The batches cover the records exactly, in order. */
  lemma {:induction false} ChunksFlatten<T>(s: seq<T>, bs: nat)
    requires bs > 0
    ensures Flatten(Chunks(s, bs)) == s
    decreases |s|
  {
    if s != [] {
      var k := Min(bs, |s|);
      ChunksFlatten(s[k..], bs);
      assert Chunks(s, bs)[1..] == Chunks(s[k..], bs);
    }
  }

  /** There are `ceil(|s| / bs)` batches. */
  lemma {:induction false} ChunksCount<T>(s: seq<T>, bs: nat)
    requires bs > 0
    ensures |Chunks(s, bs)| == CeilDiv(|s|, bs)
    decreases |s|
  {
    if s != [] {
      var k := Min(bs, |s|);
      ChunksCount(s[k..], bs);
    }
  }

  /** Dropping a prefix of `d` elements shifts every slice by `d`. */
  lemma SliceShift<T>(s: seq<T>, d: nat, i: nat, j: nat)
    requires d <= |s|
    ensures Slice(s[d..], i, j) == Slice(s, i + d, j + d)
  {
    if i < |s| - d && i < j {
      assert s[d..][i..Min(j, |s| - d)] == s[i + d..Min(j + d, |s|)];
    }
  }

  /** After the first batch come the batches of the rest. */
  lemma ChunksUnfold<T>(s: seq<T>, bs: nat)
    requires bs > 0 && |s| > bs
    ensures Chunks(s, bs) == [s[..bs]] + Chunks(s[bs..], bs)
  {
  }

  /** Where batch `k` starts: `k * bs`, written as repeated addition. */
  function Start(k: nat, bs: nat): nat {
    if k == 0 then 0 else Start(k - 1, bs) + bs
  }

  lemma {:induction false} StartIsProduct(k: nat, bs: nat)
    ensures Start(k, bs) == k * bs
  {
    if k > 0 {
      StartIsProduct(k - 1, bs);
      MulStep(k - 1, bs);
    }
  }

  /** Batch `k` is the slice `s[k*bs : k*bs + bs]`. */
  lemma {:induction false} ChunkAt<T>(s: seq<T>, bs: nat, k: nat)
    requires bs > 0 && k < |Chunks(s, bs)|
    ensures Chunks(s, bs)[k] == Slice(s, Start(k, bs), Start(k, bs) + bs)
    ensures Start(k, bs) < |s|
    decreases |s|
  {
    if k == 0 {
      assert Chunks(s, bs)[0] == s[..Min(bs, |s|)];
    } else {
      ChunkShift(s, bs, k);
      var a := Start(k - 1, bs);
      ChunkAt(s[bs..], bs, k - 1);
      SliceShift(s, bs, a, a + bs);
    }
  }

  /** A later batch of `s` is a batch of what follows the first one. */
  lemma ChunkShift<T>(s: seq<T>, bs: nat, k: nat)
    requires bs > 0 && 0 < k < |Chunks(s, bs)|
    ensures |s| > bs && Chunks(s, bs)[k] == Chunks(s[bs..], bs)[k - 1]
  {
    ChunksUnfold(s, bs);
  }

  /** A prefix of batches followed by the next one. */
  lemma ChunksPrefixNext<T>(s: seq<T>, bs: nat, k: nat)
    requires bs > 0 && k < |Chunks(s, bs)|
    ensures Chunks(s, bs)[..k + 1] == Chunks(s, bs)[..k] + [Slice(s, Start(k, bs), Start(k, bs) + bs)]
  {
    ChunkAt(s, bs, k);
  }

  /** What the store answers for one batch: an exception, or the rows it reports back (`resp.data`). */
  datatype StoreReply = Rejected | Stored(returned: nat)

  /**
   * What one batch adds to the running total: nothing when the store raised,
   * the number of rows it reported back when that is non-zero, and otherwise
   * the size of the batch.
   */
  function Credit(reply: StoreReply, batchSize: nat): nat {
    match reply
    case Rejected => 0
    case Stored(k) => if k > 0 then k else batchSize
  }

  /** The total credited to the batches `cs`, the store answering batch `i` with `store(i)`. */
  function Credits<T>(cs: seq<seq<T>>, store: nat -> StoreReply): nat {
    if cs == [] then 0 else Credits(cs[..|cs| - 1], store) + Credit(store(|cs| - 1), |cs[|cs| - 1]|)
  }

  lemma FlattenAppend<T>(a: seq<seq<T>>, b: seq<seq<T>>)
    ensures Flatten(a + b) == Flatten(a) + Flatten(b)
  {
    if a == [] {
      assert a + b == b;
    } else {
      calc {
        Flatten(a + b);
        (a + b)[0] + Flatten((a + b)[1..]);
        { assert (a + b)[1..] == a[1..] + b; }
        a[0] + Flatten(a[1..] + b);
        { FlattenAppend(a[1..], b); }
        a[0] + (Flatten(a[1..]) + Flatten(b));
      }
    }
  }

  /**
   * When no store call raises and every reply reports either nothing or
   * exactly the batch, the total is the number of records.
   */
  lemma {:induction false} CreditsAllAccepted<T>(cs: seq<seq<T>>, store: nat -> StoreReply)
    requires forall i :: 0 <= i < |cs| ==> store(i) == Stored(0) || store(i) == Stored(|cs[i]|)
    ensures Credits(cs, store) == |Flatten(cs)|
  {
    if cs != [] {
      var n := |cs| - 1;
      CreditsAllAccepted(cs[..n], store);
      assert cs == cs[..n] + [cs[n]];
      FlattenAppend(cs[..n], [cs[n]]);
      assert Flatten([cs[n]]) == cs[n] + Flatten([]);
    }
  }

  /** When replies never report more rows than were sent, the total never exceeds the number of records. */
  lemma {:induction false} CreditsBounded<T>(cs: seq<seq<T>>, store: nat -> StoreReply)
    requires forall i :: 0 <= i < |cs| ==> store(i).Stored? ==> store(i).returned <= |cs[i]|
    ensures Credits(cs, store) <= |Flatten(cs)|
  {
    if cs != [] {
      var n := |cs| - 1;
      CreditsBounded(cs[..n], store);
      assert cs == cs[..n] + [cs[n]];
      FlattenAppend(cs[..n], [cs[n]]);
      assert Flatten([cs[n]]) == cs[n] + Flatten([]);
    }
  }

  /** The index of the first batch (below `count`) that the store refuses, or `count` when none is refused. */
  function FirstRefused(accepts: nat -> bool, count: nat, from: nat): (k: nat)
    requires from <= count
    ensures from <= k <= count
    ensures forall i :: from <= i < k ==> accepts(i)
    ensures k < count ==> !accepts(k)
    decreases count - from
  {
    if from == count || !accepts(from) then from else FirstRefused(accepts, count, from + 1)
  }

  /** The batches an abort-on-error loop hands to the store: all of them, or those up to and including the refused one. */
  function SentUntilRefused<T>(cs: seq<seq<T>>, accepts: nat -> bool): (sent: seq<seq<T>>)
    ensures sent <= cs
    ensures (forall i :: 0 <= i < |cs| ==> accepts(i)) ==> sent == cs
    ensures (exists i :: 0 <= i < |cs| && !accepts(i)) ==>
      0 < |sent| && !accepts(|sent| - 1) && forall i :: 0 <= i < |sent| - 1 ==> accepts(i)
  {
    var k := FirstRefused(accepts, |cs|, 0);
    if k == |cs| then cs else cs[..k + 1]
  }

  /** The first refusal is found wherever it is. */
  lemma {:induction false} FirstRefusedAt(accepts: nat -> bool, count: nat, from: nat, k: nat)
    requires from <= k < count && !accepts(k)
    requires forall j :: from <= j < k ==> accepts(j)
    ensures FirstRefused(accepts, count, from) == k
    decreases k - from
  {
    if from < k {
      FirstRefusedAt(accepts, count, from + 1, k);
    }
  }

  /** When batch `k` is the first refused, the batches sent are those up to and including it. */
  lemma SentUntilRefusedAt<T>(cs: seq<seq<T>>, accepts: nat -> bool, k: nat)
    requires k < |cs| && !accepts(k)
    requires forall j :: 0 <= j < k ==> accepts(j)
    ensures SentUntilRefused(cs, accepts) == cs[..k + 1]
  {
    FirstRefusedAt(accepts, |cs|, 0, k);
  }

  /** When every batch is accepted, every batch is sent. */
  lemma SentUntilRefusedAll<T>(cs: seq<seq<T>>, accepts: nat -> bool)
    requires forall j :: 0 <= j < |cs| ==> accepts(j)
    ensures SentUntilRefused(cs, accepts) == cs
  {
  }

  /** Batch `k` is the slice at `k * bs`, and sending it adds its size to the records sent. */
  lemma BatchNext<T>(records: seq<T>, bs: nat, k: nat)
    requires bs > 0 && k * bs < |records|
    ensures k < |Chunks(records, bs)|
    ensures Chunks(records, bs)[..k + 1] == Chunks(records, bs)[..k] + [Slice(records, k * bs, k * bs + bs)]
    ensures |Flatten(Chunks(records, bs)[..k + 1])| == |Flatten(Chunks(records, bs)[..k])| + |Slice(records, k * bs, k * bs + bs)|
    ensures k + 1 == |Chunks(records, bs)| ==> (k + 1) * bs >= |records|
  {
    BatchInRange(records, bs, k);
    var cs := Chunks(records, bs);
    ChunkAt(records, bs, k);
    StartIsProduct(k, bs);
    var batch := Slice(records, k * bs, k * bs + bs);
    assert cs[..k + 1] == cs[..k] + [batch];
    FlattenAppend(cs[..k], [batch]);
    assert Flatten([batch]) == batch + Flatten([]);
  }

  /** An offset `k * bs` inside the records names an existing batch; after the last batch the offset is past the end. */
  lemma BatchInRange<T>(records: seq<T>, bs: nat, k: nat)
    requires bs > 0 && k * bs < |records|
    ensures k < |Chunks(records, bs)|
    ensures k + 1 == |Chunks(records, bs)| ==> (k + 1) * bs >= |records|
  {
    var c := CeilDiv(|records|, bs);
    ChunksCount(records, bs);
    if c <= k {
      MulLeq(c, k, bs);
    }
  }

  lemma MulLeq(a: nat, b: nat, c: nat)
    requires a <= b
    ensures a * c <= b * c
  {
  }

  /** Once the offset reaches the end, every batch has been sent, and together they hold every record. */
  lemma BatchesDone<T>(records: seq<T>, bs: nat, k: nat)
    requires bs > 0 && k <= |Chunks(records, bs)| && k * bs >= |records|
    ensures Chunks(records, bs)[..k] == Chunks(records, bs)
    ensures |Flatten(Chunks(records, bs))| == |records|
  {
    var cs := Chunks(records, bs);
    if k < |cs| {
      ChunkAt(records, bs, k);
      StartIsProduct(k, bs);
    }
    ChunksFlatten(records, bs);
  }
}
