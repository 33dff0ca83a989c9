/** The arithmetic of the multi-thread mode: `chunk_list`, the pool size
    `min(max_workers, len(chunks))`, and the per-worker browser profile names. */
module Chunking {
  import opened Results
  import opened Sequences
  import opened Text

  /** The message of the ValueError `range` raises for a zero step. */
  const RangeStepZeroMessage := "range() arg 3 must not be zero"
  /** The message of the ValueError `ThreadPoolExecutor` raises for a pool size below one. */
  const NoWorkersMessage := "max_workers must be greater than 0"
  const ProfilePrefix := "worker_"

  function Min(a: int, b: int): int
  {
    if a <= b then a else b
  }

  /** How many values `range(0, length, n)` yields: ceil(length / n) for a positive step,
      none for a negative one. */
  function ChunkTotal(length: nat, n: int): nat
  {
    if n > 0 then (length + n - 1) / n else 0
  }

  /** `lst[i:i + n]` for `i` = 0, n, 2n, ... below `len(lst)`. */
  function Slices<T>(lst: seq<T>, n: nat): seq<seq<T>>
    requires n > 0
    decreases |lst|
  {
    if lst == [] then []
    else if |lst| <= n then [lst]
    else [lst[..n]] + Slices(lst[n..], n)
  }

  /** A non-zero multiple of `n` is at least `n` away from zero. */
  lemma {:induction false} MultipleBound(d: int, n: int)
    requires n > 0
    ensures d > 0 ==> d * n >= n
    ensures d < 0 ==> d * n <= -n
    decreases if d < 0 then -d else d
  {
    if d > 1 {
      MultipleBound(d - 1, n);
      assert d * n == (d - 1) * n + n;
    } else if d < -1 {
      MultipleBound(d + 1, n);
      assert d * n == (d + 1) * n - n;
    }
  }

  lemma DivUnique(x: nat, n: nat, q: nat, r: nat)
    requires n > 0 && r < n && x == q * n + r
    ensures x / n == q
  {
    var q', r' := x / n, x % n;
    assert x == q' * n + r';
    var d := q - q';
    assert d * n == r' - r;
    MultipleBound(d, n);
  }

  lemma CountStep(length: nat, n: nat)
    requires n > 0 && length > n
    ensures ChunkTotal(length, n) == 1 + ChunkTotal(length - n, n)
  {
    var q, r := (length - 1) / n, (length - 1) % n;
    DivUnique(length + n - 1, n, q + 1, r);
    DivUnique((length - n) + n - 1, n, q, r);
  }

  lemma CountOne(length: nat, n: nat)
    requires 0 < length <= n
    ensures ChunkTotal(length, n) == 1
  {
    DivUnique(length + n - 1, n, 1, length - 1);
  }

  lemma {:induction false} SlicesConcat<T>(lst: seq<T>, n: nat)
    requires n > 0
    ensures Concat(Slices(lst, n)) == lst
    decreases |lst|
  {
    if lst == [] {
    } else if |lst| <= n {
      assert Concat([lst]) == lst + Concat([]);
    } else {
      SlicesConcat(lst[n..], n);
      assert Concat([lst[..n]] + Slices(lst[n..], n)) == lst[..n] + Concat(Slices(lst[n..], n));
      assert lst[..n] + lst[n..] == lst;
    }
  }

  lemma {:induction false} SlicesCount<T>(lst: seq<T>, n: nat)
    requires n > 0
    ensures |Slices(lst, n)| == ChunkTotal(|lst|, n)
    decreases |lst|
  {
    if lst == [] {
    } else if |lst| <= n {
      CountOne(|lst|, n);
    } else {
      SlicesCount(lst[n..], n);
      CountStep(|lst|, n);
    }
  }

  lemma {:induction false} SlicesSizes<T>(lst: seq<T>, n: nat)
    requires n > 0
    ensures forall i :: 0 <= i < |Slices(lst, n)| ==> 0 < |Slices(lst, n)[i]| <= n
    ensures forall i :: 0 <= i < |Slices(lst, n)| - 1 ==> |Slices(lst, n)[i]| == n
    decreases |lst|
  {
    if |lst| > n {
      var rest := Slices(lst[n..], n);
      SlicesSizes(lst[n..], n);
      assert Slices(lst, n) == [lst[..n]] + rest;
    }
  }

  /** The slices cover the list, in order, without overlap; there are ceil(len / n) of
      them; none is empty or longer than `n`, and only the last may be shorter. */
  lemma SlicesSpec<T>(lst: seq<T>, n: nat)
    requires n > 0
    ensures Concat(Slices(lst, n)) == lst
    ensures |Slices(lst, n)| == ChunkTotal(|lst|, n)
    ensures forall i :: 0 <= i < |Slices(lst, n)| ==> 0 < |Slices(lst, n)[i]| <= n
    ensures forall i :: 0 <= i < |Slices(lst, n)| - 1 ==> |Slices(lst, n)[i]| == n
  {
    SlicesConcat(lst, n);
    SlicesCount(lst, n);
    SlicesSizes(lst, n);
  }

  /** Slice `i` is `lst[i * n : i * n + n]`, cut at the end of the list. */
  lemma {:induction false} SliceAt<T>(lst: seq<T>, n: nat, i: nat)
    requires n > 0 && i < |Slices(lst, n)|
    ensures i * n < |lst|
    ensures Slices(lst, n)[i] == lst[i * n .. Min(i * n + n, |lst|)]
    decreases |lst|
  {
    if |lst| > n && i > 0 {
      SliceAt(lst[n..], n, i - 1);
      assert (i - 1) * n + n == i * n;
      assert Slices(lst, n)[i] == Slices(lst[n..], n)[i - 1];
    }
  }

  /** `list(chunk_list(lst, n))`: a zero step raises, a negative step yields nothing,
      and a positive step yields the slices. */
  function ChunkList(lst: seq<string>, n: int): (r: Result<seq<seq<string>>>)
    ensures r.Failure? <==> n == 0
    ensures r.Failure? ==> r.error == RangeStepZeroMessage
    ensures r.Success? ==> |r.value| == ChunkTotal(|lst|, n)
    ensures n > 0 ==> r.Success? && Concat(r.value) == lst &&
                      (forall i :: 0 <= i < |r.value| ==> 0 < |r.value[i]| <= n) &&
                      (forall i :: 0 <= i < |r.value| - 1 ==> |r.value[i]| == n)
    ensures n < 0 ==> r == Success([])
  {
    if n == 0 then Failure(RangeStepZeroMessage)
    else if n < 0 then Success([])
    else
      SlicesSpec(lst, n);
      Success(Slices(lst, n))
  }

  /** `ThreadPoolExecutor(max_workers=min(max_workers, len(chunks)))`: the pool never has
      more workers than chunks or than requested, and a size below one raises. */
  function WorkerCount(maxWorkers: int, chunkCount: nat): (r: Result<nat>)
    ensures r.Success? <==> maxWorkers > 0 && chunkCount > 0
    ensures r.Success? ==> 1 <= r.value && r.value <= chunkCount && r.value <= maxWorkers &&
                           (r.value == chunkCount || r.value == maxWorkers)
    ensures r.Failure? ==> r.error == NoWorkersMessage
  {
    var workers := Min(maxWorkers, chunkCount);
    if workers <= 0 then Failure(NoWorkersMessage) else Success(workers)
  }

  /** The profile suffix `f"worker_{worker_id}"` of a worker. */
  function ProfileSuffix(workerId: nat): string
  {
    ProfilePrefix + Decimal(workerId)
  }

  /** Workers are numbered 1, 2, ... by `enumerate(chunks, start=1)`, so no two of them
      share a browser profile. */
  lemma ProfileSuffixInjective(a: nat, b: nat)
    requires a != b
    ensures ProfileSuffix(a) != ProfileSuffix(b)
  {
    DecimalInjective(a, b);
    assert ProfileSuffix(a)[|ProfilePrefix|..] == Decimal(a);
    assert ProfileSuffix(b)[|ProfilePrefix|..] == Decimal(b);
  }

  lemma ProfileSuffixesDistinct(chunkCount: nat)
    ensures forall a, b :: 1 <= a < b <= chunkCount ==> ProfileSuffix(a) != ProfileSuffix(b)
  {
    forall a, b | 1 <= a < b <= chunkCount ensures ProfileSuffix(a) != ProfileSuffix(b) {
      ProfileSuffixInjective(a, b);
    }
  }
}
