/** What `filter_numbers_threaded` guarantees about its lists and files, whatever the
    order in which the workers finish. */
module ThreadedProperties {
  import opened Results
  import opened Sequences
  import opened LoginPoll
  import opened Partition
  import opened Chunking
  import opened ThreadedFilter

  /** Each chunk's numbers with the given verdict. */
  function SelectedParts(chunks: seq<seq<string>>, classify: string -> Result<Verdict>,
                         registered: bool): (parts: seq<seq<string>>)
    ensures |parts| == |chunks|
  {
    seq(|chunks|, i requires 0 <= i < |chunks| => Selected(chunks[i], classify, registered))
  }

  /** Selecting chunk by chunk and laying the selections end to end is selecting from the
      whole list. */
  lemma {:induction false} SelectedConcat(chunks: seq<seq<string>>, classify: string -> Result<Verdict>,
                                          registered: bool)
    ensures Concat(SelectedParts(chunks, classify, registered)) == Selected(Concat(chunks), classify, registered)
    decreases |chunks|
  {
    if chunks != [] {
      var parts := SelectedParts(chunks, classify, registered);
      assert parts == [Selected(chunks[0], classify, registered)] + SelectedParts(chunks[1..], classify, registered);
      SelectedConcat(chunks[1..], classify, registered);
      SelectedAppend(chunks[0], Concat(chunks[1..]), classify, registered);
    }
  }

  lemma {:induction false} ConcatHas<T>(xss: seq<seq<T>>, x: T)
    requires x in Concat(xss)
    ensures exists i :: 0 <= i < |xss| && x in xss[i]
    decreases |xss|
  {
    if x !in xss[0] {
      ConcatHas(xss[1..], x);
      var i :| 0 <= i < |xss[1..]| && x in xss[1..][i];
      assert x in xss[i + 1];
    }
  }

  /** Every chunk index is collected at some position. */
  lemma IndexCollected(order: seq<nat>, n: nat, i: nat)
    requires IsRearrangement(order, n) && i < n
    ensures exists j :: 0 <= j < |order| && order[j] == i
  {
    assert Indices(n)[i] == i;
    assert i in multiset(Indices(n));
    assert i in multiset(order);
  }

  /** The collection loop returns normally exactly when no worker raised: one failing
      worker loses the lists of all the others. */
  lemma AggregatedSucceedsIffAll(results: seq<Result<Split>>, order: seq<nat>)
    requires IsRearrangement(order, |results|)
    ensures InRange(order, |results|)
    ensures Aggregated(results, order).Success? <==> forall i :: 0 <= i < |results| ==> results[i].Success?
  {
    RearrangementInRange(order, |results|);
    if Aggregated(results, order).Success? {
      forall i | 0 <= i < |results| ensures results[i].Success? {
        IndexCollected(order, |results|, i);
      }
    }
  }

  /** When every worker returned, worker `i + 1` returned the two selections of chunk `i`,
      every number was classified without an exception, and each worker appended its
      whole chunk. */
  lemma AllWorkersDone(chunks: seq<seq<string>>, polls: string -> seq<Poll>, classify: string -> Result<Verdict>)
    requires forall i :: 0 <= i < |chunks| ==> WorkerResults(chunks, polls, classify)[i].Success?
    ensures ValidParts(WorkerResults(chunks, polls, classify)) == SelectedParts(chunks, classify, true)
    ensures InvalidParts(WorkerResults(chunks, polls, classify)) == SelectedParts(chunks, classify, false)
    ensures DoneParts(chunks, polls, classify) == chunks
    ensures forall i, j :: 0 <= i < |chunks| && 0 <= j < |chunks[i]| ==> classify(chunks[i][j]).Success?
  {
    var results := WorkerResults(chunks, polls, classify);
    forall i | 0 <= i < |chunks|
      ensures ValidParts(results)[i] == SelectedParts(chunks, classify, true)[i]
      ensures InvalidParts(results)[i] == SelectedParts(chunks, classify, false)[i]
      ensures DoneParts(chunks, polls, classify)[i] == chunks[i]
      ensures forall j :: 0 <= j < |chunks[i]| ==> classify(chunks[i][j]).Success?
    {
      assert results[i] == ChunkOutcome(chunks[i], polls(ProfileSuffix(i + 1)), classify);
      assert results[i] == Partitioned(chunks[i], classify);
      assert FirstFailure(chunks[i], classify) == |chunks[i]|;
      assert chunks[i][..|chunks[i]|] == chunks[i];
    }
  }

  /** The chunks of a call that got past the chunking and the pool sizing. */
  lemma Started(numbers: seq<string>, chunkSize: int, maxWorkers: int,
                polls: string -> seq<Poll>, classify: string -> Result<Verdict>, order: seq<nat>)
    requires IsRearrangement(order, ChunkTotal(|numbers|, chunkSize))
    requires numbers != [] && ThreadedOutcome(numbers, chunkSize, maxWorkers, polls, classify, order).Success?
    ensures chunkSize > 0 && maxWorkers > 0
    ensures var chunks := ChunkList(numbers, chunkSize).value;
      Concat(chunks) == numbers && |chunks| == ChunkTotal(|numbers|, chunkSize) &&
      IsRearrangement(order, |WorkerResults(chunks, polls, classify)|) &&
      InRange(order, |WorkerResults(chunks, polls, classify)|) &&
      ThreadedOutcome(numbers, chunkSize, maxWorkers, polls, classify, order) ==
        Aggregated(WorkerResults(chunks, polls, classify), order) &&
      ThreadedDone(numbers, chunkSize, maxWorkers, polls, classify) == Concat(DoneParts(chunks, polls, classify))
  {
    var chunks := ChunkList(numbers, chunkSize).value;
    assert chunks != [];
    RearrangementInRange(order, |chunks|);
  }

  /** No number is lost or duplicated: whatever the completion order, the valid list holds
      exactly the registered numbers and the invalid list exactly the others, each as
      often as in the input. */
  lemma ThreadedComplete(numbers: seq<string>, chunkSize: int, maxWorkers: int,
                         polls: string -> seq<Poll>, classify: string -> Result<Verdict>, order: seq<nat>)
    requires IsRearrangement(order, ChunkTotal(|numbers|, chunkSize))
    requires ThreadedOutcome(numbers, chunkSize, maxWorkers, polls, classify, order).Success?
    ensures var s := ThreadedOutcome(numbers, chunkSize, maxWorkers, polls, classify, order).value;
      multiset(s.valid) == multiset(Selected(numbers, classify, true)) &&
      multiset(s.invalid) == multiset(Selected(numbers, classify, false)) &&
      multiset(s.valid) + multiset(s.invalid) == multiset(numbers)
  {
    if numbers != [] {
      Started(numbers, chunkSize, maxWorkers, polls, classify, order);
      var chunks := ChunkList(numbers, chunkSize).value;
      var results := WorkerResults(chunks, polls, classify);
      AggregatedSucceedsIffAll(results, order);
      AllWorkersDone(chunks, polls, classify);
      RearrangedGather(ValidParts(results), order);
      RearrangedGather(InvalidParts(results), order);
      SelectedConcat(chunks, classify, true);
      SelectedConcat(chunks, classify, false);
      EveryNumberClassified(chunks, classify);
      SelectedCover(numbers, classify);
    }
  }

  lemma EveryNumberClassified(chunks: seq<seq<string>>, classify: string -> Result<Verdict>)
    requires forall i, j :: 0 <= i < |chunks| && 0 <= j < |chunks[i]| ==> classify(chunks[i][j]).Success?
    ensures forall k :: 0 <= k < |Concat(chunks)| ==> classify(Concat(chunks)[k]).Success?
  {
    forall k | 0 <= k < |Concat(chunks)| ensures classify(Concat(chunks)[k]).Success? {
      ConcatHas(chunks, Concat(chunks)[k]);
    }
  }

  /** When the results are collected in submission order the threaded mode returns exactly
      what the single-browser loop returns for the whole list. */
  lemma ThreadedInOrder(numbers: seq<string>, chunkSize: int, maxWorkers: int,
                        polls: string -> seq<Poll>, classify: string -> Result<Verdict>)
    requires ThreadedOutcome(numbers, chunkSize, maxWorkers, polls, classify,
                             Indices(ChunkTotal(|numbers|, chunkSize))).Success?
    ensures Partitioned(numbers, classify).Success?
    ensures ThreadedOutcome(numbers, chunkSize, maxWorkers, polls, classify,
                            Indices(ChunkTotal(|numbers|, chunkSize))) == Partitioned(numbers, classify)
  {
    var order := Indices(ChunkTotal(|numbers|, chunkSize));
    if numbers != [] {
      Started(numbers, chunkSize, maxWorkers, polls, classify, order);
      var chunks := ChunkList(numbers, chunkSize).value;
      var results := WorkerResults(chunks, polls, classify);
      AggregatedSucceedsIffAll(results, order);
      AllWorkersDone(chunks, polls, classify);
      GatheredIndices(ValidParts(results), |chunks|);
      GatheredIndices(InvalidParts(results), |chunks|);
      assert ValidParts(results)[..|chunks|] == ValidParts(results);
      assert InvalidParts(results)[..|chunks|] == InvalidParts(results);
      SelectedConcat(chunks, classify, true);
      SelectedConcat(chunks, classify, false);
      EveryNumberClassified(chunks, classify);
    }
  }

  /** When the call returns normally every number was appended to the file of its verdict
      (or to the one file, when both paths are the same), in input order. */
  lemma ThreadedFilesComplete(numbers: seq<string>, chunkSize: int, maxWorkers: int,
                              polls: string -> seq<Poll>, classify: string -> Result<Verdict>, order: seq<nat>)
    requires IsRearrangement(order, ChunkTotal(|numbers|, chunkSize))
    requires ThreadedOutcome(numbers, chunkSize, maxWorkers, polls, classify, order).Success?
    ensures ThreadedDone(numbers, chunkSize, maxWorkers, polls, classify) == numbers
  {
    if numbers != [] {
      Started(numbers, chunkSize, maxWorkers, polls, classify, order);
      var chunks := ChunkList(numbers, chunkSize).value;
      AggregatedSucceedsIffAll(WorkerResults(chunks, polls, classify), order);
      AllWorkersDone(chunks, polls, classify);
    }
  }

  /** Whatever the schedule of a pool with several workers, when the two paths differ
      each file receives an interleaving of the workers' appends. When the run returns
      normally, any such interleaving holds exactly the numbers of that verdict, each as
      often as in the input, and keeps each worker's own order. */
  lemma ThreadedFilesAnySchedule(numbers: seq<string>, chunkSize: int, maxWorkers: int,
                                 polls: string -> seq<Poll>, classify: string -> Result<Verdict>,
                                 order: seq<nat>, registered: bool, appended: seq<string>)
    requires IsRearrangement(order, ChunkTotal(|numbers|, chunkSize))
    requires ThreadedOutcome(numbers, chunkSize, maxWorkers, polls, classify, order).Success?
    requires Interleaves(appended, WorkerAppends(numbers, chunkSize, maxWorkers, polls, classify, registered))
    ensures multiset(appended) == multiset(Selected(numbers, classify, registered))
    ensures forall j :: 0 <= j < |WorkerAppends(numbers, chunkSize, maxWorkers, polls, classify, registered)| ==>
              IsSubsequence(WorkerAppends(numbers, chunkSize, maxWorkers, polls, classify, registered)[j], appended)
  {
    var parts := WorkerAppends(numbers, chunkSize, maxWorkers, polls, classify, registered);
    InterleavesMultiset(appended, parts);
    forall j | 0 <= j < |parts| ensures IsSubsequence(parts[j], appended) {
      InterleavesKeepsOrder(appended, parts, j);
    }
    if numbers != [] {
      Started(numbers, chunkSize, maxWorkers, polls, classify, order);
      var chunks := ChunkList(numbers, chunkSize).value;
      AggregatedSucceedsIffAll(WorkerResults(chunks, polls, classify), order);
      AllWorkersDone(chunks, polls, classify);
      assert parts == SelectedParts(chunks, classify, registered);
      SelectedConcat(chunks, classify, registered);
    } else {
      ConcatEmpty(parts);
    }
  }

  /** When both paths name one file, that file receives an interleaving of every
      worker's decided numbers. When the run returns normally, any such interleaving
      holds every input number exactly as often as the input does, and keeps each
      worker's own order. */
  lemma ThreadedSharedFileAnySchedule(numbers: seq<string>, chunkSize: int, maxWorkers: int,
                                      polls: string -> seq<Poll>, classify: string -> Result<Verdict>,
                                      order: seq<nat>, appended: seq<string>)
    requires IsRearrangement(order, ChunkTotal(|numbers|, chunkSize))
    requires ThreadedOutcome(numbers, chunkSize, maxWorkers, polls, classify, order).Success?
    requires Interleaves(appended, WorkerDecided(numbers, chunkSize, maxWorkers, polls, classify))
    ensures multiset(appended) == multiset(numbers)
    ensures forall j :: 0 <= j < |WorkerDecided(numbers, chunkSize, maxWorkers, polls, classify)| ==>
              IsSubsequence(WorkerDecided(numbers, chunkSize, maxWorkers, polls, classify)[j], appended)
  {
    var parts := WorkerDecided(numbers, chunkSize, maxWorkers, polls, classify);
    InterleavesMultiset(appended, parts);
    forall j | 0 <= j < |parts| ensures IsSubsequence(parts[j], appended) {
      InterleavesKeepsOrder(appended, parts, j);
    }
    if numbers != [] {
      Started(numbers, chunkSize, maxWorkers, polls, classify, order);
      var chunks := ChunkList(numbers, chunkSize).value;
      AggregatedSucceedsIffAll(WorkerResults(chunks, polls, classify), order);
      AllWorkersDone(chunks, polls, classify);
      assert parts == chunks;
    } else {
      ConcatEmpty(parts);
    }
  }

  /** The first chunk holding a number whose classification raises, or `|chunks|`. */
  function FirstFailingChunk(chunks: seq<seq<string>>, classify: string -> Result<Verdict>): (j: nat)
    ensures j <= |chunks|
    ensures forall t :: 0 <= t < j ==> FirstFailure(chunks[t], classify) == |chunks[t]|
    ensures j < |chunks| ==> FirstFailure(chunks[j], classify) < |chunks[j]|
    decreases |chunks|
  {
    if chunks == [] then 0
    else if FirstFailure(chunks[0], classify) < |chunks[0]| then 0
    else 1 + FirstFailingChunk(chunks[1..], classify)
  }

  /** The first exception of the whole list is the first exception of the first chunk
      that has one. */
  lemma {:induction false} ChunksFirstFailure(chunks: seq<seq<string>>, classify: string -> Result<Verdict>)
    ensures var k, j := FirstFailure(Concat(chunks), classify), FirstFailingChunk(chunks, classify);
      (j < |chunks| <==> k < |Concat(chunks)|) &&
      (j < |chunks| ==> Concat(chunks)[k] == chunks[j][FirstFailure(chunks[j], classify)])
    decreases |chunks|
  {
    if chunks != [] {
      ChunksFirstFailure(chunks[1..], classify);
      FirstFailureAppend(chunks[0], Concat(chunks[1..]), classify);
    }
  }

  /** When every worker logs in, collecting in submission order returns exactly what the
      single-browser loop returns, including the exception it raises. */
  lemma ThreadedInOrderLoggedIn(numbers: seq<string>, chunkSize: int, maxWorkers: int,
                                polls: string -> seq<Poll>, classify: string -> Result<Verdict>)
    requires chunkSize > 0 && maxWorkers > 0
    requires forall w :: 1 <= w <= ChunkTotal(|numbers|, chunkSize) ==>
               LoginOutcome(polls(ProfileSuffix(w))).Success?
    ensures ThreadedOutcome(numbers, chunkSize, maxWorkers, polls, classify,
                            Indices(ChunkTotal(|numbers|, chunkSize))) == Partitioned(numbers, classify)
  {
    var n := ChunkTotal(|numbers|, chunkSize);
    var order := Indices(n);
    if numbers != [] {
      var chunks := ChunkList(numbers, chunkSize).value;
      var results := WorkerResults(chunks, polls, classify);
      assert chunks != [];
      forall i | 0 <= i < n ensures results[i] == Partitioned(chunks[i], classify) {
        assert LoginOutcome(polls(ProfileSuffix(i + 1))).Success?;
      }
      var j := FirstFailingChunk(chunks, classify);
      ChunksFirstFailure(chunks, classify);
      RearrangementInRange(order, n);
      if j < n {
        FirstFailedAt(results, order, j);
      } else {
        AggregatedSucceedsIffAll(results, order);
        ThreadedInOrder(numbers, chunkSize, maxWorkers, polls, classify);
      }
    }
  }
}
