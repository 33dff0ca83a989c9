/** The multi-thread mode: `process_numbers_chunk` (one worker: log in, then run the
    appending loop over its chunk) and `filter_numbers_threaded` (cut the list into chunks,
    size the pool, start one worker per chunk, and gather the results as they complete).
    Workers are run one after the other in submission order; the order in which their
    results are collected is the parameter `order`, any rearrangement of the chunk
    indices. A worker's login polls are looked up by its profile suffix. */
module ThreadedFilter {
  import opened Results
  import opened Sequences
  import opened NumberFile
  import opened LoginPoll
  import opened Partition
  import opened Chunking

  /** What one worker returns: the login timeout, or what its loop returns. */
  function ChunkOutcome(chunk: seq<string>, login: seq<Poll>, classify: string -> Result<Verdict>): Result<Split>
  {
    if LoginOutcome(login).Failure? then Failure(LoginOutcome(login).error)
    else Partitioned(chunk, classify)
  }

  /** The numbers one worker appended to the files before it stopped. */
  function ChunkDone(chunk: seq<string>, login: seq<Poll>, classify: string -> Result<Verdict>): seq<string>
  {
    if LoginOutcome(login).Failure? then [] else chunk[..FirstFailure(chunk, classify)]
  }

  /** `process_numbers_chunk`: wait for the login, then classify the chunk, appending each
      decided number to its file. A login timeout raises before any number is tried. */
  method ProcessChunk(chunk: seq<string>, login: seq<Poll>, classify: string -> Result<Verdict>,
                      validFile: TextFile, invalidFile: TextFile)
    returns (r: Result<Split>)
    modifies validFile, invalidFile
    ensures r == ChunkOutcome(chunk, login, classify)
    ensures Recorded(validFile == invalidFile, validFile.content, invalidFile.content,
                     old(validFile.content), old(invalidFile.content),
                     ChunkDone(chunk, login, classify), classify)
  {
    var loggedIn, qrNotices := WaitForLogin(login);
    if loggedIn.Failure? {
      RecordedNothing(validFile == invalidFile, validFile.content, invalidFile.content, classify);
      r := Failure(loggedIn.error);
      return;
    }
    r := FilterNumbersAppending(chunk, classify, validFile, invalidFile);
  }

  /** The result of every worker; worker `i + 1` handles chunk `i`. */
  function WorkerResults(chunks: seq<seq<string>>, polls: string -> seq<Poll>,
                         classify: string -> Result<Verdict>): (rs: seq<Result<Split>>)
    ensures |rs| == |chunks|
  {
    seq(|chunks|, i requires 0 <= i < |chunks| => ChunkOutcome(chunks[i], polls(ProfileSuffix(i + 1)), classify))
  }

  /** What every worker appended to the files. */
  function DoneParts(chunks: seq<seq<string>>, polls: string -> seq<Poll>,
                     classify: string -> Result<Verdict>): (parts: seq<seq<string>>)
    ensures |parts| == |chunks|
  {
    seq(|chunks|, i requires 0 <= i < |chunks| => ChunkDone(chunks[i], polls(ProfileSuffix(i + 1)), classify))
  }

  /** The first position in collection order whose worker raised, or `|order|`. */
  function FirstFailed(results: seq<Result<Split>>, order: seq<nat>): (k: nat)
    requires InRange(order, |results|)
    ensures k <= |order|
    ensures forall j :: 0 <= j < k ==> results[order[j]].Success?
    ensures k < |order| ==> results[order[k]].Failure?
    decreases |order|
  {
    if order == [] then 0
    else if results[order[0]].Failure? then 0
    else 1 + FirstFailed(results, order[1..])
  }

  lemma FirstFailedAt(results: seq<Result<Split>>, order: seq<nat>, j: nat)
    requires InRange(order, |results|)
    requires j < |order| && results[order[j]].Failure?
    requires forall t :: 0 <= t < j ==> results[order[t]].Success?
    ensures FirstFailed(results, order) == j
  {
  }

  function ValidParts(results: seq<Result<Split>>): (parts: seq<seq<string>>)
    ensures |parts| == |results|
  {
    seq(|results|, i requires 0 <= i < |results| => if results[i].Success? then results[i].value.valid else [])
  }

  function InvalidParts(results: seq<Result<Split>>): (parts: seq<seq<string>>)
    ensures |parts| == |results|
  {
    seq(|results|, i requires 0 <= i < |results| => if results[i].Success? then results[i].value.invalid else [])
  }

  /** The `as_completed` loop: the first result collected that is an exception is raised,
      and otherwise the lists are extended in collection order. */
  function Aggregated(results: seq<Result<Split>>, order: seq<nat>): Result<Split>
    requires InRange(order, |results|)
  {
    var k := FirstFailed(results, order);
    if k < |order| then Failure(results[order[k]].error)
    else Success(Split(Gathered(ValidParts(results), order), Gathered(InvalidParts(results), order)))
  }

  method Aggregate(results: seq<Result<Split>>, order: seq<nat>) returns (r: Result<Split>)
    requires InRange(order, |results|)
    ensures r == Aggregated(results, order)
  {
    var allValid: seq<string> := [];
    var allInvalid: seq<string> := [];
    for j := 0 to |order|
      invariant InRange(order[..j], |results|)
      invariant forall t :: 0 <= t < j ==> results[order[t]].Success?
      invariant allValid == Gathered(ValidParts(results), order[..j])
      invariant allInvalid == Gathered(InvalidParts(results), order[..j])
    {
      var outcome := results[order[j]];
      if outcome.Failure? {
        FirstFailedAt(results, order, j);
        r := Failure(outcome.error);
        return;
      }
      assert order[..j + 1][..j] == order[..j];
      allValid := allValid + outcome.value.valid;
      allInvalid := allInvalid + outcome.value.invalid;
    }
    assert order[..|order|] == order;
    r := Success(Split(allValid, allInvalid));
  }

  /** What `filter_numbers_threaded` returns. An empty list returns at once; otherwise a
      zero chunk size or a pool size below one raises before any worker starts. */
  function ThreadedOutcome(numbers: seq<string>, chunkSize: int, maxWorkers: int,
                           polls: string -> seq<Poll>, classify: string -> Result<Verdict>,
                           order: seq<nat>): (r: Result<Split>)
    requires IsRearrangement(order, ChunkTotal(|numbers|, chunkSize))
    ensures numbers == [] ==> r == Success(Split([], []))
    ensures numbers != [] && chunkSize == 0 ==> r == Failure(RangeStepZeroMessage)
    ensures numbers != [] && chunkSize != 0 && (chunkSize < 0 || maxWorkers <= 0) ==>
              r == Failure(NoWorkersMessage)
  {
    if numbers == [] then Success(Split([], []))
    else
      var chunking := ChunkList(numbers, chunkSize);
      if chunking.Failure? then Failure(chunking.error)
      else
        var chunks := chunking.value;
        var pool := WorkerCount(maxWorkers, |chunks|);
        if pool.Failure? then Failure(pool.error)
        else
          RearrangementInRange(order, |chunks|);
          Aggregated(WorkerResults(chunks, polls, classify), order)
  }

  /** The numbers the workers appended to the files, worker after worker. */
  function ThreadedDone(numbers: seq<string>, chunkSize: int, maxWorkers: int,
                        polls: string -> seq<Poll>, classify: string -> Result<Verdict>): seq<string>
  {
    if numbers == [] then []
    else
      var chunking := ChunkList(numbers, chunkSize);
      if chunking.Failure? || WorkerCount(maxWorkers, |chunking.value|).Failure? then []
      else Concat(DoneParts(chunking.value, polls, classify))
  }

  /** What each worker appended when both paths name one file: every number it decided,
      worker by worker, each part in the order that worker appended it. */
  function WorkerDecided(numbers: seq<string>, chunkSize: int, maxWorkers: int,
                         polls: string -> seq<Poll>, classify: string -> Result<Verdict>): (parts: seq<seq<string>>)
    ensures numbers != [] && chunkSize > 0 && maxWorkers > 0 ==>
              |parts| == ChunkTotal(|numbers|, chunkSize)
  {
    if numbers == [] then []
    else
      var chunking := ChunkList(numbers, chunkSize);
      if chunking.Failure? || WorkerCount(maxWorkers, |chunking.value|).Failure? then []
      else DoneParts(chunking.value, polls, classify)
  }

  /** What each worker appended to the file of verdict `registered`, worker by worker,
      each part in the order that worker appended it. */
  function WorkerAppends(numbers: seq<string>, chunkSize: int, maxWorkers: int,
                         polls: string -> seq<Poll>, classify: string -> Result<Verdict>,
                         registered: bool): (parts: seq<seq<string>>)
    ensures numbers != [] && chunkSize > 0 && maxWorkers > 0 ==>
              |parts| == ChunkTotal(|numbers|, chunkSize)
  {
    if numbers == [] then []
    else
      var chunking := ChunkList(numbers, chunkSize);
      if chunking.Failure? || WorkerCount(maxWorkers, |chunking.value|).Failure? then []
      else
        var done := DoneParts(chunking.value, polls, classify);
        seq(|done|, i requires 0 <= i < |done| => Selected(done[i], classify, registered))
  }

  /** `filter_numbers_threaded`. */
  method FilterNumbersThreaded(numbers: seq<string>, chunkSize: int, maxWorkers: int,
                               polls: string -> seq<Poll>, classify: string -> Result<Verdict>,
                               order: seq<nat>, validFile: TextFile, invalidFile: TextFile)
    returns (r: Result<Split>)
    requires IsRearrangement(order, ChunkTotal(|numbers|, chunkSize))
    modifies validFile, invalidFile
    ensures r == ThreadedOutcome(numbers, chunkSize, maxWorkers, polls, classify, order)
    ensures Recorded(validFile == invalidFile, validFile.content, invalidFile.content,
                     old(validFile.content), old(invalidFile.content),
                     ThreadedDone(numbers, chunkSize, maxWorkers, polls, classify), classify)
  {
    RecordedNothing(validFile == invalidFile, validFile.content, invalidFile.content, classify);
    if numbers == [] {
      r := Success(Split([], []));
      return;
    }
    var chunking := ChunkList(numbers, chunkSize);
    if chunking.Failure? {
      r := Failure(chunking.error);
      return;
    }
    var chunks := chunking.value;
    var pool := WorkerCount(maxWorkers, |chunks|);
    if pool.Failure? {
      r := Failure(pool.error);
      return;
    }
    var results := RunWorkers(chunks, polls, classify, validFile, invalidFile);
    RearrangementInRange(order, |chunks|);
    r := Aggregate(results, order);
  }

  /** The submission loop: one worker per chunk, worker `i + 1` on chunk `i`, each
      appending to the shared files. */
  method RunWorkers(chunks: seq<seq<string>>, polls: string -> seq<Poll>, classify: string -> Result<Verdict>,
                    validFile: TextFile, invalidFile: TextFile)
    returns (results: seq<Result<Split>>)
    modifies validFile, invalidFile
    ensures results == WorkerResults(chunks, polls, classify)
    ensures Recorded(validFile == invalidFile, validFile.content, invalidFile.content,
                     old(validFile.content), old(invalidFile.content),
                     Concat(DoneParts(chunks, polls, classify)), classify)
  {
    ghost var parts := DoneParts(chunks, polls, classify);
    ghost var valid0, invalid0 := validFile.content, invalidFile.content;
    RecordedNothing(validFile == invalidFile, validFile.content, invalidFile.content, classify);
    results := [];
    for i := 0 to |chunks|
      invariant results == WorkerResults(chunks, polls, classify)[..i]
      invariant Recorded(validFile == invalidFile, validFile.content, invalidFile.content,
                         valid0, invalid0, Concat(parts[..i]), classify)
    {
      var outcome := RunWorker(chunks, i, polls, classify, validFile, invalidFile, valid0, invalid0);
      results := results + [outcome];
    }
    assert results == WorkerResults(chunks, polls, classify)[..|chunks|];
    RecordedAll(validFile == invalidFile, validFile.content, invalidFile.content, valid0, invalid0,
                parts, classify);
  }

  /** Worker `i + 1` on chunk `i`, as one step of the submission loop. */
  method RunWorker(chunks: seq<seq<string>>, i: nat, polls: string -> seq<Poll>,
                   classify: string -> Result<Verdict>, validFile: TextFile, invalidFile: TextFile,
                   ghost valid0: string, ghost invalid0: string)
    returns (outcome: Result<Split>)
    requires i < |chunks|
    requires Recorded(validFile == invalidFile, validFile.content, invalidFile.content,
                      valid0, invalid0, Concat(DoneParts(chunks, polls, classify)[..i]), classify)
    modifies validFile, invalidFile
    ensures WorkerResults(chunks, polls, classify)[..i + 1] ==
            WorkerResults(chunks, polls, classify)[..i] + [outcome]
    ensures Recorded(validFile == invalidFile, validFile.content, invalidFile.content,
                     valid0, invalid0, Concat(DoneParts(chunks, polls, classify)[..i + 1]), classify)
  {
    ghost var parts := DoneParts(chunks, polls, classify);
    ghost var validMid, invalidMid := validFile.content, invalidFile.content;
    var login := polls(ProfileSuffix(i + 1));
    outcome := ProcessChunk(chunks[i], login, classify, validFile, invalidFile);
    assert parts[i] == ChunkDone(chunks[i], login, classify);
    WorkerStep(validFile == invalidFile, validFile.content, invalidFile.content,
               validMid, invalidMid, valid0, invalid0, parts, i, classify);
    ghost var expected := WorkerResults(chunks, polls, classify);
    assert expected[i] == outcome;
    assert expected[..i + 1] == expected[..i] + [outcome];
  }

  lemma {:induction false} WorkerStep(same: bool, validContent: string, invalidContent: string,
                                      validMid: string, invalidMid: string,
                                      valid0: string, invalid0: string,
                                      parts: seq<seq<string>>, i: nat, classify: string -> Result<Verdict>)
    requires i < |parts|
    requires Recorded(same, validMid, invalidMid, valid0, invalid0, Concat(parts[..i]), classify)
    requires Recorded(same, validContent, invalidContent, validMid, invalidMid, parts[i], classify)
    ensures Recorded(same, validContent, invalidContent, valid0, invalid0, Concat(parts[..i + 1]), classify)
  {
    RecordedCompose(same, validContent, invalidContent, validMid, invalidMid, valid0, invalid0,
                    Concat(parts[..i]), parts[i], classify);
    assert parts[..i + 1] == parts[..i] + [parts[i]];
    ConcatSnoc(parts[..i], parts[i]);
  }

  lemma RecordedAll(same: bool, validContent: string, invalidContent: string,
                    valid0: string, invalid0: string, parts: seq<seq<string>>, classify: string -> Result<Verdict>)
    requires Recorded(same, validContent, invalidContent, valid0, invalid0, Concat(parts[..|parts|]), classify)
    ensures Recorded(same, validContent, invalidContent, valid0, invalid0, Concat(parts), classify)
  {
    assert parts[..|parts|] == parts;
  }
}
