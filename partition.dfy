/** The sequential classification loop: `filter_numbers` of the single-browser script,
    and `filter_numbers_single` / the loop of `process_numbers_chunk` of the multi-thread
    script, which also append each number to its output file as soon as it is decided.
    The classifier (`open_chat_for_number` against a live session) is an oracle; a
    `Failure` is an exception that escapes it and ends the loop. */
module Partition {
  import opened Results
  import opened Sequences
  import opened NumberFile

  /** The `(valid, invalid)` pair of lists. */
  datatype Split = Split(valid: seq<string>, invalid: seq<string>)

  /** The classification ended normally with this verdict. */
  predicate Lands(c: Result<Verdict>, registered: bool)
  {
    c.Success? && c.value.registered == registered
  }

  /** The numbers of `ns` that classify as `registered`, in input order. */
  function Selected(ns: seq<string>, classify: string -> Result<Verdict>, registered: bool): seq<string>
    decreases |ns|
  {
    if ns == [] then []
    else
      var x := ns[|ns| - 1];
      Selected(ns[..|ns| - 1], classify, registered) + (if Lands(classify(x), registered) then [x] else [])
  }

  /** The position of the first number whose classification raises, or `|ns|`. */
  function FirstFailure(ns: seq<string>, classify: string -> Result<Verdict>): (k: nat)
    ensures k <= |ns|
    ensures forall i :: 0 <= i < k ==> classify(ns[i]).Success?
    ensures k < |ns| ==> classify(ns[k]).Failure?
    decreases |ns|
  {
    if ns == [] then 0
    else if classify(ns[0]).Failure? then 0
    else 1 + FirstFailure(ns[1..], classify)
  }

  /** What the loop returns: both lists when every classification ended normally,
      otherwise the first exception raised. */
  function Partitioned(ns: seq<string>, classify: string -> Result<Verdict>): (r: Result<Split>)
    ensures r.Success? <==> forall i :: 0 <= i < |ns| ==> classify(ns[i]).Success?
  {
    var k := FirstFailure(ns, classify);
    if k < |ns| then Failure(classify(ns[k]).error)
    else Success(Split(Selected(ns, classify, true), Selected(ns, classify, false)))
  }

  lemma SelectedSnoc(ns: seq<string>, x: string, classify: string -> Result<Verdict>, registered: bool)
    ensures Selected(ns + [x], classify, registered) ==
            Selected(ns, classify, registered) + (if Lands(classify(x), registered) then [x] else [])
  {
    assert (ns + [x])[..|ns|] == ns;
  }

  lemma FirstFailureAt(ns: seq<string>, classify: string -> Result<Verdict>, i: nat)
    requires i < |ns| && classify(ns[i]).Failure?
    requires forall j :: 0 <= j < i ==> classify(ns[j]).Success?
    ensures FirstFailure(ns, classify) == i
  {
  }

  /** The first exception in two consecutive parts is the first one of the first part,
      or else the first one of the second part. */
  lemma FirstFailureAppend(a: seq<string>, b: seq<string>, classify: string -> Result<Verdict>)
    ensures FirstFailure(a + b, classify) ==
            if FirstFailure(a, classify) < |a| then FirstFailure(a, classify)
            else |a| + FirstFailure(b, classify)
  {
    var ka, kb := FirstFailure(a, classify), FirstFailure(b, classify);
    if ka < |a| {
      FirstFailureAt(a + b, classify, ka);
    } else {
      assert forall j :: 0 <= j < |a| ==> (a + b)[j] == a[j];
      assert forall j :: 0 <= j < kb ==> (a + b)[|a| + j] == b[j];
      if kb < |b| {
        FirstFailureAt(a + b, classify, |a| + kb);
      }
    }
  }

  /** `filter_numbers`: classify each number in turn and append it to the matching list. */
  method FilterNumbers(numbers: seq<string>, classify: string -> Result<Verdict>)
    returns (r: Result<Split>)
    ensures r == Partitioned(numbers, classify)
  {
    var valid: seq<string> := [];
    var invalid: seq<string> := [];
    for i := 0 to |numbers|
      invariant forall j :: 0 <= j < i ==> classify(numbers[j]).Success?
      invariant SplitSoFar(numbers[..i], valid, invalid, classify)
    {
      var num := numbers[i];
      var outcome := classify(num);
      if outcome.Failure? {
        FirstFailureAt(numbers, classify, i);
        return Failure(outcome.error);
      }
      SplitStep(numbers[..i], num, valid, invalid, classify);
      if outcome.value.registered {
        valid := valid + [num];
      } else {
        invalid := invalid + [num];
      }
      assert numbers[..i + 1] == numbers[..i] + [num];
    }
    assert numbers[..|numbers|] == numbers;
    r := Success(Split(valid, invalid));
  }

  /** `filter_numbers_single`: the same loop, appending each decided number to its output
      file at once. If both paths name the same file it receives every decided number. */
  method FilterNumbersAppending(numbers: seq<string>, classify: string -> Result<Verdict>,
                                validFile: TextFile, invalidFile: TextFile)
    returns (r: Result<Split>)
    modifies validFile, invalidFile
    ensures r == Partitioned(numbers, classify)
    ensures Recorded(validFile == invalidFile, validFile.content, invalidFile.content,
                     old(validFile.content), old(invalidFile.content),
                     numbers[..FirstFailure(numbers, classify)], classify)
  {
    ghost var valid0, invalid0 := validFile.content, invalidFile.content;
    var valid: seq<string> := [];
    var invalid: seq<string> := [];
    for i := 0 to |numbers|
      invariant forall j :: 0 <= j < i ==> classify(numbers[j]).Success?
      invariant SplitSoFar(numbers[..i], valid, invalid, classify)
      invariant Recorded(validFile == invalidFile, validFile.content, invalidFile.content,
                         valid0, invalid0, numbers[..i], classify)
    {
      var num := numbers[i];
      var outcome := classify(num);
      if outcome.Failure? {
        FirstFailureAt(numbers, classify, i);
        r := Failure(outcome.error);
        return;
      }
      SplitStep(numbers[..i], num, valid, invalid, classify);
      if outcome.value.registered {
        valid := valid + [num];
      } else {
        invalid := invalid + [num];
      }
      Record(validFile, invalidFile, num, outcome.value.registered, valid0, invalid0, numbers[..i], classify);
      assert numbers[..i + 1] == numbers[..i] + [num];
    }
    assert numbers[..|numbers|] == numbers;
    r := Success(Split(valid, invalid));
  }

  /** The two lists built so far are the selections of the numbers tried so far. */
  predicate SplitSoFar(done: seq<string>, valid: seq<string>, invalid: seq<string>,
                       classify: string -> Result<Verdict>)
  {
    valid == Selected(done, classify, true) && invalid == Selected(done, classify, false)
  }

  lemma SplitStep(done: seq<string>, num: string, valid: seq<string>, invalid: seq<string>,
                  classify: string -> Result<Verdict>)
    requires SplitSoFar(done, valid, invalid, classify) && classify(num).Success?
    ensures classify(num).value.registered ==> SplitSoFar(done + [num], valid + [num], invalid, classify)
    ensures !classify(num).value.registered ==> SplitSoFar(done + [num], valid, invalid + [num], classify)
  {
    SelectedSnoc(done, num, classify, true);
    SelectedSnoc(done, num, classify, false);
  }

  /** `append_number` to the file of the verdict, as one step of the loop: the files then
      record one more number. */
  method Record(validFile: TextFile, invalidFile: TextFile, num: string, registered: bool,
                ghost valid0: string, ghost invalid0: string, ghost done: seq<string>,
                ghost classify: string -> Result<Verdict>)
    requires classify(num).Success? && classify(num).value.registered == registered
    requires Recorded(validFile == invalidFile, validFile.content, invalidFile.content,
                      valid0, invalid0, done, classify)
    modifies validFile, invalidFile
    ensures Recorded(validFile == invalidFile, validFile.content, invalidFile.content,
                     valid0, invalid0, done + [num], classify)
  {
    ghost var validBefore, invalidBefore := validFile.content, invalidFile.content;
    Deliver(validFile, invalidFile, num, registered);
    RecordedStep(validFile == invalidFile, validBefore, invalidBefore, validFile.content, invalidFile.content,
                 valid0, invalid0, done, num, classify);
  }

  /** The output files hold their initial content followed by the numbers decided so
      far: each in the file of its verdict, or all in the one file when both are the same. */
  ghost predicate Recorded(same: bool, validContent: string, invalidContent: string,
                           valid0: string, invalid0: string,
                           done: seq<string>, classify: string -> Result<Verdict>)
  {
    if !same then
      validContent == valid0 + Lines(Selected(done, classify, true)) &&
      invalidContent == invalid0 + Lines(Selected(done, classify, false))
    else
      validContent == valid0 + Lines(done)
  }

  /** Nothing decided: the files are as they were. */
  lemma RecordedNothing(same: bool, validContent: string, invalidContent: string,
                        classify: string -> Result<Verdict>)
    ensures Recorded(same, validContent, invalidContent, validContent, invalidContent, [], classify)
  {
    assert validContent + Lines([]) == validContent;
    assert invalidContent + Lines([]) == invalidContent;
  }

  /** Two runs of the loop one after the other record what one run over both lists of
      numbers would. */
  lemma {:induction false} RecordedCompose(same: bool, validContent: string, invalidContent: string,
                                           validMid: string, invalidMid: string,
                                           valid0: string, invalid0: string,
                                           first: seq<string>, second: seq<string>,
                                           classify: string -> Result<Verdict>)
    requires Recorded(same, validMid, invalidMid, valid0, invalid0, first, classify)
    requires Recorded(same, validContent, invalidContent, validMid, invalidMid, second, classify)
    ensures Recorded(same, validContent, invalidContent, valid0, invalid0, first + second, classify)
  {
    if same {
      LinesAppend(first, second);
      assert validContent == valid0 + (Lines(first) + Lines(second));
    } else {
      ComposeSelected(validContent, validMid, valid0, first, second, classify, true);
      ComposeSelected(invalidContent, invalidMid, invalid0, first, second, classify, false);
    }
  }

  lemma {:induction false} ComposeSelected(content: string, mid: string, content0: string,
                                           first: seq<string>, second: seq<string>,
                                           classify: string -> Result<Verdict>, registered: bool)
    requires mid == content0 + Lines(Selected(first, classify, registered))
    requires content == mid + Lines(Selected(second, classify, registered))
    ensures content == content0 + Lines(Selected(first + second, classify, registered))
  {
    var a, b := Selected(first, classify, registered), Selected(second, classify, registered);
    SelectedAppend(first, second, classify, registered);
    LinesAppend(a, b);
    assert content == content0 + (Lines(a) + Lines(b));
  }

  /** Writing the next decided number to the file of its verdict keeps the files recorded. */
  lemma {:induction false} RecordedStep(same: bool, validContent: string, invalidContent: string,
                                        validAfter: string, invalidAfter: string,
                                        valid0: string, invalid0: string,
                                        done: seq<string>, num: string, classify: string -> Result<Verdict>)
    requires classify(num).Success?
    requires Recorded(same, validContent, invalidContent, valid0, invalid0, done, classify)
    requires validAfter == validContent + (if same || classify(num).value.registered then Lines([num]) else "")
    requires !same ==>
               invalidAfter == invalidContent + (if classify(num).value.registered then "" else Lines([num]))
    ensures Recorded(same, validAfter, invalidAfter, valid0, invalid0, done + [num], classify)
  {
    if same {
      LinesAppend(done, [num]);
    } else {
      AppendSelected(validContent, valid0, done, num, classify, true);
      AppendSelected(invalidContent, invalid0, done, num, classify, false);
    }
  }

  lemma {:induction false} AppendSelected(content: string, content0: string, done: seq<string>, num: string,
                                          classify: string -> Result<Verdict>, registered: bool)
    requires content == content0 + Lines(Selected(done, classify, registered))
    ensures content + (if Lands(classify(num), registered) then Lines([num]) else "") ==
            content0 + Lines(Selected(done + [num], classify, registered))
  {
    SelectedLinesSnoc(done, num, classify, registered);
  }

  lemma {:induction false} SelectedLinesSnoc(done: seq<string>, num: string, classify: string -> Result<Verdict>, registered: bool)
    ensures Lines(Selected(done + [num], classify, registered)) ==
            Lines(Selected(done, classify, registered)) + (if Lands(classify(num), registered) then Lines([num]) else "")
  {
    SelectedSnoc(done, num, classify, registered);
    if Lands(classify(num), registered) {
      LinesAppend(Selected(done, classify, registered), [num]);
    } else {
      assert Selected(done + [num], classify, registered) == Selected(done, classify, registered);
    }
  }

  /** Appending one decided number to the output file of its verdict. */
  method Deliver(validFile: TextFile, invalidFile: TextFile, num: string, registered: bool)
    modifies validFile, invalidFile
    ensures validFile.content ==
              old(validFile.content) + (if validFile == invalidFile || registered then Lines([num]) else "")
    ensures validFile != invalidFile ==>
              invalidFile.content == old(invalidFile.content) + (if registered then "" else Lines([num]))
  {
    if registered {
      validFile.AppendNumber(num);
    } else {
      invalidFile.AppendNumber(num);
    }
  }

  /** A number is in a list exactly when it is an input number with that verdict. */
  lemma {:induction false} SelectedMembers(ns: seq<string>, classify: string -> Result<Verdict>,
                                           registered: bool, x: string)
    ensures x in Selected(ns, classify, registered) <==> x in ns && Lands(classify(x), registered)
    decreases |ns|
  {
    if ns != [] {
      var p := ns[..|ns| - 1];
      assert ns == p + [ns[|ns| - 1]];
      SelectedMembers(p, classify, registered, x);
    }
  }

  /** Each list keeps the input order. */
  lemma {:induction false} SelectedOrder(ns: seq<string>, classify: string -> Result<Verdict>, registered: bool)
    ensures IsSubsequence(Selected(ns, classify, registered), ns)
    decreases |ns|
  {
    if ns != [] {
      var p, x := ns[..|ns| - 1], ns[|ns| - 1];
      SelectedOrder(p, classify, registered);
      var s := Selected(ns, classify, registered);
      if Lands(classify(x), registered) {
        assert s == Selected(p, classify, registered) + [x];
        assert s[|s| - 1] == ns[|ns| - 1];
        assert s[..|s| - 1] == Selected(p, classify, registered);
      } else {
        assert s == Selected(p, classify, registered);
      }
    }
  }

  /** Selecting from two parts is selecting from each part. */
  lemma {:induction false} SelectedAppend(a: seq<string>, b: seq<string>,
                                          classify: string -> Result<Verdict>, registered: bool)
    ensures Selected(a + b, classify, registered) ==
            Selected(a, classify, registered) + Selected(b, classify, registered)
    decreases |b|
  {
    if b == [] {
      assert a + b == a;
    } else {
      var b' := b[..|b| - 1];
      assert a + b == (a + b') + [b[|b| - 1]];
      SelectedAppend(a, b', classify, registered);
      SelectedSnoc(a + b', b[|b| - 1], classify, registered);
    }
  }

  /** When every classification ends normally, each number lands in exactly one list:
      the two lists together hold the input numbers, each as often as in the input. */
  lemma {:induction false} SelectedCover(ns: seq<string>, classify: string -> Result<Verdict>)
    requires forall i :: 0 <= i < |ns| ==> classify(ns[i]).Success?
    ensures multiset(Selected(ns, classify, true)) + multiset(Selected(ns, classify, false)) == multiset(ns)
    decreases |ns|
  {
    if ns != [] {
      var p, x := ns[..|ns| - 1], ns[|ns| - 1];
      assert ns == p + [x];
      SelectedCover(p, classify);
    }
  }

  /** The contract of the loop: on a normal return every number is in exactly one of the
      two lists, both lists keep input order, the lengths add up, and the lists hold
      exactly the numbers with that verdict. */
  lemma PartitionedExact(ns: seq<string>, classify: string -> Result<Verdict>)
    requires Partitioned(ns, classify).Success?
    ensures var s := Partitioned(ns, classify).value;
      multiset(s.valid) + multiset(s.invalid) == multiset(ns) &&
      |s.valid| + |s.invalid| == |ns| &&
      IsSubsequence(s.valid, ns) && IsSubsequence(s.invalid, ns) &&
      (forall x :: x in s.valid <==> x in ns && Lands(classify(x), true)) &&
      (forall x :: x in s.invalid <==> x in ns && Lands(classify(x), false))
  {
    var s := Partitioned(ns, classify).value;
    SelectedCover(ns, classify);
    assert |multiset(s.valid) + multiset(s.invalid)| == |multiset(ns)|;
    SelectedOrder(ns, classify, true);
    SelectedOrder(ns, classify, false);
    forall x ensures x in s.valid <==> x in ns && Lands(classify(x), true) {
      SelectedMembers(ns, classify, true, x);
    }
    forall x ensures x in s.invalid <==> x in ns && Lands(classify(x), false) {
      SelectedMembers(ns, classify, false, x);
    }
  }
}
