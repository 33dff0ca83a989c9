/** The classification loops run with the real decisions: what the lists hold in terms
    of what the page showed for each number's deep link. */
module EndToEnd {
  import opened Results
  import opened Text
  import opened Transport
  import opened Partition
  import ModalCheck
  import ChatCheck

  /** `filter_numbers` of the single-browser script: it returns normally exactly when no
      check raised, and then a number is valid exactly when no error text appeared and the
      chat header did, and invalid exactly when the error text appeared or the header
      wait timed out. */
  lemma SingleBrowserRun(numbers: seq<string>, observe: (string, string) -> ChatCheck.ChatProbe)
    ensures var r := Partitioned(numbers, ChatCheck.Classifier(observe));
      (r.Success? <==> forall i :: 0 <= i < |numbers| ==> ChatCheck.OpenChat(observe, numbers[i]).Success?) &&
      (r.Success? ==> forall x :: x in r.value.valid <==>
         x in numbers && observe(x, DeepLink(Sanitize(x))) == ChatCheck.Rendered(ChatCheck.TimedOut, ChatCheck.Located)) &&
      (r.Success? ==> forall x :: x in r.value.invalid <==>
         x in numbers && (observe(x, DeepLink(Sanitize(x))) == ChatCheck.Rendered(ChatCheck.TimedOut, ChatCheck.TimedOut) ||
                          (observe(x, DeepLink(Sanitize(x))).Rendered? && observe(x, DeepLink(Sanitize(x))).errorText.Located?)))
  {
    var classify := ChatCheck.Classifier(observe);
    var r := Partitioned(numbers, classify);
    forall i | 0 <= i < |numbers| ensures classify(numbers[i]) == ChatCheck.OpenChat(observe, numbers[i]) {
    }
    if r.Success? {
      PartitionedExact(numbers, classify);
      forall x ensures x in r.value.invalid <==>
          x in numbers && (observe(x, DeepLink(Sanitize(x))) == ChatCheck.Rendered(ChatCheck.TimedOut, ChatCheck.TimedOut) ||
                           (observe(x, DeepLink(Sanitize(x))).Rendered? && observe(x, DeepLink(Sanitize(x))).errorText.Located?))
      {
        assert classify(x) == ChatCheck.Decide(observe(x, DeepLink(Sanitize(x))));
      }
    }
  }

  /** The loop of the multi-thread script with its modal check: it returns normally
      exactly when no navigation raised, and then a number is valid exactly when the modal
      wait timed out and invalid exactly when the modal showed or the wait failed. */
  lemma ModalRun(numbers: seq<string>, observe: (string, string) -> ModalCheck.ModalProbe)
    ensures var r := Partitioned(numbers, ModalCheck.Classifier(observe));
      (r.Success? <==> forall i :: 0 <= i < |numbers| ==>
         !observe(numbers[i], DeepLink(Sanitize(numbers[i]))).NavigationFailed?) &&
      (r.Success? ==> forall x :: x in r.value.valid <==>
         x in numbers && observe(x, DeepLink(Sanitize(x))).ModalWaitTimedOut?) &&
      (r.Success? ==> forall x :: x in r.value.invalid <==>
         x in numbers && (observe(x, DeepLink(Sanitize(x))).ModalShown? ||
                          observe(x, DeepLink(Sanitize(x))).ModalWaitFailed?))
  {
    var classify := ModalCheck.Classifier(observe);
    var r := Partitioned(numbers, classify);
    forall i | 0 <= i < |numbers| ensures classify(numbers[i]) == ModalCheck.OpenChat(observe, numbers[i]) {
    }
    if r.Success? {
      PartitionedExact(numbers, classify);
      forall x ensures x in r.value.invalid <==>
          x in numbers && (observe(x, DeepLink(Sanitize(x))).ModalShown? ||
                           observe(x, DeepLink(Sanitize(x))).ModalWaitFailed?)
      {
        assert classify(x) == ModalCheck.Decide(observe(x, DeepLink(Sanitize(x))));
      }
    }
  }

  /** Two cleaned numbers with one transport form are checked separately: for any number
      of digits, `"+" + number` and `number` open the same deep link, and in one run that
      link can end in the valid list for the first and in the invalid list for the second. */
  lemma OneLinkBothLists(number: string)
    requires number != [] && forall i :: 0 <= i < |number| ==> '0' <= number[i] <= '9'
    ensures DeepLink(Sanitize("+" + number)) == DeepLink(Sanitize(number))
    ensures exists observe: (string, string) -> ModalCheck.ModalProbe ::
      var r := Partitioned(["+" + number, number], ModalCheck.Classifier(observe));
      r.Success? && "+" + number in r.value.valid && number in r.value.invalid
  {
    PlusSameTransport(number);
    assert |"+" + number| != |number|;
    ChecksSeparate("+" + number, number);
  }

  /** Any two different numbers may be answered differently by the page. */
  lemma ChecksSeparate(a: string, b: string)
    requires a != b
    ensures exists observe: (string, string) -> ModalCheck.ModalProbe ::
      var r := Partitioned([a, b], ModalCheck.Classifier(observe));
      r.Success? && a in r.value.valid && b in r.value.invalid
  {
    var observe := (n: string, link: string) =>
      if n == a then ModalCheck.ModalWaitTimedOut else ModalCheck.ModalShown;
    var classify := ModalCheck.Classifier(observe);
    var la, lb := DeepLink(Sanitize(a)), DeepLink(Sanitize(b));
    assert observe(a, la) == ModalCheck.ModalWaitTimedOut;
    assert observe(b, lb) == ModalCheck.ModalShown;
    assert classify(a) == ModalCheck.Decide(observe(a, la));
    assert classify(b) == ModalCheck.Decide(observe(b, lb));
    TwoNumbersSplit(a, b, classify);
  }

  /** A list of two numbers, the first decided valid and the second invalid. */
  lemma TwoNumbersSplit(a: string, b: string, classify: string -> Result<Verdict>)
    requires Lands(classify(a), true) && Lands(classify(b), false)
    ensures Partitioned([a, b], classify) == Success(Split([a], [b]))
  {
    var ns := [a, b];
    assert ns[1..] == [b] && ns[1..][1..] == [];
    assert FirstFailure(ns, classify) == 2;
    assert ns[..1] == [a] && ns[..1][..0] == [];
    assert Selected(ns[..1], classify, true) == [a] && Selected(ns, classify, true) == [a];
    assert Selected(ns[..1], classify, false) == [] && Selected(ns, classify, false) == [b];
  }
}
