/** `open_chat_for_number` of the multi-thread script: open the deep link, then wait a
    bounded time for the "invalid number" modal. What the browser shows is an oracle. */
module ModalCheck {
  import opened Results
  import opened Transport

  /** What the page did for one deep link. */
  datatype ModalProbe =
    | NavigationFailed(error: string)  // `driver.get(url)` raised (not caught here)
    | ModalShown                       // the wait located the invalid-number modal
    | ModalWaitTimedOut                // the wait raised TimeoutException
    | ModalWaitFailed(error: string)   // the wait raised any other exception (its repr)

  const InvalidPopupReason := "Invalid popup detected: phone number shared via url is invalid."
  const NoPopupReason := "No invalid popup detected within timeout: treating as valid."
  const PopupErrorPrefix := "Error while checking popup: "

  /** The decision taken from the modal wait. The check raises only when navigation
      failed; absence of the modal is what makes a number valid; a probe error counts
      against the number and is quoted in the reason. */
  function Decide(probe: ModalProbe): (r: Result<Verdict>)
    ensures r.Failure? <==> probe.NavigationFailed?
    ensures r.Failure? ==> r.error == probe.error
    ensures r.Success? ==> (r.value.registered <==> probe.ModalWaitTimedOut?)
    ensures probe.ModalShown? ==> r.value.reason == InvalidPopupReason
    ensures probe.ModalWaitTimedOut? ==> r.value.reason == NoPopupReason
    ensures probe.ModalWaitFailed? ==>
              r.Success? && |PopupErrorPrefix| <= |r.value.reason| &&
              r.value.reason[..|PopupErrorPrefix|] == PopupErrorPrefix &&
              r.value.reason[|PopupErrorPrefix|..] == probe.error
  {
    match probe
    case NavigationFailed(e) => Failure(e)
    case ModalShown => Success(Verdict(false, InvalidPopupReason))
    case ModalWaitTimedOut => Success(Verdict(true, NoPopupReason))
    case ModalWaitFailed(e) => Success(Verdict(false, PopupErrorPrefix + e))
  }

  /** One call of `open_chat_for_number`: the browser opens the deep link of the
      sanitised number, and `observe(number, link)` is what the page did on that opening.
      The oracle is keyed by the check, not by the link alone: two numbers with one
      transport form open the same link twice, and the two openings may end differently. */
  function OpenChat(observe: (string, string) -> ModalProbe, number: string): (r: Result<Verdict>)
    ensures var probe := observe(number, DeepLink(Sanitize(number)));
      (r.Failure? <==> probe.NavigationFailed?) &&
      (r.Success? ==> (r.value.registered <==> probe.ModalWaitTimedOut?))
  {
    Decide(observe(number, DeepLink(Sanitize(number))))
  }

  /** Numbers that differ only in `+`, spaces and surrounding whitespace open the same
      link; numbers with different transport forms open different links. */
  lemma SameTransportSameLink(a: string, b: string)
    requires Sanitize(a) == Sanitize(b)
    ensures DeepLink(Sanitize(a)) == DeepLink(Sanitize(b))
  {
  }

  lemma DifferentTransportDifferentLink(a: string, b: string)
    requires Sanitize(a) != Sanitize(b)
    ensures DeepLink(Sanitize(a)) != DeepLink(Sanitize(b))
  {
    if DeepLink(Sanitize(a)) == DeepLink(Sanitize(b)) {
      DeepLinkInjective(Sanitize(a), Sanitize(b));
    }
  }

  /** The classifier handed to the partition loop. */
  function Classifier(observe: (string, string) -> ModalProbe): string -> Result<Verdict>
  {
    number => OpenChat(observe, number)
  }
}
