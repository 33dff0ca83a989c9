/** `open_chat_for_number` of the single-browser script: open the deep link, wait for an
    error text, and only when none appears wait for the conversation header. What the
    browser shows is an oracle. */
module ChatCheck {
  import opened Results
  import opened Transport

  /** How one `WebDriverWait(...).until(...)` ended. */
  datatype WaitOutcome =
    | Located                 // the element appeared
    | TimedOut                // TimeoutException
    | Raised(error: string)   // any other exception; this script does not catch it

  /** What the page did for one deep link: navigation raised, or the two waits ended
      as recorded (the header wait is only performed when the first one timed out). */
  datatype ChatProbe =
    | NavigationFailed(error: string)
    | Rendered(errorText: WaitOutcome, header: WaitOutcome)

  const ErrorDialogReason := "Error dialog: number invalid or not registered."
  const ChatOpenedReason := "Chat opened successfully (likely WhatsApp account)."
  const AmbiguousReason := "Timeout waiting for chat UI (ambiguous; treating as invalid)."

  /** The two-stage decision. A number is registered exactly when no error text
      appeared and the chat header did; an error text decides Invalid on its own; a
      header timeout is Invalid; any exception other than a timeout escapes. */
  function Decide(probe: ChatProbe): (r: Result<Verdict>)
    ensures r.Success? && r.value.registered <==>
              probe.Rendered? && probe.errorText.TimedOut? && probe.header.Located?
    ensures r.Failure? <==>
              probe.NavigationFailed? || probe.errorText.Raised? ||
              (probe.errorText.TimedOut? && probe.header.Raised?)
    ensures probe.Rendered? && probe.errorText.Located? ==>
              r == Success(Verdict(false, ErrorDialogReason))
    ensures probe.Rendered? && probe.errorText.TimedOut? && probe.header.TimedOut? ==>
              r == Success(Verdict(false, AmbiguousReason))
    ensures r.Success? && r.value.registered ==> r.value.reason == ChatOpenedReason
  {
    match probe
    case NavigationFailed(e) => Failure(e)
    case Rendered(errorText, header) =>
      match errorText
      case Located => Success(Verdict(false, ErrorDialogReason))
      case Raised(e) => Failure(e)
      case TimedOut =>
        match header
        case Located => Success(Verdict(true, ChatOpenedReason))
        case TimedOut => Success(Verdict(false, AmbiguousReason))
        case Raised(e) => Failure(e)
  }

  /** Once the error text is found the header is never consulted: whatever the header
      wait would have done, the verdict is the same. */
  lemma HeaderIgnoredAfterErrorText(h1: WaitOutcome, h2: WaitOutcome)
    ensures Decide(Rendered(Located, h1)) == Decide(Rendered(Located, h2))
    ensures Decide(Rendered(Located, h1)) == Success(Verdict(false, ErrorDialogReason))
  {
  }

  /** One call of `open_chat_for_number`: the browser opens the deep link of the
      sanitised number, and `observe(number, link)` is what the page did on that opening;
      the number itself is what the caller records. */
  function OpenChat(observe: (string, string) -> ChatProbe, number: string): (r: Result<Verdict>)
    ensures var probe := observe(number, DeepLink(Sanitize(number)));
      (r.Success? && r.value.registered <==> probe == Rendered(TimedOut, Located)) &&
      (r.Failure? <==> probe.NavigationFailed? || probe.errorText.Raised? ||
                       (probe.errorText.TimedOut? && probe.header.Raised?))
  {
    Decide(observe(number, DeepLink(Sanitize(number))))
  }

  /** The classifier handed to `filter_numbers`. */
  function Classifier(observe: (string, string) -> ChatProbe): string -> Result<Verdict>
  {
    number => OpenChat(observe, number)
  }
}
