/** `wait_for_login` of the multi-thread script: poll the page about once a second until
    the main interface shows up or the time runs out. The polls that fit in the timeout
    are given as a finite sequence of observations, one per iteration of the loop. */
module LoginPoll {
  import opened Results

  /** What one iteration saw: whether a QR code and whether the main interface were on
      the page, or that querying the page raised (the exception is swallowed). */
  datatype Poll = Poll(qr: bool, ready: bool) | PollRaised

  /** The `last_state` latch: nothing recorded yet, or the QR code was reported. */
  datatype PageState = NoState | QrState

  const LoginTimeoutMessage := "WhatsApp Web login not detected in time"

  predicate ShowsQr(p: Poll)
  {
    p.Poll? && p.qr
  }

  predicate ShowsReady(p: Poll)
  {
    p.Poll? && p.ready
  }

  /** The first poll showing the main interface, or `|polls|`. */
  function FirstReady(polls: seq<Poll>): (k: nat)
    ensures k <= |polls|
    ensures k < |polls| ==> ShowsReady(polls[k])
    ensures forall i :: 0 <= i < k ==> !ShowsReady(polls[i])
    decreases |polls|
  {
    if polls == [] then 0 else if ShowsReady(polls[0]) then 0 else 1 + FirstReady(polls[1..])
  }

  /** The first poll showing a QR code, or `|polls|`. */
  function FirstQr(polls: seq<Poll>): (k: nat)
    ensures k <= |polls|
    ensures k < |polls| ==> ShowsQr(polls[k])
    ensures forall i :: 0 <= i < k ==> !ShowsQr(polls[i])
    decreases |polls|
  {
    if polls == [] then 0 else if ShowsQr(polls[0]) then 0 else 1 + FirstQr(polls[1..])
  }

  /** How the wait ends: at the first poll showing the main interface, or with the
      timeout exception once every poll has been used. */
  function LoginOutcome(polls: seq<Poll>): (r: Result<nat>)
    ensures r.Success? <==> exists i :: 0 <= i < |polls| && ShowsReady(polls[i])
    ensures r.Success? ==> r.value < |polls| && ShowsReady(polls[r.value]) &&
                           forall i :: 0 <= i < r.value ==> !ShowsReady(polls[i])
    ensures r.Failure? ==> r.error == LoginTimeoutMessage
  {
    var k := FirstReady(polls);
    if k < |polls| then Success(k) else Failure(LoginTimeoutMessage)
  }

  /** The polls at which the "QR code detected" notice is printed: the first poll showing
      a QR code, provided the loop gets that far. The latch is never reset, so there is
      at most one notice per call. */
  function QrNotices(polls: seq<Poll>): (notices: seq<nat>)
    ensures |notices| <= 1
    ensures forall i :: 0 <= i < |notices| ==>
              notices[i] < |polls| && notices[i] <= FirstReady(polls) && ShowsQr(polls[notices[i]])
    ensures |notices| == 1 <==> exists i :: 0 <= i < |polls| && i <= FirstReady(polls) && ShowsQr(polls[i])
    ensures |notices| == 1 ==> forall i :: 0 <= i < notices[0] ==> !ShowsQr(polls[i])
  {
    var q := FirstQr(polls);
    if q < |polls| && q <= FirstReady(polls) then [q] else []
  }

  /** The polling loop with its `last_state` latch. The QR test comes before the
      interface test within one poll, so a poll showing both is reported and then ends
      the wait. */
  method WaitForLogin(polls: seq<Poll>) returns (r: Result<nat>, qrNotices: seq<nat>)
    ensures r == LoginOutcome(polls)
    ensures qrNotices == QrNotices(polls)
  {
    var lastState := NoState;
    qrNotices := [];
    ghost var q := FirstQr(polls);
    for i := 0 to |polls|
      invariant i <= FirstReady(polls)
      invariant lastState == QrState <==> q < i
      invariant qrNotices == if q < i then [q] else []
    {
      match polls[i]
      case PollRaised =>
      case Poll(qr, ready) =>
        if qr && lastState != QrState {
          qrNotices := qrNotices + [i];
          lastState := QrState;
        }
        if ready {
          r := Success(i);
          return;
        }
    }
    r := Failure(LoginTimeoutMessage);
  }

  /** A poll showing the QR code and the main interface at once ends the wait (if no
      earlier poll did), and by then the QR notice has been printed. */
  lemma ReadyWinsOverQr(polls: seq<Poll>, k: nat)
    requires k < |polls| && polls[k] == Poll(true, true)
    requires forall i :: 0 <= i < k ==> !ShowsReady(polls[i])
    ensures LoginOutcome(polls) == Success(k)
    ensures |QrNotices(polls)| == 1 && QrNotices(polls)[0] <= k
  {
    assert FirstReady(polls) == k;
    assert FirstQr(polls) <= k;
  }

  /** A poll whose query raised counts as a poll that saw nothing: polling goes on and
      neither the outcome nor the notices change. */
  lemma RaisedPollIgnored(polls: seq<Poll>, k: nat)
    requires k < |polls| && polls[k] == PollRaised
    ensures var quiet := polls[k := Poll(false, false)];
      LoginOutcome(quiet) == LoginOutcome(polls) && QrNotices(quiet) == QrNotices(polls)
  {
    var quiet := polls[k := Poll(false, false)];
    assert forall i :: 0 <= i < |polls| ==> (ShowsReady(quiet[i]) <==> ShowsReady(polls[i]));
    assert forall i :: 0 <= i < |polls| ==> (ShowsQr(quiet[i]) <==> ShowsQr(polls[i]));
    FirstReadySame(quiet, polls);
    FirstQrSame(quiet, polls);
  }

  lemma FirstReadySame(a: seq<Poll>, b: seq<Poll>)
    requires |a| == |b|
    requires forall i :: 0 <= i < |a| ==> (ShowsReady(a[i]) <==> ShowsReady(b[i]))
    ensures FirstReady(a) == FirstReady(b)
  {
  }

  lemma FirstQrSame(a: seq<Poll>, b: seq<Poll>)
    requires |a| == |b|
    requires forall i :: 0 <= i < |a| ==> (ShowsQr(a[i]) <==> ShowsQr(b[i]))
    ensures FirstQr(a) == FirstQr(b)
  {
  }
}
