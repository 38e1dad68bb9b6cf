/** The query-client defaults of `src/lib/react-query.ts`: a failed query is retried until it
    has failed three times, and when it gives up a "slow network" toast is shown unless one is
    already on screen, which a module-level flag remembers until the toast is dismissed; a
    failed mutation shows an error toast chosen from the server's response. */
module ReactQuery {
  import opened Wrappers

  /** Failures after which a query gives up. */
  const MaxFailures: int := 3

  const SlowNetworkMessage: string :=
    "A aplica\U{E7}\U{E3}o est\U{E1} demorando mais que o esperado para carregar, tente novamente em alguns minutos."

  const GenericMutationError: string := "Erro ao processar opera\U{E7}\U{E3}o!"

  /** What one call of `retry` decides: whether to retry, whether the toast is shown, and the
      flag afterwards. */
  datatype RetryDecision = RetryDecision(retry: bool, showsToast: bool, displayed: bool)

  /** `retry(failureCount)` with the flag at `displayed`: a retry below three failures, with
      nothing else touched; from three on no retry, and the toast is shown, setting the flag,
      exactly when the flag was clear. */
  function RetryStep(displayed: bool, failureCount: int): (d: RetryDecision)
    ensures d.retry <==> failureCount < MaxFailures
    ensures failureCount < MaxFailures ==> !d.showsToast && d.displayed == displayed
    ensures failureCount >= MaxFailures ==> d.showsToast == !displayed && d.displayed
  {
    if failureCount >= MaxFailures then RetryDecision(false, !displayed, true)
    else RetryDecision(true, false, displayed)
  }

  /** What the policy sees: a query's `retry` call after `failureCount` failures, or the toast
      being dismissed. */
  datatype QueryEvent = QueryFailed(failureCount: int) | ToastDismissed

  /** The flag after a sequence of events. */
  function FlagAfter(displayed: bool, events: seq<QueryEvent>): bool
    decreases events
  {
    if events == [] then displayed
    else match events[0]
      case QueryFailed(n) => FlagAfter(RetryStep(displayed, n).displayed, events[1..])
      case ToastDismissed => FlagAfter(false, events[1..])
  }

  /** The number of toasts shown during a sequence of events. */
  function ToastsShown(displayed: bool, events: seq<QueryEvent>): nat
    decreases events
  {
    if events == [] then 0
    else match events[0]
      case QueryFailed(n) =>
        var d := RetryStep(displayed, n);
        (if d.showsToast then 1 else 0) + ToastsShown(d.displayed, events[1..])
      case ToastDismissed => ToastsShown(false, events[1..])
  }

  function Dismissals(events: seq<QueryEvent>): nat {
    if events == [] then 0 else (if events[0].ToastDismissed? then 1 else 0) + Dismissals(events[1..])
  }

  /** A toast that can still be shown without a dismissal: one while the flag is clear. */
  function Credit(displayed: bool): nat {
    if displayed then 0 else 1
  }

  /** Each dismissal allows at most one more toast: the toasts shown, plus the toast still
      available at the end, never exceed the dismissals plus the toast available at the
      start. */
  lemma {:induction false} ToastsBoundedByDismissals(displayed: bool, events: seq<QueryEvent>)
    ensures ToastsShown(displayed, events) + Credit(FlagAfter(displayed, events))
         <= Dismissals(events) + Credit(displayed)
    decreases events
  {
    if events != [] {
      match events[0]
      case QueryFailed(n) =>
        ToastsBoundedByDismissals(RetryStep(displayed, n).displayed, events[1..]);
      case ToastDismissed =>
        ToastsBoundedByDismissals(false, events[1..]);
    }
  }

  /** At most one toast is shown until it is dismissed; while one is on screen, none is. */
  lemma AtMostOneToastUntilDismissed(displayed: bool, events: seq<QueryEvent>)
    requires Dismissals(events) == 0
    ensures ToastsShown(displayed, events) <= Credit(displayed)
  {
    ToastsBoundedByDismissals(displayed, events);
  }

  /** Dismissing the toast re-arms it: the next give-up shows it again. */
  lemma DismissalRearms(displayed: bool, n: int)
    requires n >= MaxFailures
    ensures ToastsShown(displayed, [ToastDismissed, QueryFailed(n)]) == 1
  {
    var events := [ToastDismissed, QueryFailed(n)];
    assert events[1..] == [QueryFailed(n)];
    assert ToastsShown(false, [QueryFailed(n)]) == 1 + ToastsShown(true, []);
  }

  /** The module-level flag, with the toasts shown so far. */
  class QueryRetryPolicy {
    var displayedNetworkFailureError: bool
    var toasts: seq<string>

    constructor()
      ensures !displayedNetworkFailureError && toasts == []
    {
      displayedNetworkFailureError := false;
      toasts := [];
    }

    /** `retry(failureCount)`, as `RetryStep` decides, logging the toast when it is shown. */
    method Retry(failureCount: int) returns (retry: bool)
      modifies this
      ensures var d := RetryStep(old(displayedNetworkFailureError), failureCount);
        && retry == d.retry
        && displayedNetworkFailureError == d.displayed
        && toasts == old(toasts) + (if d.showsToast then [SlowNetworkMessage] else [])
    {
      if failureCount >= MaxFailures {
        if displayedNetworkFailureError == false {
          displayedNetworkFailureError := true;
          toasts := toasts + [SlowNetworkMessage];
        }
        return false;
      }
      return true;
    }

    /** The toast's `onDismiss`: the flag is cleared. */
    method OnToastDismissed()
      modifies this
      ensures !displayedNetworkFailureError && toasts == old(toasts)
    {
      displayedNetworkFailureError := false;
    }
  }

  /** A mutation's `error.response.data`: an object, whose `message` property may be present,
      or any other value (a string, `null`, `undefined`, ...). */
  datatype ResponseData = ObjectData(message: Option<string>) | OtherData

  /** A mutation's error: an axios error, with or without a response, or any other error. */
  datatype MutationError = AxiosError(response: Option<ResponseData>) | OtherError

  /** What `onError` does: no toast, an error toast with a text, or a `TypeError` thrown by the
      `in` operator (no toast). */
  datatype ErrorOutcome = NoToast | ErrorToast(text: string) | ThrowsTypeError

  /** `onError` as written: `'message' in error.response?.data` needs an object, so an axios
      error without a response (a network failure) or with non-object data throws instead of
      showing a toast. */
  function OnMutationErrorAsWritten(error: MutationError): (o: ErrorOutcome)
    ensures o.ThrowsTypeError? <==> error.AxiosError? && (error.response.None? || error.response.value.OtherData?)
  {
    match error
    case OtherError => NoToast
    case AxiosError(None) => ThrowsTypeError
    case AxiosError(Some(OtherData)) => ThrowsTypeError
    case AxiosError(Some(ObjectData(message))) =>
      if message.Some? then ErrorToast(message.value) else ErrorToast(GenericMutationError)
  }

  /** The server's message, when the response carries one. */
  function ServerMessage(error: MutationError): Option<string> {
    if error.AxiosError? && error.response.Some? && error.response.value.ObjectData? then error.response.value.message
    else None
  }

  /** `onError` as intended: every axios error shows a toast, with the server's message when
      the response carries one and the generic message otherwise; other errors show none. */
  function OnMutationError(error: MutationError): (o: ErrorOutcome)
    ensures !o.ThrowsTypeError?
    ensures o.ErrorToast? <==> error.AxiosError?
    ensures o.ErrorToast? ==> o.text == ServerMessage(error).GetOr(GenericMutationError)
  {
    if error.OtherError? then NoToast
    else ErrorToast(ServerMessage(error).GetOr(GenericMutationError))
  }

  /** Wherever the code as written does not throw, it agrees with the intended behaviour. */
  lemma AsWrittenAgreesUnlessThrows(error: MutationError)
    requires !OnMutationErrorAsWritten(error).ThrowsTypeError?
    ensures OnMutationErrorAsWritten(error) == OnMutationError(error)
  {
  }

  /** The discrepancy: a network failure (an axios error without a response) throws and shows
      no toast, where the generic message was intended. */
  lemma NetworkFailureShowsNoToast()
    ensures OnMutationErrorAsWritten(AxiosError(None)) == ThrowsTypeError
    ensures OnMutationError(AxiosError(None)) == ErrorToast(GenericMutationError)
  {
  }
}
