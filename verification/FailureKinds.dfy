/** The codes of failures, listed by what a failed send with them comes to. */
module FailureKinds {
  import opened Wrappers
  import opened Failures

  /** The provider may have taken the message. */
  const AMBIGUOUS: set<FailureCode> :=
    {ProviderConnectionLost, ProviderTimeout, ProviderAborted, ProviderOutcomeUnknown, ProviderResponseUnreadable}

  /** It did not, and may the next time. */
  const RETRIED: set<FailureCode> :=
    {ProviderUnreachable, ProviderRateLimited, ProviderServerError, ProviderUnknownError, SessionNotReady,
     RecipientCheckFailed, ConnectionPaused}

  /** It never will. */
  const FINAL: set<FailureCode> :=
    {ProviderUnauthorized, ProviderInvalidRequest, SessionMissing, RecipientNotOnWhatsApp,
     ProviderAcknowledgementError, UnknownOutcomeFailClosed, MaximumAttemptsExhausted, DeliveryWindowExpired,
     ConnectionUnavailable, ConnectionRestricted, NewChatQuotaExceeded}

  /** Each code is of one kind, and the table of classifications and the list of unknown outcomes say which. */
  lemma CodesAreOfOneKind(code: FailureCode)
    ensures code in AMBIGUOUS + RETRIED + FINAL
    ensures !(code in AMBIGUOUS && code in RETRIED) && !(code in AMBIGUOUS && code in FINAL)
            && !(code in RETRIED && code in FINAL)
    ensures IsRetryable(code) <==> code !in FINAL
    ensures HasUnknownOutcome(code) <==> code in AMBIGUOUS
  {
  }

  /** The provider answers that it has no such session, as against our having none. */
  predicate LostSession(failure: ProviderFailure) {
    failure.code == SessionMissing && failure.providerStatusCode.Some?
  }
}
