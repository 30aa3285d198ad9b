/**
  Properties of the PIN lifecycle over whole sequences of events: the entry
  bound, what a full entry does in each mode, the create-mode restart, the
  attempt limit of validate mode, and that a dismissal is final.
 */
module PinProperties {
  import opened PinSession

  /** The state after `es`, processed strictly in arrival order. */
  function Run(s: LockerState, es: seq<Event>): LockerState
    decreases |es|
  {
    if es == [] then s else Run(Step(s, es[0]), es[1..])
  }

  /** The key presses that type the digits `ds`. */
  function Keys(ds: seq<Digit>): seq<Event>
  {
    seq(|ds|, i requires 0 <= i < |ds| => DigitKey(ds[i]))
  }

  /** The text the digits `ds` leave in the entry buffer. */
  function Text(ds: seq<Digit>): string
  {
    seq(|ds|, i requires 0 <= i < |ds| => DigitChar(ds[i]))
  }

  /** Number of failed-attempt reports in `cs`. */
  function FailureCount(cs: seq<Callback>): nat
  {
    if cs == [] then 0 else (if cs[0].FailedAttempt? then 1 else 0) + FailureCount(cs[1..])
  }

  lemma {:induction false} FailureCountAppend(a: seq<Callback>, b: seq<Callback>)
    ensures FailureCount(a + b) == FailureCount(a) + FailureCount(b)
    decreases |a|
  {
    if a == [] {
      assert a + b == b;
    } else {
      assert (a + b)[0] == a[0];
      assert (a + b)[1..] == a[1..] + b;
      FailureCountAppend(a[1..], b);
    }
  }

  /** Different digit sequences type different texts. */
  lemma TextInjective(a: seq<Digit>, b: seq<Digit>)
    requires |a| == |b| && a != b
    ensures Text(a) != Text(b)
  {
    var i :| 0 <= i < |a| && a[i] != b[i];
    assert Text(a)[i] != Text(b)[i];
  }

  /**
    Every reachable state keeps the invariant: the buffer never holds more than
    `MaxPinLength` digits, and at most one dismissal is ever reported, as the
    last callback, exactly when the screen is dismissed.
   */
  lemma {:induction false} RunPreservesInv(s: LockerState, es: seq<Event>)
    requires Inv(s)
    ensures Inv(Run(s, es))
    decreases |es|
  {
    if es != [] {
      RunPreservesInv(Step(s, es[0]), es[1..]);
    }
  }

  lemma {:induction false} RunAppend(s: LockerState, a: seq<Event>, b: seq<Event>)
    ensures Run(s, a + b) == Run(Run(s, a), b)
    decreases |a|
  {
    if a == [] {
      assert a + b == b;
    } else {
      assert (a + b)[0] == a[0];
      assert (a + b)[1..] == a[1..] + b;
      RunAppend(Step(s, a[0]), a[1..], b);
    }
  }

  /** Once dismissed, no later event changes anything or reports anything. */
  lemma {:induction false} DismissedIsFinal(s: LockerState, es: seq<Event>)
    requires s.dismissed
    ensures Run(s, es) == s
    decreases |es|
  {
    if es != [] {
      DismissedIsFinal(Step(s, es[0]), es[1..]);
    }
  }

  /** Digits that do not fill the buffer are appended and do nothing else. */
  lemma {:induction false} ShortEntryIsSilent(s: LockerState, ds: seq<Digit>)
    requires !s.dismissed && |s.pin| + |ds| < MaxPinLength
    ensures Run(s, Keys(ds)) == s.(pin := s.pin + Text(ds))
    decreases |ds|
  {
    if ds == [] {
      assert Keys(ds) == [];
      assert s.pin + Text(ds) == s.pin;
    } else {
      var t := Step(s, DigitKey(ds[0]));
      assert t == s.(pin := s.pin + [DigitChar(ds[0])]);
      assert Keys(ds)[1..] == Keys(ds[1..]);
      ShortEntryIsSilent(t, ds[1..]);
      assert Text(ds) == [DigitChar(ds[0])] + Text(ds[1..]);
      assert t.pin + Text(ds[1..]) == s.pin + Text(ds);
    }
  }

  /** The digit that fills the buffer hands the full entry to the mode's action. */
  lemma {:induction false} EntryCompletes(s: LockerState, ds: seq<Digit>)
    requires !s.dismissed && |ds| > 0 && |s.pin| + |ds| == MaxPinLength
    ensures Run(s, Keys(ds)) == Completed(s.(pin := s.pin + Text(ds)))
    decreases |ds|
  {
    var t := Step(s, DigitKey(ds[0]));
    assert Keys(ds)[1..] == Keys(ds[1..]);
    assert Text(ds) == [DigitChar(ds[0])] + Text(ds[1..]);
    if |ds| == 1 {
      assert Keys(ds)[1..] == [];
    } else {
      assert t == s.(pin := s.pin + [DigitChar(ds[0])]);
      EntryCompletes(t, ds[1..]);
      assert t.pin + Text(ds[1..]) == s.pin + Text(ds);
    }
  }

  /**
    A full entry in validate mode succeeds, reporting the entry, exactly when
    attempts remain and it is the known PIN; otherwise one more attempt is
    counted, a failure is reported and the full entry stays in the buffer until
    the shake animation ends.
   */
  lemma ValidateEntry(s: LockerState, ds: seq<Digit>)
    requires s.mode.Validate? && !s.dismissed && s.pin == "" && |ds| == MaxPinLength
    ensures var r := Run(s, Keys(ds));
      && (r.dismissed <==> s.pinAttempts < s.validatingMaxAttempts && Text(ds) == s.validatingPin)
      && (r.dismissed ==>
            r == s.(pin := Text(ds), dismissed := true,
                    callbacks := s.callbacks + [SuccessfulDismiss(Some(s.mode), Some(Text(ds)))]))
      && (!r.dismissed ==>
            r == s.(pin := Text(ds), pinAttempts := s.pinAttempts + 1,
                    callbacks := s.callbacks + [FailedAttempt(s.mode)]))
  {
    EntryCompletes(s, ds);
    assert s.pin + Text(ds) == Text(ds);
  }

  /** The first full entry of create mode is reserved; nothing is reported. */
  lemma FirstCreateEntry(s: LockerState, ds: seq<Digit>)
    requires s.mode.Create? && s.isFirstCreationStep && !s.dismissed && s.pin == ""
    requires |ds| == MaxPinLength
    ensures Run(s, Keys(ds)) == s.(reservedPin := Text(ds), isFirstCreationStep := false)
  {
    EntryCompletes(s, ds);
    assert s.pin + Text(ds) == Text(ds);
  }

  /**
    The confirming entry of create mode: a match reports the reserved PIN and
    dismisses; a mismatch reports a failure and restarts creation from the
    first step with an empty buffer.
   */
  lemma ConfirmEntry(s: LockerState, ds: seq<Digit>)
    requires s.mode.Create? && !s.isFirstCreationStep && !s.dismissed && s.pin == ""
    requires |ds| == MaxPinLength
    ensures var r := Run(s, Keys(ds));
      && (r.dismissed <==> Text(ds) == s.reservedPin)
      && (r.dismissed ==>
            r.callbacks == s.callbacks + [SuccessfulDismiss(Some(Create), Some(s.reservedPin))])
      && (!r.dismissed ==>
            r == s.(callbacks := s.callbacks + [FailedAttempt(Create)], isFirstCreationStep := true))
  {
    EntryCompletes(s, ds);
    assert s.pin + Text(ds) == Text(ds);
  }

  /** Typing the same PIN twice in create mode reports that PIN, once, and dismisses. */
  lemma CreatePairSucceeds(s: LockerState, ds: seq<Digit>)
    requires s.mode.Create? && s.isFirstCreationStep && !s.dismissed && s.pin == ""
    requires |ds| == MaxPinLength
    ensures var r := Run(s, Keys(ds) + Keys(ds));
      r.dismissed && r.callbacks == s.callbacks + [SuccessfulDismiss(Some(Create), Some(Text(ds)))]
  {
    RunAppend(s, Keys(ds), Keys(ds));
    FirstCreateEntry(s, ds);
    ConfirmEntry(Run(s, Keys(ds)), ds);
  }

  /** A freshly presented create screen accepts a PIN typed twice, and reports nothing else. */
  lemma NewCreateSessionSucceeds(ds: seq<Digit>, sensorsEnabled: bool)
    requires |ds| == MaxPinLength
    ensures var r := Run(Presented(Create, sensorsEnabled), Keys(ds) + Keys(ds));
      r.dismissed && r.callbacks == [SuccessfulDismiss(Some(Create), Some(Text(ds)))]
  {
    CreatePairSucceeds(Presented(Create, sensorsEnabled), ds);
  }

  /**
    A confirmation that does not match reports one failure and restarts the
    whole creation: once the shake animation ends, a fresh matching pair succeeds.
   */
  lemma MismatchRestartsCreation(s: LockerState, first: seq<Digit>, second: seq<Digit>, ds: seq<Digit>)
    requires s.mode.Create? && s.isFirstCreationStep && !s.dismissed && s.pin == ""
    requires |first| == |second| == |ds| == MaxPinLength && first != second
    ensures var r := Run(s, Keys(first) + Keys(second));
      && r.mode == Create && r.isFirstCreationStep && r.pin == "" && !r.dismissed
      && r.callbacks == s.callbacks + [FailedAttempt(Create)]
    ensures var r := Run(s, Keys(first) + Keys(second) + [ShakeEnd] + Keys(ds) + Keys(ds));
      r.dismissed
      && r.callbacks == s.callbacks + [FailedAttempt(Create), SuccessfulDismiss(Some(Create), Some(Text(ds)))]
  {
    TextInjective(second, first);
    var k1, k2, k3 := Keys(first), Keys(second), Keys(ds);
    RunAppend(s, k1, k2);
    FirstCreateEntry(s, first);
    var a := Run(s, k1);
    ConfirmEntry(a, second);
    var b := Run(a, k2);
    RunAppend(s, k1 + k2, [ShakeEnd]);
    assert Run(b, [ShakeEnd]) == b;
    assert k1 + k2 + [ShakeEnd] + k3 + k3 == (k1 + k2 + [ShakeEnd]) + (k3 + k3);
    RunAppend(s, k1 + k2 + [ShakeEnd], k3 + k3);
    CreatePairSucceeds(b, ds);
    assert b.callbacks + [SuccessfulDismiss(Some(Create), Some(Text(ds)))]
      == s.callbacks + [FailedAttempt(Create), SuccessfulDismiss(Some(Create), Some(Text(ds)))];
  }

  /**
    From `s` to `r` in validate mode: the mode, the known PIN and the limit are
    kept, the earlier reports are kept, the attempt counter grows by exactly the
    number of failures reported since `s`, and every PIN reported since `s` is
    the known PIN, reported only if attempts remained at `s`.
   */
  ghost predicate ValidateProgress(s: LockerState, r: LockerState)
  {
    && r.mode == s.mode && r.validatingPin == s.validatingPin
    && r.validatingMaxAttempts == s.validatingMaxAttempts
    && s.callbacks <= r.callbacks
    && r.pinAttempts == s.pinAttempts + FailureCount(r.callbacks[|s.callbacks|..])
    && forall i | |s.callbacks| <= i < |r.callbacks| ::
         r.callbacks[i].SuccessfulDismiss? && r.callbacks[i].reportedPin.Some? ==>
           r.callbacks[i].reportedPin.value == s.validatingPin
           && s.pinAttempts < s.validatingMaxAttempts
  }

  /** One event in validate mode makes validate progress. */
  lemma ValidateStep(s: LockerState, e: Event)
    requires Inv(s) && s.mode.Validate?
    ensures ValidateProgress(s, Step(s, e))
  {
  }

  /** Validate progress composes. */
  lemma ValidateProgressTrans(s: LockerState, t: LockerState, r: LockerState)
    requires ValidateProgress(s, t) && ValidateProgress(t, r)
    ensures ValidateProgress(s, r)
  {
    assert r.callbacks[|s.callbacks|..]
      == t.callbacks[|s.callbacks|..] + r.callbacks[|t.callbacks|..];
    FailureCountAppend(t.callbacks[|s.callbacks|..], r.callbacks[|t.callbacks|..]);
    forall i | |s.callbacks| <= i < |r.callbacks|
      && r.callbacks[i].SuccessfulDismiss? && r.callbacks[i].reportedPin.Some?
      ensures r.callbacks[i].reportedPin.value == s.validatingPin
      ensures s.pinAttempts < s.validatingMaxAttempts
    {
      if i < |t.callbacks| {
        assert r.callbacks[i] == t.callbacks[i];
      }
    }
  }

  /**
    In validate mode, whatever happens, a PIN is reported only if it is the
    known PIN and attempts remained when the run began; the mode never changes
    and the attempt counter grows by exactly the number of failures reported.
   */
  lemma {:induction false} ValidateRunReportsOnlyKnownPin(s: LockerState, es: seq<Event>)
    requires Inv(s) && s.mode.Validate?
    ensures ValidateProgress(s, Run(s, es))
    decreases |es|
  {
    if es == [] {
      assert s.callbacks[|s.callbacks|..] == [];
    } else {
      var t := Step(s, es[0]);
      ValidateStep(s, es[0]);
      ValidateRunReportsOnlyKnownPin(t, es[1..]);
      ValidateProgressTrans(s, t, Run(t, es[1..]));
    }
  }

  /**
    Once the attempts are used up, no later entry is ever accepted, not even the
    known PIN: no report after that point carries a PIN.
   */
  lemma ExhaustedAttemptsNeverAcceptPin(s: LockerState, es: seq<Event>)
    requires Inv(s) && s.mode.Validate? && s.pinAttempts >= s.validatingMaxAttempts
    ensures var r := Run(s, es);
      forall i | |s.callbacks| <= i < |r.callbacks| ::
        r.callbacks[i].SuccessfulDismiss? ==> r.callbacks[i].reportedPin == None
  {
    ValidateRunReportsOnlyKnownPin(s, es);
  }

  /**
    Nor does an exhausted session close itself: without a cancel or a biometric
    success it stays on screen, whatever digits are typed.
   */
  lemma {:induction false} ExhaustedSessionStaysOpen(s: LockerState, es: seq<Event>)
    requires Inv(s) && s.mode.Validate? && s.pinAttempts >= s.validatingMaxAttempts && !s.dismissed
    requires forall i | 0 <= i < |es| :: es[i] != CancelKey && es[i] != BiometricSuccess
    ensures !Run(s, es).dismissed
    decreases |es|
  {
    if es != [] {
      var t := Step(s, es[0]);
      ValidateStep(s, es[0]);
      ExhaustedSessionStaysOpen(t, es[1..]);
    }
  }

  /** Cancel clears the entry, reports neither mode nor PIN, once, and ends the session. */
  lemma CancelEndsSession(s: LockerState, es: seq<Event>)
    requires !s.dismissed
    ensures var r := Run(s, [CancelKey] + es);
      && r.dismissed && r.pin == ""
      && r.callbacks == s.callbacks + [SuccessfulDismiss(None, None)]
      && r.pinAttempts == s.pinAttempts && r.mode == s.mode
  {
    assert ([CancelKey] + es)[1..] == es;
    DismissedIsFinal(Cancelled(s), es);
  }

  /**
    A biometric success on a validate screen with sensors enabled reports the
    mode but withholds the PIN, costs no attempt, and ends the session.
   */
  lemma BiometricEndsSession(s: LockerState, es: seq<Event>)
    requires s.isSensorsEnabled && s.mode.Validate? && !s.dismissed
    ensures var r := Run(s, [BiometricSuccess] + es);
      && r.dismissed
      && r.callbacks == s.callbacks + [SuccessfulDismiss(Some(s.mode), None)]
      && r.pinAttempts == s.pinAttempts
  {
    assert ([BiometricSuccess] + es)[1..] == es;
    DismissedIsFinal(BiometricAccepted(s), es);
  }
}
