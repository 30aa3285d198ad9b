/**
  The PIN lifecycle of the AppLocker lock screen, as values.

  `LockerState` mirrors the private fields of the `AppLocker` view controller
  together with two fields that stand for its observable effects: `dismissed`
  (the screen called `dismiss(animated:)`) and `callbacks` (the invocations of
  `onSuccessfulDismiss` and `onFailedAttempt`, in order). Each function below
  describes the effect of one routine of the controller on that state; the
  class in module Controller is proved to have exactly these effects.
 */
module PinSession {

  /** Number of digits that completes an entry (`ALConstants.maxPinLength`). */
  const MaxPinLength: nat := 4

  /** Tags of the two non-digit keys of the keypad (`ALConstants.Button`). */
  const DeleteTag: int := 1000
  const CancelTag: int := 1001

  datatype Option<T> = None | Some(value: T)

  /** The tag of a digit key of the keypad. */
  type Digit = d: int | 0 <= d <= 9

  /** The text `"\(d)"` that a digit key appends to the entry. */
  function DigitChar(d: Digit): (c: char)
    ensures '0' <= c <= '9'
    ensures c as int - '0' as int == d
  {
    (d + '0' as int) as char
  }

  predicate IsPinText(p: string)
  {
    forall i | 0 <= i < |p| :: '0' <= p[i] <= '9'
  }

  /** `ALMode`: validate against a known PIN with an attempt limit, or create a new PIN. */
  datatype Mode = Validate(pin: string, maxAttempts: int) | Create

  /** One invocation of a callback the host installed. A cancel reports `SuccessfulDismiss(None, None)`. */
  datatype Callback =
    | SuccessfulDismiss(reportedMode: Option<Mode>, reportedPin: Option<string>)
    | FailedAttempt(failedMode: Mode)

  datatype LockerState = LockerState(
    mode: Mode,
    pin: string,                 // the entry buffer
    pinAttempts: int,            // wrong entries so far in validate mode
    reservedPin: string,         // first entry of create mode, awaiting confirmation
    validatingPin: string,
    validatingMaxAttempts: int,
    isFirstCreationStep: bool,
    isSensorsEnabled: bool,      // the presenter asked for a biometric check
    dismissed: bool,
    callbacks: seq<Callback>)

  /** What every reachable state satisfies. */
  predicate Inv(s: LockerState)
  {
    && |s.pin| <= MaxPinLength
    && IsPinText(s.pin)
    && s.pinAttempts >= 0
    && (s.mode.Validate? ==>
          s.validatingPin == s.mode.pin && s.validatingMaxAttempts == s.mode.maxAttempts)
    && (s.mode.Create? && !s.isFirstCreationStep ==>
          |s.reservedPin| == MaxPinLength && IsPinText(s.reservedPin))
    // every callback but the last reports a failed attempt ...
    && (forall i | 0 <= i < |s.callbacks| - 1 :: s.callbacks[i].FailedAttempt?)
    // ... and the screen is dismissed exactly when the last one is a dismissal
    && (s.dismissed <==>
          |s.callbacks| > 0 && s.callbacks[|s.callbacks| - 1].SuccessfulDismiss?)
  }

  /** The controller as the nib creates it, before `present` assigns a mode. */
  function Initial(sensorsEnabled: bool): (r: LockerState)
    ensures Inv(r)
    ensures r.mode == Validate("", 0) && r.isFirstCreationStep
    ensures r.pin == "" && r.pinAttempts == 0 && r.reservedPin == ""
    ensures r.validatingPin == "" && r.validatingMaxAttempts == 0
    ensures r.isSensorsEnabled == sensorsEnabled && !r.dismissed && r.callbacks == []
  {
    LockerState(Validate("", 0), "", 0, "", "", 0, true, sensorsEnabled, false, [])
  }

  /** Assigning `mode`, with the resets its `didSet` observer performs. */
  function ModeSet(s: LockerState, m: Mode): (r: LockerState)
    ensures r.mode == m && r.isFirstCreationStep == m.Create?
    ensures m.Validate? ==> r.validatingPin == m.pin && r.validatingMaxAttempts == m.maxAttempts
    ensures m.Create? ==> r.validatingPin == s.validatingPin && r.validatingMaxAttempts == s.validatingMaxAttempts
    ensures r.(mode := s.mode, isFirstCreationStep := s.isFirstCreationStep,
               validatingPin := s.validatingPin, validatingMaxAttempts := s.validatingMaxAttempts) == s
    ensures Inv(s) ==> Inv(r)
  {
    match m
    case Validate(p, k) =>
      s.(mode := m, validatingPin := p, validatingMaxAttempts := k, isFirstCreationStep := false)
    case Create =>
      s.(mode := m, isFirstCreationStep := true)
  }

  /** The state `present(with:and:over:)` leaves the controller in. */
  function Presented(m: Mode, sensorsEnabled: bool): (r: LockerState)
    ensures Inv(r)
    ensures r.mode == m && r.pin == "" && r.pinAttempts == 0
    ensures r.isFirstCreationStep <==> m.Create?
    ensures r.isSensorsEnabled == sensorsEnabled
    ensures !r.dismissed && r.callbacks == []
  {
    ModeSet(Initial(sensorsEnabled), m)
  }

  /** `clearView`: only its effect on the entry buffer. */
  function Cleared(s: LockerState): (r: LockerState)
    ensures r.pin == ""
    ensures r.(pin := s.pin) == s
    ensures Inv(s) ==> Inv(r)
  {
    s.(pin := "")
  }

  /** `precreateSettings`: back to the first step of create mode with an empty buffer. */
  function Precreated(s: LockerState): (r: LockerState)
    ensures r.mode == Create && r.isFirstCreationStep && r.pin == ""
    ensures r.reservedPin == s.reservedPin && r.pinAttempts == s.pinAttempts
    ensures r.callbacks == s.callbacks && r.dismissed == s.dismissed
    ensures r == s.(mode := Create, isFirstCreationStep := true, pin := "")
  {
    Cleared(ModeSet(s, Create))
  }

  /** Report success to the host with `mode` and `pin`, then dismiss. */
  function Succeeded(s: LockerState, m: Option<Mode>, p: Option<string>): LockerState
  {
    s.(callbacks := s.callbacks + [SuccessfulDismiss(m, p)], dismissed := true)
  }

  /** `confirmPin`: the second entry of create mode. */
  function Confirmed(s: LockerState): (r: LockerState)
    requires s.mode.Create? && !s.dismissed
    ensures r.dismissed <==> s.pin == s.reservedPin
    ensures r.dismissed ==>
      r == s.(callbacks := s.callbacks + [SuccessfulDismiss(Some(Create), Some(s.reservedPin))],
              dismissed := true)
    ensures !r.dismissed ==>
      r == s.(callbacks := s.callbacks + [FailedAttempt(Create)],
              pin := "", isFirstCreationStep := true)
    ensures Inv(s) ==> Inv(r)
  {
    if s.pin == s.reservedPin then
      Succeeded(s, Some(s.mode), Some(s.pin))
    else
      Precreated(s.(callbacks := s.callbacks + [FailedAttempt(s.mode)]))
  }

  /** `createModeAction`: reserve the first entry, or confirm the second one. */
  function CreateAction(s: LockerState): (r: LockerState)
    requires s.mode.Create? && !s.dismissed
    ensures s.isFirstCreationStep ==>
      && r.reservedPin == s.pin && !r.isFirstCreationStep && r.pin == ""
      && r.callbacks == s.callbacks && !r.dismissed
      && r.(reservedPin := s.reservedPin, isFirstCreationStep := true, pin := s.pin) == s
    ensures !s.isFirstCreationStep ==> r == Confirmed(s)
    ensures Inv(s) && |s.pin| == MaxPinLength ==> Inv(r)
  {
    if s.isFirstCreationStep then
      Cleared(s.(isFirstCreationStep := false, reservedPin := s.pin))
    else
      Confirmed(s)
  }

  /** `validateModeAction`: compare the entry against the known PIN, within the attempt limit. */
  function ValidateAction(s: LockerState): (r: LockerState)
    requires s.mode.Validate? && !s.dismissed
    ensures r.dismissed <==> s.pinAttempts < s.validatingMaxAttempts && s.pin == s.validatingPin
    ensures r.callbacks == s.callbacks +
      [if r.dismissed then SuccessfulDismiss(Some(s.mode), Some(s.validatingPin)) else FailedAttempt(s.mode)]
    ensures r.pinAttempts == if r.dismissed then s.pinAttempts else s.pinAttempts + 1
    ensures r.(pinAttempts := s.pinAttempts, callbacks := s.callbacks, dismissed := false) == s
    ensures Inv(s) ==> Inv(r)
  {
    if s.pinAttempts < s.validatingMaxAttempts && s.pin == s.validatingPin then
      Succeeded(s, Some(s.mode), Some(s.pin))
    else
      s.(pinAttempts := s.pinAttempts + 1, callbacks := s.callbacks + [FailedAttempt(s.mode)])
  }

  /** The mode dispatch `pincodeChecker` performs once the buffer is full. */
  function Completed(s: LockerState): (r: LockerState)
    requires !s.dismissed
    ensures Inv(s) && |s.pin| == MaxPinLength ==> Inv(r)
  {
    match s.mode
    case Create => CreateAction(s)
    case Validate(_, _) => ValidateAction(s)
  }

  /** `pincodeChecker`: a digit key press, after its fill animation has completed. */
  function DigitEntered(s: LockerState, d: Digit): (r: LockerState)
    requires !s.dismissed
    ensures |s.pin| >= MaxPinLength ==> r == s
    ensures |s.pin| < MaxPinLength - 1 ==> r == s.(pin := s.pin + [DigitChar(d)])
    ensures |s.pin| == MaxPinLength - 1 ==> r == Completed(s.(pin := s.pin + [DigitChar(d)]))
    ensures |s.pin| <= MaxPinLength ==> |r.pin| <= MaxPinLength
    ensures Inv(s) ==> Inv(r)
  {
    if |s.pin| < MaxPinLength then
      var t := s.(pin := s.pin + [DigitChar(d)]);
      if |t.pin| == MaxPinLength then Completed(t) else t
    else
      s
  }

  /** `String(pin.dropLast())`. */
  function DropLast(p: string): string
  {
    if p == "" then "" else p[..|p| - 1]
  }

  /** The delete key, after its clear animation has completed. */
  function Deleted(s: LockerState): (r: LockerState)
    ensures r.pin <= s.pin
    ensures |r.pin| == if s.pin == "" then 0 else |s.pin| - 1
    ensures r.(pin := s.pin) == s
    ensures Inv(s) ==> Inv(r)
  {
    s.(pin := DropLast(s.pin))
  }

  /** The cancel key: clear the buffer, report neither a mode nor a PIN, dismiss. */
  function Cancelled(s: LockerState): (r: LockerState)
    ensures r.dismissed && r.pin == ""
    ensures r.callbacks == s.callbacks + [SuccessfulDismiss(None, None)]
    ensures r.(pin := s.pin, callbacks := s.callbacks, dismissed := s.dismissed) == s
    ensures Inv(s) && !s.dismissed ==> Inv(r)
  {
    Succeeded(Cleared(s), None, None)
  }

  /**
    The reply of a successful biometric check. `checkSensors` only runs when the
    presenter enabled sensors and the mode is validate; a reply that reaches a
    dismissed controller is dropped.
   */
  function BiometricAccepted(s: LockerState): (r: LockerState)
    ensures r.pinAttempts == s.pinAttempts && r.pin == s.pin && r.mode == s.mode
    ensures r.dismissed && !s.dismissed <==> s.isSensorsEnabled && s.mode.Validate? && !s.dismissed
    ensures r.dismissed && !s.dismissed ==>
      r == s.(callbacks := s.callbacks + [SuccessfulDismiss(Some(s.mode), None)], dismissed := true)
    ensures !(r.dismissed && !s.dismissed) ==> r == s
    ensures Inv(s) ==> Inv(r)
  {
    if s.isSensorsEnabled && s.mode.Validate? && !s.dismissed then
      Succeeded(s, Some(s.mode), None)
    else
      s
  }

  /** The events that reach the controller. */
  datatype Event =
    | DigitKey(d: Digit)
    | DeleteKey
    | CancelKey
    | BiometricSuccess   // the biometric check replied with success
    | ShakeEnd           // the failure shake animation stopped (`animationDidStop`)

  predicate IsKeyTag(tag: int)
  {
    tag == DeleteTag || tag == CancelTag || 0 <= tag <= 9
  }

  /** The event `keyboardPressed` dispatches a key tag to. */
  function KeyEvent(tag: int): (e: Event)
    requires IsKeyTag(tag)
    ensures e.DeleteKey? <==> tag == DeleteTag
    ensures e.CancelKey? <==> tag == CancelTag
    ensures e.DigitKey? <==> 0 <= tag <= 9
    ensures e.DigitKey? ==> e.d == tag
  {
    if tag == DeleteTag then DeleteKey
    else if tag == CancelTag then CancelKey
    else DigitKey(tag)
  }

  /**
    One event. Once the screen is dismissed nothing reaches the controller any
    more. Every event keeps the invariant and reports at most one callback.
   */
  function Step(s: LockerState, e: Event): (r: LockerState)
    ensures s.dismissed ==> r == s
    ensures Inv(s) ==> Inv(r)
    ensures s.callbacks <= r.callbacks && |r.callbacks| <= |s.callbacks| + 1
    ensures !s.dismissed && e.DigitKey? ==>
      && (|s.pin| >= MaxPinLength ==> r == s)
      && (|s.pin| < MaxPinLength - 1 ==> r == s.(pin := s.pin + [DigitChar(e.d)]))
    ensures !s.dismissed && e.DeleteKey? ==>
      r.pin <= s.pin && |r.pin| == (if s.pin == "" then 0 else |s.pin| - 1) && r.(pin := s.pin) == s
    ensures !s.dismissed && e.CancelKey? ==>
      r == s.(pin := "", callbacks := s.callbacks + [SuccessfulDismiss(None, None)], dismissed := true)
    ensures !s.dismissed && e.BiometricSuccess? ==>
      r.pinAttempts == s.pinAttempts && (r.dismissed <==> s.isSensorsEnabled && s.mode.Validate?)
    ensures !s.dismissed && e.ShakeEnd? ==> r == s.(pin := "")
  {
    if s.dismissed then s
    else
      match e
      case DigitKey(d) => DigitEntered(s, d)
      case DeleteKey => Deleted(s)
      case CancelKey => Cancelled(s)
      case BiometricSuccess => BiometricAccepted(s)
      case ShakeEnd => Cleared(s)
  }
}
