/**
  The `AppLocker` view controller with its PIN state as mutable fields.

  Each method is one routine of the controller with the UIKit work removed;
  each is proved to change the fields exactly as the matching function of
  module PinSession describes, and to keep that module's invariant.
  Animation completions are taken to run synchronously.
 */
module Controller {
  import opened PinSession

  class AppLocker {
    var mode: Mode
    var pin: string
    var pinAttempts: int
    var reservedPin: string
    var validatingPin: string
    var validatingMaxAttempts: int
    var isFirstCreationStep: bool
    const isSensorsEnabled: bool
    /** The controller has called `dismiss(animated:)`. */
    var dismissed: bool
    /** The invocations of `onSuccessfulDismiss` and `onFailedAttempt` so far. */
    var callbacks: seq<Callback>

    ghost function State(): LockerState
      reads this
    {
      LockerState(mode, pin, pinAttempts, reservedPin, validatingPin, validatingMaxAttempts,
                  isFirstCreationStep, isSensorsEnabled, dismissed, callbacks)
    }

    ghost predicate Valid()
      reads this
    {
      Inv(State())
    }

    /** `present(with:and:over:)`: the loaded controller receives its mode and sensor option. */
    constructor Present(m: Mode, sensorsEnabled: bool)
      ensures Valid()
      ensures State() == Presented(m, sensorsEnabled)
    {
      mode := Validate("", 0);
      pin := "";
      pinAttempts := 0;
      reservedPin := "";
      validatingPin := "";
      validatingMaxAttempts := 0;
      isFirstCreationStep := true;
      isSensorsEnabled := sensorsEnabled;
      dismissed := false;
      callbacks := [];
      new;
      SetMode(m);
    }

    /** Assignment to `mode` and its `didSet` observer. */
    method SetMode(m: Mode)
      requires Valid()
      modifies this
      ensures Valid()
      ensures State() == ModeSet(old(State()), m)
    {
      mode := m;
      match m {
        case Validate(p, k) =>
          validatingPin := p;
          validatingMaxAttempts := k;
          isFirstCreationStep := false;
        case Create =>
          isFirstCreationStep := true;
      }
    }

    method PrecreateSettings()
      requires Valid()
      modifies this
      ensures Valid()
      ensures State() == Precreated(old(State()))
    {
      SetMode(Create);
      ClearView();
    }

    /** `clearView`, without the indicator animation. */
    method ClearView()
      requires Valid()
      modifies this
      ensures Valid()
      ensures State() == Cleared(old(State()))
    {
      pin := "";
    }

    method PincodeChecker(d: Digit)
      requires Valid() && !dismissed
      modifies this
      ensures Valid()
      ensures State() == DigitEntered(old(State()), d)
    {
      if |pin| < MaxPinLength {
        pin := pin + [DigitChar(d)];
        if |pin| == MaxPinLength {
          match mode {
            case Create => CreateModeAction();
            case Validate(_, _) => ValidateModeAction();
          }
        }
      }
    }

    method CreateModeAction()
      requires Valid() && mode.Create? && !dismissed && |pin| == MaxPinLength
      modifies this
      ensures Valid()
      ensures State() == CreateAction(old(State()))
    {
      if isFirstCreationStep {
        isFirstCreationStep := false;
        reservedPin := pin;
        ClearView();
      } else {
        ConfirmPin();
      }
    }

    method ValidateModeAction()
      requires Valid() && mode.Validate? && !dismissed
      modifies this
      ensures Valid()
      ensures State() == ValidateAction(old(State()))
    {
      if pinAttempts < validatingMaxAttempts && pin == validatingPin {
        callbacks := callbacks + [SuccessfulDismiss(Some(mode), Some(pin))];
        dismissed := true;
      } else {
        pinAttempts := pinAttempts + 1;
        callbacks := callbacks + [FailedAttempt(mode)];
      }
    }

    method ConfirmPin()
      requires Valid() && mode.Create? && !dismissed
      modifies this
      ensures Valid()
      ensures State() == Confirmed(old(State()))
    {
      if pin == reservedPin {
        callbacks := callbacks + [SuccessfulDismiss(Some(mode), Some(pin))];
        dismissed := true;
      } else {
        callbacks := callbacks + [FailedAttempt(mode)];
        PrecreateSettings();
      }
    }

    /** The clear branch of `drawing`, once its animation has completed. */
    method DropLastDigit()
      requires Valid()
      modifies this
      ensures Valid()
      ensures State() == Deleted(old(State()))
    {
      if pin != "" {
        pin := pin[..|pin| - 1];
      }
    }

    /** `keyboardPressed`: dispatch on the tag of the key. */
    method KeyboardPressed(tag: int)
      requires Valid() && !dismissed && IsKeyTag(tag)
      modifies this
      ensures Valid()
      ensures State() == Step(old(State()), KeyEvent(tag))
    {
      if tag == DeleteTag {
        DropLastDigit();
      } else if tag == CancelTag {
        ClearView();
        callbacks := callbacks + [SuccessfulDismiss(None, None)];
        dismissed := true;
      } else {
        PincodeChecker(tag);
      }
    }

    /**
      The success reply of the biometric check that `checkSensors` starts for a
      validate screen with sensors enabled; dropped once the screen is gone.
     */
    method BiometricSucceeded()
      requires Valid()
      modifies this
      ensures Valid()
      ensures State() == BiometricAccepted(old(State()))
    {
      if isSensorsEnabled && mode.Validate? && !dismissed {
        callbacks := callbacks + [SuccessfulDismiss(Some(mode), None)];
        dismissed := true;
      }
    }

    /** `animationDidStop`: the failure shake ended; the buffer is cleared. */
    method AnimationDidStop()
      requires Valid()
      modifies this
      ensures Valid()
      ensures State() == Cleared(old(State()))
    {
      ClearView();
    }
  }
}
