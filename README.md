# AppLocker PIN lifecycle in Dafny

AppLocker is an iOS lock screen that either creates a new numeric PIN (enter it, then
confirm it) or validates an entered PIN against a known one under an attempt limit. A
biometric check can also unlock a validate screen. This project models the PIN state
machine of the `AppLocker` view controller and proves what it promises:

- when the success callback may fire, and with which PIN;
- that the entry buffer never exceeds four digits;
- that used-up attempts can never succeed.

Files:

- `pin_session.dfy`, module `PinSession`: `ALMode`, the callbacks as values, and
  `LockerState`. `LockerState` holds the controller's fields together with `dismissed`,
  which stands for `dismiss(animated:)`, and `callbacks`, the log of callback invocations.
  It also holds `isSensorsEnabled`, which is not a field of the controller: it is the
  `ALOptions.isSensorsEnabled` option that `present` reads once (line 240), copied into
  the state as configuration.
  The module also has the invariant `Inv` and one function per routine of the controller.
  `Step` feeds one event to the state.
- `pin_properties.dfy`, module `PinProperties`: `Run` processes a sequence of events in
  arrival order. The lemmas there relate whole sequences of key presses, biometric replies
  and animation ends to the callbacks they produce.
- `controller.dfy`, module `Controller`: class `AppLocker`, whose fields mirror the Swift
  fields, plus the constant `isSensorsEnabled` holding the presenter's sensor option. It has one method per routine. Each method is proved to keep `Inv` and to change
  the fields exactly as the matching `PinSession` function says.

The asynchronous completions are taken as synchronous steps:

- the indicator animation before a digit is appended or removed;
- the shake animation whose end clears the buffer.

In the code:

- The PIN is a `string` of the digit characters the keypad appends.
- `onSuccessfulDismiss(mode, pin)` is recorded as `SuccessfulDismiss(Some(mode), Some(pin))`.
- A cancel is recorded as `SuccessfulDismiss(None, None)`.
- `onFailedAttempt(mode)` is recorded as `FailedAttempt(mode)`.

Several behaviours of the Swift code are kept exactly as written:

- A failed validate entry is not cleared at once. The four digits stay in the buffer until
  the shake animation ends (`animationDidStop` → `clearView`). Until then, a digit key does
  nothing and the delete key still removes a digit.
- A mismatched confirmation does not clear `reservedPin`. The restart sets
  `isFirstCreationStep` again, so the next first entry overwrites it.
- `pinAttempts` keeps growing past `validatingMaxAttempts`. An exhausted screen does not
  close itself. Only cancel or a biometric success can end it.

## Model

| member | source | states |
|---|---|---|
| `PinSession.DigitChar` | Source/AppLocker/AppLocker.swift:106 | a digit key appends one character in '0'..'9' that decodes back to the digit |
| `PinSession.Initial` | Source/AppLocker/AppLocker.swift:58-71 | the field initializers: validate mode with an empty PIN and limit 0, empty buffer and reserved PIN, zero attempts, first creation step, nothing reported, not dismissed. The invariant holds |
| `PinSession.Cleared` | Source/AppLocker/AppLocker.swift:162-163 | the buffer becomes empty and no other field changes |
| `PinSession.ModeSet` | Source/AppLocker/AppLocker.swift:71-85 | setting the mode installs the validate PIN and limit, or re-enters the first creation step. No other field changes, and the invariant is kept |
| `PinSession.Presented` | Source/AppLocker/AppLocker.swift:236-241 | a presented screen has the requested mode, an empty buffer, zero attempts, no callbacks and is not dismissed. Creation starts at the first step exactly in create mode. The invariant holds |
| `PinSession.Precreated` | Source/AppLocker/AppLocker.swift:87-90 | the create flow restarts from the first step with an empty buffer. Only the mode, the first-step flag and the buffer change: attempts, reserved PIN, validate PIN and limit, sensor option, callbacks and dismissal are kept |
| `PinSession.Confirmed` | Source/AppLocker/AppLocker.swift:142-152 | the screen is dismissed iff the entry equals the reserved PIN, reporting Create and the reserved PIN. Otherwise one failure is reported, the buffer is emptied and creation restarts |
| `PinSession.CreateAction` | Source/AppLocker/AppLocker.swift:119-128 | the first full entry becomes the reserved PIN and the buffer is emptied, with no callback. A later entry goes to the confirmation |
| `PinSession.ValidateAction` | Source/AppLocker/AppLocker.swift:130-140 | the screen is dismissed iff attempts remain and the entry is the known PIN, reporting that PIN. Otherwise the attempts grow by exactly one and one failure is reported. No other field changes |
| `PinSession.DigitEntered` | Source/AppLocker/AppLocker.swift:104-116 | a digit on a full buffer changes nothing. A digit that does not fill the buffer only appends. The filling digit hands the entry to the mode's action. The bound of 4 is kept |
| `PinSession.Deleted` | Source/AppLocker/AppLocker.swift:100 | delete leaves a prefix one digit shorter, or the empty buffer unchanged. Nothing else changes |
| `PinSession.Cancelled` | Source/AppLocker/AppLocker.swift:205-208 | cancel empties the buffer, reports neither a mode nor a PIN, and dismisses. Nothing else changes |
| `PinSession.BiometricAccepted` | Source/AppLocker/AppLocker.swift:189-195 | a biometric success dismisses iff sensors are enabled, the mode is validate and the screen is still up. It reports the mode with no PIN. Only the callback log and the dismissal change; attempts, buffer and every other field are kept. Otherwise nothing changes |
| `PinSession.Step` | Source/AppLocker/AppLocker.swift:189-220 | one event: a dismissed screen ignores it. Every event keeps the invariant and adds at most one callback. A digit on a full buffer changes nothing, and a digit that does not fill it only appends. Delete leaves a prefix one shorter and nothing else changed. Cancel empties the buffer, reports (nil, nil) and dismisses. A biometric success keeps the attempts and dismisses iff sensors are on in validate mode. A shake end only empties the buffer |
| `PinSession.KeyEvent` | Source/AppLocker/AppLocker.swift:201-212 | tag 1000 is delete, tag 1001 is cancel, and a tag 0..9 is that digit |
| `PinProperties.RunPreservesInv` | Source/AppLocker/AppLocker.swift:105-107 | after any sequence of events the buffer holds at most 4 digit characters. At most one dismissal is ever reported: it is the last callback, and it is reported exactly when the screen is dismissed |
| `PinProperties.DismissedIsFinal` | Source/AppLocker/AppLocker.swift:191-194 | after dismissal no event changes the state or reports anything. A late biometric reply cannot fire twice |
| `PinProperties.ShortEntryIsSilent` | Source/AppLocker/AppLocker.swift:105-114 | digits that do not fill the buffer are appended, and nothing else changes or is reported |
| `PinProperties.EntryCompletes` | Source/AppLocker/AppLocker.swift:107-114 | the digit that fills the buffer hands exactly the typed entry to the mode's action |
| `PinProperties.ValidateEntry` | Source/AppLocker/AppLocker.swift:130-139 | in validate mode, four typed digits succeed iff attempts remain and they are the known PIN, and the success reports them. Otherwise attempts grow by one, one failure is reported, and the entry stays in the buffer. In both cases nothing else changes: mode, known PIN, limit, sensor option, reserved PIN and first-step flag are kept |
| `PinProperties.FirstCreateEntry` | Source/AppLocker/AppLocker.swift:119-124 | the first four digits of create mode become the reserved PIN. The buffer is emptied and nothing is reported |
| `PinProperties.ConfirmEntry` | Source/AppLocker/AppLocker.swift:142-151 | the confirming four digits dismiss iff they equal the reserved PIN, reporting that PIN. Otherwise one failure is reported and creation restarts at the first step |
| `PinProperties.CreatePairSucceeds` | Source/AppLocker/AppLocker.swift:119-145 | the same four digits typed twice in create mode report exactly one success with Create and that PIN, and dismiss |
| `PinProperties.NewCreateSessionSucceeds` | Source/AppLocker/AppLocker.swift:236 | a freshly presented create screen given a PIN twice reports that success and nothing else |
| `PinProperties.MismatchRestartsCreation` | Source/AppLocker/AppLocker.swift:146-150 | a mismatched confirmation reports one failure and returns to the first creation step with an empty buffer. A fresh matching pair afterwards succeeds |
| `PinProperties.ValidateRunReportsOnlyKnownPin` | Source/AppLocker/AppLocker.swift:131-135 | over any events in validate mode, every reported PIN is the known PIN, and attempts remained when the run began. The counter grows by exactly the number of failures reported |
| `PinProperties.ExhaustedAttemptsNeverAcceptPin` | Source/AppLocker/AppLocker.swift:131 | once attempts are used up, no later report carries a PIN, even when the known PIN is typed |
| `PinProperties.ExhaustedSessionStaysOpen` | Source/AppLocker/AppLocker.swift:134-139 | an exhausted validate screen is never dismissed by digits, deletes or shake ends |
| `PinProperties.CancelEndsSession` | Source/AppLocker/AppLocker.swift:205-208 | cancel from any live state reports (nil, nil) exactly once and ends the session. Later events change nothing |
| `PinProperties.BiometricEndsSession` | Source/AppLocker/AppLocker.swift:189-195 | a biometric success on a validate screen reports the mode without the PIN, costs no attempt and ends the session |
| `Controller.AppLocker.Present` | Source/AppLocker/AppLocker.swift:236-241 | the new controller's fields are the presented state, and the invariant holds |
| `Controller.AppLocker.SetMode` | Source/AppLocker/AppLocker.swift:71-85 | fields change as `ModeSet` says, and the invariant is kept |
| `Controller.AppLocker.PrecreateSettings` | Source/AppLocker/AppLocker.swift:87-90 | fields change as `Precreated` says |
| `Controller.AppLocker.ClearView` | Source/AppLocker/AppLocker.swift:162-163 | only the buffer changes, and it becomes empty |
| `Controller.AppLocker.PincodeChecker` | Source/AppLocker/AppLocker.swift:104-116 | fields change as `DigitEntered` says. The buffer bound is kept |
| `Controller.AppLocker.CreateModeAction` | Source/AppLocker/AppLocker.swift:119-128 | fields change as `CreateAction` says |
| `Controller.AppLocker.ValidateModeAction` | Source/AppLocker/AppLocker.swift:130-140 | fields change as `ValidateAction` says |
| `Controller.AppLocker.ConfirmPin` | Source/AppLocker/AppLocker.swift:142-152 | fields change as `Confirmed` says |
| `Controller.AppLocker.DropLastDigit` | Source/AppLocker/AppLocker.swift:100 | fields change as `Deleted` says |
| `Controller.AppLocker.KeyboardPressed` | Source/AppLocker/AppLocker.swift:201-212 | fields change as one `Step` on the key's event says |
| `Controller.AppLocker.BiometricSucceeded` | Source/AppLocker/AppLocker.swift:189-195 | fields change as `BiometricAccepted` says |
| `Controller.AppLocker.AnimationDidStop` | Source/AppLocker/AppLocker.swift:218-220 | only the buffer changes, and it becomes empty |

## Left out

- UIKit outlets, label and subtitle texts, `cancelButton.isHidden`, localized strings,
  `viewDidLoad` and `modalPresentationStyle`: presentation only.
- Indicator filling and clearing, `UIView.animate` timing, the shake animation and the
  vibration: rendering. Only their effect on the buffer is kept, with completions taken as
  synchronous. `animationDidStop` arrives once per indicator in the code, and only after a
  failed entry started the shake. In the model a `ShakeEnd` event may arrive any number
  of times and at any moment, even with no failed entry before it. This allows more
  event sequences than the screen can produce, so the lemmas that hold for every event
  sequence also cover every real one.
- Animation completions still pending at a dismissal: the completion at lines 99-100
  holds `self` strongly, so in the code it can still run after the screen is dismissed.
  Four fast digit presses followed by cancel within the 0.3 s of line 16 report
  `(nil, nil)`; if those digits are the known PIN, a second `onSuccessfulDismiss(mode, pin)`
  follows. Taking completions as synchronous rules this interleaving out, so
  `RunPreservesInv` ("at most one dismissal is reported") and `DismissedIsFinal` hold
  only under that choice.
- `LAContext` policy selection, `canEvaluatePolicy`, `evaluatePolicy` and the
  `DispatchQueue.main.async` hop: platform API and threading. Only the "biometric check
  succeeded" reply is an event. A failed or unavailable check produces no event, so it
  changes nothing.
- BiometricAccepted: at line 191 a `[weak self]` capture decides what happens to a late
  biometric reply. The model drops a biometric reply that arrives after dismissal. The code
  drops it only when the controller has already been freed by the time the main-queue
  block of line 191 runs. Because that capture sits inside the reply closure of line 189,
  the reply closure itself holds the controller strongly until the reply is delivered. The
  model assumes that the controller is freed between its dismissal and the run of that
  main-queue block.
- Nib loading, the presenting view controller and the key window in `present`: only the
  configuration it installs is kept (the mode, the sensor option, and the callbacks as a log).
  A callback the host left `nil` is still recorded in the log.
- KeyboardPressed: the keypad's digit keys carry tags 0..9, and only those tags, 1000 and 1001
  reach `keyboardPressed` in the model. The code would append the decimal text of any other
  tag, possibly several characters long.
- Events after dismissal: a dismissed screen receives no key presses, so `KeyboardPressed`
  requires a live screen. `Step` ignores every event once dismissed. That includes a shake
  end, which in the code would still empty the buffer of the dismissed screen.
- ValidateAction: `pinAttempts` is an unbounded integer. Swift's `pinAttempts += 1`
  (line 135) traps on overflow at `Int.max`. The model does not capture that trap, which
  would take about 2^63 failed entries.
