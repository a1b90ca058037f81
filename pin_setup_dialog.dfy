/** The PIN setup dialog (components/auth/pin-setup-dialog.tsx): a
    two-step machine that takes the PIN, then its confirmation, and writes
    it to the credential store only when both agree. */
module PinSetup {
  import opened Common
  import opened PinAuth
  import opened PinInput

  datatype Step = Enter | Confirm

  /** Which of the dialog's callbacks a handler invoked. */
  datatype Callback = NoCallback | OnComplete | OnSkip

  const MismatchMessage: string := "PINs don't match"

  class PinSetupDialog {
    var pin: string
    var confirmPin: string
    var error: Option<string>
    var step: Step
    const store: CredentialStore

    /** Both fields only ever hold cleaned input, and the confirmation step
        is reached only with a full first PIN. */
    ghost predicate Valid()
      reads this
    {
      IsCleaned(pin) && IsCleaned(confirmPin) && (step == Confirm ==> |pin| == PinLength)
    }

    /** The "Setup PIN" button is enabled only with a full confirmation. */
    predicate SubmitEnabled()
      reads this
    {
      |confirmPin| == PinLength
    }

    constructor (store: CredentialStore)
      ensures Valid() && this.store == store
      ensures pin == "" && confirmPin == "" && error == None && step == Enter
    {
      pin := "";
      confirmPin := "";
      error := None;
      step := Enter;
      this.store := store;
    }

    /** A keystroke goes to the field of the current step; a full first
        PIN moves the dialog to the confirmation step. */
    method HandlePinChange(value: string)
      requires Valid()
      modifies this
      ensures Valid()
      ensures old(step) == Enter ==>
        && pin == CleanPin(value) && confirmPin == old(confirmPin)
        && (step == Confirm <==> |CleanPin(value)| == PinLength)
      ensures old(step) == Confirm ==>
        confirmPin == CleanPin(value) && pin == old(pin) && step == Confirm
      ensures error == old(error)
    {
      var cleaned := CleanPin(value);
      if step == Enter {
        pin := cleaned;
        if |cleaned| == PinLength {
          step := Confirm;
        }
      } else {
        confirmPin := cleaned;
      }
    }

    /** "Setup PIN": on a mismatch start over; otherwise hand the PIN to the
        store and report completion only if the store accepted it. */
    method HandleSubmit() returns (callback: Callback)
      requires Valid()
      modifies this, store
      ensures Valid()
      ensures old(pin) != old(confirmPin) ==>
        && error == Some(MismatchMessage) && pin == "" && confirmPin == "" && step == Enter
        && store.storage == old(store.storage) && callback == NoCallback
      ensures old(pin) == old(confirmPin) ==>
        && pin == old(pin) && confirmPin == old(confirmPin) && step == old(step)
        && store.storage == SetupPinEffect(old(store.storage), store.digest, old(pin))
        && (callback == OnComplete <==> IsValidPin(old(pin)))
        && (callback != OnComplete ==> callback == NoCallback && error == Some(PinFormatMessage))
        && (callback == OnComplete ==> error == old(error))
      ensures old(SubmitEnabled()) && old(pin) == old(confirmPin) ==>
        IsValidPin(old(pin)) && callback == OnComplete
    {
      if pin != confirmPin {
        error := Some(MismatchMessage);
        confirmPin := "";
        step := Enter;
        pin := "";
        return NoCallback;
      }
      var outcome := store.SetupPin(pin);
      if outcome.Pass? {
        callback := OnComplete;
      } else {
        error := Some(outcome.message);
        callback := NoCallback;
      }
    }

    /** "Skip": invoke `onSkip` and nothing else. */
    method Skip() returns (callback: Callback)
      ensures callback == OnSkip
    {
      callback := OnSkip;
    }
  }

  /** Whenever the enabled submit button hands a PIN to the store, that PIN
      passes the store's format check. */
  lemma SubmittedPinIsValid(pin: string, confirmPin: string)
    requires IsCleaned(pin) && IsCleaned(confirmPin)
    requires |confirmPin| == PinLength && pin == confirmPin
    ensures IsValidPin(pin)
  {
  }
}
