/** The cancellation flag and message that a Cancellable event carries. */
module Cancellation {
  import opened Results

  /** The abstract value of a cancellable object: its flag and its optional message. */
  datatype CancelState = CancelState(canceled: bool, message: Option<string>)

  const NotCancelled := CancelState(false, None)

  class Cancellable {
    var canceled: bool
    var cancellationMessage: Option<string>

    function State(): CancelState
      reads this
    {
      CancelState(canceled, cancellationMessage)
    }

    /** `isCancelled`: the flag of the abstract state, the one `SetCancelled` last wrote. */
    function IsCancelled(): (b: bool)
      reads this
      ensures b == State().canceled
    {
      canceled
    }

    /** `getCancellationMessage`: the message of the abstract state, null unless one was passed. */
    function GetCancellationMessage(): (m: Option<string>)
      reads this
      ensures m == State().message
    {
      cancellationMessage
    }

    /** A fresh object is not cancelled and has no message. */
    constructor ()
      ensures !IsCancelled() && GetCancellationMessage() == None
      ensures State() == NotCancelled
    {
      canceled := false;
      cancellationMessage := None;
    }

    /**
     * Overwrites both fields; omitting the message resets it to null,
     * and passing false makes the object not cancelled again.
     */
    method SetCancelled(cancel: bool, message: Option<string> := None)
      modifies this
      ensures IsCancelled() == cancel && GetCancellationMessage() == message
      ensures State() == CancelState(cancel, message)
    {
      canceled := cancel;
      cancellationMessage := message;
    }
  }
}
