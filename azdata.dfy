/**
 * The few host (azdata) types the modelled code reads and writes: dialog
 * messages, the dialog or wizard that shows them, and drop-down categories.
 */
module Azdata {
  import opened Wrappers

  datatype MessageLevel = Error | Warning | Information

  datatype DialogMessage = DialogMessage(text: string, level: Option<MessageLevel>)

  /** A dialog or a wizard, as far as its message line goes. */
  class Container {
    var message: Option<DialogMessage>

    constructor (message: Option<DialogMessage>)
      ensures this.message == message
    {
      this.message := message;
    }
  }

  /** A drop-down entry with a value name and a display name. */
  datatype CategoryValue = CategoryValue(name: string, displayName: string)
}
