/** The text-element record shared by the compositor, the text-settings page and the previews. */
module Types {
  import opened Wrappers

  /** The browser's `CanvasTextAlign`. */
  datatype TextAlign = Left | Right | Center | Start | End

  /**
   * One placeable text field. `x` and `y` are percentages of the canvas width and height;
   * `fontSize`, `width`, `height` and `lineHeight` are pixels. The optional fields of the
   * record are `Option`s.
   */
  datatype TextElement = TextElement(
    id: string,
    text: string,
    x: real,
    y: real,
    fontSize: real,
    fontColor: string,
    fontFamily: Option<string>,
    fontWeight: Option<string>,
    textAlign: Option<TextAlign>,
    width: Option<real>,
    height: Option<real>,
    lineHeight: Option<real>)

  /** The delivery state of a certificate batch and of each of its recipients. */
  datatype Status = NotSent | Generated | Sent

  /** A recipient inside a stored certificate batch. */
  datatype BatchRecipient = BatchRecipient(id: string, name: string, email: Option<string>, status: Status, emailSent: Option<bool>)

  /** A record of the `certigen.certificateBatches` storage slot. */
  datatype Batch = Batch(id: string, name: string, createdAt: string, recipients: seq<BatchRecipient>, status: Status)
}
