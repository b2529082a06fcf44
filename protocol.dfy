/** The messages exchanged over the session's WebSocket (backend/api/websocket.py, module
    docstring) and the entries of the handler's outbound queue. */
module Protocol {
  import opened Wrappers

  /** A server-to-client message. */
  datatype Message =
    | Status(content: string)
    | Meta(subject: Option<string>, topic: Option<string>)
    | Title(content: string)
    | SectionStart(sectionId: int)
    | Audio(sectionId: int, data: string)
    | Text(sectionId: int, content: string)
    | ImageUrl(sectionId: int, url: string, caption: string)
    | SectionEnd(sectionId: int)
    | Error(content: string)
    | Done

  /** An entry of the outbound queue: a message to send, or the `None` that tells the
      sender to stop. */
  datatype Item = Queued(msg: Message) | EndOfStream

  /** A client frame after JSON decoding: an object, of which only the members the handler
      reads are kept, or any other JSON value, on which the handler's `msg.get` raises
      `exception`. */
  datatype Json =
    | Object(kind: Option<string>, data: Option<string>, text: Option<string>)
    | NonObject(exception: string)

  /** What one received text frame decodes to. */
  type Frame = JsonResult<Json>

  const EmptyPhoto: string := "Empty photo data."
  const PhotoReceived: string := "Photo received. Ask your question!"
  const EmptyQuestion: string := "Question text is empty."
  const NoPhoto: string := "Please capture a photo first."

  /** A frame the handler ignores: text that is not JSON, or an object whose `type` is none
      of the three the protocol defines. */
  predicate Inert(f: Frame) {
    f.Invalid? || (f.value.Object? && f.value.kind !in {Some("photo"), Some("question"), Some("stop")})
  }

  /** A frame asking the server to stop. */
  predicate IsStop(f: Frame) {
    f.Parsed? && f.value.Object? && f.value.kind == Some("stop")
  }
}
