/** The notification pop-up several pages raise: a kind, a title and a message. */
module Notices {
  datatype NoticeKind = SuccessNotice | WarningNotice | ErrorNotice

  datatype Notice = Notice(kind: NoticeKind, title: string, message: string)

  /** `err.message || fallback`: the thrown message when it is not empty. */
  function MessageOr(message: string, fallback: string): (r: string)
    ensures message != "" ==> r == message
    ensures message == "" ==> r == fallback
  {
    if message != "" then message else fallback
  }
}
