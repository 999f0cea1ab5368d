/** The JSON replies of the `/speak_text` endpoints, shared by main.py,
    app.py and mainf.py. */
module Replies {
  import opened Wrappers

  /** `{"status": ..., "message": ...}`. */
  datatype Status = Status(status: string, message: string)

  const NoText: string := "Текст не предоставлен"
  const Sent: string := "Текст отправлен на озвучивание"
  /** The f-string prefix of the catch-all handler; the exception text follows. */
  const SpeakFailure: string := "Ошибка инициализации или озвучивания: "

  /** `not text` for the request's "text" value, a missing key reading as "". */
  predicate NoTextGiven(text: Option<string>)
  {
    text.None? || text.value == []
  }
}
