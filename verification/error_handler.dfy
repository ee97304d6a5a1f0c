/** `parseApiError`: one user-facing Turkish message for any failed request. */
module ErrorHandler {
  import opened Wrappers
  import opened Js

  /**
   * A failed request as the client reports it: `status` (a number, or a
   * string such as "FETCH_ERROR"), `error` (a code string),
   * `data.message` from the server, and `message`.
   */
  datatype ApiError = ApiError(status: Json, code: Option<string>, serverMessage: Option<string>, message: Option<string>)

  const UnknownError := "Bilinmeyen bir hata oluştu"
  const NetworkError := "Sunucuya bağlanılamıyor. Lütfen internet bağlantınızı kontrol edin."
  const TimeoutError := "İstek zaman aşımına uğradı. Lütfen tekrar deneyin."
  const GenericError := "Bilinmeyen bir hata oluştu. Lütfen tekrar deneyin."

  /** The fixed message for each HTTP status the switch names. */
  function StatusMessage(status: int): (m: Option<string>)
    ensures m.Some? <==> status in {400, 401, 403, 404, 409, 422, 429, 500, 502, 503}
    ensures m.Some? ==> m.value != ""
  {
    if status == 400 then Some("Geçersiz istek. Lütfen girdiğiniz bilgileri kontrol edin.")
    else if status == 401 then Some("Oturumunuz sona ermiş. Lütfen tekrar giriş yapın.")
    else if status == 403 then Some("Bu işlem için yetkiniz bulunmuyor.")
    else if status == 404 then Some("İstenen kaynak bulunamadı.")
    else if status == 409 then Some("Bu işlem çakışma yaratıyor. Lütfen tekrar deneyin.")
    else if status == 422 then Some("Gönderilen veriler geçersiz. Lütfen kontrol edin.")
    else if status == 429 then Some("Çok fazla istek gönderdiniz. Lütfen bir süre sonra tekrar deneyin.")
    else if status == 500 then Some("Sunucu hatası. Lütfen daha sonra tekrar deneyin.")
    else if status == 502 then Some("Sunucu geçici olarak kullanılamıyor.")
    else if status == 503 then Some("Servis şu anda kullanılamıyor. Lütfen daha sonra tekrar deneyin.")
    else None
  }

  /** The switch's default: the status as the template literal renders it. */
  function DefaultStatusMessage(status: Json): string {
    "Bir hata oluştu (" + Display(status) + "). Lütfen tekrar deneyin."
  }

  predicate IsNetworkFailure(e: ApiError) {
    e.status == JStr("FETCH_ERROR") || e.code == Some("FETCH_ERROR")
  }

  predicate IsTimeout(e: ApiError) {
    e.status == JStr("TIMEOUT_ERROR") || e.code == Some("TIMEOUT_ERROR")
  }

  function ParseApiError(error: Option<ApiError>): (m: string)
    ensures m != ""
    ensures error.None? ==> m == UnknownError
    ensures error.Some? && IsNetworkFailure(error.value) ==> m == NetworkError
    ensures error.Some? && !IsNetworkFailure(error.value) && IsTimeout(error.value) ==> m == TimeoutError
  {
    match error
    case None => UnknownError
    case Some(e) =>
      if IsNetworkFailure(e) then NetworkError
      else if IsTimeout(e) then TimeoutError
      else if NonEmpty(e.serverMessage).Some? then e.serverMessage.value
      else if Truthy(e.status) then
        (if e.status.JNum? && StatusMessage(e.status.n).Some? then StatusMessage(e.status.n).value
         else DefaultStatusMessage(e.status))
      else if NonEmpty(e.message).Some? then e.message.value
      else GenericError
  }

  /** The server's own message outranks every status and the client's message, but not a network failure or time-out. */
  lemma ServerMessageWins(e: ApiError)
    requires !IsNetworkFailure(e) && !IsTimeout(e)
    requires e.serverMessage.Some? && e.serverMessage.value != ""
    ensures ParseApiError(Some(e)) == e.serverMessage.value
  {
  }

  /**
   * A named status without a server message gets its fixed text, whatever
   * `message` says and whatever error code other than a network failure or
   * a time-out comes with it.
   */
  lemma KnownStatusMessage(e: ApiError)
    requires e.status.JNum? && StatusMessage(e.status.n).Some?
    requires !IsNetworkFailure(e) && !IsTimeout(e) && NonEmpty(e.serverMessage).None?
    ensures ParseApiError(Some(e)) == StatusMessage(e.status.n).value
  {
    assert e.status.n != 0;
  }

  /** Any other truthy status, numeric or not, produces the default text that quotes it. */
  lemma UnknownStatusQuoted(e: ApiError)
    requires Truthy(e.status) && !IsNetworkFailure(e) && !IsTimeout(e) && NonEmpty(e.serverMessage).None?
    requires !(e.status.JNum? && StatusMessage(e.status.n).Some?)
    ensures ParseApiError(Some(e)) == DefaultStatusMessage(e.status)
  {
  }

  /** The client's `message` is used only when there is neither a server message nor a status. */
  lemma ClientMessageLast(e: ApiError)
    requires !IsNetworkFailure(e) && !IsTimeout(e)
    ensures NonEmpty(e.serverMessage).None? && !Truthy(e.status) && NonEmpty(e.message).Some? ==>
              ParseApiError(Some(e)) == e.message.value
    ensures NonEmpty(e.serverMessage).None? && !Truthy(e.status) && NonEmpty(e.message).None? ==>
              ParseApiError(Some(e)) == GenericError
  {
  }
}
