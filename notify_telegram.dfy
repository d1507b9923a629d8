/**
 * The Telegram notifier: an object with a name and a `notify(event,
 * payload)` operation that turns an event into a Telegram message.
 */
module NotifyTelegram {
  import opened Wrappers
  import opened Strings
  import opened JsValue
  import opened Telegram

  /** A notification channel: its name and its (asynchronous) `notify` operation. */
  datatype Notifier = Notifier(name: string, notify: (string, JsVal) -> Outcome)

  const PAID_HEADER: string := "Escalatex: paid request ✅"
  const DEFAULT_TEST_TEXT: string := "Escalatex test notification"

  /** `formatPaid(payload)`: the paid-request lines under this notifier's header, joined by newlines. */
  function FormatPaid(payload: JsVal): string {
    Join(PaidLines(PAID_HEADER, payload), '\n')
  }

  /** Joining lines starts with the first three lines, separated by newlines. */
  lemma JoinBegins(lines: seq<string>)
    requires |lines| >= 3
    ensures StartsWith(Join(lines, '\n'), lines[0] + "\n" + (lines[1] + "\n" + lines[2]))
  {
    var j2 := Join(lines[2..], '\n');
    var j1 := Join(lines[1..], '\n');
    assert lines[1..][0] == lines[1] && lines[1..][1..] == lines[2..];
    assert j1 == lines[1] + "\n" + j2;
    assert Join(lines, '\n') == lines[0] + "\n" + j1;
    JoinStartsWithFirst(lines[2..], '\n');
    StartsWithPrepend(lines[1] + "\n", j2, lines[2]);
    StartsWithPrepend(lines[0] + "\n", j1, lines[1] + "\n" + lines[2]);
  }

  /** A paid message always opens with the header, then the `ID:` and `Title:` lines. */
  lemma FormatPaidBegins(payload: JsVal)
    ensures StartsWith(FormatPaid(payload), PAID_HEADER + "\n"
                         + (("ID: " + ToStr(Get(payload, "requestId"))) + "\n" + ("Title: " + ToStr(Get(payload, "title")))))
  {
    JoinBegins(PaidLines(PAID_HEADER, payload));
  }

  /** A payload that is null or undefined: destructuring it or reading a property of it throws a `TypeError`. */
  predicate Missing(payload: JsVal) {
    payload.Undefined? || payload.Null?
  }

  /** The `TypeError` V8 raises when a property is read from, or destructured out of, a missing payload. */
  function MissingPayloadError(payload: JsVal, destructuring: bool): (r: Outcome)
    requires Missing(payload)
    ensures r.Threw? && r.asString == "TypeError: " + r.message
  {
    var what := if payload.Null? then "null" else "undefined";
    var message :=
      if destructuring then
        "Cannot destructure property 'requestId' of '" + (if payload.Null? then "object null" else "undefined") + "' as it is " + what + "."
      else "Cannot read properties of " + what + " (reading 'text')";
    Threw(message, "TypeError: " + message)
  }

  /**
   * The notifier's `notify`: `paid` sends the formatted payment, `test`
   * sends `payload.text` or a default, every other event is skipped with
   * `{ok: true, skipped: true}` and sends nothing.  For `paid` and `test` a
   * missing payload throws before anything is sent.
   */
  function Notify(env: Env, deliver: JsVal -> Outcome, event: string, payload: JsVal): (r: Outcome)
    ensures event != "paid" && event != "test" ==> r == Returned(Skipped(true))
    ensures (event == "paid" || event == "test") && Missing(payload) ==> r.Threw?
    ensures event == "paid" && !Missing(payload) ==> r == TelegramSend(env, Str(FormatPaid(payload)), deliver)
    ensures event == "test" && !Missing(payload) ==>
              r == TelegramSend(env, Or(Get(payload, "text"), Str(DEFAULT_TEST_TEXT)), deliver)
  {
    if event == "paid" then
      if Missing(payload) then MissingPayloadError(payload, true)
      else TelegramSend(env, Str(FormatPaid(payload)), deliver)
    else if event == "test" then
      if Missing(payload) then MissingPayloadError(payload, false)
      else TelegramSend(env, Or(Get(payload, "text"), Str(DEFAULT_TEST_TEXT)), deliver)
    else Returned(Skipped(true))
  }

  /** `telegramNotifier()`: null unless the bot token and chat id are both set. */
  function TelegramNotifier(env: Env, deliver: JsVal -> Outcome): (n: Option<Notifier>)
    ensures n.Some? <==> TelegramConfigured(env)
    ensures n.Some? ==> n.value.name == "telegram"
    ensures n.Some? ==> forall event, payload :: n.value.notify(event, payload) == Notify(env, deliver, event, payload)
  {
    if !(EnvStr(env, "TELEGRAM_BOT_TOKEN") != "" && EnvStr(env, "TELEGRAM_CHAT_ID") != "") then None
    else Some(Notifier("telegram", (event, payload) => Notify(env, deliver, event, payload)))
  }

  /** A configured notifier delivers a `test` event's text as given, and the default text when there is none. */
  lemma TestEventText(env: Env, deliver: JsVal -> Outcome, text: string)
    requires TelegramConfigured(env)
    ensures Notify(env, deliver, "test", Obj(map["text" := Str(text)]))
            == deliver(Str(if text != "" then text else DEFAULT_TEST_TEXT))
    ensures Notify(env, deliver, "test", Obj(map[])) == deliver(Str(DEFAULT_TEST_TEXT))
  {
  }
}
