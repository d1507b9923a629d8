/**
 * Telegram messaging: whether the bot is configured, the guard in front of
 * the Bot API call, and the text of the "paid request" message.  The HTTP
 * exchange with the Bot API itself is a parameter (`deliver`).
 */
module Telegram {
  import opened Strings
  import opened JsValue

  /** What sending a message gives back: the guard's skip, or whatever the Bot API exchange produced. */
  datatype Reply =
    | Skipped(ok: bool)
    | Delivered(response: JsVal)

  /**
   * How an asynchronous call ends: with a value, or with a thrown value whose
   * `message` property and `String()` form are kept.
   */
  datatype Outcome =
    | Returned(reply: Reply)
    | Threw(message: string, asString: string)

  /** `telegramConfigured()`: both the bot token and the chat id are set and non-empty. */
  predicate TelegramConfigured(env: Env) {
    EnvStr(env, "TELEGRAM_BOT_TOKEN") != "" && EnvStr(env, "TELEGRAM_CHAT_ID") != ""
  }

  /**
   * `telegramSend(text)`: without a bot token or chat id it returns
   * `{ok: false, skipped: true}` and makes no call; otherwise the result is
   * the Bot API exchange's.
   */
  function TelegramSend(env: Env, text: JsVal, deliver: JsVal -> Outcome): (r: Outcome)
    ensures !TelegramConfigured(env) ==> r == Returned(Skipped(false))
    ensures TelegramConfigured(env) ==> r == deliver(text)
  {
    if EnvStr(env, "TELEGRAM_BOT_TOKEN") == "" || EnvStr(env, "TELEGRAM_CHAT_ID") == "" then Returned(Skipped(false))
    else deliver(text)
  }

  /** Without configuration the outcome does not depend on the Bot API at all: no request is made. */
  lemma UnconfiguredSendsNothing(env: Env, text: JsVal, deliver: JsVal -> Outcome, deliver': JsVal -> Outcome)
    requires !TelegramConfigured(env)
    ensures TelegramSend(env, text, deliver) == TelegramSend(env, text, deliver')
  {
  }

  /** `if (v) parts.push(line)`. */
  function LineIf(v: JsVal, line: string): seq<string> {
    if Truthy(v) then [line] else []
  }

  /**
   * The lines of a paid-request message: the header, `ID:` and `Title:`,
   * then `Tier/Quote:`, `Tx:` and `Receipt:` for the fields that are truthy.
   */
  function PaidLines(header: string, payload: JsVal): (lines: seq<string>)
    ensures 3 <= |lines| <= 6
    ensures lines[0] == header
    ensures lines[1] == "ID: " + ToStr(Get(payload, "requestId"))
    ensures lines[2] == "Title: " + ToStr(Get(payload, "title"))
    ensures |lines| == 3 + (if Truthy(Get(payload, "quoteUsd")) then 1 else 0)
                         + (if Truthy(Get(payload, "txSig")) then 1 else 0)
                         + (if Truthy(Get(payload, "receiptUrl")) then 1 else 0)
    ensures Truthy(Get(payload, "quoteUsd")) ==> lines[3] == "Tier/Quote: " + ToStr(Get(payload, "quoteUsd")) + " USDC"
    ensures Truthy(Get(payload, "receiptUrl")) ==> lines[|lines| - 1] == "Receipt: " + ToStr(Get(payload, "receiptUrl"))
    ensures Truthy(Get(payload, "txSig")) ==>
              lines[|lines| - 1 - (if Truthy(Get(payload, "receiptUrl")) then 1 else 0)] == "Tx: " + ToStr(Get(payload, "txSig"))
  {
    var quote, tx, receipt := Get(payload, "quoteUsd"), Get(payload, "txSig"), Get(payload, "receiptUrl");
    [header, "ID: " + ToStr(Get(payload, "requestId")), "Title: " + ToStr(Get(payload, "title"))]
    + LineIf(quote, "Tier/Quote: " + ToStr(quote) + " USDC")
    + LineIf(tx, "Tx: " + ToStr(tx))
    + LineIf(receipt, "Receipt: " + ToStr(receipt))
  }

  const PAID_HEADER: string := "Escalatex402: paid request ✅"

  /** `formatPaidNotification(payload)`: the paid-request lines joined by newlines. */
  function FormatPaidNotification(payload: JsVal): string {
    Join(PaidLines(PAID_HEADER, payload), '\n')
  }

  /** The rendered payload fields hold no line break. */
  predicate SingleLineFields(payload: JsVal) {
    '\n' !in ToStr(Get(payload, "requestId")) && '\n' !in ToStr(Get(payload, "title"))
    && '\n' !in ToStr(Get(payload, "quoteUsd")) && '\n' !in ToStr(Get(payload, "txSig"))
    && '\n' !in ToStr(Get(payload, "receiptUrl"))
  }

  lemma PaidLinesSingle(header: string, payload: JsVal)
    requires '\n' !in header && SingleLineFields(payload)
    ensures forall i :: 0 <= i < |PaidLines(header, payload)| ==> '\n' !in PaidLines(header, payload)[i]
  {
    var quote, tx, receipt := Get(payload, "quoteUsd"), Get(payload, "txSig"), Get(payload, "receiptUrl");
    var fixed := [header, "ID: " + ToStr(Get(payload, "requestId")), "Title: " + ToStr(Get(payload, "title"))];
    var q, t, r := LineIf(quote, "Tier/Quote: " + ToStr(quote) + " USDC"), LineIf(tx, "Tx: " + ToStr(tx)),
                   LineIf(receipt, "Receipt: " + ToStr(receipt));
    assert forall i :: 0 <= i < |fixed| ==> '\n' !in fixed[i];
    assert forall i :: 0 <= i < |q| ==> '\n' !in q[i];
    assert forall i :: 0 <= i < |t| ==> '\n' !in t[i];
    assert forall i :: 0 <= i < |r| ==> '\n' !in r[i];
    assert PaidLines(header, payload) == fixed + q + t + r;
  }

  /**
   * Splitting a paid-request message at its newlines gives back its lines:
   * three fixed ones, then up to three optional ones, so 3 to 6 lines.
   */
  lemma FormatPaidNotificationLines(payload: JsVal)
    requires SingleLineFields(payload)
    ensures Split(FormatPaidNotification(payload), '\n') == PaidLines(PAID_HEADER, payload)
    ensures 3 <= |Split(FormatPaidNotification(payload), '\n')| <= 6
  {
    PaidLinesSingle(PAID_HEADER, payload);
    SplitJoin(PaidLines(PAID_HEADER, payload), '\n');
  }
}
