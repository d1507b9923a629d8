/**
 * Notifier fan-out: the notifiers the environment configures, and
 * `notifyAll`, which calls each of them in turn and records one result per
 * notifier whether it returned or threw.
 */
module Notify {
  import opened Wrappers
  import opened JsValue
  import opened Telegram
  import opened NotifyTelegram

  /** One entry of `notifyAll`'s result list. */
  datatype NotifyResult =
    | Success(provider: string, result: Reply)
    | Failure(provider: string, error: string)

  /** `e?.message || String(e)`. */
  function ErrorText(message: string, asString: string): (t: string)
    ensures message != "" ==> t == message
    ensures message == "" ==> t == asString
  {
    if message != "" then message else asString
  }

  /** `getNotifiersFromEnv()`: the Telegram notifier when it is configured, and nothing else. */
  function GetNotifiersFromEnv(env: Env, deliver: JsVal -> Outcome): (list: seq<Notifier>)
    ensures |list| <= 1
    ensures |list| == 1 <==> TelegramConfigured(env)
    ensures |list| == 1 ==> list[0] == TelegramNotifier(env, deliver).value && list[0].name == "telegram"
  {
    var tg := TelegramNotifier(env, deliver);
    if tg.Some? then [tg.value] else []
  }

  /** `anyNotifierConfigured(notifiers)`: an array (Some) with at least one notifier. */
  predicate AnyNotifierConfigured(notifiers: Option<seq<Notifier>>) {
    notifiers.Some? && |notifiers.value| > 0
  }

  /** Whatever the environment, the notifier list built from it counts as configured exactly when Telegram is. */
  lemma ConfiguredFromEnv(env: Env, deliver: JsVal -> Outcome)
    ensures AnyNotifierConfigured(Some(GetNotifiersFromEnv(env, deliver))) <==> TelegramConfigured(env)
  {
  }

  /** The entry `notifyAll` records for one notifier's outcome. */
  function ResultFor(n: Notifier, outcome: Outcome): (r: NotifyResult)
    ensures r.provider == n.name
    ensures r.Success? <==> outcome.Returned?
  {
    match outcome
    case Returned(reply) => Success(n.name, reply)
    case Threw(message, asString) => Failure(n.name, ErrorText(message, asString))
  }

  /** A `paid` or `test` event without a payload is recorded as a Telegram failure carrying the `TypeError`'s message. */
  lemma MissingPayloadRecordedAsFailure(env: Env, deliver: JsVal -> Outcome, event: string, payload: JsVal)
    requires TelegramConfigured(env)
    requires event == "paid" || event == "test"
    requires Missing(payload)
    ensures var n := TelegramNotifier(env, deliver).value;
            var r := ResultFor(n, n.notify(event, payload));
            r.Failure? && r.provider == "telegram" && r.error == n.notify(event, payload).message
  {
    var n := TelegramNotifier(env, deliver).value;
    assert n.notify(event, payload) == Notify(env, deliver, event, payload);
  }

  /**
   * `notifyAll`: every notifier is called, in order, even after an earlier
   * one threw; the i-th result is the i-th notifier's.
   */
  method NotifyAll(notifiers: seq<Notifier>, event: string, payload: JsVal) returns (results: seq<NotifyResult>)
    ensures |results| == |notifiers|
    ensures forall i :: 0 <= i < |notifiers| ==> results[i] == ResultFor(notifiers[i], notifiers[i].notify(event, payload))
    ensures forall i :: 0 <= i < |notifiers| ==> results[i].provider == notifiers[i].name
  {
    results := [];
    for i := 0 to |notifiers|
      invariant |results| == i
      invariant forall j :: 0 <= j < i ==> results[j] == ResultFor(notifiers[j], notifiers[j].notify(event, payload))
    {
      var n := notifiers[i];
      var outcome := n.notify(event, payload);
      match outcome {
        case Returned(r) =>
          results := results + [Success(n.name, r)];
        case Threw(message, asString) =>
          results := results + [Failure(n.name, ErrorText(message, asString))];
      }
    }
  }
}
