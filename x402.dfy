/**
 * The HTTP 402 "payment required" body: what a client must pay, to whom,
 * and the Solana Pay URL that performs the payment.
 */
module X402 {
  import opened Wrappers
  import opened JsValue
  import SolanaPay
  import FormUrlEncoded

  /** The `payment` object of the body. */
  datatype PaymentDetails = PaymentDetails(
    token: string,
    mint: string,
    amount: string,
    recipient: string,
    reference: string,
    memo: string,
    payUrl: string,
    expiresAt: JsVal)

  /** The 402 body; `kind` is its `type` field. */
  datatype PaymentRequired = PaymentRequired(
    error: string,
    kind: string,
    requestId: string,
    network: string,
    payment: PaymentDetails,
    retryUrl: string)

  /**
   * `build402Payload`: fixed `error`, `type` and `network`, the amount
   * rendered with `String(amountUsd)`, every other field copied as given.
   */
  function Build402Payload(requestId: string, amountUsd: JsVal, token: string, payTo: string, reference: string,
                           memo: string, mint: string, payUrl: string, expiresAt: JsVal, retryUrl: string)
    : (p: PaymentRequired)
    ensures p.error == "payment_required" && p.kind == "x402-payment-required" && p.network == "solana"
    ensures p.payment.amount == ToStr(amountUsd)
    ensures p.payment.token == token && p.payment.mint == mint && p.payment.recipient == payTo
    ensures p.payment.reference == reference && p.payment.memo == memo
    ensures p.payment.payUrl == payUrl && p.payment.expiresAt == expiresAt
    ensures p.requestId == requestId && p.retryUrl == retryUrl
  {
    PaymentRequired(
      "payment_required",
      "x402-payment-required",
      requestId,
      "solana",
      PaymentDetails(token, mint, ToStr(amountUsd), payTo, reference, memo, payUrl, expiresAt),
      retryUrl)
  }

  /**
   * When `pay_url` is the Solana Pay URL built from the same recipient,
   * amount, reference, memo and mint, a wallet reading that URL sees exactly
   * the amount, mint, reference and memo the body states.
   */
  lemma PayUrlAgreesWithPayload(requestId: string, amountUsd: JsVal, token: string, payTo: string,
                                reference: string, memo: string, mint: string, labelText: string, message: string,
                                expiresAt: JsVal, retryUrl: string)
    requires reference != "" && memo != ""
    ensures var payUrl := SolanaPay.UrlPrefix(payTo)
                          + FormUrlEncoded.Serialize(SolanaPay.TransferParams(amountUsd, reference, memo, labelText, message, Some(mint)));
            var p := Build402Payload(requestId, amountUsd, token, payTo, reference, memo, mint, payUrl, expiresAt, retryUrl);
            var q := FormUrlEncoded.Parse(p.payment.payUrl[|SolanaPay.UrlPrefix(p.payment.recipient)|..]);
            SolanaPay.Lookup(q, "amount") == Some(p.payment.amount)
            && SolanaPay.Lookup(q, "spl-token") == Some(p.payment.mint)
            && SolanaPay.Lookup(q, "reference") == Some(p.payment.reference)
            && SolanaPay.Lookup(q, "memo") == Some(p.payment.memo)
  {
    SolanaPay.PayUrlRoundTrip(payTo, amountUsd, reference, memo, labelText, message, Some(mint));
  }
}
