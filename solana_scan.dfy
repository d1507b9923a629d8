/**
 * The payment scanner: walk the most recent signatures of the recipient's
 * address, newest first, and report the first one the verifier accepts.
 */
module SolanaScan {
  import opened Wrappers
  import opened SolanaVerify

  /** The number of signatures requested when the caller gives no limit. */
  const DEFAULT_LIMIT: nat := 20

  /** The scanner's arguments; `limit` is None when the caller leaves it out. */
  datatype ScanRequest = ScanRequest(
    payTo: string,
    expectedAmountUsdc: real,
    requiredMemo: string,
    requiredReference: string,
    limit: Option<nat>)

  datatype ScanResult =
    | Found(txSig: string, details: VerifyResult)
    | NotFoundInRecent(checked: nat)
  {
    /** The `reason` field of a failed scan. */
    function Reason(): string
      requires NotFoundInRecent?
    {
      "not_found_in_recent"
    }
  }

  /** The arguments the scanner hands the verifier for one signature: only `txSig` varies. */
  function RequestFor(sig: string, req: ScanRequest): (v: VerifyRequest)
    ensures v.txSig == sig && v.payTo == req.payTo && v.expectedAmountUsdc == req.expectedAmountUsdc
    ensures v.requiredMemo == req.requiredMemo && v.requiredReference == req.requiredReference
  {
    VerifyRequest(sig, req.payTo, req.expectedAmountUsdc, req.requiredMemo, req.requiredReference)
  }

  /**
   * `getSignaturesForAddress(addr, { limit })`: the newest `limit`
   * signatures of the address's history (newest first), 20 by default.
   */
  function RecentSignatures(history: seq<string>, limit: Option<nat>): (sigs: seq<string>)
    ensures |sigs| <= limit.GetOr(DEFAULT_LIMIT) && |sigs| <= |history|
    ensures |sigs| == |history| || |sigs| == limit.GetOr(DEFAULT_LIMIT)
    ensures sigs == history[..|sigs|]
  {
    var n := limit.GetOr(DEFAULT_LIMIT);
    if |history| <= n then history else history[..n]
  }

  /** The verifier accepts the payment with signature `sig`. */
  predicate Accepts(verify: VerifyRequest -> VerifyResult, sig: string, req: ScanRequest) {
    verify(RequestFor(sig, req)).Ok()
  }

  /**
   * `scanForPayment` once the signature list has been fetched: the first
   * accepted signature with the verifier's own result as details, or
   * `not_found_in_recent` with the number of signatures checked.
   */
  method ScanForPayment(req: ScanRequest, history: seq<string>, verify: VerifyRequest -> VerifyResult)
    returns (r: ScanResult)
    ensures var sigs := RecentSignatures(history, req.limit);
            r.Found? ==> exists k :: 0 <= k < |sigs| && sigs[k] == r.txSig
                                    && r.details == verify(RequestFor(sigs[k], req)) && r.details.Ok()
                                    && forall j :: 0 <= j < k ==> !Accepts(verify, sigs[j], req)
    ensures var sigs := RecentSignatures(history, req.limit);
            r.NotFoundInRecent? ==> r.checked == |sigs| && forall j :: 0 <= j < |sigs| ==> !Accepts(verify, sigs[j], req)
    ensures var sigs := RecentSignatures(history, req.limit);
            r.Found? <==> exists k :: 0 <= k < |sigs| && Accepts(verify, sigs[k], req)
    ensures |history| == 0 ==> r == NotFoundInRecent(0)
  {
    var sigs := RecentSignatures(history, req.limit);
    for i := 0 to |sigs|
      invariant forall j :: 0 <= j < i ==> !Accepts(verify, sigs[j], req)
    {
      var v := verify(RequestFor(sigs[i], req));
      if v.Ok() {
        return Found(sigs[i], v);
      }
    }
    return NotFoundInRecent(|sigs|);
  }
}
