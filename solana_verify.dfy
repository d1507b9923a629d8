/**
 * The USDC payment verifier: given a transaction already fetched from the
 * cluster, decide whether it pays at least the expected amount of USDC to
 * `payTo`, optionally bound to a request by a reference account key and a
 * memo.  The checks run in a fixed order: transaction and metadata present,
 * reference and memo binding (only when one of them is required), then the
 * balance delta of `payTo`'s USDC token accounts.
 */
module SolanaVerify {
  import opened Wrappers
  import opened Strings

  /** The mainnet USDC mint. */
  const USDC_MINT: string := "EPjFWdd5AufqSSqeM2qN1xzybapC8G4wEGGkZwyTDt1v"

  /** The program id of the SPL Memo program. */
  const MEMO_PROGRAM_ID: string := "MemoSq4gqABAXKb96qnH8TysNcWxMyWCqXgDLGmfcHr"

  /** USDC has six decimals: one USDC is 10^6 base units. */
  const BASE_UNITS_PER_USDC: int := 1000000

  /** An entry of `preTokenBalances` / `postTokenBalances`; `amount` is None when `uiTokenAmount.amount` is absent or empty. */
  datatype TokenBalance = TokenBalance(mint: string, owner: string, amount: Option<nat>)

  /** A top-level instruction: an index into the account keys naming its program, and its base64 data. */
  datatype Instruction = Instruction(programIdIndex: int, data: string)

  /** Transaction metadata; a missing balance list is the empty list. */
  datatype TxMeta = TxMeta(preTokenBalances: seq<TokenBalance>, postTokenBalances: seq<TokenBalance>)

  datatype Transaction = Transaction(
    accountKeys: seq<string>,
    instructions: seq<Instruction>,
    meta: Option<TxMeta>,
    slot: int,
    blockTime: Option<int>)

  /** The verifier's arguments; an absent memo or reference is the empty string. */
  datatype VerifyRequest = VerifyRequest(
    txSig: string,
    payTo: string,
    expectedAmountUsdc: real,
    requiredMemo: string,
    requiredReference: string)

  datatype VerifyResult =
    | TxNotFoundOrNoMeta
    | MissingReferenceOrMemo(hasRef: bool, memoOk: bool)
    | InsufficientDelta(deltaBase: int, expectedBase: int)
    | Verified(mint: string, deltaBase: int, expectedBase: int, slot: int, blockTime: Option<int>)
  {
    /** The `ok` field of the result object. */
    predicate Ok() {
      Verified?
    }

    /** The `reason` field of a failed result. */
    function Reason(): string
      requires !Ok()
    {
      match this
      case TxNotFoundOrNoMeta => "tx_not_found_or_no_meta"
      case MissingReferenceOrMemo(_, _) => "missing_reference_or_memo"
      case InsufficientDelta(_, _) => "insufficient_delta"
    }
  }

  /**
   * `Math.round(x * 1_000_000)`: JavaScript rounds halves up.  The result is
   * the integer nearest to the amount in base units.
   */
  function ExpectedBase(amountUsdc: real): (r: int)
    ensures r as real <= amountUsdc * 1000000.0 + 0.5 < r as real + 1.0
  {
    (amountUsdc * 1000000.0 + 0.5).Floor
  }

  /** An amount already given in whole base units scales back exactly. */
  lemma ExpectedBaseOfBaseUnits(n: int)
    ensures ExpectedBase(n as real / 1000000.0) == n
  {
    assert (n as real / 1000000.0) * 1000000.0 == n as real;
  }

  /** Rounding is monotonic: a larger expected amount never needs fewer base units. */
  lemma ExpectedBaseMonotonic(x: real, y: real)
    requires x <= y
    ensures ExpectedBase(x) <= ExpectedBase(y)
  {
  }

  /** A balance entry counts for `owner` when it is a USDC account owned by `owner`. */
  predicate Counts(b: TokenBalance, owner: string) {
    b.mint == USDC_MINT && b.owner == owner
  }

  /** The USDC balance of `owner` summed over the entries that count; entries without an amount add 0. */
  function SumFor(arr: seq<TokenBalance>, owner: string): (r: nat)
    ensures (forall i :: 0 <= i < |arr| ==> !Counts(arr[i], owner)) ==> r == 0
    decreases |arr|
  {
    if |arr| == 0 then 0
    else (if Counts(arr[0], owner) then arr[0].amount.GetOr(0) else 0) + SumFor(arr[1..], owner)
  }

  lemma {:induction false} SumForAppend(a: seq<TokenBalance>, b: seq<TokenBalance>, owner: string)
    ensures SumFor(a + b, owner) == SumFor(a, owner) + SumFor(b, owner)
    decreases |a|
  {
    if |a| == 0 {
      assert a + b == b;
    } else {
      assert (a + b)[0] == a[0] && (a + b)[1..] == a[1..] + b;
      SumForAppend(a[1..], b, owner);
    }
  }

  /** An entry of another mint or another owner, or one without an amount, wherever it sits, does not change the sum. */
  lemma SumForIgnoresOthers(a: seq<TokenBalance>, x: TokenBalance, b: seq<TokenBalance>, owner: string)
    requires !Counts(x, owner) || x.amount.None?
    ensures SumFor(a + [x] + b, owner) == SumFor(a + b, owner)
  {
    SumForAppend(a + [x], b, owner);
    SumForAppend(a, [x], owner);
    SumForAppend(a, b, owner);
  }

  /** The instruction's program id, `keys[programIdIndex]`, is the Memo program; an index out of range names no program. */
  predicate IsMemoInstruction(keys: seq<string>, ix: Instruction) {
    0 <= ix.programIdIndex < |keys| && keys[ix.programIdIndex] == MEMO_PROGRAM_ID
  }

  /** A Memo-program instruction whose decoded data contains `memo`. */
  predicate MemoMatches(keys: seq<string>, ix: Instruction, memo: string, decode: string -> string) {
    IsMemoInstruction(keys, ix) && Contains(decode(ix.data), memo)
  }

  /** Some top-level instruction carries the memo. */
  predicate HasMemo(keys: seq<string>, ixs: seq<Instruction>, memo: string, decode: string -> string) {
    exists i :: 0 <= i < |ixs| && MemoMatches(keys, ixs[i], memo, decode)
  }

  /** Instructions of any program other than the Memo program never decide the memo check. */
  lemma NonMemoInstructionIrrelevant(keys: seq<string>, a: seq<Instruction>, ix: Instruction, b: seq<Instruction>,
                                     memo: string, decode: string -> string)
    requires !IsMemoInstruction(keys, ix)
    ensures HasMemo(keys, a + [ix] + b, memo, decode) == HasMemo(keys, a + b, memo, decode)
  {
    var s, t := a + [ix] + b, a + b;
    if HasMemo(keys, s, memo, decode) {
      var i :| 0 <= i < |s| && MemoMatches(keys, s[i], memo, decode);
      if i < |a| {
        assert t[i] == s[i];
      } else {
        assert i > |a| && t[i - 1] == s[i];
      }
    }
    if HasMemo(keys, t, memo, decode) {
      var i :| 0 <= i < |t| && MemoMatches(keys, t[i], memo, decode);
      if i < |a| {
        assert s[i] == t[i];
      } else {
        assert s[i + 1] == t[i];
      }
    }
  }

  /** A binding is required when a memo or a reference is given. */
  predicate BindingRequired(req: VerifyRequest) {
    req.requiredMemo != "" || req.requiredReference != ""
  }

  /** `hasRef`: no reference is required, or it is one of the account keys. */
  predicate HasRef(t: Transaction, req: VerifyRequest) {
    req.requiredReference == "" || req.requiredReference in t.accountKeys
  }

  /** `memoOk`: no memo is required, or a Memo-program instruction carries it. */
  predicate MemoOk(t: Transaction, req: VerifyRequest, decode: string -> string) {
    req.requiredMemo == "" || HasMemo(t.accountKeys, t.instructions, req.requiredMemo, decode)
  }

  /** The amount `payTo` received: post-balance sum minus pre-balance sum. */
  function Delta(m: TxMeta, payTo: string): int {
    SumFor(m.postTokenBalances, payTo) - SumFor(m.preTokenBalances, payTo)
  }

  /** The verifier's decision, stated as a function of the fetched transaction and the request. */
  function Verification(tx: Option<Transaction>, req: VerifyRequest, decode: string -> string): (r: VerifyResult)
    ensures r.TxNotFoundOrNoMeta? <==> tx.None? || tx.value.meta.None?
    ensures r.Verified? ==> r.mint == USDC_MINT && r.deltaBase >= r.expectedBase
    ensures r.InsufficientDelta? ==> r.deltaBase < r.expectedBase
    ensures r.MissingReferenceOrMemo? ==> BindingRequired(req) && !(r.hasRef && r.memoOk)
  {
    if tx.None? || tx.value.meta.None? then TxNotFoundOrNoMeta
    else
      var t := tx.value;
      if BindingRequired(req) && !(HasRef(t, req) && MemoOk(t, req, decode)) then
        MissingReferenceOrMemo(HasRef(t, req), MemoOk(t, req, decode))
      else
        var delta := Delta(t.meta.value, req.payTo);
        var expected := ExpectedBase(req.expectedAmountUsdc);
        if delta < expected then InsufficientDelta(delta, expected)
        else Verified(USDC_MINT, delta, expected, t.slot, t.blockTime)
  }

  /** `verifyUsdcPayment` after the fetch: a search for the memo that stops at the first match, then the amount check. */
  method VerifyUsdcPayment(tx: Option<Transaction>, req: VerifyRequest, decode: string -> string) returns (r: VerifyResult)
    ensures r == Verification(tx, req, decode)
  {
    if tx.None? || tx.value.meta.None? {
      return TxNotFoundOrNoMeta;
    }
    var t := tx.value;
    var mint := USDC_MINT;
    if req.requiredMemo != "" || req.requiredReference != "" {
      var keys := t.accountKeys;
      var hasRef := if req.requiredReference != "" then req.requiredReference in keys else true;
      var memoOk := true;
      if req.requiredMemo != "" {
        memoOk := false;
        var i := 0;
        while i < |t.instructions|
          invariant 0 <= i <= |t.instructions|
          invariant forall j :: 0 <= j < i ==> !MemoMatches(keys, t.instructions[j], req.requiredMemo, decode)
        {
          var ix := t.instructions[i];
          if 0 <= ix.programIdIndex < |keys| && keys[ix.programIdIndex] == MEMO_PROGRAM_ID {
            var data := decode(ix.data);
            if Contains(data, req.requiredMemo) {
              memoOk := true;
              break;
            }
          }
          i := i + 1;
        }
      }
      if !hasRef || !memoOk {
        return MissingReferenceOrMemo(hasRef, memoOk);
      }
    }
    var m := t.meta.value;
    var preAmt := SumFor(m.preTokenBalances, req.payTo);
    var postAmt := SumFor(m.postTokenBalances, req.payTo);
    var expectedBase := ExpectedBase(req.expectedAmountUsdc);
    var delta := postAmt as int - preAmt as int;
    if delta < expectedBase {
      return InsufficientDelta(delta, expectedBase);
    }
    return Verified(mint, delta, expectedBase, t.slot, t.blockTime);
  }

  /** A missing transaction or missing metadata is reported before any binding or amount is looked at. */
  lemma NotFoundFirst(tx: Option<Transaction>, req: VerifyRequest, decode: string -> string)
    requires tx.None? || tx.value.meta.None?
    ensures !Verification(tx, req, decode).Ok()
    ensures Verification(tx, req, decode).Reason() == "tx_not_found_or_no_meta"
  {
  }

  /**
   * Without a required memo or reference, the account keys, the instructions
   * and the memo decoding play no part: two transactions that differ only
   * there get the same verdict.
   */
  lemma NoBindingOnlyAmountDecides(t: Transaction, t': Transaction, req: VerifyRequest,
                                   decode: string -> string, decode': string -> string)
    requires !BindingRequired(req)
    requires t'.meta == t.meta && t'.slot == t.slot && t'.blockTime == t.blockTime
    ensures Verification(Some(t), req, decode) == Verification(Some(t'), req, decode')
  {
  }

  /** A required reference that is not among the account keys fails the binding and reports `hasRef = false`. */
  lemma MissingReferenceReported(t: Transaction, req: VerifyRequest, decode: string -> string)
    requires t.meta.Some?
    requires req.requiredReference != "" && req.requiredReference !in t.accountKeys
    ensures Verification(Some(t), req, decode) == MissingReferenceOrMemo(false, MemoOk(t, req, decode))
    ensures Verification(Some(t), req, decode).Reason() == "missing_reference_or_memo"
  {
  }

  /** A required memo carried by no Memo-program instruction fails the binding and reports `memoOk = false`. */
  lemma MissingMemoReported(t: Transaction, req: VerifyRequest, decode: string -> string)
    requires t.meta.Some?
    requires req.requiredMemo != ""
    requires forall i :: 0 <= i < |t.instructions| ==> !MemoMatches(t.accountKeys, t.instructions[i], req.requiredMemo, decode)
    ensures Verification(Some(t), req, decode) == MissingReferenceOrMemo(HasRef(t, req), false)
  {
  }

  /**
   * Once the binding passes, the payment is accepted exactly when the delta
   * reaches the expected base amount (overpayment included); otherwise the
   * result reports both numbers.
   */
  lemma AcceptedIffEnough(t: Transaction, req: VerifyRequest, decode: string -> string)
    requires t.meta.Some?
    requires HasRef(t, req) && MemoOk(t, req, decode)
    ensures var delta := Delta(t.meta.value, req.payTo);
            var expected := ExpectedBase(req.expectedAmountUsdc);
            var r := Verification(Some(t), req, decode);
            (r.Ok() <==> delta >= expected)
            && (r.Ok() ==> r == Verified(USDC_MINT, delta, expected, t.slot, t.blockTime))
            && (!r.Ok() ==> r == InsufficientDelta(delta, expected))
  {
  }

  /** Ten USDC paid to `payTo` satisfies a ten-USDC request; one base unit less does not. */
  lemma TenUsdcExample(payTo: string, decode: string -> string)
    ensures var req := VerifyRequest("sig", payTo, 10.0, "", "");
            var paid := TxMeta([], [TokenBalance(USDC_MINT, payTo, Some(10000000))]);
            var short := TxMeta([TokenBalance(USDC_MINT, payTo, Some(1))], [TokenBalance(USDC_MINT, payTo, Some(10000000))]);
            Verification(Some(Transaction([], [], Some(paid), 7, None)), req, decode) == Verified(USDC_MINT, 10000000, 10000000, 7, None)
            && Verification(Some(Transaction([], [], Some(short), 7, None)), req, decode) == InsufficientDelta(9999999, 10000000)
  {
    var paid := [TokenBalance(USDC_MINT, payTo, Some(10000000))];
    assert SumFor(paid, payTo) == 10000000 by {
      assert paid[1..] == [];
    }
    var pre := [TokenBalance(USDC_MINT, payTo, Some(1))];
    assert SumFor(pre, payTo) == 1 by {
      assert pre[1..] == [];
    }
    assert ExpectedBase(10.0) == 10000000;
  }
}
