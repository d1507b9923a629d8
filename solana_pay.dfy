/**
 * Payment intents: the memo that ties a payment to a request, and the
 * Solana Pay transfer-request URL `solana:<recipient>?<query>` whose query is
 * built with `URLSearchParams` and serialized as
 * application/x-www-form-urlencoded.
 */
module SolanaPay {
  import opened Wrappers
  import opened Strings
  import opened JsValue
  import opened FormUrlEncoded

  /** The mainnet USDC mint, the default `spl-token`. */
  const USDC_MINT: string := "EPjFWdd5AufqSSqeM2qN1xzybapC8G4wEGGkZwyTDt1v"

  const MEMO_PREFIX: string := "Escalatex402:REQ:"
  const MEMO_SEPARATOR: string := ":REF:"

  /** `Escalatex402:REQ:<requestId>:REF:<reference>`. */
  function MakePaymentMemo(requestId: string, reference: string): (m: string)
    ensures StartsWith(m, MEMO_PREFIX)
    ensures Contains(m, requestId) && Contains(m, reference)
  {
    ContainsConcat(MEMO_PREFIX, requestId, MEMO_SEPARATOR + reference);
    assert MEMO_PREFIX + requestId + MEMO_SEPARATOR + reference == MEMO_PREFIX + requestId + (MEMO_SEPARATOR + reference);
    ContainsConcat(MEMO_PREFIX + requestId + MEMO_SEPARATOR, reference, "");
    assert MEMO_PREFIX + requestId + MEMO_SEPARATOR + reference + "" == MEMO_PREFIX + requestId + MEMO_SEPARATOR + reference;
    MEMO_PREFIX + requestId + MEMO_SEPARATOR + reference
  }

  /** Reads a memo back: the request id runs up to the first `:` after the prefix. */
  function ParsePaymentMemo(m: string): Option<(string, string)> {
    if !StartsWith(m, MEMO_PREFIX) then None
    else
      var rest := m[|MEMO_PREFIX|..];
      var k := IndexOfChar(rest, ':');
      if StartsWith(rest[k..], MEMO_SEPARATOR) then Some((rest[..k], rest[k + |MEMO_SEPARATOR|..]))
      else None
  }

  /** The memo of a request id without `:` (a UUID, say) gives back its request id and reference. */
  lemma MemoRoundTrip(requestId: string, reference: string)
    requires ':' !in requestId
    ensures ParsePaymentMemo(MakePaymentMemo(requestId, reference)) == Some((requestId, reference))
  {
    var m := MakePaymentMemo(requestId, reference);
    var rest := m[|MEMO_PREFIX|..];
    assert rest == requestId + (MEMO_SEPARATOR + reference);
    assert rest[|requestId|] == ':';
    assert IndexOfChar(rest, ':') == |requestId|;
    assert rest[|requestId|..] == MEMO_SEPARATOR + reference;
  }

  /** Distinct requests (ids without `:`) or distinct references never share a memo. */
  lemma MemoInjective(id1: string, ref1: string, id2: string, ref2: string)
    requires ':' !in id1 && ':' !in id2
    requires MakePaymentMemo(id1, ref1) == MakePaymentMemo(id2, ref2)
    ensures id1 == id2 && ref1 == ref2
  {
    MemoRoundTrip(id1, ref1);
    MemoRoundTrip(id2, ref2);
  }

  // ---- URLSearchParams ----

  type Params = seq<(string, string)>

  /** The index of the first pair named `name`, or `|l|`. */
  function IndexOfName(l: Params, name: string): (k: nat)
    ensures k <= |l|
    ensures k < |l| ==> l[k].0 == name
    ensures forall i :: 0 <= i < k ==> l[i].0 != name
    decreases |l|
  {
    if |l| == 0 || l[0].0 == name then 0 else 1 + IndexOfName(l[1..], name)
  }

  /** `params.get(name)`: the value of the first pair named `name`. */
  function Lookup(l: Params, name: string): Option<string>
    decreases |l|
  {
    if |l| == 0 then None
    else if l[0].0 == name then Some(l[0].1)
    else Lookup(l[1..], name)
  }

  /** The pairs not named `name`, in order. */
  function RemoveName(l: Params, name: string): (r: Params)
    ensures forall i :: 0 <= i < |r| ==> r[i].0 != name
    decreases |l|
  {
    if |l| == 0 then []
    else (if l[0].0 == name then [] else [l[0]]) + RemoveName(l[1..], name)
  }

  /**
   * `params.set(name, value)`: the first pair named `name` takes the new
   * value and the other pairs of that name are removed; with no such pair the
   * new pair is appended.
   */
  function SetParam(l: Params, name: string, value: string): Params {
    var k := IndexOfName(l, name);
    if k == |l| then l + [(name, value)]
    else l[..k] + [(name, value)] + RemoveName(l[k + 1..], name)
  }

  lemma {:induction false} LookupAppend(a: Params, b: Params, name: string)
    ensures Lookup(a + b, name) == if Lookup(a, name).Some? then Lookup(a, name) else Lookup(b, name)
    decreases |a|
  {
    if |a| == 0 {
      assert a + b == b;
    } else {
      assert (a + b)[0] == a[0] && (a + b)[1..] == a[1..] + b;
      LookupAppend(a[1..], b, name);
    }
  }

  lemma {:induction false} LookupRemove(l: Params, name: string, other: string)
    requires other != name
    ensures Lookup(RemoveName(l, name), other) == Lookup(l, other)
    decreases |l|
  {
    if |l| > 0 {
      LookupRemove(l[1..], name, other);
      LookupAppend(if l[0].0 == name then [] else [l[0]], RemoveName(l[1..], name), other);
    }
  }

  lemma {:induction false} LookupAbsent(l: Params, name: string)
    requires forall i :: 0 <= i < |l| ==> l[i].0 != name
    ensures Lookup(l, name) == None
    decreases |l|
  {
    if |l| > 0 {
      LookupAbsent(l[1..], name);
    }
  }

  /** After `set(name, value)`, `get(name)` is `value` and every other name keeps its value. */
  lemma SetParamLookup(l: Params, name: string, value: string, other: string)
    ensures Lookup(SetParam(l, name, value), name) == Some(value)
    ensures other != name ==> Lookup(SetParam(l, name, value), other) == Lookup(l, other)
  {
    var k := IndexOfName(l, name);
    LookupAbsent(l[..k], name);
    if k == |l| {
      LookupAppend(l, [(name, value)], name);
      LookupAppend(l, [(name, value)], other);
      assert l[..k] == l;
      if other != name && Lookup(l, other).None? {
        assert Lookup([(name, value)], other) == None by {
          assert [(name, value)][1..] == [];
        }
      }
    } else {
      var pre, rest := l[..k], RemoveName(l[k + 1..], name);
      assert SetParam(l, name, value) == pre + ([(name, value)] + rest);
      LookupAppend(pre, [(name, value)] + rest, name);
      LookupAppend(pre, [(name, value)] + rest, other);
      if other != name {
        assert ([(name, value)] + rest)[1..] == rest;
        LookupRemove(l[k + 1..], name, other);
        assert l == pre + ([l[k]] + l[k + 1..]);
        LookupAppend(pre, [l[k]] + l[k + 1..], other);
        assert ([l[k]] + l[k + 1..])[1..] == l[k + 1..];
      }
    }
  }

  /** Setting a name the list does not hold yet appends the pair. */
  lemma SetParamFresh(l: Params, name: string, value: string)
    requires forall i :: 0 <= i < |l| ==> l[i].0 != name
    ensures SetParam(l, name, value) == l + [(name, value)]
  {
  }

  /** A `URLSearchParams` object: its list of name/value pairs, in order. */
  class SearchParams {
    var list: Params

    /** `new URLSearchParams()`. */
    constructor()
      ensures list == []
    {
      list := [];
    }

    method Set(name: string, value: string)
      modifies this
      ensures list == SetParam(old(list), name, value)
    {
      list := SetParam(list, name, value);
    }

    /** `params.toString()`. */
    function ToString(): string
      reads this
    {
      Serialize(list)
    }
  }

  // ---- the transfer request ----

  /** The query parameters of a transfer request, in the order they are set. */
  const PARAM_ORDER: seq<string> := ["amount", "spl-token", "reference", "memo", "label", "message"]

  /** The position of a parameter name in `PARAM_ORDER`. */
  function Rank(name: string): nat {
    if name == "amount" then 0 else if name == "spl-token" then 1 else if name == "reference" then 2
    else if name == "memo" then 3 else if name == "label" then 4 else 5
  }

  /** Every name in `l` comes before position `r` of `PARAM_ORDER`. */
  predicate RanksBelow(l: Params, r: nat) {
    forall i :: 0 <= i < |l| ==> Rank(l[i].0) < r
  }

  /** Setting a parameter later in `PARAM_ORDER` than every name present appends it. */
  lemma SetInOrder(l: Params, name: string, value: string)
    requires RanksBelow(l, Rank(name))
    ensures SetParam(l, name, value) == l + [(name, value)]
    ensures RanksBelow(l + [(name, value)], Rank(name) + 1)
  {
    SetParamFresh(l, name, value);
  }

  /** The pair a truthy optional parameter contributes; an empty one contributes none. */
  function Optional(name: string, value: string): Params {
    if value != "" then [(name, value)] else []
  }

  lemma LookupOne(n: string, v: string, name: string)
    ensures Lookup([(n, v)], name) == if n == name then Some(v) else None
  {
    assert [(n, v)][1..] == [];
  }

  lemma LookupOptional(n: string, v: string, name: string)
    ensures Lookup(Optional(n, v), name) == if n == name && v != "" then Some(v) else None
  {
    if v != "" {
      assert Optional(n, v)[1..] == [];
    }
  }

  /** The pair list `buildSolanaPayUrl` sets up: an optional parameter appears only when it is non-empty. */
  function TransferParams(amount: JsVal, reference: string, memo: string, labelText: string, message: string,
                          mint: Option<string>): (p: Params)
    ensures |p| >= 2 && p[0] == ("amount", ToStr(amount)) && p[1] == ("spl-token", mint.GetOr(USDC_MINT))
  {
    [("amount", ToStr(amount)), ("spl-token", mint.GetOr(USDC_MINT))]
    + Optional("reference", reference) + Optional("memo", memo)
    + Optional("label", labelText) + Optional("message", message)
  }

  /** The parameters come in the fixed order amount, spl-token, reference, memo, label, message, each at most once. */
  lemma TransferParamsOrdered(amount: JsVal, reference: string, memo: string, labelText: string, message: string,
                              mint: Option<string>)
    ensures var p := TransferParams(amount, reference, memo, labelText, message, mint);
            (forall i :: 0 <= i < |p| ==> p[i].0 in PARAM_ORDER)
            && forall i, j :: 0 <= i < j < |p| ==> Rank(p[i].0) < Rank(p[j].0)
  {
    var l0: Params := [("amount", ToStr(amount)), ("spl-token", mint.GetOr(USDC_MINT))];
    assert Ranked(l0) && RanksBelow(l0, 2);
    var l1 := l0 + Optional("reference", reference);
    AppendOptionalRanked(l0, "reference", reference);
    var l2 := l1 + Optional("memo", memo);
    AppendOptionalRanked(l1, "memo", memo);
    var l3 := l2 + Optional("label", labelText);
    AppendOptionalRanked(l2, "label", labelText);
    AppendOptionalRanked(l3, "message", message);
  }

  /** Every name is in `PARAM_ORDER`, and the names come in strictly increasing rank. */
  predicate Ranked(l: Params) {
    && (forall i :: 0 <= i < |l| ==> l[i].0 in PARAM_ORDER)
    && forall i, j :: 0 <= i < j < |l| ==> Rank(l[i].0) < Rank(l[j].0)
  }

  lemma AppendOptionalRanked(l: Params, name: string, value: string)
    requires name in PARAM_ORDER && Ranked(l) && RanksBelow(l, Rank(name))
    ensures Ranked(l + Optional(name, value)) && RanksBelow(l + Optional(name, value), Rank(name) + 1)
  {
    var t := l + Optional(name, value);
    forall i | 0 <= i < |t| ensures t[i].0 in PARAM_ORDER && Rank(t[i].0) < Rank(name) + 1 {
      if i < |l| {
        assert t[i] == l[i];
      }
    }
    forall i, j | 0 <= i < j < |t| ensures Rank(t[i].0) < Rank(t[j].0) {
      assert t[i] == l[i];
      if j < |l| {
        assert t[j] == l[j];
      }
    }
  }

  /** `solana:<recipient>?` */
  function UrlPrefix(recipient: string): string {
    "solana:" + recipient + "?"
  }

  /** `if (value) params.set(name, value)`, for a name later in `PARAM_ORDER` than those already set. */
  method SetIfTruthy(qs: SearchParams, name: string, value: string)
    requires RanksBelow(qs.list, Rank(name))
    modifies qs
    ensures qs.list == old(qs.list) + Optional(name, value)
    ensures RanksBelow(qs.list, Rank(name) + 1)
  {
    if value != "" {
      SetInOrder(qs.list, name, value);
      qs.Set(name, value);
    }
  }

  /** `buildSolanaPayUrl`; `mint` is None when the caller leaves it out, and absent optional strings are empty. */
  method BuildSolanaPayUrl(recipient: string, amount: JsVal, reference: string, memo: string, labelText: string,
                           message: string, mint: Option<string>) returns (url: string)
    ensures url == UrlPrefix(recipient) + Serialize(TransferParams(amount, reference, memo, labelText, message, mint))
  {
    var base := "solana:" + recipient;
    var qs := new SearchParams();
    SetInOrder(qs.list, "amount", ToStr(amount));
    qs.Set("amount", ToStr(amount));
    SetInOrder(qs.list, "spl-token", mint.GetOr(USDC_MINT));
    qs.Set("spl-token", mint.GetOr(USDC_MINT));
    assert qs.list == [("amount", ToStr(amount)), ("spl-token", mint.GetOr(USDC_MINT))];
    SetIfTruthy(qs, "reference", reference);
    SetIfTruthy(qs, "memo", memo);
    SetIfTruthy(qs, "label", labelText);
    SetIfTruthy(qs, "message", message);
    assert qs.list == TransferParams(amount, reference, memo, labelText, message, mint);
    assert base + "?" == UrlPrefix(recipient);
    url := base + "?" + qs.ToString();
  }

  /** `params.get(name)` on the transfer parameters: each name set, with its value. */
  lemma LookupTransferParams(amount: JsVal, reference: string, memo: string, labelText: string, message: string,
                             mint: Option<string>, name: string)
    ensures Lookup(TransferParams(amount, reference, memo, labelText, message, mint), name) ==
            if name == "amount" then Some(ToStr(amount))
            else if name == "spl-token" then Some(mint.GetOr(USDC_MINT))
            else if name == "reference" && reference != "" then Some(reference)
            else if name == "memo" && memo != "" then Some(memo)
            else if name == "label" && labelText != "" then Some(labelText)
            else if name == "message" && message != "" then Some(message)
            else None
  {
    var a: Params, t: Params := [("amount", ToStr(amount))], [("spl-token", mint.GetOr(USDC_MINT))];
    var r, m, l, g := Optional("reference", reference), Optional("memo", memo),
                      Optional("label", labelText), Optional("message", message);
    assert TransferParams(amount, reference, memo, labelText, message, mint) == a + (t + (r + (m + (l + g))));
    LookupAppend(a, t + (r + (m + (l + g))), name);
    LookupAppend(t, r + (m + (l + g)), name);
    LookupAppend(r, m + (l + g), name);
    LookupAppend(m, l + g, name);
    LookupAppend(l, g, name);
    LookupOne("amount", ToStr(amount), name);
    LookupOne("spl-token", mint.GetOr(USDC_MINT), name);
    LookupOptional("reference", reference, name);
    LookupOptional("memo", memo, name);
    LookupOptional("label", labelText, name);
    LookupOptional("message", message, name);
  }

  /**
   * A wallet that parses the query of the URL finds exactly the amount string,
   * the mint, and each optional parameter that was given.
   */
  lemma PayUrlRoundTrip(recipient: string, amount: JsVal, reference: string, memo: string, labelText: string,
                        message: string, mint: Option<string>)
    ensures var url := UrlPrefix(recipient) + Serialize(TransferParams(amount, reference, memo, labelText, message, mint));
            var q := Parse(url[|UrlPrefix(recipient)|..]);
            q == TransferParams(amount, reference, memo, labelText, message, mint)
            && Lookup(q, "amount") == Some(ToStr(amount))
            && Lookup(q, "spl-token") == Some(mint.GetOr(USDC_MINT))
            && Lookup(q, "reference") == (if reference != "" then Some(reference) else None)
            && Lookup(q, "memo") == (if memo != "" then Some(memo) else None)
            && Lookup(q, "label") == (if labelText != "" then Some(labelText) else None)
            && Lookup(q, "message") == (if message != "" then Some(message) else None)
  {
    var p := TransferParams(amount, reference, memo, labelText, message, mint);
    var url := UrlPrefix(recipient) + Serialize(p);
    assert url[|UrlPrefix(recipient)|..] == Serialize(p);
    ParseSerialize(p);
    LookupTransferParams(amount, reference, memo, labelText, message, mint, "amount");
    LookupTransferParams(amount, reference, memo, labelText, message, mint, "spl-token");
    LookupTransferParams(amount, reference, memo, labelText, message, mint, "reference");
    LookupTransferParams(amount, reference, memo, labelText, message, mint, "memo");
    LookupTransferParams(amount, reference, memo, labelText, message, mint, "label");
    LookupTransferParams(amount, reference, memo, labelText, message, mint, "message");
  }
}
