/**
 * `CreateVnpayPaymentURL` (internal/utils/vnpay.go): the checks on the
 * amount, the client address and the configuration, and the canonical
 * signed query string.  Percent-encoding, HMAC-SHA512, the clock's date
 * format and the environment are not defined here: they come in as
 * `Externals`, a `VnpayConfig` and the time `now`.
 */
module Vnpay {
  import opened Wrappers
  import opened Errors
  import opened Strings
  import opened KeyOrder

  /** The largest amount accepted. */
  const MaxAmount: int := 999999999

  /** The validity of a payment link: fifteen minutes, in seconds. */
  const ExpirySeconds: int := 15 * 60

  /** The four settings read from the environment; an unset variable reads as "". */
  datatype VnpayConfig = VnpayConfig(tmnCode: string, hashSecret: string, url: string, returnUrl: string)

  /**
   * Library functions the model takes as given: `url.QueryEscape`,
   * HMAC-SHA512 keyed with its first argument (RFC 2104 over FIPS 180-4
   * SHA-512), and the formatting of a time as "yyyyMMddHHmmss".
   */
  datatype Externals = Externals(
    queryEscape: string -> string,
    hmacSha512: (string, string) -> seq<Byte>,
    formatTime: int -> string)

  /** Amount checks: positive, and at most `MaxAmount`. */
  function CheckAmount(amount: int): (r: Option<Error>)
    ensures r.None? <==> 0 < amount <= MaxAmount
    ensures amount <= 0 ==> r == Some(InvalidAmount)
    ensures amount > MaxAmount ==> r == Some(AmountExceedsLimit)
  {
    if amount <= 0 then Some(InvalidAmount)
    else if amount > MaxAmount then Some(AmountExceedsLimit)
    else None
  }

  /**
   * The client address: trimmed, "::1" read as "127.0.0.1", and accepted
   * when it has exactly three dots or any colon.
   */
  function NormalizeIp(clientIp: string): (r: Result<string, Error>)
    ensures r == Failure(ClientIpEmpty) <==> AllSpace(clientIp)
    ensures r.Failure? ==> r.error == ClientIpEmpty || r.error == InvalidIpAddress
    ensures r.Success? ==> CountChar(r.value, '.') == 3 || ':' in r.value
    ensures r.Success? ==> r.value == TrimSpace(clientIp) || (TrimSpace(clientIp) == "::1" && r.value == "127.0.0.1")
    // every trimmed address with three dots or a colon is accepted, "::1" read as the IPv4 loopback
    ensures var ip := TrimSpace(clientIp);
      var n := if ip == "::1" then "127.0.0.1" else ip;
      ip != [] && (CountChar(n, '.') == 3 || ':' in n) ==> r == Success(n)
  {
    var ip := TrimSpace(clientIp);
    if ip == "" then Failure(ClientIpEmpty)
    else
      var ip := if ip == "::1" then "127.0.0.1" else ip;
      if CountChar(ip, '.') != 3 && ':' !in ip then Failure(InvalidIpAddress)
      else Success(ip)
  }

  predicate ConfigComplete(cfg: VnpayConfig)
  {
    cfg.tmnCode != "" && cfg.hashSecret != "" && cfg.url != "" && cfg.returnUrl != ""
  }

  /** The signed parameters in ascending order of their names. */
  const SignedKeys: seq<string> := [
    "vnp_Amount", "vnp_Command", "vnp_CreateDate", "vnp_CurrCode", "vnp_ExpireDate",
    "vnp_IpAddr", "vnp_Locale", "vnp_OrderInfo", "vnp_OrderType", "vnp_ReturnUrl",
    "vnp_TmnCode", "vnp_TxnRef", "vnp_Version"]

  /** `SignedKeys` is in the order `sort.Strings` puts them. */
  lemma SignedKeysSorted()
    ensures StrictlySorted(SignedKeys) && Distinct(SignedKeys)
  {
    forall k | 0 <= k < |SignedKeys| - 1 ensures StrLess(SignedKeys[k], SignedKeys[k + 1]) {
      AdjacentPair(k);
    }
    forall i, j | 0 <= i < j < |SignedKeys| ensures StrLess(SignedKeys[i], SignedKeys[j]) {
      AdjacentChain(i, j);
    }
    SortedDistinct(SignedKeys);
  }

  /** Each name is below the next, at the first position where they differ. */
  lemma AdjacentPair(j: nat)
    requires j < |SignedKeys| - 1
    ensures StrLess(SignedKeys[j], SignedKeys[j + 1])
  {
    if j < 2 { AdjacentPair0(j); }
    else if j < 4 { AdjacentPair2(j); }
    else if j < 6 { AdjacentPair4(j); }
    else if j < 8 { AdjacentPair6(j); }
    else if j < 10 { AdjacentPair8(j); }
    else { AdjacentPair10(j); }
  }

  lemma AdjacentPair0(j: nat)
    requires j == 0 || j == 1
    ensures StrLess(SignedKeys[j], SignedKeys[j + 1])
  {
    if j == 0 { StrLessAt(SignedKeys[0], SignedKeys[1], 4); }
    else { StrLessAt(SignedKeys[1], SignedKeys[2], 5); }
  }

  lemma AdjacentPair2(j: nat)
    requires j == 2 || j == 3
    ensures StrLess(SignedKeys[j], SignedKeys[j + 1])
  {
    if j == 2 { StrLessAt(SignedKeys[2], SignedKeys[3], 5); }
    else { StrLessAt(SignedKeys[3], SignedKeys[4], 4); }
  }

  lemma AdjacentPair4(j: nat)
    requires j == 4 || j == 5
    ensures StrLess(SignedKeys[j], SignedKeys[j + 1])
  {
    if j == 4 { StrLessAt(SignedKeys[4], SignedKeys[5], 4); }
    else { StrLessAt(SignedKeys[5], SignedKeys[6], 4); }
  }

  lemma AdjacentPair6(j: nat)
    requires j == 6 || j == 7
    ensures StrLess(SignedKeys[j], SignedKeys[j + 1])
  {
    if j == 6 { StrLessAt(SignedKeys[6], SignedKeys[7], 4); }
    else { StrLessAt(SignedKeys[7], SignedKeys[8], 9); }
  }

  lemma AdjacentPair8(j: nat)
    requires j == 8 || j == 9
    ensures StrLess(SignedKeys[j], SignedKeys[j + 1])
  {
    if j == 8 { StrLessAt(SignedKeys[8], SignedKeys[9], 4); }
    else { StrLessAt(SignedKeys[9], SignedKeys[10], 4); }
  }

  lemma AdjacentPair10(j: nat)
    requires j == 10 || j == 11
    ensures StrLess(SignedKeys[j], SignedKeys[j + 1])
  {
    if j == 10 { StrLessAt(SignedKeys[10], SignedKeys[11], 5); }
    else { StrLessAt(SignedKeys[11], SignedKeys[12], 4); }
  }

  lemma {:induction false} AdjacentChain(i: int, j: int)
    requires 0 <= i < j < |SignedKeys|
    requires forall k :: 0 <= k < |SignedKeys| - 1 ==> StrLess(SignedKeys[k], SignedKeys[k + 1])
    ensures StrLess(SignedKeys[i], SignedKeys[j])
    decreases j - i
  {
    if j > i + 1 {
      AdjacentChain(i + 1, j);
      StrLessTransitive(SignedKeys[i], SignedKeys[i + 1], SignedKeys[j]);
    }
  }

  /** Neither hash parameter is signed. */
  lemma HashKeysNotSigned()
    ensures "vnp_SecureHash" !in Elems(SignedKeys) && "vnp_SecureHashType" !in Elems(SignedKeys)
  {
    assert forall i :: 0 <= i < |SignedKeys| ==> |SignedKeys[i]| <= 14 && SignedKeys[i][4] != 'S';
    assert "vnp_SecureHash"[4] == 'S';
  }

  /**
   * The values of the signed parameters, in the order of `SignedKeys`:
   * the amount in minor units (amount × 100 in decimal), the order
   * description already percent-encoded once, the creation time and the
   * time fifteen minutes later.
   */
  function SignedValues(txnRef: string, bookingId: string, amount: nat, ip: string, orderType: string,
                        cfg: VnpayConfig, ext: Externals, now: int): (v: seq<string>)
    ensures |v| == |SignedKeys|
  {
    [ Decimal(amount * 100),
      "pay",
      ext.formatTime(now),
      "VND",
      ext.formatTime(now + ExpirySeconds),
      ip,
      "vn",
      ext.queryEscape("Thanh toan dat phong " + bookingId),
      orderType,
      cfg.returnUrl,
      cfg.tmnCode,
      txnRef,
      "2.1.0" ]
  }

  /** The map from each of the distinct names `ks` to the value at its position in `vs`. */
  function ZipMap(ks: seq<string>, vs: seq<string>): (m: map<string, string>)
    requires |ks| == |vs| && Distinct(ks)
    ensures forall k :: k in m <==> k in ks
    ensures forall i :: 0 <= i < |ks| ==> ks[i] in m && m[ks[i]] == vs[i]
  {
    if ks == [] then map[]
    else ZipMap(ks[1..], vs[1..])[ks[0] := vs[0]]
  }

  /** The signed parameters: each name of `SignedKeys` with the value at its position. */
  function SignedMap(v: seq<string>): (m: map<string, string>)
    requires |v| == |SignedKeys|
    ensures m.Keys == Elems(SignedKeys)
    ensures forall i :: 0 <= i < |SignedKeys| ==> SignedKeys[i] in m && m[SignedKeys[i]] == v[i]
  {
    SignedKeysSorted();
    var m := ZipMap(SignedKeys, v);
    assert m.Keys == Elems(SignedKeys);
    m
  }

  /** The `url.Values` the request is built from: the signed parameters and `vnp_SecureHashType`. */
  function Params(txnRef: string, bookingId: string, amount: nat, ip: string, orderType: string,
                  cfg: VnpayConfig, ext: Externals, now: int): (p: map<string, string>)
    ensures p.Keys == Elems(SignedKeys) + {"vnp_SecureHashType"}
    ensures p["vnp_SecureHashType"] == "HMACSHA512"
    ensures forall i :: 0 <= i < |SignedKeys| ==>
      SignedKeys[i] in p && p[SignedKeys[i]] == SignedValues(txnRef, bookingId, amount, ip, orderType, cfg, ext, now)[i]
  {
    var signed := SignedMap(SignedValues(txnRef, bookingId, amount, ip, orderType, cfg, ext, now));
    HashKeysNotSigned();
    signed["vnp_SecureHashType" := "HMACSHA512"]
  }

  /** One pair of the query string: `k=escape(v)` with '+' written as "%20". */
  function Pair(k: string, v: string, ext: Externals): (s: string)
    ensures k + "=" <= s
  {
    k + "=" + ReplacePlus(ext.queryEscape(v))
  }

  /** The pairs of `keys`, joined by '&'. */
  function JoinPairs(keys: seq<string>, p: map<string, string>, ext: Externals): string
    requires forall i :: 0 <= i < |keys| ==> keys[i] in p
  {
    if keys == [] then ""
    else
      var n := |keys| - 1;
      JoinPairs(keys[..n], p, ext) + (if n > 0 then "&" else "") + Pair(keys[n], p[keys[n]], ext)
  }

  /** The string the HMAC signs. */
  function SignData(p: map<string, string>, ext: Externals): string
    requires Elems(SignedKeys) <= p.Keys
  {
    assert forall i :: 0 <= i < |SignedKeys| ==> SignedKeys[i] in Elems(SignedKeys);
    JoinPairs(SignedKeys, p, ext)
  }

  const HashSuffix: string := "&vnp_SecureHashType=HMACSHA512&vnp_SecureHash="

  /** The link for a signed string: base URL, '?', the signed pairs, the hash parameters and the signature. */
  function SignedLink(cfg: VnpayConfig, ext: Externals, signed: string): string
  {
    cfg.url + "?" + signed + HashSuffix + HexUpper(ext.hmacSha512(cfg.hashSecret, signed))
  }

  /** The payment link, or the first check that fails. */
  function PaymentUrl(txnRef: string, bookingId: string, amount: int, clientIp: string, orderType: string,
                      cfg: VnpayConfig, ext: Externals, now: int): (r: Result<string, Error>)
    // the amount is checked before the address, the address before the configuration
    ensures CheckAmount(amount).Some? ==> r == Failure(CheckAmount(amount).value)
    ensures CheckAmount(amount).None? && NormalizeIp(clientIp).Failure? ==> r == Failure(NormalizeIp(clientIp).error)
    ensures CheckAmount(amount).None? && NormalizeIp(clientIp).Success? && !ConfigComplete(cfg)
      ==> r == Failure(VnpayConfigurationMissing)
    ensures r.Success? <==> CheckAmount(amount).None? && NormalizeIp(clientIp).Success? && ConfigComplete(cfg)
    // the signed string covers exactly the signed parameters, in sorted order
    ensures r.Success? ==>
      r.value == SignedLink(cfg, ext, SignData(Params(txnRef, bookingId, amount, NormalizeIp(clientIp).value, orderType, cfg, ext, now), ext))
  {
    if CheckAmount(amount).Some? then Failure(CheckAmount(amount).value)
    else if NormalizeIp(clientIp).Failure? then Failure(NormalizeIp(clientIp).error)
    else if !ConfigComplete(cfg) then Failure(VnpayConfigurationMissing)
    else
      var p := Params(txnRef, bookingId, amount, NormalizeIp(clientIp).value, orderType, cfg, ext, now);
      Success(SignedLink(cfg, ext, SignData(p, ext)))
  }

  /**
   * `CreateVnpayPaymentURL`: collects the parameter names in whatever order
   * the map yields them, leaving out the two hash parameters, sorts them,
   * writes the pairs into a builder and appends the signature.
   */
  method CreateVnpayPaymentURL(txnRef: string, bookingId: string, amount: int, clientIp: string, orderType: string,
                               cfg: VnpayConfig, ext: Externals, now: int) returns (r: Result<string, Error>)
    ensures r == PaymentUrl(txnRef, bookingId, amount, clientIp, orderType, cfg, ext, now)
  {
    if amount <= 0 {
      return Failure(InvalidAmount);
    }
    if amount > MaxAmount {
      return Failure(AmountExceedsLimit);
    }
    var ip := NormalizeIp(clientIp);
    if ip.Failure? {
      return Failure(ip.error);
    }
    if cfg.tmnCode == "" || cfg.hashSecret == "" || cfg.url == "" || cfg.returnUrl == "" {
      return Failure(VnpayConfigurationMissing);
    }
    var params := Params(txnRef, bookingId, amount, ip.value, orderType, cfg, ext, now);
    var link := SignAndLink(params, cfg, ext);
    return Success(link);
  }

  /** From the parameter map to the link: sorted names, the builder, the signature. */
  method SignAndLink(params: map<string, string>, cfg: VnpayConfig, ext: Externals) returns (link: string)
    requires params.Keys == Elems(SignedKeys) + {"vnp_SecureHashType"}
    ensures link == SignedLink(cfg, ext, SignData(params, ext))
  {
    var sorted := SortedNames(params);
    var raw := WritePairs(sorted, params, ext);
    var secureHash := HexUpper(ext.hmacSha512(cfg.hashSecret, raw));
    var query := raw + HashSuffix + secureHash;
    link := cfg.url + "?" + query;
  }

  /** The names to sign, sorted: exactly `SignedKeys`. */
  method SortedNames(params: map<string, string>) returns (sorted: seq<string>)
    requires params.Keys == Elems(SignedKeys) + {"vnp_SecureHashType"}
    ensures sorted == SignedKeys
  {
    var keys := UnsignedNamesRemoved(params);
    HashKeysNotSigned();
    assert Elems(keys) == Elems(SignedKeys);
    sorted := SortKeys(keys);
    SignedKeysSorted();
    SortedUnique(sorted, SignedKeys);
  }

  /** The parameter names, in the map's order, without the two hash parameters. */
  method UnsignedNamesRemoved(params: map<string, string>) returns (keys: seq<string>)
    ensures Distinct(keys)
    ensures Elems(keys) == params.Keys - {"vnp_SecureHash", "vnp_SecureHashType"}
  {
    keys := [];
    var rest := params.Keys;
    while rest != {}
      invariant rest <= params.Keys
      invariant Distinct(keys)
      invariant forall x :: x in keys <==> x in params.Keys && x !in rest && x != "vnp_SecureHash" && x != "vnp_SecureHashType"
      decreases |rest|
    {
      var k :| k in rest;
      if k != "vnp_SecureHash" && k != "vnp_SecureHashType" {
        keys := keys + [k];
      }
      rest := rest - {k};
    }
    assert Elems(keys) == params.Keys - {"vnp_SecureHash", "vnp_SecureHashType"};
  }

  /** The builder loop: the pairs of `keys` in order, '&' between them. */
  method WritePairs(keys: seq<string>, params: map<string, string>, ext: Externals) returns (raw: string)
    requires forall i :: 0 <= i < |keys| ==> keys[i] in params
    ensures raw == JoinPairs(keys, params, ext)
  {
    raw := "";
    var i := 0;
    while i < |keys|
      invariant 0 <= i <= |keys|
      invariant raw == JoinPairs(keys[..i], params, ext)
    {
      assert keys[..i + 1][..i] == keys[..i];
      if i > 0 {
        raw := raw + "&";
      }
      raw := raw + Pair(keys[i], params[keys[i]], ext);
      i := i + 1;
    }
    assert keys[..i] == keys;
  }

  /** The signed string opens with the amount pair. */
  lemma {:induction false} SignDataStartsWithAmount(p: map<string, string>, ext: Externals)
    requires Elems(SignedKeys) <= p.Keys
    ensures "vnp_Amount" in p && Pair("vnp_Amount", p["vnp_Amount"], ext) <= SignData(p, ext)
  {
    assert forall i :: 0 <= i < |SignedKeys| ==> SignedKeys[i] in Elems(SignedKeys);
    JoinPairsPrefix(SignedKeys, p, ext);
  }

  lemma {:induction false} JoinPairsPrefix(keys: seq<string>, p: map<string, string>, ext: Externals)
    requires keys != []
    requires forall i :: 0 <= i < |keys| ==> keys[i] in p
    ensures Pair(keys[0], p[keys[0]], ext) <= JoinPairs(keys, p, ext)
  {
    var n := |keys| - 1;
    if n > 0 {
      assert keys[..n][0] == keys[0];
      JoinPairsPrefix(keys[..n], p, ext);
    } else {
      assert keys[..n] == [];
    }
  }

  /**
   * When percent-encoding leaves digit strings as they are (as
   * `url.QueryEscape` does), the link opens with `vnp_Amount=` followed by
   * the decimal digits of amount × 100, which read back as amount × 100.
   */
  lemma AmountField(txnRef: string, bookingId: string, amount: int, clientIp: string, orderType: string,
                    cfg: VnpayConfig, ext: Externals, now: int)
    requires PaymentUrl(txnRef, bookingId, amount, clientIp, orderType, cfg, ext, now).Success?
    requires ext.queryEscape(Decimal(amount * 100)) == Decimal(amount * 100)
    ensures var digits := Decimal(amount * 100);
      cfg.url + "?" + "vnp_Amount=" + digits <= PaymentUrl(txnRef, bookingId, amount, clientIp, orderType, cfg, ext, now).value
      && AllDigits(digits) && ParseDecimal(digits) == amount * 100
  {
    var digits := Decimal(amount * 100);
    var p := Params(txnRef, bookingId, amount, NormalizeIp(clientIp).value, orderType, cfg, ext, now);
    AmountParam(txnRef, bookingId, amount, NormalizeIp(clientIp).value, orderType, cfg, ext, now);
    AmountPrefix(cfg, ext, p, digits);
    DecimalRoundTrip(amount * 100);
  }

  lemma AmountPrefix(cfg: VnpayConfig, ext: Externals, p: map<string, string>, digits: string)
    requires Elems(SignedKeys) <= p.Keys && "vnp_Amount" in p && p["vnp_Amount"] == digits
    requires AllDigits(digits) && ext.queryEscape(digits) == digits
    ensures cfg.url + "?" + "vnp_Amount=" + digits <= SignedLink(cfg, ext, SignData(p, ext))
  {
    SignDataStartsWithAmount(p, ext);
    ReplacePlusNoPlus(digits);
    assert Pair("vnp_Amount", digits, ext) == "vnp_Amount=" + digits;
    LinkPrefix(cfg, ext, SignData(p, ext), "vnp_Amount=" + digits);
    assert cfg.url + "?" + "vnp_Amount=" + digits == cfg.url + "?" + ("vnp_Amount=" + digits);
  }

  lemma AmountParam(txnRef: string, bookingId: string, amount: nat, ip: string, orderType: string,
                    cfg: VnpayConfig, ext: Externals, now: int)
    ensures var p := Params(txnRef, bookingId, amount, ip, orderType, cfg, ext, now);
      "vnp_Amount" in p && p["vnp_Amount"] == Decimal(amount * 100)
  {
    assert SignedKeys[0] == "vnp_Amount";
  }

  lemma LinkPrefix(cfg: VnpayConfig, ext: Externals, signed: string, head: string)
    requires head <= signed
    ensures cfg.url + "?" + head <= SignedLink(cfg, ext, signed)
  {
    var rest := HashSuffix + HexUpper(ext.hmacSha512(cfg.hashSecret, signed));
    assert SignedLink(cfg, ext, signed) == (cfg.url + "?" + signed) + rest;
    assert (cfg.url + "?" + signed)[..|cfg.url + "?" + head|] == cfg.url + "?" + head;
  }

  /**
   * The link ends with the signature: the hex after the last fixed suffix
   * decodes to the HMAC of the signed string under the hash secret.
   */
  lemma SignatureRecoverable(cfg: VnpayConfig, ext: Externals, signed: string)
    ensures var url := SignedLink(cfg, ext, signed);
      var mac := ext.hmacSha512(cfg.hashSecret, signed);
      |url| >= 2 * |mac| && HexDecode(url[|url| - 2 * |mac|..]) == mac
  {
    var url := SignedLink(cfg, ext, signed);
    var mac := ext.hmacSha512(cfg.hashSecret, signed);
    var prefix := cfg.url + "?" + signed + HashSuffix;
    assert url == prefix + HexUpper(mac);
    assert url[|url| - 2 * |mac|..] == HexUpper(mac);
    HexRoundTrip(mac);
  }
}
