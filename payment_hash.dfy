/** The integrity hash handed to the payment processor:
    upper(md5(merchantId ++ orderId ++ amount ++ "LKR" ++ upper(md5(merchantSecret)))).
    `md5` is a parameter; only the assembly of its input is modelled. */
module PaymentHash {
  import opened Common

  /** The merchant credentials read from the environment. */
  datatype MerchantEnv = MerchantEnv(merchantId: Option<string>, merchantSecret: Option<string>)

  /** The deployment's single currency. */
  const Currency: string := "LKR"

  predicate IsDigit(c: char) {
    '0' <= c <= '9'
  }

  predicate AllDigits(s: string) {
    forall k :: 0 <= k < |s| ==> IsDigit(s[k])
  }

  function Digit(d: nat): (c: char)
    requires d < 10
    ensures IsDigit(c) && c as int == '0' as int + d
  {
    ('0' as int + d) as char
  }

  function DigitValue(c: char): (d: nat)
    requires IsDigit(c)
    ensures d < 10 && Digit(d) == c
  {
    (c as int - '0' as int) as nat
  }

  /** The value of a string of decimal digits, most significant first. */
  function DecimalValue(s: string): nat
    requires AllDigits(s)
  {
    if s == [] then 0 else DecimalValue(s[..|s| - 1]) * 10 + DigitValue(s[|s| - 1])
  }

  /** The decimal rendering of `n` without grouping separators. */
  function NatToDecimal(n: nat): (s: string)
    ensures |s| >= 1 && AllDigits(s)
    ensures DecimalValue(s) == n
  {
    if n < 10 then [Digit(n)]
    else
      var s := NatToDecimal(n / 10) + [Digit(n % 10)];
      assert s[..|s| - 1] == NatToDecimal(n / 10);
      s
  }

  /** A sign, a whole part and two fraction digits, as `toLocaleString`
      writes them once the grouping separators are gone. */
  function Render(negative: bool, whole: nat, frac: nat): (r: string)
    requires frac < 100
    ensures ',' !in r
    ensures |r| >= 4 && r[|r| - 3] == '.' && IsDigit(r[|r| - 2]) && IsDigit(r[|r| - 1])
  {
    (if negative then "-" else "") + NatToDecimal(whole) + "." + [Digit(frac / 10), Digit(frac % 10)]
  }

  /** `toLocaleString('en-us', {minimumFractionDigits: 2})` with the `,`
      grouping separators removed, for an amount of `cents` hundredths: an
      optional minus sign, the whole part, a point and exactly two digits. */
  function FormatAmount(cents: int): (r: string)
    ensures ',' !in r
    ensures |r| >= 4 && r[|r| - 3] == '.' && IsDigit(r[|r| - 2]) && IsDigit(r[|r| - 1])
  {
    var m := if cents < 0 then -cents else cents;
    Render(cents < 0, m / 100, m % 100)
  }

  /** Reads back an amount in the format above; the inverse of FormatAmount. */
  function ParseAmount(s: string): Option<int> {
    if |s| >= 4 && s[|s| - 3] == '.' && IsDigit(s[|s| - 2]) && IsDigit(s[|s| - 1]) then
      var whole := s[..|s| - 3];
      var negative := |whole| > 0 && whole[0] == '-';
      var digits := if negative then whole[1..] else whole;
      if |digits| > 0 && AllDigits(digits) then
        var m := DecimalValue(digits) * 100 + DigitValue(s[|s| - 2]) * 10 + DigitValue(s[|s| - 1]);
        Some(if negative then -m else m)
      else None
    else None
  }

  /** The two fraction digits read back give the fraction. */
  lemma FractionDigits(frac: nat)
    requires frac < 100
    ensures DigitValue(Digit(frac / 10)) * 10 + DigitValue(Digit(frac % 10)) == frac
  {
  }

  lemma ParseRender(negative: bool, whole: nat, frac: nat)
    requires frac < 100
    ensures ParseAmount(Render(negative, whole, frac)) == Some(if negative then -(whole * 100 + frac) else whole * 100 + frac)
  {
    var w := NatToDecimal(whole);
    var head: string := (if negative then "-" else "") + w;
    var s := Render(negative, whole, frac);
    assert s == head + ['.', Digit(frac / 10), Digit(frac % 10)];
    assert s[..|s| - 3] == head;
    assert s[|s| - 2] == Digit(frac / 10) && s[|s| - 1] == Digit(frac % 10);
    assert IsDigit(w[0]);
    assert (if negative then head[1..] else head) == w;
    FractionDigits(frac);
  }

  lemma ParseFormatAmount(cents: int)
    ensures ParseAmount(FormatAmount(cents)) == Some(cents)
  {
    var m := if cents < 0 then -cents else cents;
    ParseRender(cents < 0, m / 100, m % 100);
    assert (m / 100) * 100 + m % 100 == m;
  }

  /** Distinct amounts are formatted differently. */
  lemma FormatAmountInjective(a: int, b: int)
    requires FormatAmount(a) == FormatAmount(b)
    ensures a == b
  {
    ParseFormatAmount(a);
    ParseFormatAmount(b);
  }

  lemma WholeCents(n: nat)
    ensures (n * 100) / 100 == n && (n * 100) % 100 == 0
  {
  }

  lemma RenderUnsigned(whole: nat, frac: nat)
    requires frac < 100
    ensures Render(false, whole, frac) == NatToDecimal(whole) + ['.', Digit(frac / 10), Digit(frac % 10)]
  {
    var w := NatToDecimal(whole);
    assert "" + w == w;
    assert (w + ".") + [Digit(frac / 10), Digit(frac % 10)] == w + ['.', Digit(frac / 10), Digit(frac % 10)];
  }

  /** An amount of `n` whole units is rendered as `n` followed by ".00". */
  lemma FormatWholeAmount(n: nat)
    ensures FormatAmount(n * 100) == NatToDecimal(n) + ".00"
  {
    WholeCents(n);
    RenderUnsigned(n, 0);
    assert ['.', Digit(0), Digit(0)] == ".00";
  }

  /** A million is rendered without grouping separators. */
  lemma FormatMillion()
    ensures FormatAmount(100000000) == "1000000.00"
  {
    assert NatToDecimal(1) == "1";
    assert NatToDecimal(10) == "10";
    assert NatToDecimal(100) == "100";
    assert NatToDecimal(1000) == "1000";
    assert NatToDecimal(10000) == "10000";
    assert NatToDecimal(100000) == "100000";
    assert NatToDecimal(1000000) == "1000000";
    FormatWholeAmount(1000000);
  }

  predicate IsLowerHex(s: string) {
    forall k :: 0 <= k < |s| ==> IsDigit(s[k]) || 'a' <= s[k] <= 'f'
  }

  predicate IsUpperHex(s: string) {
    forall k :: 0 <= k < |s| ==> IsDigit(s[k]) || 'A' <= s[k] <= 'F'
  }

  /** The value of one hexadecimal digit, in either case. */
  function HexValue(c: char): (v: nat)
    requires IsDigit(c) || 'a' <= c <= 'f' || 'A' <= c <= 'F'
    ensures v < 16
  {
    if IsDigit(c) then DigitValue(c)
    else if 'a' <= c <= 'f' then c as int - 'a' as int + 10
    else c as int - 'A' as int + 10
  }

  /** `toUpperCase` on the ASCII letters, which is all md5's lower-case hex
      digest holds: the digest comes back in upper case with the same
      length and the same digit values. */
  function Upper(s: string): (r: string)
    ensures |r| == |s|
    ensures forall k :: 0 <= k < |s| ==> r[k] == if 'a' <= s[k] <= 'z' then (s[k] as int - 32) as char else s[k]
    ensures IsLowerHex(s) ==> IsUpperHex(r) && forall k :: 0 <= k < |s| ==> HexValue(r[k]) == HexValue(s[k])
  {
    seq(|s|, k requires 0 <= k < |s| => if 'a' <= s[k] <= 'z' then (s[k] as int - 32) as char else s[k])
  }

  /** An upper-case hex string is left as it is: upper-casing is idempotent
      on the hash. */
  lemma UpperKeepsUpperHex(s: string)
    requires IsUpperHex(s)
    ensures Upper(s) == s
  {
  }

  /** The string whose digest is the hash, fields in their fixed order. */
  function HashInput(merchantId: string, orderId: string, cents: int, hashedSecret: string): string {
    merchantId + orderId + FormatAmount(cents) + Currency + hashedSecret
  }

  /** `hashPaymentDetails`: InternalError when a credential is missing or
      empty, before anything is hashed. */
  function HashPaymentDetails(env: MerchantEnv, md5: string -> string, orderId: string, cents: int): (r: Result<string>)
    ensures r.Failure? <==> !Defined(env.merchantId) || !Defined(env.merchantSecret)
    ensures r.Failure? ==> r.error == InternalError
    ensures r.Success? ==>
      r.value == Upper(md5(HashInput(env.merchantId.value, orderId, cents, Upper(md5(env.merchantSecret.value)))))
  {
    if !Defined(env.merchantId) || !Defined(env.merchantSecret) then Failure(InternalError)
    else
      var hashedSecret := Upper(md5(env.merchantSecret.value));
      Success(Upper(md5(HashInput(env.merchantId.value, orderId, cents, hashedSecret))))
  }

  /** When md5 yields a lower-case hex digest, as it always does, the hash
      is an upper-case hex string of the digest's length. */
  lemma HashIsUpperHex(env: MerchantEnv, md5: string -> string, orderId: string, cents: int)
    requires forall x :: IsLowerHex(md5(x))
    requires Defined(env.merchantId) && Defined(env.merchantSecret)
    ensures var r := HashPaymentDetails(env, md5, orderId, cents);
      var digest := md5(HashInput(env.merchantId.value, orderId, cents, Upper(md5(env.merchantSecret.value))));
      r.Success? && IsUpperHex(r.value) && |r.value| == |digest|
  {
    var digest := md5(HashInput(env.merchantId.value, orderId, cents, Upper(md5(env.merchantSecret.value))));
    assert IsLowerHex(digest);
  }

  /** The hash input binds the order and the amount: for one merchant and
      order ids of one length (MongoDB ids have 24 characters), equal inputs
      mean equal order ids and equal amounts. */
  lemma HashInputBindsOrderAndAmount(merchantId: string, hashedSecret: string,
                                     o1: string, a1: int, o2: string, a2: int)
    requires |o1| == |o2|
    requires HashInput(merchantId, o1, a1, hashedSecret) == HashInput(merchantId, o2, a2, hashedSecret)
    ensures o1 == o2 && a1 == a2
  {
    var tail := Currency + hashedSecret;
    var s1 := HashInput(merchantId, o1, a1, hashedSecret);
    var s2 := HashInput(merchantId, o2, a2, hashedSecret);
    var f1, f2 := FormatAmount(a1), FormatAmount(a2);
    assert s1 == merchantId + o1 + f1 + tail;
    assert s2 == merchantId + o2 + f2 + tail;
    var p := |merchantId|;
    assert o1 == s1[p..p + |o1|];
    assert o2 == s2[p..p + |o2|];
    assert |f1| == |f2|;
    assert f1 == s1[p + |o1|..p + |o1| + |f1|];
    assert f2 == s2[p + |o2|..p + |o2| + |f2|];
    FormatAmountInjective(a1, a2);
  }

  /** For one merchant and one order, two different amounts give two
      different md5 inputs: the amount cannot be altered without the string
      behind the hash changing. */
  lemma HashDependsOnAmount(env: MerchantEnv, md5: string -> string, orderId: string, a1: int, a2: int)
    requires Defined(env.merchantId) && Defined(env.merchantSecret)
    requires a1 != a2
    ensures HashInput(env.merchantId.value, orderId, a1, Upper(md5(env.merchantSecret.value)))
         != HashInput(env.merchantId.value, orderId, a2, Upper(md5(env.merchantSecret.value)))
  {
    var hs := Upper(md5(env.merchantSecret.value));
    if HashInput(env.merchantId.value, orderId, a1, hs) == HashInput(env.merchantId.value, orderId, a2, hs) {
      HashInputBindsOrderAndAmount(env.merchantId.value, hs, orderId, a1, orderId, a2);
    }
  }
}
