/** Port handling: the range check applied to the configured listener ports
    (`safe_int`, `port_verify`) and the choice of the CONNECT target port from
    a parsed URL (`port_normalize`). */
module Ports {
  import opened Js

  const MaxSafeInteger: int := 9007199254740991
  const MinSafeInteger: int := -9007199254740991
  const MaxPort: int := 65535

  /** `Number.isSafeInteger(n)` for a value that `typeof` calls a number. */
  predicate IsSafeInteger(v: Unknown) {
    v.Num? && MinSafeInteger <= v.n <= MaxSafeInteger
  }

  /** `safe_int({ min, max })(n)`: `n` itself when it is a safe integer in
      `[min, max]`, otherwise undefined. */
  function SafeInt(min: int, max: int, v: Unknown): (r: Option<int>)
    ensures r.Some? <==> IsSafeInteger(v) && min <= v.n <= max
    ensures r.Some? ==> v == Num(r.value)
  {
    if IsSafeInteger(v) && min <= v.n && v.n <= max then Some(v.n) else None
  }

  /** `port_verify = safe_int({ min: 0, max: 65535 })`. */
  function PortVerify(v: Unknown): Option<int> {
    SafeInt(0, MaxPort, v)
  }

  /** `port_verify(n)` gives `n` back exactly when `n` is an integral number in
      0..65535; every other input, whatever its type, gives undefined. */
  lemma PortVerifySpec(v: Unknown)
    ensures PortVerify(v).Some? <==> v.Num? && 0 <= v.n <= MaxPort
    ensures PortVerify(v).Some? ==> PortVerify(v) == Some(v.n)
  {
  }

  /** Sample inputs: 80 and 443 pass; -1, 4.2, 999999, "42" and true do not. */
  lemma PortVerifyExamples()
    ensures PortVerify(Num(80)) == Some(80) && PortVerify(Num(443)) == Some(443)
    ensures PortVerify(Num(-1)) == None && PortVerify(NonIntegerNum) == None
    ensures PortVerify(Num(999999)) == None && PortVerify(Str("42")) == None
    ensures PortVerify(Bool(true)) == None && PortVerify(Absent) == None
  {
  }

  predicate IsDigit(c: char) {
    '0' <= c <= '9'
  }

  predicate IsDigits(s: string) {
    forall i :: 0 <= i < |s| ==> IsDigit(s[i])
  }

  /** `+s` for a string of decimal digits (the empty string gives 0). */
  function DecimalValue(s: string): nat
    requires IsDigits(s)
    decreases |s|
  {
    if s == [] then 0 else DecimalValue(s[..|s| - 1]) * 10 + (s[|s| - 1] as int - '0' as int)
  }

  function DigitChar(d: nat): (c: char)
    requires d < 10
    ensures IsDigit(c) && c as int - '0' as int == d
  {
    ('0' as int + d) as char
  }

  /** The decimal spelling of `n`, without leading zeros. */
  function DecimalString(n: nat): (s: string)
    ensures IsDigits(s) && |s| >= 1
    ensures |s| > 1 ==> s[0] != '0'
    decreases n
  {
    if n < 10 then [DigitChar(n)] else DecimalString(n / 10) + [DigitChar(n % 10)]
  }

  /** Reading back the decimal spelling of `n` gives `n`. */
  lemma {:induction false} DecimalRoundTrip(n: nat)
    ensures DecimalValue(DecimalString(n)) == n
  {
    var s := DecimalString(n);
    if n >= 10 {
      DecimalRoundTrip(n / 10);
      assert s[..|s| - 1] == DecimalString(n / 10);
    }
  }

  /** A URL port as the URL parser reports it: empty, or decimal digits whose
      value is at most 65535. */
  predicate ValidPort(p: string) {
    p == "" || (IsDigits(p) && DecimalValue(p) <= MaxPort)
  }

  /** The parts of a parsed URL that the dispatcher reads. */
  datatype UrlParts = UrlParts(protocol: string, hostname: string, port: string)

  type Url = u: UrlParts | ValidPort(u.port) witness UrlParts("http:", "", "")

  /** The port a protocol stands for when a URL names none. */
  function DefaultPort(protocol: string): int {
    if protocol == "http:" then 80 else 443
  }

  /** `port_normalize(url)`: `+port || (protocol === 'http:' ? 80 : 443)`.
      The target port is always a usable TCP port. */
  function PortNormalize(u: Url): (r: int)
    ensures 1 <= r <= MaxPort
  {
    var explicit := if u.port == "" then 0 else DecimalValue(u.port);
    if explicit != 0 then explicit else DefaultPort(u.protocol)
  }

  /** An explicit non-zero port always wins over the protocol's default. */
  lemma {:induction false} ExplicitPortWins(protocol: string, hostname: string, n: nat)
    requires 1 <= n <= MaxPort
    ensures ValidPort(DecimalString(n))
    ensures PortNormalize(UrlParts(protocol, hostname, DecimalString(n))) == n
  {
    DecimalRoundTrip(n);
  }

  /** An empty port and a port of "0" both fall back to 80 for exactly the
      protocol "http:" and to 443 for every other protocol. */
  lemma DefaultPortFallback(protocol: string, hostname: string)
    ensures PortNormalize(UrlParts(protocol, hostname, "")) == PortNormalize(UrlParts(protocol, hostname, "0"))
    ensures PortNormalize(UrlParts(protocol, hostname, "")) == 80 <==> protocol == "http:"
    ensures protocol != "http:" ==> PortNormalize(UrlParts(protocol, hostname, "")) == 443
  {
    assert DecimalValue("0") == 0 by {
      assert "0"[..0] == "";
    }
  }

  /** The expectations of the unit test, with the URL parser's elision of a
      scheme's own default port ("http://example.com:80" has the port ""). */
  lemma PortNormalizeTestCases()
    ensures DecimalValue("80") == 80 && DecimalValue("443") == 443
    ensures PortNormalize(UrlParts("http:", "example.com", "")) == 80
    ensures PortNormalize(UrlParts("https:", "example.com", "")) == 443
    ensures PortNormalize(UrlParts("https:", "example.com", "80")) == 80
    ensures PortNormalize(UrlParts("http:", "example.com", "443")) == 443
  {
    assert DecimalValue("8") == 8 by { assert "8"[..0] == ""; }
    assert DecimalValue("80") == 80 by { assert "80"[..1] == "8"; }
    assert DecimalValue("4") == 4 by { assert "4"[..0] == ""; }
    assert DecimalValue("44") == 44 by { assert "44"[..1] == "4"; }
    assert DecimalValue("443") == 443 by { assert "443"[..2] == "44"; }
  }
}
