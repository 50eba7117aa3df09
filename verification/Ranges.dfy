/** What counts as an IP range: an address, a slash and a prefix length. */
module Ranges {
  import opened Options
  import opened Strings

  datatype Version = V4 | V6

  /** Which texts are IP addresses, and of which version. */
  type Addresses = string -> Option<Version>

  function Bits(version: Version): nat {
    match version case V4 => 32 case V6 => 128
  }

  // ---------- 8-bit numbers ----------

  predicate AllDigits(s: string) {
    forall i | 0 <= i < |s| :: '0' <= s[i] <= '9'
  }

  function DigitOf(c: char): nat
    requires '0' <= c <= '9'
  {
    (c - '0') as nat
  }

  function ValueOf(s: string): nat
    requires AllDigits(s)
  {
    if s == [] then 0 else 10 * ValueOf(s[..|s| - 1]) + DigitOf(s[|s| - 1])
  }

  /** A plus sign in front is read over. */
  function Unsigned(s: string): string {
    if |s| > 1 && s[0] == '+' then s[1..] else s
  }

  function ByteOf(s: string): Option<nat> {
    var digits := Unsigned(s);
    if digits == [] || !AllDigits(digits) || ValueOf(digits) > 255 then None else Some(ValueOf(digits))
  }

  const DIGITS := "0123456789"

  /** A number in decimal. */
  function Decimal(n: nat): (s: string)
    ensures s != [] && AllDigits(s)
  {
    (if n < 10 then [] else Decimal(n / 10)) + [DIGITS[n % 10]]
  }

  lemma LastDigit(d: nat)
    requires d < 10
    ensures '0' <= DIGITS[d] <= '9' && DigitOf(DIGITS[d]) == d
  {
  }

  lemma {:induction false} DecimalValue(n: nat)
    ensures ValueOf(Decimal(n)) == n
  {
    var front := if n < 10 then [] else Decimal(n / 10);
    LastDigit(n % 10);
    assert Decimal(n)[..|front|] == front;
    if n >= 10 { DecimalValue(n / 10); }
  }

  /** Numbers are read back from decimal exactly when they fit. */
  lemma ByteOfDecimal(n: nat)
    ensures ByteOf(Decimal(n)) == if n <= 255 then Some(n) else None
  {
    DecimalValue(n);
    assert Unsigned(Decimal(n)) == Decimal(n);
  }

  // ---------- ranges ----------

  /** The text is split at its first slash. */
  predicate IsRange(text: string, addresses: Addresses) {
    match Find(text, '/')
    case None => false
    case Some(at) =>
      match (addresses(text[..at]), ByteOf(text[at + 1..]))
      case (Some(version), Some(prefix)) => prefix <= Bits(version)
      case _ => false
  }

  /** The range check under a given reading of addresses. */
  function InRange(addresses: Addresses): string -> bool {
    (text: string) => IsRange(text, addresses)
  }

  lemma SplitAt(ip: string, prefix: string)
    requires '/' !in ip
    ensures var text := ip + "/" + prefix;
            Find(text, '/') == Some(|ip|) && text[..|ip|] == ip && text[|ip| + 1..] == prefix
  {
    var text := ip + "/" + prefix;
    assert text[|ip|] == '/';
    var at := Find(text, '/').value;
    assert forall k | 0 <= k < |ip| :: text[k] == ip[k];
    assert forall k | |ip| < k <= |text| :: text[..k][|ip|] == '/';
    assert at == |ip|;
  }

  /** A range is written out by an address, a slash and a prefix length that the address has room for; it is read
      back as what was written, and longer prefixes are refused. */
  lemma WrittenRange(ip: string, prefix: nat, addresses: Addresses)
    requires '/' !in ip
    ensures IsRange(ip + "/" + Decimal(prefix), addresses)
       <==> addresses(ip).Some? && prefix <= if addresses(ip).value.V4? then 32 else 128
  {
    SplitAt(ip, Decimal(prefix));
    ByteOfDecimal(prefix);
  }

  lemma SamePrefix(ip: string, p: string, q: string, addresses: Addresses)
    requires '/' !in ip && ByteOf(p) == ByteOf(q)
    ensures IsRange(ip + "/" + p, addresses) == IsRange(ip + "/" + q, addresses)
  {
    SplitAt(ip, p);
    SplitAt(ip, q);
  }

  lemma PlusInFront(digits: string)
    requires digits != [] && AllDigits(digits)
    ensures ByteOf("+" + digits) == ByteOf(digits)
  {
    assert ("+" + digits)[1..] == digits;
    assert digits[0] != '+';
  }

  /** Besides plain decimal, a prefix length may carry a plus sign or zeros in front. */
  lemma LooseRange(ip: string, digits: string, addresses: Addresses)
    requires '/' !in ip && digits != [] && AllDigits(digits)
    ensures IsRange(ip + "/" + ("+" + digits), addresses) == IsRange(ip + "/" + digits, addresses)
    ensures IsRange(ip + "/" + ("0" + digits), addresses) == IsRange(ip + "/" + digits, addresses)
  {
    PlusInFront(digits);
    ZeroInFront(digits);
    assert Unsigned("0" + digits) == "0" + digits && Unsigned(digits) == digits by { assert digits[0] != '+'; }
    SamePrefix(ip, "+" + digits, digits, addresses);
    SamePrefix(ip, "0" + digits, digits, addresses);
  }

  lemma {:induction false} ZeroInFront(digits: string)
    requires AllDigits(digits)
    ensures AllDigits("0" + digits) && ValueOf("0" + digits) == ValueOf(digits)
  {
    var zeroed := "0" + digits;
    if digits == [] {
      assert zeroed[..0] == [];
    } else {
      ZeroInFront(digits[..|digits| - 1]);
      assert zeroed[..|zeroed| - 1] == "0" + digits[..|digits| - 1];
    }
  }
}
