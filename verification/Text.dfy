/** The parts of Go's strings, strconv and encoding/hex the relay relies on. */
module Text {
  import opened Wrappers
  import opened Ordering

  predicate HasPrefix(s: string, prefix: string) {
    prefix <= s
  }

  function Join(parts: seq<string>, sep: string): string {
    if parts == [] then ""
    else if |parts| == 1 then parts[0]
    else parts[0] + sep + Join(parts[1..], sep)
  }

  /** The index of the first c, or |s|. */
  function IndexOf(s: string, c: char): (i: nat)
    ensures i <= |s|
    ensures forall k :: 0 <= k < i ==> s[k] != c
    ensures i < |s| ==> s[i] == c
  {
    if s == "" then 0
    else if s[0] == c then 0
    else 1 + IndexOf(s[1..], c)
  }

  /** strings.Split for a one-byte separator. */
  function Split(s: string, c: char): (parts: seq<string>)
    ensures |parts| > 0
    decreases |s|
  {
    var i := IndexOf(s, c);
    if i == |s| then [s] else [s[..i]] + Split(s[i + 1..], c)
  }

  /** strings.Cut: the parts before and after the first c. */
  function Cut(s: string, c: char): Option<(string, string)> {
    var i := IndexOf(s, c);
    if i == |s| then None else Some((s[..i], s[i + 1..]))
  }

  lemma CutAt(a: string, c: char, b: string)
    requires c !in a
    ensures Cut(a + [c] + b, c) == Some((a, b))
  {
    var s := a + [c] + b;
    assert s[|a|] == c;
    assert forall k :: 0 <= k < |a| ==> s[k] == a[k];
    assert s[..|a|] == a && s[|a| + 1..] == b;
  }

  // ----- Decimal numbers -----

  predicate IsDigit(c: char) {
    '0' <= c <= '9'
  }

  function Digit(d: nat): (c: char)
    requires d < 10
    ensures IsDigit(c) && DigitValue(c) == d
  {
    '0' + (d as char)
  }

  function DigitValue(c: char): (d: nat)
    requires IsDigit(c)
    ensures d < 10
  {
    (c - '0') as nat
  }

  /** fmt's %d for a natural number. */
  function Decimal(n: nat): (s: string)
    ensures s != ""
    ensures forall c :: c in s ==> IsDigit(c)
  {
    if n < 10 then [Digit(n)] else Decimal(n / 10) + [Digit(n % 10)]
  }

  predicate AllDigits(s: string) {
    forall c :: c in s ==> IsDigit(c)
  }

  function DecimalValue(s: string): nat
    requires AllDigits(s)
  {
    if s == "" then 0 else 10 * DecimalValue(s[..|s| - 1]) + DigitValue(s[|s| - 1])
  }

  const MAX_INT64 := 0x7FFF_FFFF_FFFF_FFFF

  /** strconv.Atoi: an optional sign, then decimal digits, within the range of int. */
  function Atoi(s: string): Option<int> {
    var digits := if s != "" && (s[0] == '+' || s[0] == '-') then s[1..] else s;
    if digits == "" || !AllDigits(digits) then None
    else
      var n: int := DecimalValue(digits);
      if s[0] == '-' then (if n <= MAX_INT64 + 1 then Some(-n) else None)
      else if n <= MAX_INT64 then Some(n)
      else None
  }

  lemma {:induction false} DecimalRoundTrip(n: nat)
    ensures DecimalValue(Decimal(n)) == n
    decreases n
  {
    if n < 10 {
      assert Decimal(n)[..0] == "";
    } else {
      DecimalRoundTrip(n / 10);
      assert Decimal(n)[..|Decimal(n)| - 1] == Decimal(n / 10);
    }
  }

  lemma AtoiDecimal(n: nat)
    requires n <= MAX_INT64
    ensures Atoi(Decimal(n)) == Some(n)
  {
    DecimalRoundTrip(n);
    assert Decimal(n)[0] in Decimal(n);
  }

  // ----- Hex -----

  predicate IsLowerHex(c: char) {
    '0' <= c <= '9' || 'a' <= c <= 'f'
  }

  /** A 32-byte id or public key as Hex() renders it. */
  type Hex32 = s: string | |s| == 64 && forall c :: c in s ==> IsLowerHex(c) witness seq(64, _ => '0')

  function LowerHex(c: char): Option<char> {
    if IsLowerHex(c) then Some(c)
    else if 'A' <= c <= 'F' then Some((c - 'A') + 'a')
    else None
  }

  function LowerHexAll(s: string): (r: Option<string>)
    ensures r.Some? ==> |r.value| == |s| && forall c :: c in r.value ==> IsLowerHex(c)
    ensures (forall c :: c in s ==> IsLowerHex(c)) ==> r == Some(s)
  {
    if s == "" then Some("")
    else
      assert s == [s[0]] + s[1..];
      var rest := LowerHexAll(s[1..]);
      if LowerHex(s[0]).None? || rest.None? then None else Some([LowerHex(s[0]).value] + rest.value)
  }

  /** 64 hex digits of either case give a key; anything else is an error. */
  function ParseHex32(s: string): (r: Option<Hex32>)
    ensures |s| == 64 && (forall c :: c in s ==> IsLowerHex(c)) ==> r == Some(s)
  {
    if |s| != 64 || LowerHexAll(s).None? then None else Some(LowerHexAll(s).value)
  }

  function HexDigit(n: nat): (c: char)
    requires n < 16
    ensures IsLowerHex(c)
  {
    if n < 10 then '0' + (n as char) else 'a' + ((n - 10) as char)
  }

  newtype byte = n: int | 0 <= n < 256

  /** encoding/hex, two lowercase digits a byte. */
  function HexEncode(bytes: seq<byte>): (s: string)
    ensures |s| == 2 * |bytes|
  {
    if bytes == [] then "" else [HexDigit(bytes[0] as nat / 16), HexDigit(bytes[0] as nat % 16)] + HexEncode(bytes[1..])
  }

  /** bytes.Compare(a, b) < 0. */
  predicate BytesLess(a: seq<byte>, b: seq<byte>) {
    b != [] && (a == [] || a[0] < b[0] || (a[0] == b[0] && BytesLess(a[1..], b[1..])))
  }

  lemma HexDigitOrder(m: nat, n: nat)
    requires m < 16 && n < 16
    ensures HexDigit(m) < HexDigit(n) <==> m < n
    ensures HexDigit(m) == HexDigit(n) <==> m == n
  {
  }

  /** Comparing two ids as hex strings is comparing their bytes. */
  lemma {:induction false} HexOrderIsByteOrder(a: seq<byte>, b: seq<byte>)
    ensures Less(HexEncode(a), HexEncode(b)) <==> BytesLess(a, b)
    decreases |a|
  {
    if a != [] && b != [] {
      var s, t := HexEncode(a), HexEncode(b);
      var m, n := a[0] as nat, b[0] as nat;
      HexDigitOrder(m / 16, n / 16);
      HexDigitOrder(m % 16, n % 16);
      HexOrderIsByteOrder(a[1..], b[1..]);
      assert s[1..][0] == s[1] && t[1..][0] == t[1];
      assert s[1..][1..] == HexEncode(a[1..]) && t[1..][1..] == HexEncode(b[1..]);
      assert Less(s[1..], t[1..]) <==> m % 16 < n % 16 || (m % 16 == n % 16 && BytesLess(a[1..], b[1..]));
      assert m < n <==> m / 16 < n / 16 || (m / 16 == n / 16 && m % 16 < n % 16);
      assert a[0] < b[0] <==> m < n;
    }
  }
}
