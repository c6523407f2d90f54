/** Reading and printing of the texts that the sources exchange: unsigned decimals as
    Rust's `from_str` reads them, dotted IPv4 addresses, splitting and trimming.
 */
module Text {
  import opened Bits

  datatype Option<+T> = None | Some(value: T)

  datatype Result<+T, +E> = Success(value: T) | Failure(error: E)

  // ---------------------------------------------------------------- decimals

  predicate IsDigit(c: char) { '0' <= c <= '9' }

  predicate AllDigits(s: string) { forall i :: 0 <= i < |s| ==> IsDigit(s[i]) }

  function Digit(d: nat): (c: char)
    requires d < 10
    ensures IsDigit(c) && c as int - '0' as int == d
  {
    ('0' as int + d) as char
  }

  /** The value of a digit string, most significant digit first. */
  function DecimalValue(s: string): nat
    requires AllDigits(s)
  {
    if s == [] then 0
    else DecimalValue(s[..|s| - 1]) * 10 + (s[|s| - 1] as int - '0' as int)
  }

  function ShowDecimal(n: nat): (s: string)
    ensures s != [] && AllDigits(s)
    ensures s[0] == '0' ==> n == 0 && |s| == 1
    ensures n < 10 ==> |s| == 1
    ensures n < 1000 ==> |s| <= 3
  {
    if n < 10 then [Digit(n)] else ShowDecimal(n / 10) + [Digit(n % 10)]
  }

  lemma {:induction false} ShowDecimalValue(n: nat)
    ensures DecimalValue(ShowDecimal(n)) == n
  {
    if n < 10 {
    } else {
      var s := ShowDecimal(n);
      assert s[..|s| - 1] == ShowDecimal(n / 10);
      ShowDecimalValue(n / 10);
    }
  }

  /** `str::parse` for an unsigned type whose largest value is `max`: an optional plus sign,
      then at least one digit, and no overflow. Leading zeros are accepted. */
  function ParseUnsigned(s: string, max: nat): (r: Option<nat>)
    ensures r.Some? ==> r.value <= max
  {
    var digits := if s != [] && s[0] == '+' then s[1..] else s;
    if digits != [] && AllDigits(digits) && DecimalValue(digits) <= max
    then Some(DecimalValue(digits))
    else None
  }

  /** A digit string without needless leading zeros is the printed form of its value. */
  lemma {:induction false} ShownValue(s: string)
    requires s != [] && AllDigits(s) && (s[0] == '0' ==> |s| == 1)
    ensures ShowDecimal(DecimalValue(s)) == s
    ensures |s| > 1 ==> DecimalValue(s) >= 10
  {
    var last := s[|s| - 1];
    assert DecimalValue(s[..|s| - 1]) * 10 <= DecimalValue(s);
    if |s| == 1 {
      assert s == [last] && DecimalValue([]) == 0;
    } else {
      ShownValue(s[..|s| - 1]);
      DecimalPositive(s[..|s| - 1]);
      assert s == s[..|s| - 1] + [last];
    }
  }

  lemma {:induction false} DecimalPositive(s: string)
    requires s != [] && AllDigits(s) && s[0] != '0'
    ensures DecimalValue(s) > 0
  {
    if |s| == 1 {
      assert DecimalValue(s[..0]) == 0;
    } else {
      DecimalPositive(s[..|s| - 1]);
    }
  }

  function Zeros(k: nat): (s: string)
    ensures |s| == k && AllDigits(s)
  {
    seq(k, i => '0')
  }

  lemma {:induction false} ZeroInFront(s: string)
    requires AllDigits(s)
    ensures AllDigits(['0'] + s) && DecimalValue(['0'] + s) == DecimalValue(s)
  {
    var more := ['0'] + s;
    if s == [] {
      assert more[..0] == [];
    } else {
      ZeroInFront(s[..|s| - 1]);
      assert more[..|more| - 1] == ['0'] + s[..|s| - 1];
    }
  }

  lemma {:induction false} ZerosInFront(k: nat, s: string)
    requires AllDigits(s)
    ensures AllDigits(Zeros(k) + s) && DecimalValue(Zeros(k) + s) == DecimalValue(s)
  {
    if k == 0 {
      assert Zeros(0) + s == s;
    } else {
      ZerosInFront(k - 1, s);
      ZeroInFront(Zeros(k - 1) + s);
      assert Zeros(k) + s == ['0'] + (Zeros(k - 1) + s);
    }
  }

  lemma {:induction false} LeadingZeros(s: string) returns (k: nat)
    requires s != [] && AllDigits(s)
    ensures s == Zeros(k) + ShowDecimal(DecimalValue(s))
  {
    if s[0] != '0' || |s| == 1 {
      ShownValue(s);
      k := 0;
    } else {
      ZeroInFront(s[1..]);
      assert s == ['0'] + s[1..];
      k := LeadingZeros(s[1..]);
      assert Zeros(k + 1) == ['0'] + Zeros(k);
      k := k + 1;
    }
  }

  /** Digits that spell a number: its printed form, after any leading zeros. */
  ghost predicate DigitsSpell(s: string, n: nat) { exists k: nat :: s == Zeros(k) + ShowDecimal(n) }

  lemma DigitsSpellExactly(s: string, n: nat)
    ensures DigitsSpell(s, n) <==> s != [] && AllDigits(s) && DecimalValue(s) == n
  {
    if DigitsSpell(s, n) {
      var k: nat :| s == Zeros(k) + ShowDecimal(n);
      ZerosInFront(k, ShowDecimal(n));
      ShowDecimalValue(n);
    }
    if s != [] && AllDigits(s) {
      var k := LeadingZeros(s);
    }
  }

  /** A text is read as a number exactly if it spells it, with or without a plus sign in front, and
      the type can hold it. */
  lemma ParseUnsignedExactly(s: string, max: nat, n: nat)
    ensures ParseUnsigned(s, max) == Some(n) <==>
      n <= max && (DigitsSpell(s, n) || (s != [] && s[0] == '+' && DigitsSpell(s[1..], n)))
  {
    DigitsSpellExactly(s, n);
    if s != [] && s[0] == '+' {
      assert !IsDigit(s[0]);
      DigitsSpellExactly(s[1..], n);
    }
  }

  lemma ParseShownUnsigned(n: nat, max: nat)
    requires n <= max
    ensures ParseUnsigned(ShowDecimal(n), max) == Some(n)
  {
    ShowDecimalValue(n);
  }

  // ---------------------------------------------------------------- splitting and trimming

  /** `split_once`: the parts before and after the first occurrence of `c`. */
  function SplitOnce(s: string, c: char): (r: Option<(string, string)>)
    ensures r.None? <==> c !in s
    ensures r.Some? ==> s == r.value.0 + [c] + r.value.1 && c !in r.value.0
  {
    if s == [] then None
    else if s[0] == c then Some(([], s[1..]))
    else match SplitOnce(s[1..], c)
      case None => None
      case Some((before, after)) => Some(([s[0]] + before, after))
  }

  lemma {:induction false} SplitOnceAt(before: string, c: char, after: string)
    requires c !in before
    ensures SplitOnce(before + [c] + after, c) == Some((before, after))
  {
    var s := before + [c] + after;
    if before == [] {
      assert s[1..] == after;
    } else {
      assert s[1..] == before[1..] + [c] + after;
      SplitOnceAt(before[1..], c, after);
      assert [before[0]] + before[1..] == before;
    }
  }

  /** `str::split`: all parts between occurrences of `c`. */
  function Split(s: string, c: char): (r: seq<string>)
    ensures r != []
    decreases |s|
  {
    match SplitOnce(s, c)
    case None => [s]
    case Some((before, after)) => [before] + Split(after, c)
  }

  lemma SplitCons(before: string, c: char, after: string)
    requires c !in before
    ensures Split(before + [c] + after, c) == [before] + Split(after, c)
  {
    SplitOnceAt(before, c, after);
  }

  /** The parts with a separator between each two. */
  function Joined(parts: seq<string>, c: char): string
    requires parts != []
  {
    if |parts| == 1 then parts[0] else parts[0] + [c] + Joined(parts[1..], c)
  }

  /** Splitting undoes joining. */
  lemma {:induction false} SplitJoined(parts: seq<string>, c: char)
    requires parts != [] && forall i :: 0 <= i < |parts| ==> c !in parts[i]
    ensures Split(Joined(parts, c), c) == parts
  {
    if |parts| == 1 {
    } else {
      SplitJoined(parts[1..], c);
      SplitCons(parts[0], c, Joined(parts[1..], c));
    }
  }

  ghost predicate InSome(x: char, parts: seq<string>) {
    exists i :: 0 <= i < |parts| && x in parts[i]
  }

  /** Splitting loses nothing but the separators. */
  lemma {:induction false} SplitKeepsChars(s: string, c: char, x: char)
    requires x in s && x != c
    ensures InSome(x, Split(s, c))
    decreases |s|
  {
    var parts := Split(s, c);
    match SplitOnce(s, c)
    case None =>
      assert x in parts[0];
    case Some((before, after)) =>
      if x in before {
        assert x in parts[0];
      } else {
        SplitKeepsChars(after, c, x);
        var i :| 0 <= i < |Split(after, c)| && x in Split(after, c)[i];
        assert parts[i + 1] == Split(after, c)[i];
      }
  }

  /** The Unicode property White_Space, which Rust's `trim` removes. */
  predicate IsWhitespace(c: char) {
    var n := c as int;
    || 0x09 <= n <= 0x0D || n == 0x20 || n == 0x85 || n == 0xA0 || n == 0x1680
    || 0x2000 <= n <= 0x200A || n == 0x2028 || n == 0x2029 || n == 0x202F || n == 0x205F || n == 0x3000
  }

  /** What Python's `str.strip` removes: four separators more than White_Space. */
  predicate IsPythonWhitespace(c: char) {
    IsWhitespace(c) || 0x1C <= c as int <= 0x1F
  }

  /** Blanks, tabs and line ends are white space for both, and no printable character of ASCII is. */
  lemma AsciiWhitespace(c: char)
    ensures c == ' ' || c == '\t' || c == '\n' || c == '\r' ==> IsWhitespace(c) && IsPythonWhitespace(c)
    ensures 0x21 <= c as int <= 0x7E ==> !IsWhitespace(c) && !IsPythonWhitespace(c)
  {
  }

  function Trim(s: string, white: char -> bool): (r: string)
    ensures r != [] ==> !white(r[0]) && !white(r[|r| - 1])
  {
    if s == [] then []
    else if white(s[0]) then Trim(s[1..], white)
    else if white(s[|s| - 1]) then Trim(s[..|s| - 1], white)
    else s
  }

  predicate All(s: string, white: char -> bool) { forall i :: 0 <= i < |s| ==> white(s[i]) }

  /** Trimming removes all white space around a text that neither begins nor ends with it. */
  lemma {:induction false} TrimPadded(before: string, s: string, after: string, white: char -> bool)
    requires All(before, white) && All(after, white)
    requires s == [] || (!white(s[0]) && !white(s[|s| - 1]))
    ensures Trim(before + s + after, white) == s
    decreases |before| + |after|
  {
    var text := before + s + after;
    if before != [] {
      assert text[1..] == before[1..] + s + after;
      TrimPadded(before[1..], s, after, white);
    } else if after != [] && s == [] {
      assert text[1..] == [] + s + after[1..];
      TrimPadded([], s, after[1..], white);
    } else if after != [] {
      assert text[..|text| - 1] == before + s + after[..|after| - 1];
      TrimPadded(before, s, after[..|after| - 1], white);
    } else {
      assert text == s;
    }
  }

  // ---------------------------------------------------------------- IPv4 addresses

  /** One part of a dotted address: one to three digits, no leading zero, at most 255. */
  function ParseOctet(s: string): (r: Option<nat>)
    ensures r.Some? ==> r.value < 0x100
  {
    if 1 <= |s| <= 3 && AllDigits(s) && (s[0] == '0' ==> |s| == 1) && DecimalValue(s) < 0x100
    then Some(DecimalValue(s))
    else None
  }

  /** `Ipv4Addr::from_str`: exactly four octets between dots, as the u32 they spell. */
  function ParseIpv4(s: string): (r: Option<u32>)
  {
    var parts := Split(s, '.');
    if |parts| != 4 then None else
    match (ParseOctet(parts[0]), ParseOctet(parts[1]), ParseOctet(parts[2]), ParseOctet(parts[3]))
    case (Some(a), Some(b), Some(c), Some(d)) => Some(((a * 0x100 + b) * 0x100 + c) * 0x100 + d)
    case _ => None
  }

  /** The octets of an address, most significant first. */
  function Octets(a: u32): (r: seq<u8>)
    ensures |r| == 4
  {
    [a / 0x100_0000, a / 0x1_0000 % 0x100, a / 0x100 % 0x100, a % 0x100]
  }

  function FromOctets(o: seq<u8>): u32
    requires |o| == 4
  {
    var a: int, b: int, c: int, d: int := o[0], o[1], o[2], o[3];
    ((a * 0x100 + b) * 0x100 + c) * 0x100 + d
  }

  lemma OctetsRoundTrip(a: u32)
    ensures FromOctets(Octets(a)) == a
  {
    assert a / 0x1_0000 / 0x100 == a / 0x100_0000;
    assert a / 0x100 / 0x100 == a / 0x1_0000;
  }

  lemma FromOctetsRoundTrip(o: seq<u8>)
    requires |o| == 4
    ensures Octets(FromOctets(o)) == o
  {
    var a: int, b: int, c: int, d: int := o[0], o[1], o[2], o[3];
    var n := FromOctets(o);
    DivModUnique(n, 0x100, (a * 0x100 + b) * 0x100 + c, d);
    DivModUnique(n, 0x1_0000, a * 0x100 + b, c * 0x100 + d);
    DivModUnique(n, 0x100_0000, a, (b * 0x100 + c) * 0x100 + d);
  }

  function ShowIpv4(a: u32): (s: string)
    ensures s != [] && IsDigit(s[0]) && forall c :: c in s ==> c == '.' || IsDigit(c)
  {
    var o := Octets(a);
    ShowDecimal(o[0]) + "." + (ShowDecimal(o[1]) + "." + (ShowDecimal(o[2]) + "." + ShowDecimal(o[3])))
  }

  lemma ParseShownOctet(n: u8)
    ensures ParseOctet(ShowDecimal(n)) == Some(n)
  {
    ShowDecimalValue(n);
  }

  lemma SplitShownIpv4(a: u32)
    ensures Split(ShowIpv4(a), '.') == seq(4, i requires 0 <= i < 4 => ShowDecimal(Octets(a)[i]))
  {
    var o := Octets(a);
    var d0, d1, d2, d3 := ShowDecimal(o[0]), ShowDecimal(o[1]), ShowDecimal(o[2]), ShowDecimal(o[3]);
    SplitCons(d2, '.', d3);
    SplitCons(d1, '.', d2 + "." + d3);
    SplitCons(d0, '.', d1 + "." + (d2 + "." + d3));
  }

  /** Reading a printed address gives the address back. */
  lemma ParseShownIpv4(a: u32)
    ensures ParseIpv4(ShowIpv4(a)) == Some(a)
  {
    SplitShownIpv4(a);
    var o := Octets(a);
    ParseShownOctet(o[0]);
    ParseShownOctet(o[1]);
    ParseShownOctet(o[2]);
    ParseShownOctet(o[3]);
    OctetsRoundTrip(a);
  }

  /** An address text has only digits and dots. */
  lemma ParsedIpv4Chars(s: string)
    requires ParseIpv4(s).Some?
    ensures forall c :: c in s ==> c == '.' || IsDigit(c)
  {
    var parts := Split(s, '.');
    forall c | c in s
      ensures c == '.' || IsDigit(c)
    {
      if c != '.' {
        SplitKeepsChars(s, '.', c);
        var i :| 0 <= i < |parts| && c in parts[i];
        assert ParseOctet(parts[i]).Some?;
      }
    }
  }

  lemma OctetIsShown(s: string)
    requires ParseOctet(s).Some?
    ensures s == ShowDecimal(ParseOctet(s).value)
  {
    ShownValue(s);
  }

  lemma FourParts(s: string)
    requires |Split(s, '.')| == 4
    ensures var p := Split(s, '.'); s == p[0] + "." + (p[1] + "." + (p[2] + "." + p[3]))
  {
    var rest := SplitOnce(s, '.').value.1;
    var rest' := SplitOnce(rest, '.').value.1;
    assert Split(rest, '.') == Split(s, '.')[1..];
    assert Split(rest', '.') == Split(rest, '.')[1..];
  }

  /** Four bytes are one number, the most significant first. */
  lemma BigEndianValue(o: seq<u8>)
    requires |o| == 4
    ensures FromOctets(o) == o[0] as int * 0x100_0000 + o[1] as int * 0x1_0000 + o[2] as int * 0x100 + o[3]
  {
  }

  lemma ReadOctets(s: string)
    requires ParseIpv4(s).Some?
    ensures var p, o := Split(s, '.'), Octets(ParseIpv4(s).value);
      |p| == 4 && forall i :: 0 <= i < 4 ==> ParseOctet(p[i]) == Some(o[i])
  {
    var p := Split(s, '.');
    var o: seq<u8> := [ParseOctet(p[0]).value, ParseOctet(p[1]).value, ParseOctet(p[2]).value, ParseOctet(p[3]).value];
    assert ParseIpv4(s).value == FromOctets(o);
    FromOctetsRoundTrip(o);
  }

  lemma ReadIsShown(s: string)
    requires ParseIpv4(s).Some?
    ensures s == ShowIpv4(ParseIpv4(s).value)
  {
    var p := Split(s, '.');
    ReadOctets(s);
    FourParts(s);
    OctetIsShown(p[0]);
    OctetIsShown(p[1]);
    OctetIsShown(p[2]);
    OctetIsShown(p[3]);
  }

  /** A text is read as an address exactly if it is its printed form. */
  lemma ParseIpv4Exactly(s: string, a: u32)
    ensures ParseIpv4(s) == Some(a) <==> s == ShowIpv4(a)
  {
    ParseShownIpv4(a);
    if ParseIpv4(s) == Some(a) {
      ReadIsShown(s);
    }
  }

  /** The printed form, octet by octet. */
  lemma ShownOctets(o: seq<u8>)
    requires |o| == 4
    ensures ShowIpv4(FromOctets(o))
         == ShowDecimal(o[0]) + "." + (ShowDecimal(o[1]) + "." + (ShowDecimal(o[2]) + "." + ShowDecimal(o[3])))
  {
    FromOctetsRoundTrip(o);
  }
}
