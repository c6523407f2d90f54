/** The client's filter compiler: address blocks and port ranges, given as text, become one
    WinDivert filter. The main result is that the filter passes exactly the outbound UDP
    packets that go to a listed block on a listed port.
 */
module FilterBuilder {
  import opened Bits
  import opened Text
  import opened FilterLanguage

  datatype FilterError =
    | InvalidIp(text: string)
    | InvalidPrefix(text: string)
    | PrefixTooLong(length: nat)
    | InvalidPort(text: string)
    | PortOrder(first: nat, last: nat)
    | NoServerIps
    | NoPorts

  /** The numbers from `first` to `last`, both included. */
  datatype Range = Range(first: int, last: int)

  predicate InRange(r: Range, x: int) { r.first <= x <= r.last }

  predicate FieldValue(f: Field, v: int) { 0 <= v < if f == DstAddr then U32 else U16 }

  predicate FieldRange(f: Field, r: Range) { FieldValue(f, r.first) && FieldValue(f, r.last) }

  // ---------------------------------------------------------------- address blocks

  /** An address block as section 3.1 of RFC 4632 defines it: the addresses that agree with
      `base` on the first `length` bits. */
  datatype Block = Block(base: u32, length: nat)

  predicate InBlock(block: Block, x: u32)
    requires block.length <= 32
  {
    var size := Pow2(32 - block.length);
    x / size == block.base / size
  }

  /** What the text of a block says: an address with a prefix length, or an address alone. */
  function ReadBlock(cidr: string): (r: Option<Block>)
    ensures r.Some? ==> r.value.length <= 32
  {
    match SplitOnce(cidr, '/')
    case Some((ip, prefix)) =>
      (match (ParseIpv4(ip), ParseUnsigned(prefix, 32))
       case (Some(a), Some(n)) => Some(Block(a, n))
       case _ => None)
    case None =>
      match ParseIpv4(cidr)
      case Some(a) => Some(Block(a, 32))
      case None => None
  }

  function ShiftLeft32(x: u32, k: nat): u32 { x * Pow2(k) % U32 }

  function PrefixMask(prefix: nat): u32
    requires prefix <= 32
  {
    if prefix == 0 then 0 else ShiftLeft32(Not32(0), 32 - prefix)
  }

  lemma PrefixMaskValue(prefix: nat)
    requires prefix <= 32
    ensures Pow2(32 - prefix) <= U32 && PrefixMask(prefix) == U32 - Pow2(32 - prefix)
  {
    Pow2Values();
    Pow2Monotonic(32 - prefix, 32);
    var m := Pow2(32 - prefix);
    if prefix > 0 {
      assert (U32 - 1) * m == (m - 1) * U32 + (U32 - m);
      DivModUnique((U32 - 1) * m, U32, m - 1, U32 - m);
    }
  }

  lemma {:induction false} Pow2Split(j: nat, k: nat)
    ensures Pow2(j + k) == Pow2(k) * Pow2(j)
  {
    if k == 0 {
    } else {
      Pow2Split(j, k - 1);
    }
  }

  /** The numbers with the same quotient by m are a range of m numbers. */
  lemma SameQuotient(a: nat, m: nat, x: nat)
    requires m > 0
    ensures a - a % m <= x <= a - a % m + (m - 1) <==> x / m == a / m
  {
    ClearedIsMultiple(a, m);
    QuotientRange(a / m, m, x);
  }

  lemma ClearedIsMultiple(a: nat, m: nat)
    requires m > 0
    ensures a - a % m == a / m * m
  {
  }

  lemma QuotientRange(q: nat, m: nat, x: nat)
    requires m > 0
    ensures q * m <= x <= q * m + (m - 1) <==> x / m == q
  {
    if q * m <= x <= q * m + (m - 1) {
      DivModUnique(x, m, q, x - q * m);
    }
    if x / m == q {
      assert x == q * m + x % m;
    }
  }

  lemma BelowMultiple(a: nat, m: nat, top: nat)
    requires m > 0 && a < top * m
    ensures a - a % m + (m - 1) < top * m
  {
    var q := a / m;
    assert a - a % m == q * m;
    if q < top {
      MulGap(q, top, m);
    } else if top < q {
      MulGap(top, q, m);
    }
  }

  /** Such a range stays below 2^n when one of its members does. */
  lemma QuotientRangeBound(a: nat, k: nat, n: nat)
    requires k <= n && a < Pow2(n)
    ensures a - a % Pow2(k) + (Pow2(k) - 1) < Pow2(n)
  {
    Pow2Split(k, n - k);
    assert k + (n - k) == n;
    BelowMultiple(a, Pow2(k), Pow2(n - k));
  }

  lemma RoundDown(a: nat, m: nat)
    requires m > 0
    ensures (a - a % m) % m == 0
  {
    assert a - a % m == a / m * m;
    DivModUnique(a - a % m, m, a / m, 0);
  }

  lemma MaskClearsLowBits(a: nat, k: nat, n: nat)
    requires k <= n && a < Pow2(n)
    ensures Pow2(k) <= Pow2(n)
    ensures And(a, Pow2(n) - Pow2(k)) == a - a % Pow2(k)
    ensures Or(a - a % Pow2(k), Pow2(k) - 1) == a - a % Pow2(k) + (Pow2(k) - 1) < Pow2(n)
  {
    AndHighMask(a, k, n);
    var first := a - a % Pow2(k);
    RoundDown(a, Pow2(k));
    OrIsSum(first, Pow2(k) - 1, k);
    QuotientRangeBound(a, k, n);
  }

  lemma MaskedEnds(ip: u32, prefix: nat, k: nat)
    requires prefix + k == 32
    ensures var first, mask := And(ip, PrefixMask(prefix)), PrefixMask(prefix);
      && first == ip - ip % Pow2(k)
      && Or(first, Not32(mask)) == first + (Pow2(k) - 1) < U32
  {
    PrefixMaskValue(prefix);
    Pow2Values();
    MaskClearsLowBits(ip, k, 32);
  }

  /** The masked address and its complement are the ends of the block. */
  lemma MaskedRange(ip: u32, prefix: nat)
    requires prefix <= 32
    ensures var first, mask := And(ip, PrefixMask(prefix)), PrefixMask(prefix);
      && first <= ip <= Or(first, Not32(mask)) < U32
      && forall x: u32 :: first <= x <= Or(first, Not32(mask)) <==> InBlock(Block(ip, prefix), x)
  {
    var k := 32 - prefix;
    MaskedEnds(ip, prefix, k);
    SameQuotient(ip, Pow2(k), ip);
    forall x: u32
      ensures And(ip, PrefixMask(prefix)) <= x <= Or(And(ip, PrefixMask(prefix)), Not32(PrefixMask(prefix)))
        <==> InBlock(Block(ip, prefix), x)
    {
      SameQuotient(ip, Pow2(k), x);
    }
  }

  /** Mirrors `cidr_to_ip_range`; the error is the source's, without the library's message. */
  function CidrToIpRange(cidr: string): (r: Result<Range, FilterError>)
    ensures r.Success? <==> ReadBlock(cidr).Some?
    ensures r.Success? ==> FieldRange(DstAddr, r.value) && r.value.first <= r.value.last
  {
    match SplitOnce(cidr, '/')
    case Some((ipText, prefixText)) =>
      (match ParseIpv4(ipText)
       case None => Failure(InvalidIp(ipText))
       case Some(ip) =>
         match ParseUnsigned(prefixText, U32 - 1)
         case None => Failure(InvalidPrefix(prefixText))
         case Some(prefix) =>
           if prefix > 32 then Failure(PrefixTooLong(prefix)) else
           MaskedRange(ip, prefix);
           var mask := PrefixMask(prefix);
           var first := And(ip, mask);
           Success(Range(first, Or(first, Not32(mask)))))
    case None =>
      match ParseIpv4(cidr)
      case None => Failure(InvalidIp(cidr))
      case Some(ip) => Success(Range(ip, ip))
  }

  /** The range of a text holds exactly the addresses of the block that the text names. */
  lemma CidrRangeIsBlock(cidr: string, x: u32)
    requires ReadBlock(cidr).Some?
    ensures InRange(CidrToIpRange(cidr).value, x) <==> InBlock(ReadBlock(cidr).value, x)
  {
    match SplitOnce(cidr, '/')
    case Some((ipText, prefixText)) =>
      MaskedRange(ParseIpv4(ipText).value, ParseUnsigned(prefixText, 32).value);
    case None =>
      var ip := ParseIpv4(cidr).value;
      assert Pow2(0) == 1;
  }

  /** The printed form of a block reads back as that block. */
  lemma ReadShownBlock(a: u32, n: nat)
    requires n <= 32
    ensures ReadBlock(ShowIpv4(a) + "/" + ShowDecimal(n)) == Some(Block(a, n))
    ensures ReadBlock(ShowIpv4(a)) == Some(Block(a, 32))
  {
    SplitOnceAt(ShowIpv4(a), '/', ShowDecimal(n));
    ParseShownIpv4(a);
    ParseShownUnsigned(n, 32);
  }

  /** What cannot be read is reported as it stands, the address first; so is a prefix length that is
      a number of 32 bits and too long. */
  lemma CidrErrors(ip: string, prefix: string)
    requires '/' !in ip
    ensures ParseIpv4(ip).None? ==>
      CidrToIpRange(ip) == Failure(InvalidIp(ip)) && CidrToIpRange(ip + "/" + prefix) == Failure(InvalidIp(ip))
    ensures ParseIpv4(ip).Some? && ParseUnsigned(prefix, 0xFFFF_FFFF).None? ==>
      CidrToIpRange(ip + "/" + prefix) == Failure(InvalidPrefix(prefix))
    ensures forall n :: ParseIpv4(ip).Some? && ParseUnsigned(prefix, 0xFFFF_FFFF) == Some(n) && n > 32 ==>
      CidrToIpRange(ip + "/" + prefix) == Failure(PrefixTooLong(n))
  {
    SplitOnceAt(ip, '/', prefix);
  }

  // ---------------------------------------------------------------- port ranges

  function ParsePort(text: string): Option<nat> {
    ParseUnsigned(Trim(text, IsWhitespace), U16 - 1)
  }

  /** Mirrors `parse_port_range`. */
  function ParsePortRange(text: string): (r: Result<Range, FilterError>)
    ensures r.Success? ==> FieldRange(DstPort, r.value) && r.value.first <= r.value.last
  {
    match SplitOnce(text, '-')
    case Some((firstText, lastText)) =>
      (match ParsePort(firstText)
       case None => Failure(InvalidPort(firstText))
       case Some(first) =>
         match ParsePort(lastText)
         case None => Failure(InvalidPort(lastText))
         case Some(last) =>
           if first > last then Failure(PortOrder(first, last)) else Success(Range(first, last)))
    case None =>
      match ParsePort(text)
      case None => Failure(InvalidPort(text))
      case Some(port) => Success(Range(port, port))
  }

  /** Digits with white space around them. */
  function Padded(before: string, n: nat, after: string): string { before + ShowDecimal(n) + after }

  lemma ParsePaddedPort(before: string, n: u16, after: string)
    requires All(before, IsWhitespace) && All(after, IsWhitespace)
    ensures ParsePort(Padded(before, n, after)) == Some(n) && '-' !in Padded(before, n, after)
  {
    TrimPadded(before, ShowDecimal(n), after, IsWhitespace);
    ParseShownUnsigned(n, U16 - 1);
  }

  /** A printed range, with any white space around both numbers, reads back exactly when it is in
      order; and a single number is the range of just that port. */
  lemma ParseShownPortRange(first: u16, last: u16, a: string, b: string, c: string, d: string)
    requires All(a, IsWhitespace) && All(b, IsWhitespace) && All(c, IsWhitespace) && All(d, IsWhitespace)
    ensures ParsePortRange(Padded(a, first, b) + "-" + Padded(c, last, d))
         == if first <= last then Success(Range(first, last)) else Failure(PortOrder(first, last))
    ensures ParsePortRange(Padded(a, first, b)) == Success(Range(first, first))
  {
    ParsePaddedPort(a, first, b);
    ParsePaddedPort(c, last, d);
    SplitOnceAt(Padded(a, first, b), '-', Padded(c, last, d));
  }

  /** What cannot be read is reported as it stands, the start of a range first. */
  lemma PortRangeErrors(first: string, last: string)
    requires '-' !in first
    ensures ParsePort(first).None? ==>
      ParsePortRange(first) == Failure(InvalidPort(first))
      && ParsePortRange(first + "-" + last) == Failure(InvalidPort(first))
    ensures ParsePort(first).Some? && ParsePort(last).None? ==>
      ParsePortRange(first + "-" + last) == Failure(InvalidPort(last))
  {
    SplitOnceAt(first, '-', last);
  }

  // ---------------------------------------------------------------- the text of a filter

  function FieldName(f: Field): string {
    match f
    case DstAddr => "ip.DstAddr"
    case DstPort => "udp.DstPort"
  }

  predicate FieldRanges(f: Field, rs: seq<Range>) {
    rs != [] && forall i :: 0 <= i < |rs| ==> FieldRange(f, rs[i])
  }

  function ShowValue(f: Field, v: int): string
    requires FieldValue(f, v)
  {
    match f
    case DstAddr => ShowIpv4(v)
    case DstPort => ShowDecimal(v)
  }

  function RelationWord(rel: Relation): string {
    match rel
    case Equal => "=="
    case AtLeast => ">="
    case AtMost => "<="
  }

  function Comparison(f: Field, rel: Relation, v: int): string
    requires FieldValue(f, v)
  {
    Spaced(FieldName(f), Spaced(RelationWord(rel), ShowValue(f, v)))
  }

  function Clause(f: Field, r: Range): string
    requires FieldRange(f, r)
  {
    if r.first == r.last then Comparison(f, Equal, r.first)
    else Parenthesized(Spaced(Comparison(f, AtLeast, r.first), Spaced(OpWord(Conj), Comparison(f, AtMost, r.last))))
  }

  /** `join`, with the operator between two spaces as the separator. */
  function Join(op: Op, parts: seq<string>): string
    requires parts != []
  {
    if |parts| == 1 then parts[0] else Spaced(parts[0], Spaced(OpWord(op), Join(op, parts[1..])))
  }

  function AnyOf(clauses: seq<string>): string
    requires clauses != []
  {
    if |clauses| == 1 then clauses[0] else Parenthesized(Join(Disj, clauses))
  }

  function Clauses(f: Field, rs: seq<Range>): (cs: seq<string>)
    requires forall i :: 0 <= i < |rs| ==> FieldRange(f, rs[i])
    ensures |cs| == |rs|
  {
    seq(|rs|, i requires 0 <= i < |rs| => Clause(f, rs[i]))
  }

  lemma ClausesAppend(f: Field, rs: seq<Range>, r: Range)
    requires FieldRange(f, r) && forall i :: 0 <= i < |rs| ==> FieldRange(f, rs[i])
    ensures Clauses(f, rs + [r]) == Clauses(f, rs) + [Clause(f, r)]
  {
  }

  function CombineClauses(ipClauses: seq<string>, portClauses: seq<string>): string
    requires ipClauses != [] && portClauses != []
  {
    Join(Conj, ["outbound", "udp", AnyOf(ipClauses), AnyOf(portClauses)])
  }

  function FilterText(addresses: seq<Range>, ports: seq<Range>): string
    requires FieldRanges(DstAddr, addresses) && FieldRanges(DstPort, ports)
  {
    CombineClauses(Clauses(DstAddr, addresses), Clauses(DstPort, ports))
  }

  // ---------------------------------------------------------------- the text, letter by letter

  /** Parts with a separator between each two. */
  function Separated(parts: seq<string>, separator: string): string
    requires parts != []
  {
    if |parts| == 1 then parts[0] else parts[0] + separator + Separated(parts[1..], separator)
  }

  lemma SpacedWord(before: string, word: string, after: string)
    ensures Spaced(before, Spaced(word, after)) == before + (" " + word + " ") + after
  {
  }

  lemma {:induction false} JoinSeparates(op: Op, parts: seq<string>)
    requires parts != []
    ensures Join(op, parts) == Separated(parts, if op == Conj then " and " else " or ")
  {
    if |parts| > 1 {
      JoinSeparates(op, parts[1..]);
      SpacedWord(parts[0], OpWord(op), Join(op, parts[1..]));
      assert " " + "and" + " " == " and " && " " + "or" + " " == " or ";
    }
  }

  /** The text of a test of one field. */
  lemma ComparisonText(f: Field, rel: Relation, v: int)
    requires FieldValue(f, v)
    ensures Comparison(f, rel, v)
         == (if f == DstAddr then "ip.DstAddr" else "udp.DstPort")
          + (match rel case Equal => " == " case AtLeast => " >= " case AtMost => " <= ")
          + (if f == DstAddr then ShowIpv4(v) else ShowDecimal(v))
  {
    SpacedWord(FieldName(f), RelationWord(rel), ShowValue(f, v));
    assert " " + "==" + " " == " == " && " " + ">=" + " " == " >= " && " " + "<=" + " " == " <= ";
  }

  /** The text of a range: one test, or two in parentheses. */
  lemma ClauseText(f: Field, r: Range)
    requires FieldRange(f, r)
    ensures r.first == r.last ==> Clause(f, r) == Comparison(f, Equal, r.first)
    ensures r.first != r.last ==>
      Clause(f, r) == "(" + Comparison(f, AtLeast, r.first) + " and " + Comparison(f, AtMost, r.last) + ")"
  {
    if r.first != r.last {
      TwoTests(Comparison(f, AtLeast, r.first), Comparison(f, AtMost, r.last));
    }
  }

  lemma TwoTests(a: string, b: string)
    ensures Parenthesized(Spaced(a, Spaced(OpWord(Conj), b))) == "(" + a + " and " + b + ")"
  {
    SpacedWord(a, OpWord(Conj), b);
    assert " " + "and" + " " == " and ";
  }

  /** The text of the whole filter, from its clauses. */
  lemma FilterIsPrinted(ipClauses: seq<string>, portClauses: seq<string>)
    requires ipClauses != [] && portClauses != []
    ensures
      var addresses := if |ipClauses| == 1 then ipClauses[0] else "(" + Separated(ipClauses, " or ") + ")";
      var ports := if |portClauses| == 1 then portClauses[0] else "(" + Separated(portClauses, " or ") + ")";
      CombineClauses(ipClauses, portClauses) == "outbound" + " and " + "udp" + " and " + addresses + " and " + ports
  {
    JoinSeparates(Disj, ipClauses);
    JoinSeparates(Disj, portClauses);
    var parts := ["outbound", "udp", AnyOf(ipClauses), AnyOf(portClauses)];
    JoinSeparates(Conj, parts);
    SeparatedFour(parts, " and ");
  }

  lemma SeparatedFour(parts: seq<string>, separator: string)
    requires |parts| == 4
    ensures Separated(parts, separator)
         == parts[0] + separator + parts[1] + separator + parts[2] + separator + parts[3]
  {
    assert Separated(parts[3..], separator) == parts[3];
    assert parts[2..][1..] == parts[3..] && parts[1..][1..] == parts[2..];
    assert Separated(parts[2..], separator) == parts[2] + separator + parts[3];
    assert Separated(parts[1..], separator) == parts[1] + separator + (parts[2] + separator + parts[3]);
  }

  // ---------------------------------------------------------------- what the text parses to

  function ComparisonPiece(f: Field, rel: Relation, v: int): Piece
    requires FieldValue(f, v)
  {
    Piece([Word(FieldName(f)), Word(RelationWord(rel)), Word(ShowValue(f, v))], Compare(f, rel, v))
  }

  lemma ComparisonReads(f: Field, rel: Relation, v: int)
    requires FieldValue(f, v)
    ensures ParseField(FieldName(f)) == Some(f) && ParseRelation(RelationWord(rel)) == Some(rel)
    ensures ParseLiteral(f, ShowValue(f, v)) == Some(v)
    ensures FieldName(f) != "outbound" && FieldName(f) != "udp"
  {
    if f == DstAddr { ParseShownIpv4(v); } else { ParseShownUnsigned(v, U16 - 1); }
    assert |"ip.DstAddr"| == 10 && |"udp.DstPort"| == 11;
  }

  lemma ComparisonIsAtom(f: Field, rel: Relation, v: int, b: Binding)
    requires FieldValue(f, v)
    ensures IsAtom(ComparisonPiece(f, rel, v), b)
  {
    var piece := ComparisonPiece(f, rel, v);
    ComparisonReads(f, rel, v);
    forall rest
      ensures ParseAtom(piece.tokens + rest, b) == Some((piece.expr, rest))
    {
      var ts := piece.tokens + rest;
      assert ts[3..] == rest;
      ComparisonParses(ts, b, f, rel, v);
    }
  }

  lemma NamesAreWords(f: Field, rel: Relation)
    ensures IsWord(FieldName(f)) && IsWord(RelationWord(rel))
  {
  }

  lemma ValuesAreWords(f: Field, v: int)
    requires FieldValue(f, v)
    ensures IsWord(ShowValue(f, v))
  {
    if f == DstAddr {
      var shown := ShowIpv4(v);
      assert forall i :: 0 <= i < |shown| ==> shown[i] in shown;
    }
  }

  lemma ComparisonWords(f: Field, rel: Relation, v: int)
    requires FieldValue(f, v)
    ensures IsWord(FieldName(f)) && IsWord(RelationWord(rel)) && IsWord(ShowValue(f, v))
  {
    NamesAreWords(f, rel);
    ValuesAreWords(f, v);
  }

  lemma TokenizeComparison(f: Field, rel: Relation, v: int)
    requires FieldValue(f, v)
    ensures Tokenize(Comparison(f, rel, v)) == ComparisonPiece(f, rel, v).tokens
  {
    ComparisonWords(f, rel, v);
    TokenizeWordThen(FieldName(f), Spaced(RelationWord(rel), ShowValue(f, v)));
    TokenizeWordThen(RelationWord(rel), ShowValue(f, v));
    TokenizeWord(ShowValue(f, v));
  }

  function Bounds(f: Field, r: Range): seq<Piece>
    requires FieldRange(f, r)
  {
    [ComparisonPiece(f, AtLeast, r.first), ComparisonPiece(f, AtMost, r.last)]
  }

  function ClausePiece(f: Field, r: Range): Piece
    requires FieldRange(f, r)
  {
    if r.first == r.last then ComparisonPiece(f, Equal, r.first) else Group(Conj, Bounds(f, r))
  }

  lemma ClauseIsAtom(f: Field, r: Range, b: Binding)
    requires FieldRange(f, r)
    ensures IsAtom(ClausePiece(f, r), b)
  {
    if r.first == r.last {
      ComparisonIsAtom(f, Equal, r.first, b);
    } else {
      ComparisonIsAtom(f, AtLeast, r.first, b);
      ComparisonIsAtom(f, AtMost, r.last, b);
      GroupIsAtom(Conj, Bounds(f, r), b);
    }
  }

  /** Texts joined by an operator tokenize to the chain of their tokens. */
  lemma {:induction false} TokenizeJoin(op: Op, parts: seq<string>, ps: seq<Piece>)
    requires parts != [] && |ps| == |parts|
    requires forall i :: 0 <= i < |parts| ==> Tokenize(parts[i]) == ps[i].tokens
    ensures Tokenize(Join(op, parts)) == ChainTokens(op, ps)
    decreases |parts|
  {
    if |parts| == 1 {
      assert ChainTokens(op, ps) == ps[0].tokens + [];
    } else {
      var rest := Join(op, parts[1..]);
      TokenizeJoin(op, parts[1..], ps[1..]);
      TokenizeSpaced(parts[0], Spaced(OpWord(op), rest));
      OpWordIsWord(op);
      TokenizeWordThen(OpWord(op), rest);
    }
  }

  lemma TokenizeClause(f: Field, r: Range)
    requires FieldRange(f, r)
    ensures Tokenize(Clause(f, r)) == ClausePiece(f, r).tokens
  {
    if r.first == r.last {
      TokenizeComparison(f, Equal, r.first);
    } else {
      var texts := [Comparison(f, AtLeast, r.first), Comparison(f, AtMost, r.last)];
      TokenizeComparison(f, AtLeast, r.first);
      TokenizeComparison(f, AtMost, r.last);
      TokenizeJoin(Conj, texts, Bounds(f, r));
      assert texts[1..] == [texts[1]];
      assert Clause(f, r) == Parenthesized(Join(Conj, texts));
      TokenizeParenthesized(Join(Conj, texts));
    }
  }

  lemma ClauseMeaning(f: Field, r: Range, p: Packet)
    requires FieldRange(f, r)
    ensures Eval(ClausePiece(f, r).expr, p) <==> FieldOf(f, p).Some? && InRange(r, FieldOf(f, p).value)
  {
    if r.first != r.last {
      ChainMeaning(Conj, Bounds(f, r), p);
    }
  }

  function ClausePieces(f: Field, rs: seq<Range>): (ps: seq<Piece>)
    requires forall i :: 0 <= i < |rs| ==> FieldRange(f, rs[i])
    ensures |ps| == |rs|
  {
    seq(|rs|, i requires 0 <= i < |rs| => ClausePiece(f, rs[i]))
  }

  function AnyOfPiece(f: Field, rs: seq<Range>): Piece
    requires FieldRanges(f, rs)
  {
    if |rs| == 1 then ClausePiece(f, rs[0]) else Group(Disj, ClausePieces(f, rs))
  }

  lemma TokenizeAnyOf(f: Field, rs: seq<Range>)
    requires FieldRanges(f, rs)
    ensures Tokenize(AnyOf(Clauses(f, rs))) == AnyOfPiece(f, rs).tokens
  {
    forall i | 0 <= i < |rs|
      ensures Tokenize(Clauses(f, rs)[i]) == ClausePieces(f, rs)[i].tokens
    {
      TokenizeClause(f, rs[i]);
    }
    TokenizeJoin(Disj, Clauses(f, rs), ClausePieces(f, rs));
    TokenizeParenthesized(Join(Disj, Clauses(f, rs)));
  }

  lemma AnyOfIsAtom(f: Field, rs: seq<Range>, b: Binding)
    requires FieldRanges(f, rs)
    ensures IsAtom(AnyOfPiece(f, rs), b)
  {
    forall i | 0 <= i < |rs|
      ensures IsAtom(ClausePiece(f, rs[i]), b)
    {
      ClauseIsAtom(f, rs[i], b);
    }
    GroupIsAtom(Disj, ClausePieces(f, rs), b);
  }

  /** The field is present and lies in one of the ranges. */
  predicate InSomeRange(rs: seq<Range>, x: Option<int>) {
    x.Some? && exists i :: 0 <= i < |rs| && InRange(rs[i], x.value)
  }

  /** The piece tests whether the field is present and lies in the range. */
  predicate TestsRange(piece: Piece, r: Range, f: Field, p: Packet) {
    Eval(piece.expr, p) <==> FieldOf(f, p).Some? && InRange(r, FieldOf(f, p).value)
  }

  lemma SomePieceMeaning(ps: seq<Piece>, rs: seq<Range>, f: Field, p: Packet)
    requires |ps| == |rs| && forall i :: 0 <= i < |rs| ==> TestsRange(ps[i], rs[i], f, p)
    ensures EvalsSome(ps, p) <==> InSomeRange(rs, FieldOf(f, p))
  {
  }

  lemma PiecesTestRanges(f: Field, rs: seq<Range>, p: Packet)
    requires FieldRanges(f, rs)
    ensures forall i :: 0 <= i < |rs| ==> TestsRange(ClausePieces(f, rs)[i], rs[i], f, p)
  {
    forall i | 0 <= i < |rs|
      ensures TestsRange(ClausePieces(f, rs)[i], rs[i], f, p)
    {
      ClauseMeaning(f, rs[i], p);
    }
  }

  lemma SingleRange(rs: seq<Range>, x: Option<int>)
    requires |rs| == 1
    ensures InSomeRange(rs, x) <==> x.Some? && InRange(rs[0], x.value)
  {
  }

  lemma GroupMeaning(f: Field, rs: seq<Range>, p: Packet)
    requires FieldRanges(f, rs)
    ensures Eval(ChainExpr(Disj, ClausePieces(f, rs)), p) <==> InSomeRange(rs, FieldOf(f, p))
  {
    var ps := ClausePieces(f, rs);
    PiecesTestRanges(f, rs, p);
    SomePieceMeaning(ps, rs, f, p);
    ChainMeaning(Disj, ps, p);
  }

  lemma AnyOfMeaning(f: Field, rs: seq<Range>, p: Packet)
    requires FieldRanges(f, rs)
    ensures Eval(AnyOfPiece(f, rs).expr, p) <==> InSomeRange(rs, FieldOf(f, p))
  {
    if |rs| == 1 {
      ClauseMeaning(f, rs[0], p);
      SingleRange(rs, FieldOf(f, p));
    } else {
      GroupMeaning(f, rs, p);
    }
  }

  // ---------------------------------------------------------------- the meaning of a filter

  function FilterPieces(addresses: seq<Range>, ports: seq<Range>): seq<Piece>
    requires FieldRanges(DstAddr, addresses) && FieldRanges(DstPort, ports)
  {
    [Piece([Word("outbound")], Outbound), Piece([Word("udp")], Udp),
     AnyOfPiece(DstAddr, addresses), AnyOfPiece(DstPort, ports)]
  }

  lemma TokenizeOutbound()
    ensures Tokenize("outbound") == [Word("outbound")]
  {
    TokenizeWord("outbound");
  }

  lemma TokenizeUdp()
    ensures Tokenize("udp") == [Word("udp")]
  {
    TokenizeWord("udp");
  }

  function FilterParts(addresses: seq<Range>, ports: seq<Range>): seq<string>
    requires FieldRanges(DstAddr, addresses) && FieldRanges(DstPort, ports)
  {
    ["outbound", "udp", AnyOf(Clauses(DstAddr, addresses)), AnyOf(Clauses(DstPort, ports))]
  }

  lemma TokenizeFour(parts: seq<string>, ps: seq<Piece>)
    requires |parts| == |ps| == 4
    requires Tokenize(parts[0]) == ps[0].tokens && Tokenize(parts[1]) == ps[1].tokens
    requires Tokenize(parts[2]) == ps[2].tokens && Tokenize(parts[3]) == ps[3].tokens
    ensures Tokenize(Join(Conj, parts)) == ChainTokens(Conj, ps)
  {
    TokenizeJoin(Conj, parts, ps);
  }

  lemma TokenizeFilter(addresses: seq<Range>, ports: seq<Range>)
    requires FieldRanges(DstAddr, addresses) && FieldRanges(DstPort, ports)
    ensures Tokenize(FilterText(addresses, ports)) == ChainTokens(Conj, FilterPieces(addresses, ports))
  {
    var parts, ps := FilterParts(addresses, ports), FilterPieces(addresses, ports);
    TokenizeAnyOf(DstAddr, addresses);
    TokenizeAnyOf(DstPort, ports);
    TokenizeOutbound();
    TokenizeUdp();
    TokenizeFour(parts, ps);
  }

  /** The text is a well-formed filter, under either binding of `and` and `or`, and it passes
      exactly the outbound UDP packets whose address and port lie in some given range. */
  ghost predicate SelectsRanges(text: string, addresses: seq<Range>, ports: seq<Range>) {
    forall b ::
      && Parse(text, b).Some?
      && forall p :: Passes(text, b, p) <==>
          p.outbound && InSomeRange(addresses, p.dstAddr) && InSomeRange(ports, p.udpDstPort)
  }

  lemma FilterParses(addresses: seq<Range>, ports: seq<Range>, b: Binding)
    requires FieldRanges(DstAddr, addresses) && FieldRanges(DstPort, ports)
    ensures Parse(FilterText(addresses, ports), b) == Some(ChainExpr(Conj, FilterPieces(addresses, ports)))
  {
    var ps := FilterPieces(addresses, ports);
    TokenizeFilter(addresses, ports);
    KeywordsAreAtoms(b);
    AnyOfIsAtom(DstAddr, addresses, b);
    AnyOfIsAtom(DstPort, ports, b);
    ChainParses(Conj, ps, [], b);
    assert ChainTokens(Conj, ps) + [] == ChainTokens(Conj, ps);
  }

  lemma EvalsAllFour(ps: seq<Piece>, p: Packet)
    requires |ps| == 4
    ensures EvalsAll(ps, p) <==>
      Eval(ps[0].expr, p) && Eval(ps[1].expr, p) && Eval(ps[2].expr, p) && Eval(ps[3].expr, p)
  {
  }

  lemma FilterExprMeaning(addresses: seq<Range>, ports: seq<Range>, p: Packet)
    requires FieldRanges(DstAddr, addresses) && FieldRanges(DstPort, ports)
    ensures Eval(ChainExpr(Conj, FilterPieces(addresses, ports)), p) <==>
      p.outbound && InSomeRange(addresses, p.dstAddr) && InSomeRange(ports, p.udpDstPort)
  {
    var ps := FilterPieces(addresses, ports);
    ChainMeaning(Conj, ps, p);
    EvalsAllFour(ps, p);
    AnyOfMeaning(DstAddr, addresses, p);
    AnyOfMeaning(DstPort, ports, p);
  }

  lemma ExprSelectsRanges(text: string, e: Expr, addresses: seq<Range>, ports: seq<Range>)
    requires forall b :: Parse(text, b) == Some(e)
    requires forall p :: Eval(e, p) <==>
      p.outbound && InSomeRange(addresses, p.dstAddr) && InSomeRange(ports, p.udpDstPort)
    ensures SelectsRanges(text, addresses, ports)
  {
  }

  lemma FilterSelectsRanges(addresses: seq<Range>, ports: seq<Range>)
    requires FieldRanges(DstAddr, addresses) && FieldRanges(DstPort, ports)
    ensures SelectsRanges(FilterText(addresses, ports), addresses, ports)
  {
    var e := ChainExpr(Conj, FilterPieces(addresses, ports));
    forall b
      ensures Parse(FilterText(addresses, ports), b) == Some(e)
    {
      FilterParses(addresses, ports, b);
    }
    forall p
      ensures Eval(e, p) <==>
        p.outbound && InSomeRange(addresses, p.dstAddr) && InSomeRange(ports, p.udpDstPort)
    {
      FilterExprMeaning(addresses, ports, p);
    }
    ExprSelectsRanges(FilterText(addresses, ports), e, addresses, ports);
  }

  lemma KeywordsAreAtoms(b: Binding)
    ensures IsAtom(Piece([Word("outbound")], Outbound), b)
    ensures IsAtom(Piece([Word("udp")], Udp), b)
  {
  }

  // ---------------------------------------------------------------- the builder

  predicate InListedBlock(serverIps: seq<string>, x: Option<u32>) {
    && x.Some?
    && exists i :: 0 <= i < |serverIps| && ReadBlock(serverIps[i]).Some? && InBlock(ReadBlock(serverIps[i]).value, x.value)
  }

  predicate OnListedPort(ports: seq<string>, x: Option<u16>) {
    && x.Some?
    && exists i :: 0 <= i < |ports| && ParsePortRange(ports[i]).Success? && InRange(ParsePortRange(ports[i]).value, x.value)
  }

  predicate AllBlocks(serverIps: seq<string>) {
    forall i :: 0 <= i < |serverIps| ==> ReadBlock(serverIps[i]).Some?
  }

  predicate AllPorts(ports: seq<string>) {
    forall i :: 0 <= i < |ports| ==> ParsePortRange(ports[i]).Success?
  }

  /** The error that the builder reports: for an empty list first, then for the first text that
      cannot be read, addresses before ports. */
  predicate FirstError(serverIps: seq<string>, ports: seq<string>, e: FilterError) {
    if serverIps == [] then e == NoServerIps
    else if ports == [] then e == NoPorts
    else if !AllBlocks(serverIps) then
      exists i :: 0 <= i < |serverIps| && CidrToIpRange(serverIps[i]) == Failure(e) && AllBlocks(serverIps[..i])
    else
      exists i :: 0 <= i < |ports| && ParsePortRange(ports[i]) == Failure(e) && AllPorts(ports[..i])
  }

  /** The filter passes exactly the outbound UDP packets that go to a listed block on a listed port. */
  ghost predicate SelectsListed(text: string, serverIps: seq<string>, ports: seq<string>) {
    forall b ::
      && Parse(text, b).Some?
      && forall p :: Passes(text, b, p) <==>
          p.outbound && InListedBlock(serverIps, p.dstAddr) && OnListedPort(ports, p.udpDstPort)
  }

  predicate ReadsAddresses(serverIps: seq<string>, rs: seq<Range>) {
    && |rs| == |serverIps|
    && forall i :: 0 <= i < |rs| ==> CidrToIpRange(serverIps[i]) == Success(rs[i])
  }

  predicate ReadsPorts(ports: seq<string>, rs: seq<Range>) {
    && |rs| == |ports|
    && forall i :: 0 <= i < |rs| ==> ParsePortRange(ports[i]) == Success(rs[i])
  }

  lemma ReadsPortsAppend(ports: seq<string>, i: nat, rs: seq<Range>, r: Range)
    requires i < |ports| && ReadsPorts(ports[..i], rs) && ParsePortRange(ports[i]) == Success(r)
    ensures ReadsPorts(ports[..i + 1], rs + [r])
  {
  }

  lemma ReadsAddressesAppend(serverIps: seq<string>, i: nat, rs: seq<Range>, r: Range)
    requires i < |serverIps| && ReadsAddresses(serverIps[..i], rs) && CidrToIpRange(serverIps[i]) == Success(r)
    ensures ReadsAddresses(serverIps[..i + 1], rs + [r])
  {
  }

  /** The text is the filter printed for the ranges that the lists read as. */
  predicate IsFilterOf(text: string, serverIps: seq<string>, ports: seq<string>, addresses: seq<Range>, portRanges: seq<Range>) {
    && serverIps != [] && ports != []
    && ReadsAddresses(serverIps, addresses) && ReadsPorts(ports, portRanges)
    && text == CombineClauses(Clauses(DstAddr, addresses), Clauses(DstPort, portRanges))
  }

  /** The first loop of `build_windivert_filter`. */
  method BuildIpClauses(serverIps: seq<string>)
    returns (r: Result<seq<string>, FilterError>, ghost ranges: seq<Range>)
    ensures r.Success? ==> ReadsAddresses(serverIps, ranges) && r.value == Clauses(DstAddr, ranges)
    ensures r.Failure? ==>
      exists i :: 0 <= i < |serverIps| && CidrToIpRange(serverIps[i]) == Failure(r.error) && AllBlocks(serverIps[..i])
  {
    var clauses: seq<string> := [];
    ranges := [];
    for i := 0 to |serverIps|
      invariant ReadsAddresses(serverIps[..i], ranges)
      invariant clauses == Clauses(DstAddr, ranges)
    {
      var range := CidrToIpRange(serverIps[i]);
      if range.Failure? {
        assert AllBlocks(serverIps[..i]);
        return Failure(range.error), ranges;
      }
      ClausesAppend(DstAddr, ranges, range.value);
      ReadsAddressesAppend(serverIps, i, ranges, range.value);
      ranges := ranges + [range.value];
      clauses := clauses + [Clause(DstAddr, range.value)];
    }
    assert serverIps[..|serverIps|] == serverIps;
    r := Success(clauses);
  }

  /** The second loop of `build_windivert_filter`. */
  method BuildPortClauses(ports: seq<string>)
    returns (r: Result<seq<string>, FilterError>, ghost ranges: seq<Range>)
    ensures r.Success? ==> ReadsPorts(ports, ranges) && r.value == Clauses(DstPort, ranges)
    ensures r.Failure? ==>
      exists i :: 0 <= i < |ports| && ParsePortRange(ports[i]) == Failure(r.error) && AllPorts(ports[..i])
  {
    var clauses: seq<string> := [];
    ranges := [];
    for i := 0 to |ports|
      invariant ReadsPorts(ports[..i], ranges)
      invariant clauses == Clauses(DstPort, ranges)
    {
      var range := ParsePortRange(ports[i]);
      if range.Failure? {
        assert AllPorts(ports[..i]);
        return Failure(range.error), ranges;
      }
      ClausesAppend(DstPort, ranges, range.value);
      ReadsPortsAppend(ports, i, ranges, range.value);
      ranges := ranges + [range.value];
      clauses := clauses + [Clause(DstPort, range.value)];
    }
    assert ports[..|ports|] == ports;
    r := Success(clauses);
  }

  /** Mirrors `build_windivert_filter`. */
  method BuildWindivertFilter(serverIps: seq<string>, ports: seq<string>) returns (r: Result<string, FilterError>)
    ensures r.Success? <==> serverIps != [] && ports != [] && AllBlocks(serverIps) && AllPorts(ports)
    ensures r.Success? ==> SelectsListed(r.value, serverIps, ports)
    ensures r.Success? ==> exists addresses, portRanges :: IsFilterOf(r.value, serverIps, ports, addresses, portRanges)
    ensures r.Failure? ==> FirstError(serverIps, ports, r.error)
  {
    if serverIps == [] { return Failure(NoServerIps); }
    if ports == [] { return Failure(NoPorts); }
    var ipClauses, addresses := BuildIpClauses(serverIps);
    if ipClauses.Failure? { return Failure(ipClauses.error); }
    assert AllBlocks(serverIps);
    var portClauses, portRanges := BuildPortClauses(ports);
    if portClauses.Failure? { return Failure(portClauses.error); }
    var filter := CombineClauses(ipClauses.value, portClauses.value);
    r := Success(filter);
    FilterSelectsRanges(addresses, portRanges);
    RangesAreListed(filter, serverIps, addresses, ports, portRanges);
    assert IsFilterOf(filter, serverIps, ports, addresses, portRanges);
  }

  lemma RangesAreListed(text: string, serverIps: seq<string>, addresses: seq<Range>,
                        ports: seq<string>, portRanges: seq<Range>)
    requires ReadsAddresses(serverIps, addresses) && ReadsPorts(ports, portRanges)
    requires SelectsRanges(text, addresses, portRanges)
    ensures SelectsListed(text, serverIps, ports)
  {
    forall b, p
      ensures Passes(text, b, p) <==>
        p.outbound && InListedBlock(serverIps, p.dstAddr) && OnListedPort(ports, p.udpDstPort)
    {
      ListedIsRange(serverIps, addresses, ports, portRanges, p);
    }
  }

  lemma ListedIsRange(serverIps: seq<string>, addresses: seq<Range>, ports: seq<string>, portRanges: seq<Range>, p: Packet)
    requires ReadsAddresses(serverIps, addresses) && ReadsPorts(ports, portRanges)
    ensures InSomeRange(addresses, p.dstAddr) <==> InListedBlock(serverIps, p.dstAddr)
    ensures InSomeRange(portRanges, p.udpDstPort) <==> OnListedPort(ports, p.udpDstPort)
  {
    if p.dstAddr.Some? {
      var x := p.dstAddr.value;
      forall i | 0 <= i < |serverIps|
        ensures InRange(addresses[i], x) <==> ReadBlock(serverIps[i]).Some? && InBlock(ReadBlock(serverIps[i]).value, x)
      {
        CidrRangeIsBlock(serverIps[i], x);
      }
    }
  }
}
