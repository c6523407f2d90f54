/** The fragment of the WinDivert filter language that the client emits: a tokenizer, a parser
    and the meaning of a filter on a packet.

    The parser takes the relative binding of `and` and `or` as a parameter, because the filter
    builder never relies on it.
 */
module FilterLanguage {
  import opened Bits
  import opened Text

  // ---------------------------------------------------------------- tokens

  datatype Token = LParen | RParen | Word(text: string)

  predicate WordChar(c: char) { c != ' ' && c != '(' && c != ')' }

  predicate IsWord(w: string) { w != [] && forall i :: 0 <= i < |w| ==> WordChar(w[i]) }

  function WordLength(s: string): (n: nat)
    ensures n <= |s| && (forall i :: 0 <= i < n ==> WordChar(s[i]))
    ensures n < |s| ==> !WordChar(s[n])
  {
    if s == [] || !WordChar(s[0]) then 0 else 1 + WordLength(s[1..])
  }

  function Tokenize(s: string): seq<Token>
    decreases |s|
  {
    if s == [] then []
    else if s[0] == ' ' then Tokenize(s[1..])
    else if s[0] == '(' then [LParen] + Tokenize(s[1..])
    else if s[0] == ')' then [RParen] + Tokenize(s[1..])
    else
      var n := WordLength(s);
      [Word(s[..n])] + Tokenize(s[n..])
  }

  // ---------------------------------------------------------------- syntax and meaning

  datatype Field = DstAddr | DstPort

  datatype Relation = Equal | AtLeast | AtMost

  datatype Op = Conj | Disj

  datatype Expr =
    | Outbound
    | Udp
    | Compare(field: Field, rel: Relation, value: nat)
    | Joined(op: Op, left: Expr, right: Expr)

  /** What a filter sees of a packet; a header that is absent has no field. */
  datatype Packet = Packet(outbound: bool, dstAddr: Option<u32>, udpDstPort: Option<u16>)

  function FieldOf(f: Field, p: Packet): Option<int> {
    match f
    case DstAddr => p.dstAddr
    case DstPort => p.udpDstPort
  }

  predicate Related(rel: Relation, x: int, y: int) {
    match rel
    case Equal => x == y
    case AtLeast => x >= y
    case AtMost => x <= y
  }

  /** A test of a field that the packet does not have is false. */
  predicate Eval(e: Expr, p: Packet) {
    match e
    case Outbound => p.outbound
    case Udp => p.udpDstPort.Some?
    case Compare(f, rel, v) => FieldOf(f, p).Some? && Related(rel, FieldOf(f, p).value, v)
    case Joined(Conj, l, r) => Eval(l, p) && Eval(r, p)
    case Joined(Disj, l, r) => Eval(l, p) || Eval(r, p)
  }

  // ---------------------------------------------------------------- parser

  datatype Binding = AndBindsTighter | OrBindsTighter

  datatype Level = Loose | Tight

  function OpAt(b: Binding, level: Level): Op {
    if (level == Tight) == (b == AndBindsTighter) then Conj else Disj
  }

  function OpWord(op: Op): string { if op == Conj then "and" else "or" }

  predicate StartsWithOp(ts: seq<Token>, op: Op) { ts != [] && ts[0] == Word(OpWord(op)) }

  type Parsed = Option<(Expr, seq<Token>)>

  lemma OpWordIsWord(op: Op)
    ensures IsWord(OpWord(op))
  {
  }

  function ParseField(w: string): Option<Field> {
    if w == "ip.DstAddr" then Some(DstAddr) else if w == "udp.DstPort" then Some(DstPort) else None
  }

  function ParseRelation(w: string): Option<Relation> {
    if w == "==" then Some(Equal) else if w == ">=" then Some(AtLeast) else if w == "<=" then Some(AtMost) else None
  }

  function ParseLiteral(f: Field, w: string): Option<nat> {
    match f
    case DstAddr => ParseIpv4(w)
    case DstPort => ParseUnsigned(w, U16 - 1)
  }

  function ParseComparison(ts: seq<Token>): (r: Parsed)
    ensures r.Some? ==> |r.value.1| < |ts|
  {
    if |ts| < 3 || !ts[0].Word? || !ts[1].Word? || !ts[2].Word? then None else
    match (ParseField(ts[0].text), ParseRelation(ts[1].text))
    case (Some(f), Some(rel)) =>
      (match ParseLiteral(f, ts[2].text)
       case Some(v) => Some((Compare(f, rel, v), ts[3..]))
       case None => None)
    case _ => None
  }

  function ParseAtom(ts: seq<Token>, b: Binding): (r: Parsed)
    ensures r.Some? ==> |r.value.1| < |ts|
    decreases |ts|, 0
  {
    if ts == [] then None
    else if ts[0] == LParen then
      match ParseLevel(Loose, ts[1..], b)
      case Some((e, rest)) => if rest != [] && rest[0] == RParen then Some((e, rest[1..])) else None
      case None => None
    else if ts[0] == Word("outbound") then Some((Outbound, ts[1..]))
    else if ts[0] == Word("udp") then Some((Udp, ts[1..]))
    else ParseComparison(ts)
  }

  /** What a chain at this level joins: at the loose level, chains of the tight level. */
  function ParseOperand(level: Level, ts: seq<Token>, b: Binding): (r: Parsed)
    ensures r.Some? ==> |r.value.1| < |ts|
    decreases |ts|, if level == Loose then 3 else 1
  {
    if level == Loose then ParseLevel(Tight, ts, b) else ParseAtom(ts, b)
  }

  function ParseLevel(level: Level, ts: seq<Token>, b: Binding): (r: Parsed)
    ensures r.Some? ==> |r.value.1| < |ts|
    decreases |ts|, if level == Loose then 4 else 2
  {
    match ParseOperand(level, ts, b)
    case Some((e, rest)) => ParseChain(level, e, rest, b)
    case None => None
  }

  function ParseChain(level: Level, left: Expr, ts: seq<Token>, b: Binding): (r: Parsed)
    ensures r.Some? ==> |r.value.1| <= |ts|
    decreases |ts|, 0
  {
    var op := OpAt(b, level);
    if !StartsWithOp(ts, op) then Some((left, ts)) else
    match ParseOperand(level, ts[1..], b)
    case Some((e, rest)) => ParseChain(level, Joined(op, left, e), rest, b)
    case None => None
  }

  function Parse(text: string, b: Binding): Option<Expr> {
    match ParseLevel(Loose, Tokenize(text), b)
    case Some((e, rest)) => if rest == [] then Some(e) else None
    case None => None
  }

  /** The filter is well formed and passes the packet. */
  predicate Passes(text: string, b: Binding, p: Packet) {
    Parse(text, b).Some? && Eval(Parse(text, b).value, p)
  }

  // ---------------------------------------------------------------- tokenizer lemmas

  lemma TokenizeWord(w: string)
    requires IsWord(w)
    ensures Tokenize(w) == [Word(w)]
  {
    assert w[..|w|] == w;
    assert WordLength(w) == |w|;
  }

  /** A word ends where it did before text that starts with no word character was appended. */
  lemma WordLengthAppend(a: string, c: string)
    requires c != [] && !WordChar(c[0])
    ensures WordLength(a + c) == WordLength(a)
  {
    var n := WordLength(a);
    assert (a + c)[n] == if n < |a| then a[n] else c[0];
    assert forall i :: 0 <= i < |a| ==> (a + c)[i] == a[i];
  }

  function Spaced(a: string, c: string): string { a + " " + c }

  /** A space separates the tokens on its two sides, whatever they are. */
  lemma {:induction false} TokenizeSpaced(a: string, c: string)
    ensures Tokenize(Spaced(a, c)) == Tokenize(a) + Tokenize(c)
    decreases |a|
  {
    var s := Spaced(a, c);
    if a == [] {
      assert s[1..] == c;
    } else if !WordChar(a[0]) {
      assert s[1..] == Spaced(a[1..], c);
      TokenizeSpaced(a[1..], c);
    } else {
      var n := WordLength(a);
      assert s == a + (" " + c);
      WordLengthAppend(a, " " + c);
      assert s[n..] == Spaced(a[n..], c) && s[..n] == a[..n];
      TokenizeSpaced(a[n..], c);
    }
  }

  lemma TokenizeWordThen(w: string, c: string)
    requires IsWord(w)
    ensures Tokenize(Spaced(w, c)) == [Word(w)] + Tokenize(c)
  {
    TokenizeSpaced(w, c);
    TokenizeWord(w);
  }

  lemma {:induction false} TokenizeClose(a: string)
    ensures Tokenize(a + ")") == Tokenize(a) + [RParen]
    decreases |a|
  {
    var s := a + ")";
    if a == [] {
      assert s[1..] == [];
    } else if !WordChar(a[0]) {
      assert s[1..] == a[1..] + ")";
      TokenizeClose(a[1..]);
    } else {
      var n := WordLength(a);
      WordLengthAppend(a, ")");
      assert s[n..] == a[n..] + ")" && s[..n] == a[..n];
      TokenizeClose(a[n..]);
    }
  }

  function Parenthesized(a: string): string { "(" + (a + ")") }

  lemma TokenizeParenthesized(a: string)
    ensures Tokenize(Parenthesized(a)) == [LParen] + Tokenize(a) + [RParen]
  {
    assert Parenthesized(a)[1..] == a + ")";
    TokenizeClose(a);
  }

  // ---------------------------------------------------------------- parser lemmas

  /** Three words that read as field, relation and literal are an atom. */
  lemma ComparisonParses(ts: seq<Token>, b: Binding, f: Field, rel: Relation, v: nat)
    requires |ts| >= 3 && ts[0].Word? && ts[1].Word? && ts[2].Word?
    requires ts[0].text != "outbound" && ts[0].text != "udp"
    requires ParseField(ts[0].text) == Some(f) && ParseRelation(ts[1].text) == Some(rel)
    requires ParseLiteral(f, ts[2].text) == Some(v)
    ensures ParseAtom(ts, b) == Some((Compare(f, rel, v), ts[3..]))
  {
  }

  /** A piece of a filter: its tokens, and the expression that they spell. */
  datatype Piece = Piece(tokens: seq<Token>, expr: Expr)

  /** The tokens parse to the expression as an atom, whatever follows. */
  ghost predicate IsAtom(piece: Piece, b: Binding) {
    forall rest :: ParseAtom(piece.tokens + rest, b) == Some((piece.expr, rest))
  }

  ghost predicate AllAtoms(ps: seq<Piece>, b: Binding) {
    forall i :: 0 <= i < |ps| ==> IsAtom(ps[i], b)
  }

  predicate Ends(ts: seq<Token>) { ts == [] || ts[0] == RParen }

  function TailTokens(op: Op, ps: seq<Piece>): seq<Token> {
    if ps == [] then [] else [Word(OpWord(op))] + (ps[0].tokens + TailTokens(op, ps[1..]))
  }

  function ChainTokens(op: Op, ps: seq<Piece>): seq<Token>
    requires ps != []
  {
    ps[0].tokens + TailTokens(op, ps[1..])
  }

  function FoldLeft(op: Op, left: Expr, ps: seq<Piece>): Expr
    decreases |ps|
  {
    if ps == [] then left else FoldLeft(op, Joined(op, left, ps[0].expr), ps[1..])
  }

  function ChainExpr(op: Op, ps: seq<Piece>): Expr
    requires ps != []
  {
    FoldLeft(op, ps[0].expr, ps[1..])
  }

  lemma OperandIsAtom(level: Level, piece: Piece, rest: seq<Token>, b: Binding)
    requires IsAtom(piece, b)
    requires level == Loose ==> !StartsWithOp(rest, OpAt(b, Tight))
    ensures ParseOperand(level, piece.tokens + rest, b) == Some((piece.expr, rest))
  {
    var ts := piece.tokens + rest;
    assert ParseAtom(ts, b) == Some((piece.expr, rest));
    if level == Loose {
      assert ParseOperand(Tight, ts, b) == Some((piece.expr, rest));
      assert ParseChain(Tight, piece.expr, rest, b) == Some((piece.expr, rest));
    }
  }

  /** What follows an operand at the loose level is never the tight operator. */
  lemma TailIsNotTight(level: Level, ps: seq<Piece>, rest: seq<Token>, b: Binding)
    requires Ends(rest)
    ensures level == Loose ==> !StartsWithOp(TailTokens(OpAt(b, level), ps) + rest, OpAt(b, Tight))
  {
  }

  lemma ChainStep(level: Level, left: Expr, piece: Piece, after: seq<Token>, b: Binding)
    requires IsAtom(piece, b)
    requires level == Loose ==> !StartsWithOp(after, OpAt(b, Tight))
    ensures ParseChain(level, left, [Word(OpWord(OpAt(b, level)))] + (piece.tokens + after), b)
         == ParseChain(level, Joined(OpAt(b, level), left, piece.expr), after, b)
  {
    var ts := [Word(OpWord(OpAt(b, level)))] + (piece.tokens + after);
    assert ts[1..] == piece.tokens + after;
    OperandIsAtom(level, piece, after, b);
  }

  lemma TailTokensStep(op: Op, ps: seq<Piece>, rest: seq<Token>)
    requires ps != []
    ensures TailTokens(op, ps) + rest == [Word(OpWord(op))] + (ps[0].tokens + (TailTokens(op, ps[1..]) + rest))
  {
  }

  lemma {:induction false} ChainContinues(level: Level, left: Expr, ps: seq<Piece>, rest: seq<Token>, b: Binding)
    requires AllAtoms(ps, b) && Ends(rest)
    ensures ParseChain(level, left, TailTokens(OpAt(b, level), ps) + rest, b)
         == Some((FoldLeft(OpAt(b, level), left, ps), rest))
    decreases |ps|
  {
    var op := OpAt(b, level);
    if ps == [] {
      assert TailTokens(op, ps) + rest == rest;
    } else {
      var after := TailTokens(op, ps[1..]) + rest;
      TailTokensStep(op, ps, rest);
      TailIsNotTight(level, ps[1..], rest, b);
      ChainStep(level, left, ps[0], after, b);
      ChainContinues(level, Joined(op, left, ps[0].expr), ps[1..], rest, b);
    }
  }

  lemma ChainParsesAtItsLevel(level: Level, ps: seq<Piece>, rest: seq<Token>, b: Binding)
    requires ps != [] && AllAtoms(ps, b) && Ends(rest)
    ensures ParseLevel(level, ChainTokens(OpAt(b, level), ps) + rest, b)
         == Some((ChainExpr(OpAt(b, level), ps), rest))
  {
    var op := OpAt(b, level);
    var after := TailTokens(op, ps[1..]) + rest;
    assert ChainTokens(op, ps) + rest == ps[0].tokens + after;
    TailIsNotTight(level, ps[1..], rest, b);
    OperandIsAtom(level, ps[0], after, b);
    ChainContinues(level, ps[0].expr, ps[1..], rest, b);
  }

  /** A chain of atoms with one operator parses to its left fold, whichever operator binds tighter. */
  lemma ChainParses(op: Op, ps: seq<Piece>, rest: seq<Token>, b: Binding)
    requires ps != [] && AllAtoms(ps, b) && Ends(rest)
    ensures ParseLevel(Loose, ChainTokens(op, ps) + rest, b) == Some((ChainExpr(op, ps), rest))
  {
    if op == OpAt(b, Loose) {
      ChainParsesAtItsLevel(Loose, ps, rest, b);
    } else {
      ChainParsesAtItsLevel(Tight, ps, rest, b);
      var e := ChainExpr(op, ps);
      assert ParseChain(Loose, e, rest, b) == Some((e, rest));
    }
  }

  function Group(op: Op, ps: seq<Piece>): Piece
    requires ps != []
  {
    Piece([LParen] + ChainTokens(op, ps) + [RParen], ChainExpr(op, ps))
  }

  /** A chain in parentheses is an atom. */
  lemma GroupIsAtom(op: Op, ps: seq<Piece>, b: Binding)
    requires ps != [] && AllAtoms(ps, b)
    ensures IsAtom(Group(op, ps), b)
  {
    var g := Group(op, ps);
    forall rest
      ensures ParseAtom(g.tokens + rest, b) == Some((g.expr, rest))
    {
      var ts := g.tokens + rest;
      assert ts[1..] == ChainTokens(op, ps) + ([RParen] + rest);
      ChainParses(op, ps, [RParen] + rest, b);
    }
  }

  predicate EvalsAll(ps: seq<Piece>, p: Packet) {
    forall i :: 0 <= i < |ps| ==> Eval(ps[i].expr, p)
  }

  predicate EvalsSome(ps: seq<Piece>, p: Packet) {
    exists i :: 0 <= i < |ps| && Eval(ps[i].expr, p)
  }

  lemma {:induction false} FoldMeaning(op: Op, left: Expr, ps: seq<Piece>, p: Packet)
    ensures op == Conj ==> (Eval(FoldLeft(op, left, ps), p) <==> Eval(left, p) && EvalsAll(ps, p))
    ensures op == Disj ==> (Eval(FoldLeft(op, left, ps), p) <==> Eval(left, p) || EvalsSome(ps, p))
    decreases |ps|
  {
    if ps == [] {
    } else {
      FoldMeaning(op, Joined(op, left, ps[0].expr), ps[1..], p);
      HeadAndTail(ps, p);
    }
  }

  lemma HeadAndTail(ps: seq<Piece>, p: Packet)
    requires ps != []
    ensures EvalsAll(ps, p) <==> Eval(ps[0].expr, p) && EvalsAll(ps[1..], p)
    ensures EvalsSome(ps, p) <==> Eval(ps[0].expr, p) || EvalsSome(ps[1..], p)
  {
  }

  /** A chain of conjunctions asks for all its pieces, a chain of disjunctions for one. */
  lemma ChainMeaning(op: Op, ps: seq<Piece>, p: Packet)
    requires ps != []
    ensures Eval(ChainExpr(op, ps), p) <==> if op == Conj then EvalsAll(ps, p) else EvalsSome(ps, p)
  {
    FoldMeaning(op, ps[0].expr, ps[1..], p);
    HeadAndTail(ps, p);
  }
}
