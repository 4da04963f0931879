/** What the parser accepts and what it builds.

    `Unparse` prints an AST back to tokens. Every AST shape the grammar can
    produce (`TopLevel`) parses back to itself from its printed tokens, and
    with `Render` from the tokenizer, from its printed text. That round trip
    contains left associativity of pipes, argument order, empty argument
    lists, and the one-pipe-per-argument limit. */
module ParserLaws {

  import opened Values
  import opened Tokenizer
  import opened Parser

  predicate IsName(s: string) {
    WellFormed(Token(s, Name))
  }

  predicate IsLitteralText(s: string) {
    WellFormed(Token(s, Litteral))
  }

  /** A literal leaf that can be printed: a string without a double quote,
      or a number. */
  predicate LiteralLeaf(e: AstNode) {
    e.ValueNode? && (e.leaf.NumberLit? || (e.leaf.StringLit? && IsLitteralText(e.leaf.s)))
  }

  predicate SymbolLeaf(e: AstNode) {
    e.ValueNode? && e.leaf.SymbolRef? && IsName(e.leaf.name)
  }

  /** A call whose arguments are all argument-shaped. */
  predicate Call(e: AstNode)
    decreases e, 1
  {
    e.FunctionNode? && IsName(e.symbolName) &&
    forall i :: 0 <= i < |e.childs| ==> Argument(e.childs[i])
  }

  /** What may follow a `|`: a name, optionally called. */
  predicate PipeTarget(e: AstNode)
    decreases e, 2
  {
    SymbolLeaf(e) || Call(e)
  }

  /** What may stand between `(`, `,` and `)`: a literal, a name or a call,
      or a literal or name piped exactly once. */
  predicate Argument(e: AstNode)
    decreases e, 2
  {
    LiteralLeaf(e) || SymbolLeaf(e) || Call(e) ||
    (e.PipeOperator? && (LiteralLeaf(e.left) || SymbolLeaf(e.left)) && PipeTarget(e.right))
  }

  /** A whole expression: an operand followed by any number of pipes,
      nested to the left. */
  predicate TopLevel(e: AstNode)
    decreases e, 2
  {
    match e
    case PipeOperator(l, r) => TopLevel(l) && PipeTarget(r)
    case _ => LiteralLeaf(e) || SymbolLeaf(e) || Call(e)
  }

  function LeafToken(l: Leaf): Token {
    match l
    case NumberLit(n) => Token(NatToString(n), Number)
    case StringLit(s) => Token(s, Litteral)
    case SymbolRef(x) => Token(x, Name)
  }

  const PipeToken := Token("|", Pipe)
  const ComaToken := Token(",", Coma)
  const OpenToken := Token("(", OpeningParenthesis)
  const CloseToken := Token(")", ClosingParenthesis)

  /** The tokens of an AST. */
  function Unparse(e: AstNode): seq<Token> {
    match e
    case ValueNode(l) => [LeafToken(l)]
    case FunctionNode(name, cs) => [Token(name, Name), OpenToken] + UnparseArgs(cs) + [CloseToken]
    case PipeOperator(l, r) => Unparse(l) + [PipeToken] + Unparse(r)
  }

  function UnparseArgs(cs: seq<AstNode>): seq<Token> {
    if cs == [] then []
    else if |cs| == 1 then Unparse(cs[0])
    else Unparse(cs[0]) + [ComaToken] + UnparseArgs(cs[1..])
  }

  /** Number of nodes, for the induction below. */
  function Size(e: AstNode): nat {
    match e
    case ValueNode(_) => 1
    case FunctionNode(_, cs) => 1 + SizeArgs(cs)
    case PipeOperator(l, r) => 1 + Size(l) + Size(r)
  }

  function SizeArgs(cs: seq<AstNode>): nat {
    if cs == [] then 0 else Size(cs[0]) + SizeArgs(cs[1..])
  }

  lemma SizePositive(e: AstNode)
    ensures Size(e) >= 1
  {
  }

  /** `ts` holds `u` from position `p`. */
  predicate Holds(ts: seq<Token>, p: nat, u: seq<Token>) {
    p + |u| <= |ts| && forall i :: 0 <= i < |u| ==> At(ts, p + i) == u[i]
  }

  lemma HoldsSplit(ts: seq<Token>, p: nat, a: seq<Token>, b: seq<Token>)
    requires Holds(ts, p, a + b)
    ensures Holds(ts, p, a) && Holds(ts, p + |a|, b)
  {
    forall i | 0 <= i < |a| ensures At(ts, p + i) == a[i] {
      assert (a + b)[i] == a[i];
    }
    forall i | 0 <= i < |b| ensures At(ts, p + |a| + i) == b[i] {
      assert (a + b)[|a| + i] == b[i];
    }
  }

  lemma HoldsCons(ts: seq<Token>, p: nat, t: Token, b: seq<Token>)
    requires Holds(ts, p, [t] + b)
    ensures At(ts, p) == t && Holds(ts, p + 1, b)
  {
    assert ([t] + b)[0] == t;
    forall i | 0 <= i < |b| ensures At(ts, p + 1 + i) == b[i] {
      assert ([t] + b)[1 + i] == b[i];
    }
  }

  lemma HoldsAt(ts: seq<Token>, p: nat, u: seq<Token>, i: nat)
    requires Holds(ts, p, u) && i < |u|
    ensures At(ts, p + i) == u[i]
  {
    assert At(ts, p + i) == u[i];
  }

  /** The first token of a printed argument or target is a literal, a number
      or a name. */
  lemma UnparseStart(e: AstNode)
    requires Argument(e) || TopLevel(e)
    ensures |Unparse(e)| > 0
    ensures Argument(e) ==> Unparse(e)[0].kind in {Litteral, Number, Name}
    ensures Argument(e) && !e.PipeOperator? ==> Unparse(e)[0].kind == Name ==> SymbolLeaf(e) || Call(e)
    ensures TopLevel(e) ==> Unparse(e)[0].kind in {Litteral, Number, Name}
  {
    if e.PipeOperator? && TopLevel(e) {
      UnparseStart(e.left);
    }
  }

  lemma LiteralLeafToken(e: AstNode)
    requires LiteralLeaf(e)
    ensures (LeafToken(e.leaf).kind == Litteral || LeafToken(e.leaf).kind == Number)
    ensures LeafOf(LeafToken(e.leaf)) == e.leaf
  {
    if e.leaf.NumberLit? {
      DigitsValueOfNatToString(e.leaf.n);
    }
  }

  lemma {:induction false} DigitsValueOfNatToString(n: nat)
    ensures DigitsValue(NatToString(n)) == n
    decreases n
  {
    var s := NatToString(n);
    if n < 10 {
      assert s == [DigitChar(n)];
      assert DigitValue(DigitChar(n)) == n;
      assert s[..|s| - 1] == [];
    } else {
      DigitsValueOfNatToString(n / 10);
      assert s[..|s| - 1] == NatToString(n / 10);
      assert DigitValue(DigitChar(n % 10)) == n % 10;
    }
  }

  /** A call printed at `p` parses back from its `(` at `p + 1`. */
  lemma {:induction false} CallRoundTrip(ts: seq<Token>, p: nat, e: AstNode)
    requires Call(e) && Holds(ts, p, Unparse(e))
    ensures FunctionExpr(ts, p + 1, e.symbolName) == Parsed(e, p + |Unparse(e)|)
    decreases Size(e), 0
  {
    var cs := e.childs;
    var u := Unparse(e);
    assert u == [Token(e.symbolName, Name), OpenToken] + (UnparseArgs(cs) + [CloseToken]);
    HoldsSplit(ts, p, [Token(e.symbolName, Name), OpenToken], UnparseArgs(cs) + [CloseToken]);
    HoldsAt(ts, p, u, 1);
    ArgsRoundTrip(ts, p + 2, e.symbolName, [], cs);
    assert [] + cs == cs;
  }

  /** Printed arguments followed by `)` complete the argument loop. */
  lemma {:induction false} ArgsRoundTrip(ts: seq<Token>, p: nat, name: string, done: seq<AstNode>, cs: seq<AstNode>)
    requires forall i :: 0 <= i < |cs| ==> Argument(cs[i])
    requires Holds(ts, p, UnparseArgs(cs) + [CloseToken])
    ensures Arguments(ts, p, name, done) ==
      Parsed(FunctionNode(name, done + cs), p + |UnparseArgs(cs)| + 1)
    decreases SizeArgs(cs), 3
  {
    if cs == [] {
      assert UnparseArgs(cs) + [CloseToken] == [CloseToken];
      HoldsAt(ts, p, [CloseToken], 0);
      assert done + cs == done;
    } else if |cs| == 1 {
      LastArgRoundTrip(ts, p, name, done, cs);
    } else {
      NextArgRoundTrip(ts, p, name, done, cs);
    }
  }

  lemma {:induction false} LastArgRoundTrip(ts: seq<Token>, p: nat, name: string, done: seq<AstNode>, cs: seq<AstNode>)
    requires |cs| == 1 && Argument(cs[0])
    requires Holds(ts, p, UnparseArgs(cs) + [CloseToken])
    ensures Arguments(ts, p, name, done) ==
      Parsed(FunctionNode(name, done + cs), p + |UnparseArgs(cs)| + 1)
    decreases SizeArgs(cs), 2
  {
    var c := cs[0];
    var uc := Unparse(c);
    UnparseStart(c);
    assert UnparseArgs(cs) + [CloseToken] == uc + [CloseToken];
    HoldsSplit(ts, p, uc, [CloseToken]);
    HoldsAt(ts, p + |uc|, [CloseToken], 0);
    HoldsAt(ts, p, uc, 0);
    assert SizeArgs(cs) == Size(c);
    ArgRoundTrip(ts, p, c);
    assert done + cs == done + [c];
  }

  /** The printed form of two or more arguments: the first, a `,`, then
      the others. */
  lemma UnparseArgsCons(cs: seq<AstNode>)
    requires |cs| > 1
    ensures UnparseArgs(cs) + [CloseToken] == Unparse(cs[0]) + ([ComaToken] + (UnparseArgs(cs[1..]) + [CloseToken]))
    ensures |UnparseArgs(cs)| == |Unparse(cs[0])| + 1 + |UnparseArgs(cs[1..])|
  {
    var uc, rest := Unparse(cs[0]), UnparseArgs(cs[1..]);
    assert UnparseArgs(cs) == uc + [ComaToken] + rest;
    AppendAssoc(uc, [ComaToken], rest, [CloseToken]);
  }

  lemma AppendAssoc<T>(a: seq<T>, b: seq<T>, c: seq<T>, d: seq<T>)
    ensures a + b + c + d == a + (b + (c + d))
  {
  }

  /** Tokens `a`, a `,`, then `b`, held from `p`. */
  lemma HoldsAroundComa(ts: seq<Token>, p: nat, a: seq<Token>, b: seq<Token>)
    requires Holds(ts, p, a + ([ComaToken] + b))
    ensures Holds(ts, p, a) && At(ts, p + |a|) == ComaToken && Holds(ts, p + |a| + 1, b)
  {
    HoldsSplit(ts, p, a, [ComaToken] + b);
    HoldsCons(ts, p + |a|, ComaToken, b);
  }

  /** Printed arguments, two or more, start with the first one and a `,`. */
  lemma NextArgSplit(ts: seq<Token>, p: nat, cs: seq<AstNode>)
    requires |cs| > 1 && Holds(ts, p, UnparseArgs(cs) + [CloseToken])
    ensures Holds(ts, p, Unparse(cs[0]))
    ensures At(ts, p + |Unparse(cs[0])|) == ComaToken
    ensures Holds(ts, p + |Unparse(cs[0])| + 1, UnparseArgs(cs[1..]) + [CloseToken])
  {
    UnparseArgsCons(cs);
    HoldsAroundComa(ts, p, Unparse(cs[0]), UnparseArgs(cs[1..]) + [CloseToken]);
  }

  /** One argument followed by `,`: the loop goes on after the comma. */
  lemma ArgumentThenComa(ts: seq<Token>, p: nat, name: string, done: seq<AstNode>, c: AstNode, k: nat)
    requires p <= |ts| && At(ts, p).kind != ClosingParenthesis
    requires FunctionParam(ts, p) == Parsed(c, k) && At(ts, k).kind == Coma
    ensures k + 1 <= |ts|
    ensures Arguments(ts, p, name, done) == Arguments(ts, k + 1, name, done + [c])
  {
  }

  lemma {:induction false} NextArgRoundTrip(ts: seq<Token>, p: nat, name: string, done: seq<AstNode>, cs: seq<AstNode>)
    requires |cs| > 1 && forall i :: 0 <= i < |cs| ==> Argument(cs[i])
    requires Holds(ts, p, UnparseArgs(cs) + [CloseToken])
    ensures Arguments(ts, p, name, done) ==
      Parsed(FunctionNode(name, done + cs), p + |UnparseArgs(cs)| + 1)
    decreases SizeArgs(cs), 2
  {
    var c, rest := cs[0], cs[1..];
    var uc := Unparse(c);
    SizePositive(c);
    UnparseStart(c);
    NextArgSplit(ts, p, cs);
    UnparseArgsCons(cs);
    HoldsAt(ts, p, uc, 0);
    assert SizeArgs(cs) == Size(c) + SizeArgs(rest);
    assert forall i :: 0 <= i < |rest| ==> Argument(rest[i]) by {
      forall i | 0 <= i < |rest| ensures Argument(rest[i]) {
        assert rest[i] == cs[i + 1];
      }
    }
    ArgRoundTrip(ts, p, c);
    ArgumentThenComa(ts, p, name, done, c, p + |uc|);
    ArgsRoundTrip(ts, p + |uc| + 1, name, done + [c], rest);
    AppendFirst(done, cs);
  }

  lemma AppendFirst<T>(done: seq<T>, cs: seq<T>)
    requires cs != []
    ensures done + [cs[0]] + cs[1..] == done + cs
  {
    assert [cs[0]] + cs[1..] == cs;
  }

  /** A printed argument followed by `,` or `)` parses back to itself. */
  lemma {:induction false} ArgRoundTrip(ts: seq<Token>, p: nat, e: AstNode)
    requires Argument(e) && Holds(ts, p, Unparse(e))
    requires At(ts, p + |Unparse(e)|).kind in {Coma, ClosingParenthesis}
    ensures FunctionParam(ts, p) == Parsed(e, p + |Unparse(e)|)
    decreases Size(e), 1
  {
    var u := Unparse(e);
    HoldsAt(ts, p, u, 0);
    if LiteralLeaf(e) {
      LiteralLeafToken(e);
    } else if SymbolLeaf(e) {
    } else if Call(e) {
      HoldsAt(ts, p, u, 1);
      CallRoundTrip(ts, p, e);
    } else {
      PipedArgRoundTrip(ts, p, e);
    }
  }

  /** A literal or a name piped once, printed as an argument. */
  lemma {:induction false} PipedArgRoundTrip(ts: seq<Token>, p: nat, e: AstNode)
    requires e.PipeOperator? && (LiteralLeaf(e.left) || SymbolLeaf(e.left)) && PipeTarget(e.right)
    requires Holds(ts, p, Unparse(e))
    requires At(ts, p + |Unparse(e)|).kind in {Coma, ClosingParenthesis}
    ensures FunctionParam(ts, p) == Parsed(e, p + |Unparse(e)|)
    decreases Size(e), 0
  {
    var l, r := e.left, e.right;
    assert Unparse(e) == [LeafToken(l.leaf)] + ([PipeToken] + Unparse(r));
    HoldsCons(ts, p, LeafToken(l.leaf), [PipeToken] + Unparse(r));
    HoldsCons(ts, p + 1, PipeToken, Unparse(r));
    if LiteralLeaf(l) {
      LiteralLeafToken(l);
    }
    PipeTargetRoundTrip(ts, p + 2, r);
  }

  /** The name a pipe target starts with. */
  function TargetName(e: AstNode): string {
    match e
    case FunctionNode(name, _) => name
    case ValueNode(SymbolRef(name)) => name
    case _ => ""
  }

  /** A printed pipe target parses back through `nameExpression` from the
      token after its name, when no `(` follows it. */
  lemma {:induction false} PipeTargetRoundTrip(ts: seq<Token>, p: nat, e: AstNode)
    requires PipeTarget(e) && Holds(ts, p, Unparse(e))
    requires At(ts, p + |Unparse(e)|).kind != OpeningParenthesis
    ensures At(ts, p) == Token(TargetName(e), Name)
    ensures NameExpr(ts, p + 1, At(ts, p).value) == Parsed(e, p + |Unparse(e)|)
    decreases Size(e), 1
  {
    var u := Unparse(e);
    HoldsAt(ts, p, u, 0);
    if Call(e) {
      HoldsAt(ts, p, u, 1);
      CallRoundTrip(ts, p, e);
    }
  }

  /** One turn of the pipe loop reads `| r` and nests it to the left. */
  lemma PipeStep(ts: seq<Token>, l: AstNode, r: AstNode)
    requires PipeTarget(r)
    requires Holds(ts, 0, Unparse(PipeOperator(l, r)))
    requires At(ts, |Unparse(PipeOperator(l, r))|).kind in {Pipe, EndOfFile}
    ensures Holds(ts, 0, Unparse(l)) && At(ts, |Unparse(l)|).kind == Pipe
    ensures InnerExpr(ts, |Unparse(l)|, l) ==
      InnerExpr(ts, |Unparse(PipeOperator(l, r))|, PipeOperator(l, r))
  {
    var ul, u := Unparse(l), Unparse(PipeOperator(l, r));
    assert u == ul + ([PipeToken] + Unparse(r));
    HoldsSplit(ts, 0, ul, [PipeToken] + Unparse(r));
    HoldsCons(ts, |ul|, PipeToken, Unparse(r));
    PipeTargetRoundTrip(ts, |ul| + 1, r);
    assert PipeExpr(ts, |ul|, l) == Parsed(PipeOperator(l, r), |u|);
  }

  /** Reading the printed form of a top-level expression leaves the parser
      in its pipe loop with that expression as the left operand. */
  lemma {:induction false} TopLevelPrefix(ts: seq<Token>, e: AstNode)
    requires TopLevel(e) && Holds(ts, 0, Unparse(e))
    requires At(ts, |Unparse(e)|).kind in {Pipe, EndOfFile}
    ensures StartExpr(ts) == InnerExpr(ts, |Unparse(e)|, e)
    decreases e
  {
    var u := Unparse(e);
    HoldsAt(ts, 0, u, 0);
    if e.PipeOperator? {
      PipeStep(ts, e.left, e.right);
      TopLevelPrefix(ts, e.left);
    } else if LiteralLeaf(e) {
      LiteralLeafToken(e);
    } else if Call(e) {
      HoldsAt(ts, 0, u, 1);
      CallRoundTrip(ts, 0, e);
    }
  }

  /** Parsing the printed tokens of an expression gives the expression back. */
  lemma ParseUnparse(e: AstNode)
    requires TopLevel(e)
    ensures Parse(Unparse(e)) == Good(e)
  {
    var ts := Unparse(e);
    assert forall i :: 0 <= i < |ts| ==> At(ts, 0 + i) == ts[i];
    TopLevelPrefix(ts, e);
  }

  lemma {:induction false} UnparseWellFormed(e: AstNode)
    requires Argument(e) || TopLevel(e)
    ensures forall t :: t in Unparse(e) ==> WellFormed(t)
    decreases Size(e), 1
  {
    if LiteralLeaf(e) || SymbolLeaf(e) {
    } else if Call(e) {
      ArgsWellFormed(e.childs);
    } else if e.PipeOperator? {
      if TopLevel(e) {
        UnparseWellFormed(e.left);
      } else {
        UnparseWellFormed(e.left);
      }
      UnparseWellFormed(e.right);
    }
  }

  lemma {:induction false} ArgsWellFormed(cs: seq<AstNode>)
    requires forall i :: 0 <= i < |cs| ==> Argument(cs[i])
    ensures forall t :: t in UnparseArgs(cs) ==> WellFormed(t)
    decreases SizeArgs(cs), 2
  {
    if cs != [] {
      SizePositive(cs[0]);
      UnparseWellFormed(cs[0]);
      ArgsWellFormed(cs[1..]);
    }
  }

  /** Tokenizing and parsing the printed text of an expression gives the
      expression back: the whole front end of `resolveExpression`. */
  lemma ParseLexRender(e: AstNode)
    requires TopLevel(e)
    ensures Lex(Render(Unparse(e))) == Tokens(Unparse(e))
    ensures Parse(Lex(Render(Unparse(e))).tokens) == Good(e)
  {
    UnparseWellFormed(e);
    LexRender(Unparse(e));
    ParseUnparse(e);
  }

  // ---------------------------------------------------------------------
  // The parser's unit-test cases

  function Call0(name: string): AstNode {
    FunctionNode(name, [])
  }

  /** `a()|b()|c()` nests to the left. */
  lemma ChainedPipes()
    ensures Parse([Token("a", Name), OpenToken, CloseToken, PipeToken,
                   Token("b", Name), OpenToken, CloseToken, PipeToken,
                   Token("c", Name), OpenToken, CloseToken])
      == Good(PipeOperator(PipeOperator(Call0("a"), Call0("b")), Call0("c")))
  {
    var e := PipeOperator(PipeOperator(Call0("a"), Call0("b")), Call0("c"));
    assert TopLevel(e);
    assert Unparse(e) == [Token("a", Name), OpenToken, CloseToken, PipeToken,
                          Token("b", Name), OpenToken, CloseToken, PipeToken,
                          Token("c", Name), OpenToken, CloseToken];
    ParseUnparse(e);
  }

  /** `f(x,)`: a comma directly before `)` is accepted. */
  lemma TrailingComma(ts: seq<Token>)
    requires ts == [Token("f", Name), OpenToken, Token("x", Name), ComaToken, CloseToken]
    ensures Parse(ts) == Good(FunctionNode("f", [ValueNode(SymbolRef("x"))]))
  {
    var x := ValueNode(SymbolRef("x"));
    var f := FunctionNode("f", [x]);
    assert FunctionParam(ts, 2) == Parsed(x, 3);
    assert Arguments(ts, 4, "f", [x]) == Parsed(f, 5);
    assert [] + [x] == [x];
    assert Arguments(ts, 2, "f", []) == Parsed(f, 5);
    assert NameExpr(ts, 1, "f") == Parsed(f, 5);
    assert InnerExpr(ts, 5, f) == Parsed(f, 5);
  }

  /** A lone literal, number or name is a whole expression. */
  lemma LoneOperand(t: Token)
    requires t.kind in {Litteral, Number, Name}
    ensures Parse([t]) == Good(ValueNode(LeafOf(t)))
  {
  }

  /** After a top-level operand only `|` may follow. */
  lemma OperandThenNonPipe(t: Token, u: Token, rest: seq<Token>)
    requires t.kind in {Litteral, Number}
    requires u.kind !in {Pipe, EndOfFile}
    ensures Parse([t, u] + rest) == Err(AbdSymbol)
  {
  }

  /** A token other than a name after `|` is a syntax error naming it. */
  lemma NonNameAfterPipe(t: Token, u: Token, rest: seq<Token>)
    requires t.kind in {Litteral, Number}
    requires u.kind != Name
    ensures Parse([t, PipeToken, u] + rest) == Err(SyntaxicError(u.value))
  {
    var ts := [t, PipeToken, u] + rest;
    assert At(ts, 1) == PipeToken && At(ts, 2) == u;
  }

  /** A first token that is not an operand is a syntax error. */
  lemma BadStart(t: Token, rest: seq<Token>)
    requires t.kind !in {Litteral, Number, Name}
    ensures Parse([t] + rest) == Err(SyntaxicError(t.value))
  {
  }

  /** A called argument cannot be piped: `f(g()|h())` fails at the `|`. */
  lemma PipedCallArgument(ts: seq<Token>)
    requires ts == [Token("f", Name), OpenToken,
                    Token("g", Name), OpenToken, CloseToken, PipeToken,
                    Token("h", Name), OpenToken, CloseToken, CloseToken]
    ensures Parse(ts) == Err(SyntaxicError("|"))
  {
    assert Arguments(ts, 4, "g", []) == Parsed(Call0("g"), 5);
    assert FunctionExpr(ts, 3, "g") == Parsed(Call0("g"), 5);
    assert FunctionParam(ts, 2) == Parsed(Call0("g"), 5);
    assert Arguments(ts, 2, "f", []) == Invalid(At(ts, 5));
    assert NameExpr(ts, 1, "f") == PFailed(SyntaxicError("|"));
  }

  /** Only one pipe per argument: `f(x|g|h)` fails at the second `|`. */
  lemma TwoPipesInArgument(ts: seq<Token>)
    requires ts == [Token("f", Name), OpenToken, Token("x", Name), PipeToken,
                    Token("g", Name), PipeToken, Token("h", Name), CloseToken]
    ensures Parse(ts) == Err(SyntaxicError("|"))
  {
    var xg := PipeOperator(ValueNode(SymbolRef("x")), ValueNode(SymbolRef("g")));
    assert NameExpr(ts, 5, "g") == Parsed(ValueNode(SymbolRef("g")), 5);
    assert PipeExpr(ts, 3, ValueNode(SymbolRef("x"))) == Parsed(xg, 5);
    assert FunctionParam(ts, 2) == Parsed(xg, 5);
    assert Arguments(ts, 2, "f", []) == Invalid(At(ts, 5));
    assert NameExpr(ts, 1, "f") == PFailed(SyntaxicError("|"));
  }
}
