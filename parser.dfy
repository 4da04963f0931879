/** The expression parser: recursive descent over the token list with one
    token of lookahead, building a left-associative pipe AST.

    The grammar functions (`PipeExpr`, `NameExpr`, `FunctionExpr`,
    `Arguments`, `FunctionParam`, `InnerExpr`, `Parse`) are the
    specification; each takes the cursor position and returns the node and
    the position after it. `AstBuilder` is the imperative parser with its
    shared cursor, proved to agree with them. Past the last token the cursor
    reads an EndOfFile token with an empty value. */
module Parser {

  import opened Values
  import opened Tokenizer

  datatype Leaf = NumberLit(n: nat) | StringLit(s: string) | SymbolRef(name: string)

  /** A node of the AST. A pipe node always has exactly two children. */
  datatype AstNode =
    | ValueNode(leaf: Leaf)
    | FunctionNode(symbolName: string, childs: seq<AstNode>)
    | PipeOperator(left: AstNode, right: AstNode)

  function DigitValue(c: char): nat {
    if IsDigit(c) then (c as int) - ('0' as int) else 0
  }

  /** `parseFloat` on a run of decimal digits. */
  function DigitsValue(s: string): nat {
    if s == [] then 0 else DigitsValue(s[..|s| - 1]) * 10 + DigitValue(s[|s| - 1])
  }

  /** `newLeafNode`: numbers and literals become literal leaves, names
      become symbol leaves. */
  function LeafOf(t: Token): Leaf
    requires t.kind == Number || t.kind == Litteral || t.kind == Name
  {
    match t.kind
    case Number => NumberLit(DigitsValue(t.value))
    case Litteral => StringLit(t.value)
    case Name => SymbolRef(t.value)
  }

  /** The token under the cursor. */
  function At(ts: seq<Token>, p: nat): Token {
    if p < |ts| then ts[p] else Token("", EndOfFile)
  }

  datatype Parsed = Parsed(node: AstNode, next: nat) | PFailed(error: Error)

  function Invalid(t: Token): Parsed {
    PFailed(SyntaxicError(t.value))
  }

  /** `pipeExpression(left)`: without a `|` the operand stands alone;
      otherwise `|` must be followed by a name, optionally called. */
  function PipeExpr(ts: seq<Token>, p: nat, left: AstNode): (r: Parsed)
    requires p <= |ts|
    ensures r.Parsed? ==> p <= r.next <= |ts|
    ensures r.Parsed? && At(ts, p).kind == Pipe ==> p < r.next
    decreases |ts| - p, 0
  {
    if At(ts, p).kind != Pipe then Parsed(left, p)
    else if At(ts, p + 1).kind != Name then Invalid(At(ts, p + 1))
    else
      match NameExpr(ts, p + 2, At(ts, p + 1).value)
      case PFailed(e) => PFailed(e)
      case Parsed(right, k) => Parsed(PipeOperator(left, right), k)
  }

  /** `nameExpression`: a name followed by `(` is a call. */
  function NameExpr(ts: seq<Token>, p: nat, name: string): (r: Parsed)
    requires p <= |ts|
    ensures r.Parsed? ==> p <= r.next <= |ts|
    decreases |ts| - p, 2
  {
    if At(ts, p).kind == OpeningParenthesis then FunctionExpr(ts, p, name)
    else Parsed(ValueNode(SymbolRef(name)), p)
  }

  /** `functionExpression`: `(` then arguments up to `)`. */
  function FunctionExpr(ts: seq<Token>, p: nat, name: string): (r: Parsed)
    requires p <= |ts|
    ensures r.Parsed? ==> p < r.next <= |ts|
    decreases |ts| - p, 1
  {
    if At(ts, p).kind != OpeningParenthesis then Invalid(At(ts, p))
    else Arguments(ts, p + 1, name, [])
  }

  /** The argument loop of `functionExpression`, with the arguments read so
      far. After each argument comes `,` or `)`; `,` directly before `)` is
      accepted. */
  function Arguments(ts: seq<Token>, p: nat, name: string, childs: seq<AstNode>): (r: Parsed)
    requires p <= |ts|
    ensures r.Parsed? ==> p < r.next <= |ts|
    decreases |ts| - p, 1
  {
    if At(ts, p).kind == ClosingParenthesis then Parsed(FunctionNode(name, childs), p + 1)
    else
      match FunctionParam(ts, p)
      case PFailed(e) => PFailed(e)
      case Parsed(arg, k) =>
        if At(ts, k).kind == Coma then Arguments(ts, k + 1, name, childs + [arg])
        else if At(ts, k).kind == ClosingParenthesis then Arguments(ts, k, name, childs + [arg])
        else Invalid(At(ts, k))
  }

  /** `functionParameter`: a literal optionally piped once; a bare name; a
      name piped once; or a call, which cannot be piped. */
  function FunctionParam(ts: seq<Token>, p: nat): (r: Parsed)
    requires p <= |ts|
    ensures r.Parsed? ==> p < r.next <= |ts|
    decreases |ts| - p, 0
  {
    var t := At(ts, p);
    if t.kind == Litteral || t.kind == Number then PipeExpr(ts, p + 1, ValueNode(LeafOf(t)))
    else if t.kind == Name then
      var leaf := ValueNode(LeafOf(t));
      var u := At(ts, p + 1);
      if u.kind == Coma || u.kind == ClosingParenthesis then Parsed(leaf, p + 1)
      else if u.kind == Pipe then PipeExpr(ts, p + 1, leaf)
      else FunctionExpr(ts, p + 1, t.value)
    else Invalid(t)
  }

  /** `innerExpression`: after the first operand only pipes may follow, up
      to the end of the tokens. */
  function InnerExpr(ts: seq<Token>, p: nat, left: AstNode): (r: Parsed)
    requires p <= |ts|
    ensures r.Parsed? ==> p <= r.next <= |ts|
    decreases |ts| - p, 1
  {
    if At(ts, p).kind == EndOfFile then Parsed(left, p)
    else if At(ts, p).kind == Pipe then
      match PipeExpr(ts, p, left)
      case PFailed(e) => PFailed(e)
      case Parsed(n, k) => InnerExpr(ts, k, n)
    else PFailed(AbdSymbol)
  }

  /** `start`: the first operand is a literal, a number or a name (possibly
      called), then the pipes. */
  function StartExpr(ts: seq<Token>): Parsed {
    var t := At(ts, 0);
    if t.kind == Litteral || t.kind == Number then InnerExpr(ts, 1, ValueNode(LeafOf(t)))
    else if t.kind == Name then
      match NameExpr(ts, 1, t.value)
      case PFailed(e) => PFailed(e)
      case Parsed(n, k) => InnerExpr(ts, k, n)
    else Invalid(t)
  }

  /** `getAst(tokens)`. */
  function Parse(ts: seq<Token>): Result<AstNode> {
    match StartExpr(ts)
    case Parsed(n, _) => Good(n)
    case PFailed(e) => Err(e)
  }

  /** The method result `r` and cursor `pos` are what the grammar function
      computed. */
  predicate Agrees(r: Result<AstNode>, spec: Parsed, pos: nat) {
    match spec
    case Parsed(n, k) => r == Good(n) && pos == k
    case PFailed(e) => r == Err(e)
  }

  /** The parser with its shared cursor over the token list. */
  class AstBuilder {
    const tokens: seq<Token>
    var pos: nat

    constructor (ts: seq<Token>)
      ensures tokens == ts && pos == 0
    {
      tokens := ts;
      pos := 0;
    }

    function Current(): Token
      reads this
    {
      At(tokens, pos)
    }

    method PipeExpression(left: AstNode) returns (r: Result<AstNode>)
      requires pos <= |tokens|
      modifies this
      ensures Agrees(r, PipeExpr(tokens, old(pos), left), pos)
      decreases |tokens| - pos, 0
    {
      if Current().kind != Pipe {
        return Good(left);
      }
      pos := pos + 1;
      if Current().kind != Name {
        return Err(SyntaxicError(Current().value));
      }
      var name := Current().value;
      pos := pos + 1;
      var right := NameExpression(name);
      if right.Err? {
        return right;
      }
      r := Good(PipeOperator(left, right.value));
    }

    method NameExpression(name: string) returns (r: Result<AstNode>)
      requires pos <= |tokens|
      modifies this
      ensures Agrees(r, NameExpr(tokens, old(pos), name), pos)
      decreases |tokens| - pos, 2
    {
      if Current().kind == OpeningParenthesis {
        r := FunctionExpression(name);
      } else {
        r := Good(ValueNode(SymbolRef(name)));
      }
    }

    /** The name leaf turned into a call: `(`, then each argument pushed onto
        the children, separated by `,`, up to `)`. */
    method FunctionExpression(name: string) returns (r: Result<AstNode>)
      requires pos <= |tokens|
      modifies this
      ensures Agrees(r, FunctionExpr(tokens, old(pos), name), pos)
      decreases |tokens| - pos, 1
    {
      if Current().kind != OpeningParenthesis {
        return Err(SyntaxicError(Current().value));
      }
      pos := pos + 1;
      var childs: seq<AstNode> := [];
      while Current().kind != ClosingParenthesis
        invariant old(pos) < pos <= |tokens|
        invariant Arguments(tokens, pos, name, childs) == FunctionExpr(tokens, old(pos), name)
        decreases |tokens| - pos
      {
        var arg := FunctionParameter();
        if arg.Err? {
          return arg;
        }
        childs := childs + [arg.value];
        if Current().kind == Coma {
          pos := pos + 1;
        } else if Current().kind != ClosingParenthesis {
          return Err(SyntaxicError(Current().value));
        }
      }
      pos := pos + 1;
      r := Good(FunctionNode(name, childs));
    }

    method FunctionParameter() returns (r: Result<AstNode>)
      requires pos <= |tokens|
      modifies this
      ensures Agrees(r, FunctionParam(tokens, old(pos)), pos)
      decreases |tokens| - pos, 0
    {
      var t := Current();
      if t.kind == Litteral || t.kind == Number {
        pos := pos + 1;
        r := PipeExpression(ValueNode(LeafOf(t)));
        return;
      }
      if t.kind == Name {
        var leaf := ValueNode(LeafOf(t));
        pos := pos + 1;
        if Current().kind == Coma || Current().kind == ClosingParenthesis {
          return Good(leaf);
        }
        if Current().kind == Pipe {
          r := PipeExpression(leaf);
          return;
        }
        r := FunctionExpression(t.value);
        return;
      }
      r := Err(SyntaxicError(t.value));
    }

    method InnerExpression(left: AstNode) returns (r: Result<AstNode>)
      requires pos <= |tokens|
      modifies this
      ensures Agrees(r, InnerExpr(tokens, old(pos), left), pos)
      decreases |tokens| - pos, 1
    {
      var last := left;
      while Current().kind != EndOfFile
        invariant old(pos) <= pos <= |tokens|
        invariant InnerExpr(tokens, pos, last) == InnerExpr(tokens, old(pos), left)
        decreases |tokens| - pos
      {
        if Current().kind == Pipe {
          var next := PipeExpression(last);
          if next.Err? {
            return next;
          }
          last := next.value;
        } else {
          return Err(AbdSymbol);
        }
      }
      r := Good(last);
    }

    method Start() returns (r: Result<AstNode>)
      requires pos == 0
      modifies this
      ensures r == Parse(tokens)
    {
      var t := Current();
      if t.kind == Litteral || t.kind == Number {
        pos := pos + 1;
        r := InnerExpression(ValueNode(LeafOf(t)));
        return;
      }
      if t.kind == Name {
        pos := pos + 1;
        var operand := NameExpression(t.value);
        if operand.Err? {
          return operand;
        }
        r := InnerExpression(operand.value);
        return;
      }
      r := Err(SyntaxicError(t.value));
    }
  }

  /** `getAst(tokens)`. */
  method GetAst(ts: seq<Token>) returns (r: Result<AstNode>)
    ensures r == Parse(ts)
  {
    var builder := new AstBuilder(ts);
    r := builder.Start();
  }
}
