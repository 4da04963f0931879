/** The expression tokenizer: a cursor over the characters of an expression
    that emits Pipe, Coma, parenthesis, Litteral, Name and Number tokens.

    `Lex` is the specification: a recursive function over the input position.
    `Lexer` is the imperative cursor with its character buffer and token list,
    proved to compute `Lex`. */
module Tokenizer {

  import opened Values

  datatype TokenType =
    | Pipe
    | OpeningParenthesis
    | ClosingParenthesis
    | Coma
    | Litteral
    | Name
    | Number
    | EndOfFile

  datatype Token = Token(value: string, kind: TokenType)

  /** How tokenizing can go wrong.
      EofTooSoon: a literal is not closed ('reach_eof_too_soon').
      ReadPastEnd: the input ends in whitespace; the whitespace skip steps past
      the end of the character stream and the host raises a TypeError.
      Hangs(index): the character at `index` starts no token; the tokenizer
      logs it and retries the same character forever. */
  datatype LexError = EofTooSoon | ReadPastEnd | Hangs(index: nat)

  datatype LexResult = Tokens(tokens: seq<Token>) | LexFailed(error: LexError)

  /** The whitespace set. The end-of-stream element '' also belongs to it,
      which is why the skip loop can run past the end. */
  predicate IsSpace(c: char) {
    c == '\n' || c == '\r' || c == ' ' || c == '\t'
  }

  predicate IsDigit(c: char) {
    '0' <= c <= '9'
  }

  predicate IsNameStart(c: char) {
    ('a' <= c <= 'z') || ('A' <= c <= 'Z') || c == '_' || c == '$'
  }

  predicate IsNameChar(c: char) {
    IsNameStart(c) || IsDigit(c)
  }

  /** Kind of the four one-character tokens. */
  function Punctuation(c: char): Option<TokenType> {
    if c == '|' then Some(Pipe)
    else if c == ',' then Some(Coma)
    else if c == '(' then Some(OpeningParenthesis)
    else if c == ')' then Some(ClosingParenthesis)
    else None
  }

  /** First position at or after `i` that is not whitespace. */
  function SpacesEnd(s: string, i: nat): (k: nat)
    requires i <= |s|
    ensures i <= k <= |s|
    ensures forall j :: i <= j < k ==> IsSpace(s[j])
    ensures k == |s| || !IsSpace(s[k])
    decreases |s| - i
  {
    if i == |s| || !IsSpace(s[i]) then i else SpacesEnd(s, i + 1)
  }

  /** End of the run of name characters starting at `i`. */
  function NameEnd(s: string, i: nat): (k: nat)
    requires i <= |s|
    ensures i <= k <= |s|
    ensures forall j :: i <= j < k ==> IsNameChar(s[j])
    ensures k == |s| || !IsNameChar(s[k])
    decreases |s| - i
  {
    if i == |s| || !IsNameChar(s[i]) then i else NameEnd(s, i + 1)
  }

  /** End of the run of digits starting at `i`. */
  function DigitsEnd(s: string, i: nat): (k: nat)
    requires i <= |s|
    ensures i <= k <= |s|
    ensures forall j :: i <= j < k ==> IsDigit(s[j])
    ensures k == |s| || !IsDigit(s[k])
    decreases |s| - i
  {
    if i == |s| || !IsDigit(s[i]) then i else DigitsEnd(s, i + 1)
  }

  /** Position of the first double quote at or after `i`, if any. */
  function QuoteFrom(s: string, i: nat): (q: Option<nat>)
    requires i <= |s|
    ensures q.Some? ==> i <= q.value < |s| && s[q.value] == '"'
    ensures q.Some? ==> forall j :: i <= j < q.value ==> s[j] != '"'
    ensures q.None? ==> forall j :: i <= j < |s| ==> s[j] != '"'
    decreases |s| - i
  {
    if i == |s| then None
    else if s[i] == '"' then Some(i)
    else QuoteFrom(s, i + 1)
  }

  datatype Scanned = Scanned(token: Token, next: nat) | ScanFailed(error: LexError)

  /** The token that starts at the non-blank position `j`, and where the
      cursor stands after it. */
  function Scan(s: string, j: nat): (r: Scanned)
    requires j < |s|
    ensures r.Scanned? ==> j < r.next <= |s|
  {
    var c := s[j];
    if Punctuation(c).Some? then Scanned(Token([c], Punctuation(c).value), j + 1)
    else if c == '"' then
      match QuoteFrom(s, j + 1)
      case None => ScanFailed(EofTooSoon)
      case Some(q) => Scanned(Token(s[j + 1..q], Litteral), q + 1)
    else if IsNameStart(c) then
      var k := NameEnd(s, j + 1);
      Scanned(Token(s[j..k], Name), k)
    else if IsDigit(c) then
      var k := DigitsEnd(s, j + 1);
      Scanned(Token(s[j..k], Number), k)
    else ScanFailed(Hangs(j))
  }

  function Prepend(ts: seq<Token>, r: LexResult): LexResult {
    match r
    case Tokens(rest) => Tokens(ts + rest)
    case LexFailed(e) => r
  }

  /** Tokens of `s[i..]`. */
  function LexFrom(s: string, i: nat): LexResult
    requires i <= |s|
    decreases |s| - i
  {
    if i == |s| then Tokens([])
    else
      var j := SpacesEnd(s, i);
      if j == |s| then LexFailed(ReadPastEnd)
      else
        match Scan(s, j)
        case ScanFailed(e) => LexFailed(e)
        case Scanned(t, k) => Prepend([t], LexFrom(s, k))
  }

  /** The tokenizer's result on a whole expression. */
  function Lex(s: string): LexResult {
    LexFrom(s, 0)
  }

  datatype TokenOrError = Tok(token: Token) | Throws(error: LexError)

  /** The tokenizer's state: the position of the current character (`|input|`
      stands for the end-of-stream element), the characters of the token
      being built, and the tokens emitted so far. */
  class Lexer {
    const input: string
    var index: nat
    var charBuffer: seq<char>
    var tokens: seq<Token>

    constructor (expression: string)
      ensures input == expression && index == 0 && charBuffer == [] && tokens == []
    {
      input := expression;
      index := 0;
      charBuffer := [];
      tokens := [];
    }

    /** Reads a double-quoted literal; the cursor is on the opening quote. */
    method ParseLitteral() returns (r: TokenOrError)
      requires index < |input| && input[index] == '"'
      modifies this
      ensures tokens == old(tokens)
      ensures match QuoteFrom(input, old(index) + 1)
        case None => r == Throws(EofTooSoon)
        case Some(q) =>
          (index == q + 1 && r == Tok(Token(old(charBuffer) + input[old(index) + 1..q], Litteral)))
    {
      index := index + 1;
      while index < |input| && input[index] != '"'
        invariant old(index) < index <= |input|
        invariant charBuffer == old(charBuffer) + input[old(index) + 1..index]
        invariant tokens == old(tokens)
        invariant QuoteFrom(input, index) == QuoteFrom(input, old(index) + 1)
        decreases |input| - index
      {
        charBuffer := charBuffer + [input[index]];
        index := index + 1;
      }
      if index == |input| {
        return Throws(EofTooSoon);
      }
      index := index + 1;
      r := Tok(Token(charBuffer, Litteral));
    }

    /** Reads a name; the cursor is on its first character. */
    method ParseName() returns (t: Token)
      requires index < |input|
      modifies this
      ensures tokens == old(tokens)
      ensures index == NameEnd(input, old(index) + 1)
      ensures t == Token(old(charBuffer) + input[old(index)..index], Name)
    {
      charBuffer := charBuffer + [input[index]];
      index := index + 1;
      while index < |input| && IsNameChar(input[index])
        invariant old(index) < index <= |input|
        invariant charBuffer == old(charBuffer) + input[old(index)..index]
        invariant tokens == old(tokens)
        invariant NameEnd(input, index) == NameEnd(input, old(index) + 1)
        decreases |input| - index
      {
        charBuffer := charBuffer + [input[index]];
        index := index + 1;
      }
      t := Token(charBuffer, Name);
    }

    /** Reads a run of digits; the cursor is on its first character. */
    method ParseNumber() returns (t: Token)
      requires index < |input|
      modifies this
      ensures tokens == old(tokens)
      ensures index == DigitsEnd(input, old(index) + 1)
      ensures t == Token(old(charBuffer) + input[old(index)..index], Number)
    {
      charBuffer := charBuffer + [input[index]];
      index := index + 1;
      while index < |input| && IsDigit(input[index])
        invariant old(index) < index <= |input|
        invariant charBuffer == old(charBuffer) + input[old(index)..index]
        invariant tokens == old(tokens)
        invariant DigitsEnd(input, index) == DigitsEnd(input, old(index) + 1)
        decreases |input| - index
      {
        charBuffer := charBuffer + [input[index]];
        index := index + 1;
      }
      t := Token(charBuffer, Number);
    }

    /** Reads one token at the current, non-blank character. An unrecognised
        character throws without moving the cursor. The buffer is empty here:
        the main loop clears it after every token. */
    method Start() returns (r: TokenOrError)
      requires index < |input| && charBuffer == []
      modifies this
      ensures tokens == old(tokens)
      ensures match Scan(input, old(index))
        case Scanned(t, k) => r == Tok(t) && index == k
        case ScanFailed(e) => r == Throws(e) && (e.Hangs? ==> index == old(index))
    {
      var c := input[index];
      if Punctuation(c).Some? {
        index := index + 1;
        return Tok(Token([c], Punctuation(c).value));
      }
      if c == '"' {
        r := ParseLitteral();
        return;
      }
      if IsNameStart(c) {
        var t := ParseName();
        return Tok(t);
      }
      if IsDigit(c) {
        var t := ParseNumber();
        return Tok(t);
      }
      return Throws(Hangs(index));
    }

    /** The main loop: skip whitespace, read a token, push it, clear the
        buffer. Where the original retries an unrecognised character forever,
        this returns `Hangs` with the position it would retry. */
    method Run() returns (r: LexResult)
      requires index == 0 && charBuffer == [] && tokens == []
      modifies this
      ensures r == Lex(input)
      ensures r.Tokens? ==> r.tokens == tokens && charBuffer == []
    {
      while index < |input|
        invariant index <= |input|
        invariant charBuffer == []
        invariant Lex(input) == Prepend(tokens, LexFrom(input, index))
        decreases |input| - index
      {
        ghost var start, emitted := index, tokens;
        LexFromStep(input, start);
        while index < |input| && IsSpace(input[index])
          invariant start <= index <= |input|
          invariant SpacesEnd(input, index) == SpacesEnd(input, start)
          invariant charBuffer == [] && tokens == emitted
          decreases |input| - index
        {
          index := index + 1;
        }
        if index == |input| {
          return LexFailed(ReadPastEnd);
        }
        var t := Start();
        match t
        case Throws(e) =>
          return LexFailed(e);
        case Tok(token) =>
          PrependPrepend(emitted, [token], LexFrom(input, index));
          tokens := tokens + [token];
          charBuffer := [];
      }
      r := Tokens(tokens);
    }
  }

  /** One round of the main loop, in terms of `LexFrom`. */
  lemma LexFromStep(s: string, i: nat)
    requires i < |s|
    ensures SpacesEnd(s, i) == |s| ==> LexFrom(s, i) == LexFailed(ReadPastEnd)
    ensures SpacesEnd(s, i) < |s| && Scan(s, SpacesEnd(s, i)).ScanFailed? ==>
      LexFrom(s, i) == LexFailed(Scan(s, SpacesEnd(s, i)).error)
    ensures SpacesEnd(s, i) < |s| && Scan(s, SpacesEnd(s, i)).Scanned? ==>
      LexFrom(s, i) == Prepend([Scan(s, SpacesEnd(s, i)).token], LexFrom(s, Scan(s, SpacesEnd(s, i)).next))
  {
  }

  lemma PrependPrepend(a: seq<Token>, b: seq<Token>, r: LexResult)
    ensures Prepend(a, Prepend(b, r)) == Prepend(a + b, r)
  {
    if r.Tokens? {
      assert a + (b + r.tokens) == a + b + r.tokens;
    }
  }

  /** `tokenize(expression)`. */
  method Tokenize(expression: string) returns (r: LexResult)
    ensures r == Lex(expression)
  {
    var lexer := new Lexer(expression);
    r := lexer.Run();
  }

  // ---------------------------------------------------------------------
  // Properties of the token language

  /** What every emitted token looks like: a punctuation token holds its own
      character, a Litteral holds no double quote, a Name is a name-start
      character followed by name characters, a Number is a non-empty run of
      digits. No EndOfFile token is ever emitted. */
  predicate WellFormed(t: Token) {
    match t.kind
    case Pipe => t.value == "|"
    case Coma => t.value == ","
    case OpeningParenthesis => t.value == "("
    case ClosingParenthesis => t.value == ")"
    case Litteral => forall i :: 0 <= i < |t.value| ==> t.value[i] != '"'
    case Name =>
      |t.value| > 0 && IsNameStart(t.value[0]) &&
      forall i :: 0 <= i < |t.value| ==> IsNameChar(t.value[i])
    case Number =>
      |t.value| > 0 && forall i :: 0 <= i < |t.value| ==> IsDigit(t.value[i])
    case EndOfFile => false
  }

  /** Source text of a token: literals get their quotes back. */
  function RenderToken(t: Token): string {
    if t.kind == Litteral then "\"" + t.value + "\"" else t.value
  }

  /** Source text of a token list, one space between tokens. */
  function Render(ts: seq<Token>): string {
    if ts == [] then ""
    else if |ts| == 1 then RenderToken(ts[0])
    else RenderToken(ts[0]) + " " + Render(ts[1..])
  }

  /** A scanned token is well formed. */
  lemma ScanWellFormed(s: string, j: nat)
    requires j < |s| && Scan(s, j).Scanned?
    ensures WellFormed(Scan(s, j).token)
  {
    var c := s[j];
    if Punctuation(c).None? && c != '"' {
      var t := Scan(s, j).token;
      assert forall i :: 0 <= i < |t.value| ==> t.value[i] == s[j + i];
    }
  }

  lemma {:induction false} LexFromWellFormed(s: string, i: nat)
    requires i <= |s|
    requires LexFrom(s, i).Tokens?
    ensures forall t :: t in LexFrom(s, i).tokens ==> WellFormed(t)
    decreases |s| - i
  {
    if i < |s| {
      var j := SpacesEnd(s, i);
      var k := Scan(s, j).next;
      LexFromWellFormed(s, k);
      ScanWellFormed(s, j);
      assert LexFrom(s, i).tokens == [Scan(s, j).token] + LexFrom(s, k).tokens;
    }
  }

  /** Every token the tokenizer emits is well formed. */
  lemma LexWellFormed(s: string)
    requires Lex(s).Tokens?
    ensures forall t :: t in Lex(s).tokens ==> WellFormed(t)
  {
    LexFromWellFormed(s, 0);
  }

  lemma {:induction false} NameEndAt(s: string, a: nat, b: nat)
    requires a <= b <= |s|
    requires forall j :: a <= j < b ==> IsNameChar(s[j])
    requires b == |s| || !IsNameChar(s[b])
    ensures NameEnd(s, a) == b
    decreases b - a
  {
    if a < b {
      NameEndAt(s, a + 1, b);
    }
  }

  lemma {:induction false} DigitsEndAt(s: string, a: nat, b: nat)
    requires a <= b <= |s|
    requires forall j :: a <= j < b ==> IsDigit(s[j])
    requires b == |s| || !IsDigit(s[b])
    ensures DigitsEnd(s, a) == b
    decreases b - a
  {
    if a < b {
      DigitsEndAt(s, a + 1, b);
    }
  }

  lemma {:induction false} QuoteFromAt(s: string, a: nat, b: nat)
    requires a <= b < |s| && s[b] == '"'
    requires forall j :: a <= j < b ==> s[j] != '"'
    ensures QuoteFrom(s, a) == Some(b)
    decreases b - a
  {
    if a < b {
      QuoteFromAt(s, a + 1, b);
    }
  }

  /** A well-formed token written at `i` and followed by a space or the end
      of the input scans back to itself. */
  lemma ScanRendered(s: string, i: nat, t: Token)
    requires WellFormed(t)
    requires i + |RenderToken(t)| <= |s| && s[i..i + |RenderToken(t)|] == RenderToken(t)
    requires i + |RenderToken(t)| == |s| || s[i + |RenderToken(t)|] == ' '
    ensures Scan(s, i) == Scanned(t, i + |RenderToken(t)|)
  {
    var r := RenderToken(t);
    var e := i + |r|;
    assert s[i] == r[0];
    match t.kind
    case Litteral =>
      assert forall j :: i + 1 <= j < e - 1 ==> s[j] == t.value[j - i - 1];
      QuoteFromAt(s, i + 1, e - 1);
      assert s[i + 1..e - 1] == t.value;
    case Name =>
      assert forall j :: i <= j < e ==> s[j] == t.value[j - i];
      NameEndAt(s, i + 1, e);
    case Number =>
      assert forall j :: i <= j < e ==> s[j] == t.value[j - i];
      DigitsEndAt(s, i + 1, e);
    case _ =>
  }

  lemma RenderTokenStart(t: Token)
    requires WellFormed(t)
    ensures |RenderToken(t)| > 0 && !IsSpace(RenderToken(t)[0])
  {
  }

  lemma RenderShape(ts: seq<Token>)
    requires |ts| > 1
    ensures Render(ts) == RenderToken(ts[0]) + " " + Render(ts[1..])
  {
  }

  /** Lexing from a blank that precedes a token is lexing from that token. */
  lemma SkipOneSpace(s: string, e: nat)
    requires e + 1 < |s| && IsSpace(s[e]) && !IsSpace(s[e + 1])
    ensures LexFrom(s, e) == LexFrom(s, e + 1)
  {
    assert SpacesEnd(s, e + 1) == e + 1;
    assert SpacesEnd(s, e) == e + 1;
  }

  /** The text at `i` starts with a rendered token: the blank skip stops
      there and the scan gives that token back. */
  lemma LexFromRenderedToken(s: string, i: nat, t: Token)
    requires WellFormed(t)
    requires i + |RenderToken(t)| <= |s| && s[i..i + |RenderToken(t)|] == RenderToken(t)
    requires i + |RenderToken(t)| == |s| || s[i + |RenderToken(t)|] == ' '
    ensures LexFrom(s, i) == Prepend([t], LexFrom(s, i + |RenderToken(t)|))
  {
    RenderTokenStart(t);
    assert s[i] == RenderToken(t)[0];
    assert SpacesEnd(s, i) == i;
    ScanRendered(s, i, t);
  }

  /** Text that reads `r`, a blank and `rest` from `i` on. */
  lemma SplitAtBlank(s: string, i: nat, r: string, rest: string)
    requires i <= |s| && s[i..] == r + " " + rest
    ensures i + |r| < |s| && s[i..i + |r|] == r && s[i + |r|] == ' ' && s[i + |r| + 1..] == rest
  {
    assert s[i..i + |r|] == s[i..][..|r|];
    assert s[i + |r|] == s[i..][|r|];
    assert s[i + |r| + 1..] == s[i..][|r| + 1..];
  }

  /** The rendering of a non-empty list of well-formed tokens starts with
      the first character of its first token, which is not blank. */
  lemma RenderStart(ts: seq<Token>)
    requires ts != [] && WellFormed(ts[0])
    ensures |Render(ts)| > 0 && Render(ts)[0] == RenderToken(ts[0])[0] && !IsSpace(Render(ts)[0])
  {
    RenderTokenStart(ts[0]);
    if |ts| > 1 {
      RenderShape(ts);
    }
  }

  lemma {:induction false} LexFromRender(s: string, i: nat, ts: seq<Token>)
    requires i <= |s| && s[i..] == Render(ts)
    requires forall t :: t in ts ==> WellFormed(t)
    ensures LexFrom(s, i) == Tokens(ts)
    decreases |ts|
  {
    if ts == [] {
      assert |s[i..]| == 0;
    } else if |ts| == 1 {
      LexFromRenderOne(s, i, ts[0]);
      assert [ts[0]] == ts;
    } else {
      var next, rest := i + |RenderToken(ts[0])| + 1, ts[1..];
      RenderTail(s, i, ts);
      assert forall t :: t in rest ==> t in ts;
      LexFromRender(s, next, rest);
      assert ts[0] in ts && ts[1] in ts;
      LexFromRenderStep(s, i, ts, next, LexFrom(s, next));
    }
  }

  /** After the first token and its blank comes the rendering of the rest. */
  lemma RenderTail(s: string, i: nat, ts: seq<Token>)
    requires |ts| > 1 && i <= |s| && s[i..] == Render(ts)
    ensures i + |RenderToken(ts[0])| + 1 <= |s| && s[i + |RenderToken(ts[0])| + 1..] == Render(ts[1..])
  {
    RenderShape(ts);
    SplitAtBlank(s, i, RenderToken(ts[0]), Render(ts[1..]));
  }

  /** The first token of a rendering of several, in front of the tokens of
      the rest. */
  lemma LexFromRenderStep(s: string, i: nat, ts: seq<Token>, next: nat, lexed: LexResult)
    requires |ts| > 1 && WellFormed(ts[0]) && WellFormed(ts[1])
    requires i <= |s| && s[i..] == Render(ts)
    requires next == i + |RenderToken(ts[0])| + 1 <= |s| && lexed == LexFrom(s, next) && lexed == Tokens(ts[1..])
    ensures LexFrom(s, i) == Tokens(ts)
  {
    var r, rest := RenderToken(ts[0]), ts[1..];
    RenderShape(ts);
    SplitAtBlank(s, i, r, Render(rest));
    RenderStart(rest);
    assert s[next] == s[next..][0] == Render(rest)[0];
    LexFromRenderCons(s, i, ts[0], rest, next);
    assert [ts[0]] + rest == ts;
  }

  /** A rendered token that ends the text. */
  lemma LexFromRenderOne(s: string, i: nat, t: Token)
    requires WellFormed(t) && i <= |s| && s[i..] == RenderToken(t)
    ensures LexFrom(s, i) == Tokens([t])
  {
    var r := RenderToken(t);
    assert s[i..i + |r|] == r;
    LexFromRenderedToken(s, i, t);
    assert LexFrom(s, i + |r|) == Tokens([]);
  }

  /** A rendered token, a blank, then text that lexes to `rest`. */
  lemma LexFromRenderCons(s: string, i: nat, t: Token, rest: seq<Token>, next: nat)
    requires WellFormed(t)
    requires next == i + |RenderToken(t)| + 1 < |s| && s[i..next - 1] == RenderToken(t) && s[next - 1] == ' '
    requires !IsSpace(s[next]) && LexFrom(s, next) == Tokens(rest)
    ensures LexFrom(s, i) == Tokens([t] + rest)
  {
    LexFromRenderedToken(s, i, t);
    SkipOneSpace(s, next - 1);
  }

  /** Printing well-formed tokens with single spaces between them and
      tokenizing the text gives back exactly those tokens. */
  lemma LexRender(ts: seq<Token>)
    requires forall t :: t in ts ==> WellFormed(t)
    ensures Lex(Render(ts)) == Tokens(ts)
  {
    LexFromRender(Render(ts), 0, ts);
  }

  /** A scanned token ends on a character that is not blank. */
  lemma ScanEndsOnNonSpace(s: string, j: nat)
    requires j < |s| && !IsSpace(s[j]) && Scan(s, j).Scanned?
    ensures !IsSpace(s[Scan(s, j).next - 1])
  {
  }

  lemma {:induction false} TrailingSpaceFrom(s: string, i: nat)
    requires i < |s| && IsSpace(s[|s| - 1])
    ensures LexFrom(s, i).LexFailed?
    decreases |s| - i
  {
    var j := SpacesEnd(s, i);
    if j < |s| && Scan(s, j).Scanned? {
      var k := Scan(s, j).next;
      ScanEndsOnNonSpace(s, j);
      TrailingSpaceFrom(s, k);
    }
  }

  /** An expression ending in whitespace never tokenizes. */
  lemma TrailingSpaceFails(s: string)
    requires |s| > 0 && IsSpace(s[|s| - 1])
    ensures Lex(s).LexFailed?
  {
    TrailingSpaceFrom(s, 0);
  }

  /** An unclosed literal fails with `reach_eof_too_soon`. */
  lemma UnclosedLiteral(v: string)
    requires forall i :: 0 <= i < |v| ==> v[i] != '"'
    ensures Lex("\"" + v) == LexFailed(EofTooSoon)
  {
    var s := "\"" + v;
    assert forall j :: 1 <= j < |s| ==> s[j] == v[j - 1];
    assert QuoteFrom(s, 1) == None;
  }

  /** An unrecognised first character makes the tokenizer retry it forever. */
  lemma UnknownCharacterHangs(c: char, rest: string)
    requires !IsSpace(c) && !IsNameChar(c) && Punctuation(c).None? && c != '"'
    ensures Lex([c] + rest) == LexFailed(Hangs(0))
  {
  }

  lemma EmptyInput()
    ensures Lex("") == Tokens([])
  {
  }

  /** A token scanned right at `i`, followed by what the rest lexes to. */
  lemma LexFromCons(s: string, i: nat, t: Token, k: nat, rest: seq<Token>)
    requires i < |s| && !IsSpace(s[i]) && Scan(s, i) == Scanned(t, k)
    requires k <= |s| && LexFrom(s, k) == Tokens(rest)
    ensures LexFrom(s, i) == Tokens([t] + rest)
  {
    assert SpacesEnd(s, i) == i;
  }

  lemma TicksTail(s: string)
    requires s == "ticks(datetime, 5)"
    ensures LexFrom(s, 14) ==
      Tokens([Token(",", Coma), Token("5", Number), Token(")", ClosingParenthesis)])
  {
    DigitsEndAt(s, 17, 17);
    assert Scan(s, 14) == Scanned(Token(",", Coma), 15);
    assert Scan(s, 16) == Scanned(Token("5", Number), 17) by { assert s[16..17] == "5"; }
    assert Scan(s, 17) == Scanned(Token(")", ClosingParenthesis), 18);
    LexFromCons(s, 17, Token(")", ClosingParenthesis), 18, []);
    LexFromCons(s, 16, Token("5", Number), 17, [Token(")", ClosingParenthesis)]);
    SkipOneSpace(s, 15);
    LexFromCons(s, 14, Token(",", Coma), 15, [Token("5", Number), Token(")", ClosingParenthesis)]);
  }

  lemma TicksMiddle(s: string)
    requires s == "ticks(datetime, 5)"
    ensures LexFrom(s, 5) == Tokens([Token("(", OpeningParenthesis), Token("datetime", Name),
      Token(",", Coma), Token("5", Number), Token(")", ClosingParenthesis)])
  {
    NameEndAt(s, 7, 14);
    assert Scan(s, 5) == Scanned(Token("(", OpeningParenthesis), 6);
    assert Scan(s, 6) == Scanned(Token("datetime", Name), 14) by { assert s[6..14] == "datetime"; }
    TicksTail(s);
    var tail := [Token(",", Coma), Token("5", Number), Token(")", ClosingParenthesis)];
    LexFromCons(s, 6, Token("datetime", Name), 14, tail);
    LexFromCons(s, 5, Token("(", OpeningParenthesis), 6, [Token("datetime", Name)] + tail);
  }

  lemma TicksHead(s: string)
    requires s == "ticks(datetime, 5)"
    ensures 0 < |s| && !IsSpace(s[0]) && Scan(s, 0) == Scanned(Token("ticks", Name), 5)
  {
    NameEndAt(s, 1, 5);
    assert s[0..5] == "ticks";
  }

  /** `ticks(datetime, 5)` gives six tokens. */
  lemma TicksExample(s: string)
    requires s == "ticks(datetime, 5)"
    ensures Lex(s) == Tokens([
      Token("ticks", Name), Token("(", OpeningParenthesis), Token("datetime", Name),
      Token(",", Coma), Token("5", Number), Token(")", ClosingParenthesis)])
  {
    TicksHead(s);
    TicksMiddle(s);
    LexFromCons(s, 0, Token("ticks", Name), 5, [Token("(", OpeningParenthesis), Token("datetime", Name),
      Token(",", Coma), Token("5", Number), Token(")", ClosingParenthesis)]);
  }
}
