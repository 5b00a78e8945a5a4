/**
 * The token model: the closed set of token kinds, the token record and the
 * one-line text form in which the driver prints a token.
 */
module Token {
  import opened Wrappers
  import opened Text

  /**
   * The value of a number literal, kept as its digit strings: the whole part
   * and the fraction (empty when the literal has no `.`). It stands for the
   * 64-bit float the scanner decodes from the lexeme.
   */
  datatype Decimal = Decimal(whole: string, fraction: string)

  datatype TokenKind =
    // Single-character tokens
    | LeftParen | RightParen | LeftBrace | RightBrace | Comma | Dot
    | Minus | Plus | Semicolon | Slash | Star
    // One or two character tokens
    | Bang | BangEqual | Equal | EqualEqual
    | Greater | GreaterEqual | Less | LessEqual
    // Literals
    | Identifier | String | Number(value: Decimal)
    // Keywords
    | And | Class | Else | False | Fun | For | If | Nil | Or
    | Print | Return | Super | This | True | Var | While
    | EOF
  {
    predicate IsKeyword() {
      this in {And, Class, Else, False, Fun, For, If, Nil, Or, Print, Return, Super, This, True, Var, While}
    }
  }

  /** A token: its kind, the text it was scanned from and the byte offset the scanner gives it. */
  datatype Token = Token(kind: TokenKind, lexeme: string, offset: nat)

  /** `Token::new`. */
  function NewToken(kind: TokenKind, lexeme: string, offset: nat): (t: Token)
    ensures t.kind == kind && t.lexeme == lexeme && t.offset == offset
  {
    Token(kind, lexeme, offset)
  }

  /** The upper-case name a kind is printed under. */
  function KindName(kind: TokenKind): (name: string)
    ensures name != [] && ' ' !in name
  {
    match kind
    case LeftParen => "LEFT_PAREN"
    case RightParen => "RIGHT_PAREN"
    case LeftBrace => "LEFT_BRACE"
    case RightBrace => "RIGHT_BRACE"
    case Comma => "COMMA"
    case Dot => "DOT"
    case Minus => "MINUS"
    case Plus => "PLUS"
    case Semicolon => "SEMICOLON"
    case Slash => "SLASH"
    case Star => "STAR"
    case Bang => "BANG"
    case BangEqual => "BANG_EQUAL"
    case Equal => "EQUAL"
    case EqualEqual => "EQUAL_EQUAL"
    case Greater => "GREATER"
    case GreaterEqual => "GREATER_EQUAL"
    case Less => "LESS"
    case LessEqual => "LESS_EQUAL"
    case Identifier => "IDENTIFIER"
    case String => "STRING"
    case Number(_) => "NUMBER"
    case And => "AND"
    case Class => "CLASS"
    case Else => "ELSE"
    case False => "FALSE"
    case Fun => "FUN"
    case For => "FOR"
    case If => "IF"
    case Nil => "NIL"
    case Or => "OR"
    case Print => "PRINT"
    case Return => "RETURN"
    case Super => "SUPER"
    case This => "THIS"
    case True => "TRUE"
    case Var => "VAR"
    case While => "WHILE"
    case EOF => "EOF"
  }

  /** The kind printed under `name`, for every name but "NUMBER" (whose kind carries a value). */
  function KindOfName(name: string): (r: Option<TokenKind>)
  {
    match name
    case "LEFT_PAREN" => Some(LeftParen)
    case "RIGHT_PAREN" => Some(RightParen)
    case "LEFT_BRACE" => Some(LeftBrace)
    case "RIGHT_BRACE" => Some(RightBrace)
    case "COMMA" => Some(Comma)
    case "DOT" => Some(Dot)
    case "MINUS" => Some(Minus)
    case "PLUS" => Some(Plus)
    case "SEMICOLON" => Some(Semicolon)
    case "SLASH" => Some(Slash)
    case "STAR" => Some(Star)
    case "BANG" => Some(Bang)
    case "BANG_EQUAL" => Some(BangEqual)
    case "EQUAL" => Some(Equal)
    case "EQUAL_EQUAL" => Some(EqualEqual)
    case "GREATER" => Some(Greater)
    case "GREATER_EQUAL" => Some(GreaterEqual)
    case "LESS" => Some(Less)
    case "LESS_EQUAL" => Some(LessEqual)
    case "IDENTIFIER" => Some(Identifier)
    case "STRING" => Some(String)
    case "AND" => Some(And)
    case "CLASS" => Some(Class)
    case "ELSE" => Some(Else)
    case "FALSE" => Some(False)
    case "FUN" => Some(Fun)
    case "FOR" => Some(For)
    case "IF" => Some(If)
    case "NIL" => Some(Nil)
    case "OR" => Some(Or)
    case "PRINT" => Some(Print)
    case "RETURN" => Some(Return)
    case "SUPER" => Some(Super)
    case "THIS" => Some(This)
    case "TRUE" => Some(True)
    case "VAR" => Some(Var)
    case "WHILE" => Some(While)
    case "EOF" => Some(EOF)
    case _ => None
  }

  /** Every name but NUMBER reads back as the kind it names, and NUMBER as no other kind. */
  lemma KindNameInverse(kind: TokenKind)
    ensures KindOfName(KindName(kind)) == if kind.Number? then None else Some(kind)
  {
    if kind.IsKeyword() {
      KeywordNamesInverse(kind);
    } else if kind in {Identifier, String, EOF} || kind.Number? {
    } else {
      PunctuationNamesInverse(kind);
    }
  }

  /** The names of the keyword kinds, split off to keep the case analysis small. */
  lemma KeywordNamesInverse(kind: TokenKind)
    requires kind.IsKeyword()
    ensures KindOfName(KindName(kind)) == Some(kind)
  {
  }

  /** The names of the punctuation and operator kinds. */
  lemma PunctuationNamesInverse(kind: TokenKind)
    requires !kind.IsKeyword() && kind !in {Identifier, String, EOF} && !kind.Number?
    ensures KindOfName(KindName(kind)) == Some(kind)
  {
  }

  /** Two kinds print under the same name only when they are equal or both numbers. */
  lemma NameDeterminesKind(a: TokenKind, b: TokenKind)
    requires KindName(a) == KindName(b)
    ensures a == b || (a.Number? && b.Number?)
  {
    KindNameInverse(a);
    KindNameInverse(b);
  }

  /**
   * `Display for Token` up to the lexeme: the kind's name, one space, the
   * lexeme. No name holds a space, so the first space of the line is the one
   * that ends the name. (For a number the source goes on with a space and
   * the float.)
   */
  function Display(t: Token): (line: string)
    ensures FindChar(line, 0, ' ') == Some(|KindName(t.kind)|)
    ensures line[..|KindName(t.kind)|] == KindName(t.kind)
    ensures line[|KindName(t.kind)| + 1..] == t.lexeme
  {
    var name := KindName(t.kind);
    FirstSpace(name, t.lexeme);
    assert (name + " " + t.lexeme)[..|name|] == name;
    assert (name + " " + t.lexeme)[|name| + 1..] == t.lexeme;
    name + " " + t.lexeme
  }

  /** Reads a displayed line back: the name up to the first space gives the kind, the rest is the lexeme. */
  function ReadBack(line: string): Option<(TokenKind, string)> {
    match FindChar(line, 0, ' ')
    case None => None
    case Some(i) =>
      var name, lexeme := line[..i], line[i + 1..];
      if name == "NUMBER" then
        match ParseNumber(lexeme)
        case Some(v) => Some((Number(v), lexeme))
        case None => None
      else
        match KindOfName(name)
        case Some(kind) => Some((kind, lexeme))
        case None => None
  }

  /** In `name + " " + rest` with no space in `name`, the first space is the one after `name`. */
  lemma FirstSpace(name: string, rest: string)
    requires ' ' !in name
    ensures FindChar(name + " " + rest, 0, ' ') == Some(|name|)
  {
    var line := name + " " + rest;
    assert line[|name|] == ' ';
    assert forall k :: 0 <= k < |name| ==> line[k] == name[k];
  }

  /** A displayed token reads back as its kind and lexeme: the text before the first space determines the kind. */
  lemma DisplayReadBack(t: Token)
    requires t.kind.Number? ==> ParseNumber(t.lexeme) == Some(t.kind.value)
    ensures ReadBack(Display(t)) == Some((t.kind, t.lexeme))
  {
    KindNameInverse(t.kind);
    assert KindOfName("NUMBER") == None;
  }

  /** A number lexeme: a run of digits, optionally followed by `.` and another run of digits. */
  predicate IsNumberLexeme(w: string) {
    (w != [] && AllDigits(w)) ||
    (exists d :: 0 < d < |w| - 1 && w[d] == '.' && AllDigits(w[..d]) && AllDigits(w[d + 1..]))
  }

  /** The literal text of a decimal value. */
  function DecimalText(v: Decimal): string {
    if v.fraction == [] then v.whole else v.whole + "." + v.fraction
  }

  /**
   * `lexeme.parse::<f64>()` restricted to the literals the scanner produces:
   * the digit strings of a number lexeme, or None for anything else.
   */
  function ParseNumber(w: string): (r: Option<Decimal>)
    ensures r.Some? <==> IsNumberLexeme(w)
    ensures r.Some? ==> DecimalText(r.value) == w
    ensures r.Some? ==> r.value.whole != [] && AllDigits(r.value.whole) && AllDigits(r.value.fraction)
  {
    match FindChar(w, 0, '.')
    case None =>
      if w != [] && AllDigits(w) then Some(Decimal(w, [])) else None
    case Some(d) =>
      if 0 < d < |w| - 1 && AllDigits(w[..d]) && AllDigits(w[d + 1..]) then
        assert w == w[..d] + "." + w[d + 1..];
        Some(Decimal(w[..d], w[d + 1..]))
      else None
  }

  /** Printing a decimal and parsing the text back gives the same decimal. */
  lemma DecimalRoundTrip(v: Decimal)
    requires v.whole != [] && AllDigits(v.whole) && AllDigits(v.fraction)
    ensures ParseNumber(DecimalText(v)) == Some(v)
  {
    var w := DecimalText(v);
    if v.fraction == [] {
      assert !IsDigit('.');
      assert FindChar(w, 0, '.') == None;
    } else {
      assert w[|v.whole|] == '.';
      assert forall k :: 0 <= k < |v.whole| ==> w[k] == v.whole[k];
      assert FindChar(w, 0, '.') == Some(|v.whole|);
      assert w[..|v.whole|] == v.whole;
      assert w[|v.whole| + 1..] == v.fraction;
    }
  }
}
