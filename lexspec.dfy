/**
 * What one call of the scanner's `next` does, as functions of the source
 * text and the scanner's state. The `Scanner` class is proved against these.
 *
 * Positions are character indices into the source; the byte offset of
 * position `p` is `Offset(s, p)`. A lexeme is the text between two positions.
 */
module LexSpec {
  import opened Wrappers
  import opened Text
  import opened Token

  /** The byte offset of character index `p`. */
  function Offset(s: string, p: nat): nat
    requires p <= |s|
  {
    ByteLen(s[..p])
  }

  /** What `next` yields: a token or an error message (Rust's `Result<Token, String>`). */
  datatype Item = Ok(token: Token) | Err(message: string)

  /**
   * The outcome of one call of `next`: `Done` is Rust's `None`, `Yield(item)`
   * is `Some(item)`, and `Panic` is a slice whose bounds Rust rejects, which
   * aborts the program.
   */
  datatype Pull = Done | Yield(item: Item) | Panic

  /** The scanner's state: the index where `rest` starts, and whether EOF was emitted. */
  datatype ScanState = ScanState(pos: nat, eofEmitted: bool)

  const Init := ScanState(0, false)

  // ---------------------------------------------------------------- keywords

  function UpperChar(c: char): char {
    if 'a' <= c <= 'z' then (c as int - 32) as char else c
  }

  /** `name` is `word` written in upper case. */
  predicate SpelledUpper(name: string, word: string) {
    |name| == |word| && forall i :: 0 <= i < |word| ==> name[i] == UpperChar(word[i])
  }

  /** The reserved word of a keyword kind: the inverse of the keyword table. */
  function KeywordWord(kind: TokenKind): (word: string)
    requires kind.IsKeyword()
    ensures KeywordKind(word) == Some(kind)
  {
    match kind
    case And => "and"
    case Class => "class"
    case Else => "else"
    case False => "false"
    case For => "for"
    case Fun => "fun"
    case If => "if"
    case Nil => "nil"
    case Or => "or"
    case Print => "print"
    case Return => "return"
    case Super => "super"
    case This => "this"
    case True => "true"
    case Var => "var"
    case While => "while"
  }

  /** `get_keyword_kind`: the sixteen reserved words, matched exactly. */
  function KeywordKind(lexeme: string): (r: Option<TokenKind>)
    ensures r.Some? ==> r.value.IsKeyword()
  {
    match lexeme
    case "and" => Some(And)
    case "class" => Some(Class)
    case "else" => Some(Else)
    case "false" => Some(False)
    case "for" => Some(For)
    case "fun" => Some(Fun)
    case "if" => Some(If)
    case "nil" => Some(Nil)
    case "or" => Some(Or)
    case "print" => Some(Print)
    case "return" => Some(Return)
    case "super" => Some(Super)
    case "this" => Some(This)
    case "true" => Some(True)
    case "var" => Some(Var)
    case "while" => Some(While)
    case _ => None
  }

  /** A keyword kind prints as its reserved word in upper case. */
  lemma KeywordSpelling(kind: TokenKind)
    requires kind.IsKeyword()
    ensures SpelledUpper(KindName(kind), KeywordWord(kind))
  {
    if kind in {And, Class, Else, False, For, Fun, If, Nil} {
      FirstKeywordsSpelling(kind);
    } else {
      LastKeywordsSpelling(kind);
    }
  }

  /** The first half of the keyword kinds, split off to keep the case analysis small. */
  lemma FirstKeywordsSpelling(kind: TokenKind)
    requires kind in {And, Class, Else, False, For, Fun, If, Nil}
    ensures SpelledUpper(KindName(kind), KeywordWord(kind))
  {
  }

  /** The second half of the keyword kinds. */
  lemma LastKeywordsSpelling(kind: TokenKind)
    requires kind in {Or, Print, Return, Super, This, True, Var, While}
    ensures SpelledUpper(KindName(kind), KeywordWord(kind))
  {
  }

  /**
   * A lexeme is a keyword exactly when it is the word of a keyword kind, and
   * that kind prints as the word in upper case.
   */
  lemma KeywordTable(lexeme: string, kind: TokenKind)
    ensures KeywordKind(lexeme) == Some(kind) <==> kind.IsKeyword() && lexeme == KeywordWord(kind)
    ensures KeywordKind(lexeme) == Some(kind) ==> SpelledUpper(KindName(kind), lexeme)
  {
    if kind.IsKeyword() {
      KeywordSpelling(kind);
    }
  }

  // ------------------------------------------------------ operators

  /**
   * The single-character punctuation of `next`'s dispatch. None of these
   * characters starts an operator, a string, an identifier or a number, and
   * none is whitespace, so the order of the dispatch arms does not matter.
   */
  function SingleCharKind(c: char): (r: Option<TokenKind>)
    ensures r.Some? <==> c in "(){},.-+;*/"
    ensures r.Some? ==> !IsOperatorStart(c) && c != '"' && !IsIdentChar(c) && !IsWhitespace(c)
    ensures r.Some? ==> !r.value.IsKeyword() && !r.value.Number? && r.value !in {Identifier, String, EOF}
  {
    match c
    case '(' => Some(LeftParen)
    case ')' => Some(RightParen)
    case '{' => Some(LeftBrace)
    case '}' => Some(RightBrace)
    case ',' => Some(Comma)
    case '.' => Some(Dot)
    case '-' => Some(Minus)
    case '+' => Some(Plus)
    case ';' => Some(Semicolon)
    case '*' => Some(Star)
    case '/' => Some(Slash)
    case _ => None
  }

  /** The characters that start a one-or-two character operator. */
  predicate IsOperatorStart(c: char) {
    c == '!' || c == '=' || c == '>' || c == '<'
  }

  /** The name of the operator `c` stands for when no `=` follows it. */
  function OperatorName(c: char): string
    requires IsOperatorStart(c)
  {
    match c
    case '!' => "BANG"
    case '=' => "EQUAL"
    case '>' => "GREATER"
    case '<' => "LESS"
  }

  /** The kinds of the two-character operators. */
  predicate IsTwoCharKind(k: TokenKind) {
    k == BangEqual || k == EqualEqual || k == GreaterEqual || k == LessEqual
  }

  /** The printed names of the two-character operators end in `_EQUAL`. */
  lemma EqualSuffixNames()
    ensures "BANG" + "_EQUAL" == "BANG_EQUAL" && "EQUAL" + "_EQUAL" == "EQUAL_EQUAL"
    ensures "GREATER" + "_EQUAL" == "GREATER_EQUAL" && "LESS" + "_EQUAL" == "LESS_EQUAL"
  {
  }

  /**
   * The operator kind for `c`, alone or followed by `=`: a two-character
   * kind exactly when `=` follows, printed as the operator's name with
   * `_EQUAL` appended.
   */
  function OperatorKind(c: char, withEqual: bool): (k: TokenKind)
    requires IsOperatorStart(c)
    ensures IsTwoCharKind(k) <==> withEqual
    ensures KindName(k) == OperatorName(c) + (if withEqual then "_EQUAL" else "")
  {
    EqualSuffixNames();
    match c
    case '!' => if withEqual then BangEqual else Bang
    case '=' => if withEqual then EqualEqual else Equal
    case '>' => if withEqual then GreaterEqual else Greater
    case '<' => if withEqual then LessEqual else Less
  }

  // ------------------------------------------------------ whitespace and comments

  /** `//` starts at index `i`. */
  predicate StartsComment(s: string, i: nat) {
    i + 1 < |s| && s[i] == '/' && s[i + 1] == '/'
  }

  /** Where a comment moves `rest` first: just past the next newline, or to the end. */
  function PastNewline(s: string, i: nat): (r: nat)
    requires i < |s|
    ensures i < r <= |s|
    ensures r < |s| ==> s[r - 1] == '\n' && forall k :: i <= k < r - 1 ==> s[k] != '\n'
    ensures r == |s| ==> s[r - 1] == '\n' || forall k :: i <= k < |s| ==> s[k] != '\n'
  {
    match FindChar(s, i, '\n')
    case Some(j) => j + 1
    case None => |s|
  }

  /** Where the loop that follows a comment stops: the next newline at or after `i`, or the end. */
  function LineEnd(s: string, i: nat): (r: nat)
    requires i <= |s|
    ensures i <= r <= |s|
    ensures r == |s| || s[r] == '\n'
    ensures forall k :: i <= k < r ==> s[k] != '\n'
  {
    match FindChar(s, i, '\n')
    case Some(j) => j
    case None => |s|
  }

  /**
   * `skip_whitespace`: where `rest` starts once whitespace and comments are
   * skipped. A comment takes `rest` past its newline and then on to the end
   * of the following line.
   */
  function SkipTrivia(s: string, i: nat): (r: nat)
    requires i <= |s|
    ensures i <= r <= |s|
    ensures r == |s| || (!IsWhitespace(s[r]) && !StartsComment(s, r))
    decreases |s| - i
  {
    if i < |s| && IsWhitespace(s[i]) then SkipTrivia(s, i + 1)
    else if StartsComment(s, i) then SkipTrivia(s, LineEnd(s, PastNewline(s, i)))
    else i
  }

  // ------------------------------------------------------ literals

  /** `consume_digits` from index `i`: the end of the run of ASCII digits starting there. */
  function DigitsEnd(s: string, i: nat): (r: nat)
    requires i <= |s|
    ensures i <= r <= |s|
    ensures forall k :: i <= k < r ==> IsDigit(s[k])
    ensures r == |s| || !IsDigit(s[r])
    decreases |s| - i
  {
    if i < |s| && IsDigit(s[i]) then DigitsEnd(s, i + 1) else i
  }

  /** `consume_ident` from index `i`: the end of the run of identifier characters starting there. */
  function IdentEnd(s: string, i: nat): (r: nat)
    requires i <= |s|
    ensures i <= r <= |s|
    ensures forall k :: i <= k < r ==> IsIdentChar(s[k])
    ensures r == |s| || !IsIdentChar(s[r])
    decreases |s| - i
  {
    if i < |s| && IsIdentChar(s[i]) then IdentEnd(s, i + 1) else i
  }

  /** A stretch of digits is a digit string. */
  lemma DigitsSlice(s: string, i: nat, j: nat)
    requires i <= j <= |s|
    requires forall k :: i <= k < j ==> IsDigit(s[k])
    ensures AllDigits(s[i..j])
  {
    forall k | 0 <= k < j - i
      ensures IsDigit(s[i..j][k])
    {
      assert s[i..j][k] == s[i + k];
    }
  }

  /**
   * The end of a number whose first digit is at `i - 1`: its digits, then a
   * `.` and more digits only when a digit follows the `.`.
   */
  function NumberEnd(s: string, i: nat): (r: nat)
    requires 0 < i <= |s| && IsDigit(s[i - 1])
    ensures i <= r <= |s|
    ensures IsNumberLexeme(s[i - 1..r])
    ensures r == |s| || !IsDigit(s[r])
  {
    var d := DigitsEnd(s, i);
    if d + 1 < |s| && s[d] == '.' && IsDigit(s[d + 1]) then
      var e := DigitsEnd(s, d + 1);
      var w, dot := s[i - 1..e], d - i + 1;
      DigitsSlice(s, i - 1, d);
      DigitsSlice(s, d + 1, e);
      assert w[..dot] == s[i - 1..d];
      assert w[dot + 1..] == s[d + 1..e];
      assert 0 < dot < |w| - 1 && w[dot] == '.' && AllDigits(w[..dot]) && AllDigits(w[dot + 1..]);
      e
    else
      d
  }

  // ------------------------------------------------------ one call of next

  /**
   * The string literal whose opening quote is at `open`: the new position
   * and the outcome. The lexeme starts one character after the first
   * content character, and Rust's slice panics when the literal is empty or
   * its first content character takes more than one byte.
   */
  function StringStep(s: string, open: nat): (res: (nat, Pull))
    requires open < |s| && s[open] == '"'
    ensures open < res.0 <= |s|
  {
    var p := open + 1;
    match FindChar(s, p, '"')
    case None => (p, Yield(Err("Unterminated string")))
    case Some(close) =>
      if close == p || Utf8Len(s[p]) != 1 then (p, Panic)
      else (close + 1, Yield(Ok(NewToken(String, s[p + 1..close], Offset(s, open)))))
  }

  /**
   * The slice of an empty string literal starts one byte past where it
   * ends, so Rust rejects it.
   */
  lemma EmptyContentSlice(s: string, p: nat)
    requires p < |s| && s[p] == '"'
    ensures Slice(s, Offset(s, p) + 1, Offset(s, p) + ByteLen(s[p..p])) == None
  {
    assert s[p..p] == [];
    ByteLenStep(s, p);
    CharIndexAt(s, p + 1);
    CharIndexAt(s, p);
  }

  /**
   * When the first content character takes one byte, the slice starts on the
   * boundary after it and gives the content without that character.
   */
  lemma NarrowContentSlice(s: string, p: nat, close: nat)
    requires p < close <= |s| && Utf8Len(s[p]) == 1
    ensures Slice(s, Offset(s, p) + 1, Offset(s, p) + ByteLen(s[p..close])) == Some(s[p + 1..close])
  {
    var lo, hi := Offset(s, p) + 1, Offset(s, p) + ByteLen(s[p..close]);
    assert lo == ByteLen(s[..p + 1]) by { ByteLenStep(s, p); }
    assert hi == ByteLen(s[..close]) by { ByteLenSplit(s, p, close); }
    SliceAt(s, p + 1, close, lo, hi);
  }

  /**
   * When the first content character takes more than one byte, the slice
   * starts inside its encoding, so Rust rejects it.
   */
  lemma WideContentSlice(s: string, p: nat, close: nat)
    requires p < close <= |s| && Utf8Len(s[p]) != 1
    ensures Slice(s, Offset(s, p) + 1, Offset(s, p) + ByteLen(s[p..close])) == None
  {
    CharIndexInside(s, p, 1);
  }

  /** `scan_ident` from the letter or underscore at `p`: a keyword or an identifier. */
  function IdentStep(s: string, p: nat): (res: (nat, Pull))
    requires p < |s| && IsIdentStart(s[p])
    ensures p < res.0 <= |s|
    ensures forall k :: p <= k < res.0 ==> IsIdentChar(s[k])
    ensures res.0 == |s| || !IsIdentChar(s[res.0])
    ensures res.1.Yield? && res.1.item.Ok?
    ensures res.1.item.token.lexeme == s[p..res.0] && res.1.item.token.offset == Offset(s, p)
    ensures res.1.item.token.kind == Identifier || res.1.item.token.kind.IsKeyword()
  {
    var e := IdentEnd(s, p + 1);
    (e, Yield(Ok(NewToken(KeywordKind(s[p..e]).GetOr(Identifier), s[p..e], Offset(s, p)))))
  }

  /** `scan_number` from the digit at `p`. */
  function NumberStep(s: string, p: nat): (res: (nat, Pull))
    requires p < |s| && IsDigit(s[p])
    ensures p < res.0 <= |s|
    ensures res.1.Yield? && res.1.item.Ok?
    ensures res.1.item.token.lexeme == s[p..res.0] && res.1.item.token.offset == Offset(s, p)
    ensures IsNumberLexeme(s[p..res.0])
    ensures res.1.item.token.kind.Number? && DecimalText(res.1.item.token.kind.value) == s[p..res.0]
  {
    var e := NumberEnd(s, p + 1);
    (e, Yield(Ok(NewToken(Number(ParseNumber(s[p..e]).value), s[p..e], Offset(s, p)))))
  }

  /** The message for a character that starts no token. */
  function UnexpectedMessage(c: char): string {
    "Unexpected character '" + [c] + "'"
  }

  /** The dispatch of `next` on the character at `p`: the new position and the outcome. */
  function Dispatch(s: string, p: nat): (res: (nat, Pull))
    requires p < |s|
    ensures p < res.0 <= |s|
  {
    var c := s[p];
    var start := Offset(s, p);
    if SingleCharKind(c).Some? then
      (p + 1, Yield(Ok(NewToken(SingleCharKind(c).value, s[p..p + 1], start))))
    else if IsOperatorStart(c) then
      var withEqual := p + 1 < |s| && s[p + 1] == '=';
      var e := if withEqual then p + 2 else p + 1;
      (e, Yield(Ok(NewToken(OperatorKind(c, withEqual), s[p..e], start))))
    else if c == '"' then
      StringStep(s, p)
    else if IsIdentStart(c) then
      IdentStep(s, p)
    else if IsDigit(c) then
      NumberStep(s, p)
    else
      (p + 1, Yield(Err(UnexpectedMessage(c))))
  }

  /** What remains to be done from `st`: the characters left, plus one while EOF is due. */
  function Measure(s: string, st: ScanState): nat
    requires st.pos <= |s|
  {
    (|s| - st.pos) + if st.eofEmitted then 0 else 1
  }

  /**
   * `next`: skip whitespace and comments, signal the end once EOF was
   * emitted, emit EOF once at the end of the text, and otherwise dispatch on
   * the next character.
   */
  function Step(s: string, st: ScanState): (res: (ScanState, Pull))
    requires st.pos <= |s|
    ensures st.pos <= res.0.pos <= |s|
    ensures res.1.Done? <==> st.eofEmitted
    ensures !res.1.Done? ==> Measure(s, res.0) < Measure(s, st)
  {
    var p := SkipTrivia(s, st.pos);
    if st.eofEmitted then
      (ScanState(p, true), Done)
    else if p == |s| then
      (ScanState(p, true), Yield(Ok(NewToken(EOF, "", Offset(s, p)))))
    else
      var (q, out) := Dispatch(s, p);
      (ScanState(q, false), out)
  }

  /**
   * Every outcome the scanner yields from `st` on, in order: up to and not
   * including the first `Done`, and ending at a `Panic`.
   */
  function Run(s: string, st: ScanState): (r: seq<Pull>)
    requires st.pos <= |s|
    ensures r == [] <==> st.eofEmitted
    ensures |r| <= Measure(s, st)
    ensures forall i :: 0 <= i < |r| ==> !r[i].Done?
    ensures forall i :: 0 <= i < |r| - 1 ==> !r[i].Panic?
    decreases Measure(s, st)
  {
    var (next, out) := Step(s, st);
    if out.Done? then []
    else if out.Panic? then [out]
    else [out] + Run(s, next)
  }
}
