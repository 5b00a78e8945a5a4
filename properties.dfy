/**
 * What the scanner promises over whole runs and per kind of token, proved
 * about the functions of `LexSpec` that `Scanning.Scanner.Next` follows.
 */
module Properties {
  import opened Wrappers
  import opened Text
  import opened Token
  import opened LexSpec

  /** The outcome carries a token. */
  predicate Emits(o: Pull) {
    o.Yield? && o.item.Ok?
  }

  /** The outcome carries the EOF token. */
  predicate IsEof(o: Pull) {
    Emits(o) && o.item.token.kind == EOF
  }

  // ------------------------------------------------------ one dispatch

  /**
   * Every token the dispatch yields starts at the byte offset of the
   * character dispatched on and is not EOF; a panic only comes from a
   * string literal.
   */
  lemma DispatchToken(s: string, p: nat)
    requires p < |s|
    ensures var out := Dispatch(s, p).1;
      && (out.Yield? || out.Panic?)
      && (Emits(out) ==> out.item.token.offset == Offset(s, p) && out.item.token.kind != EOF)
      && (out.Panic? ==> s[p] == '"')
  {
    if s[p] != '"' && IsIdentStart(s[p]) && SingleCharKind(s[p]).None? && !IsOperatorStart(s[p]) {
      var e := IdentEnd(s, p + 1);
      match KeywordKind(s[p..e])
      case None =>
      case Some(k) => assert k.IsKeyword();
    }
  }

  /**
   * Every token the dispatch yields is the text it consumed, except a string,
   * whose lexeme is that text without both quotes and without the first
   * character between them.
   */
  lemma DispatchLexeme(s: string, p: nat)
    requires p < |s|
    ensures var (q, out) := Dispatch(s, p);
      Emits(out) ==>
        if out.item.token.kind == String then p + 2 < q && out.item.token.lexeme == s[p + 2..q - 1]
        else out.item.token.lexeme == s[p..q] && out.item.token.lexeme != []
  {
    var (q, out) := Dispatch(s, p);
    if s[p] != '"' && IsIdentStart(s[p]) && SingleCharKind(s[p]).None? && !IsOperatorStart(s[p]) {
      var e := IdentEnd(s, p + 1);
      match KeywordKind(s[p..e])
      case None =>
      case Some(k) => assert k.IsKeyword();
    }
  }

  /**
   * The two errors of a dispatch both consume exactly one character: an
   * unterminated string only its opening quote, an unexpected character
   * itself. Which error it is depends on whether that character is a quote.
   */
  lemma DispatchErrors(s: string, p: nat)
    requires p < |s|
    ensures var (q, out) := Dispatch(s, p);
      out.Yield? && out.item.Err? ==>
        && q == p + 1
        && (out.item.message == "Unterminated string" <==> s[p] == '"')
        && (s[p] != '"' ==> out.item.message == UnexpectedMessage(s[p]))
  {
    var m := UnexpectedMessage(s[p]);
    assert m[2] == 'e' && "Unterminated string"[2] == 't';
  }

  /**
   * An operator character takes its two-character kind exactly when `=`
   * follows it, and its lexeme is the one or two characters consumed. The
   * kind is the one of that character: it prints as the character's
   * operator name, with `_EQUAL` appended for the two-character form.
   */
  lemma OperatorDispatch(s: string, p: nat)
    requires p < |s| && IsOperatorStart(s[p])
    ensures var (q, out) := Dispatch(s, p);
      && Emits(out)
      && (IsTwoCharKind(out.item.token.kind) <==> p + 1 < |s| && s[p + 1] == '=')
      && q == (if p + 1 < |s| && s[p + 1] == '=' then p + 2 else p + 1)
      && out.item.token.lexeme == s[p..q]
      && out.item.token.kind == OperatorKind(s[p], q == p + 2)
      && KindName(out.item.token.kind) == OperatorName(s[p]) + (if q == p + 2 then "_EQUAL" else "")
  {
  }

  /**
   * A punctuation character is a token of its own kind, whose lexeme is that
   * character, whatever follows it.
   */
  lemma PunctuationDispatch(s: string, p: nat)
    requires p < |s| && SingleCharKind(s[p]).Some?
    ensures var (q, out) := Dispatch(s, p);
      && q == p + 1
      && out == Yield(Ok(Token(SingleCharKind(s[p]).value, [s[p]], Offset(s, p))))
  {
    assert s[p..p + 1] == [s[p]];
  }

  /**
   * An identifier is the longest run of identifier characters, and it is a
   * keyword exactly when it spells one of the reserved words, in which case
   * the kind prints as that word in upper case.
   */
  lemma IdentDispatch(s: string, p: nat)
    requires p < |s| && IsIdentStart(s[p])
    ensures var (q, out) := Dispatch(s, p);
      && Emits(out)
      && out.item.token.lexeme == s[p..q]
      && (forall k :: p <= k < q ==> IsIdentChar(s[k]))
      && (q == |s| || !IsIdentChar(s[q]))
      && (out.item.token.kind != Identifier ==>
            out.item.token.kind.IsKeyword()
            && s[p..q] == KeywordWord(out.item.token.kind)
            && SpelledUpper(KindName(out.item.token.kind), s[p..q]))
      && (out.item.token.kind == Identifier ==> forall k: TokenKind :: k.IsKeyword() ==> s[p..q] != KeywordWord(k))
  {
    var q := IdentEnd(s, p + 1);
    var w := s[p..q];
    assert SingleCharKind(s[p]).None? && !IsOperatorStart(s[p]) && s[p] != '"';
    match KeywordKind(w)
    case Some(k) =>
      KeywordTable(w, k);
    case None =>
      forall k: TokenKind | k.IsKeyword()
        ensures w != KeywordWord(k)
      {
        KeywordTable(w, k);
      }
  }

  /**
   * A number is the longest prefix of the text at `p` that is a number
   * lexeme (digits, optionally `.` and more digits), and its value prints
   * back as that lexeme.
   */
  lemma NumberDispatch(s: string, p: nat)
    requires p < |s| && IsDigit(s[p])
    ensures var (q, out) := Dispatch(s, p);
      && Emits(out)
      && out.item.token.lexeme == s[p..q]
      && out.item.token.kind.Number?
      && DecimalText(out.item.token.kind.value) == s[p..q]
      && IsNumberLexeme(s[p..q])
      && (forall e :: q < e <= |s| ==> !IsNumberLexeme(s[p..e]))
  {
    var q := NumberEnd(s, p + 1);
    assert SingleCharKind(s[p]).None? && !IsOperatorStart(s[p]) && s[p] != '"' && !IsIdentStart(s[p]);
    forall e | q < e <= |s|
      ensures !IsNumberLexeme(s[p..e])
    {
      NumberLongest(s, p, e);
    }
  }

  /**
   * No number lexeme at `p` runs past where `NumberEnd` stops: every longer
   * candidate has a non-digit besides its dot, or a dot with no digits on
   * one side.
   */
  lemma NumberLongest(s: string, p: nat, e: nat)
    requires p < |s| && IsDigit(s[p]) && NumberEnd(s, p + 1) < e <= |s|
    ensures !IsNumberLexeme(s[p..e])
  {
    var d := DigitsEnd(s, p + 1);
    var q := NumberEnd(s, p + 1);
    var w := s[p..e];
    assert w[q - p] == s[q] && !IsDigit(s[q]);
    forall dot | 0 < dot < |w| - 1 && w[dot] == '.'
      ensures !AllDigits(w[..dot]) || !AllDigits(w[dot + 1..])
    {
      if dot < q - p {
        // The character `NumberEnd` stopped at lies after the dot.
        assert !IsDigit(w[dot + 1..][q - p - dot - 1]);
      } else if dot > q - p {
        // It lies before the dot.
        assert !IsDigit(w[..dot][q - p]);
      } else if d == q {
        // It is the dot, the whole part ends there, and no digit follows it.
        assert !IsDigit(w[dot + 1..][0]);
      } else {
        // It is the dot, but the number already has a fraction after an earlier dot.
        assert !IsDigit(w[..dot][d - p]);
      }
    }
  }

  // ------------------------------------------------------ string literals

  /**
   * A terminated string literal whose slice Rust accepts: the lexeme is the
   * text between the quotes without its first character, and `rest` moves
   * past the closing quote.
   */
  lemma StringLexemeDropsFirst(s: string, open: nat, close: nat)
    requires open < |s| && s[open] == '"' && FindChar(s, open + 1, '"') == Some(close)
    requires !StringStep(s, open).1.Panic?
    ensures var (q, out) := StringStep(s, open);
      && q == close + 1
      && Emits(out)
      && |out.item.token.lexeme| == close - open - 2
      && s[open + 1..close] == [s[open + 1]] + out.item.token.lexeme
  {
    assert s[open + 1..close] == [s[open + 1]] + s[open + 2..close];
  }

  /**
   * The slice of a string literal panics exactly when the literal is empty
   * or its first character takes more than one byte in UTF-8.
   */
  lemma StringPanics(s: string, open: nat)
    requires open < |s| && s[open] == '"'
    ensures StringStep(s, open).1.Panic? <==>
      open + 1 < |s| && FindChar(s, open + 1, '"').Some? && (s[open + 1] == '"' || s[open + 1] as int >= 0x80)
  {
  }

  /**
   * With no closing quote the scanner reports an unterminated string having
   * consumed only the opening quote, so the next call scans the text after
   * it as code.
   */
  lemma Unterminated(s: string, p: nat)
    requires p < |s| && s[p] == '"'
    requires forall k :: p < k < |s| ==> s[k] != '"'
    ensures Dispatch(s, p) == (p + 1, Yield(Err("Unterminated string")))
  {
    assert FindChar(s, p + 1, '"') == None;
  }

  // ------------------------------------------------------ whitespace and comments

  /** Whitespace is skipped to the end when nothing else follows. */
  lemma {:induction false} WhitespaceOnly(s: string, i: nat)
    requires i <= |s|
    requires forall k :: i <= k < |s| ==> IsWhitespace(s[k])
    ensures SkipTrivia(s, i) == |s|
    decreases |s| - i
  {
    if i < |s| {
      WhitespaceOnly(s, i + 1);
    }
  }

  /** A comment with no newline after it runs to the end of the text. */
  lemma CommentOnly(s: string, i: nat)
    requires StartsComment(s, i)
    requires forall k :: i <= k < |s| ==> s[k] != '\n'
    ensures SkipTrivia(s, i) == |s|
  {
    assert !IsWhitespace('/');
    assert PastNewline(s, i) == |s|;
  }

  // ------------------------------------------------------ whole runs

  /** Only trivia is left from `i`: the rest of the run is the EOF token at the byte length of the text. */
  lemma TriviaOnlyRun(s: string, i: nat)
    requires i <= |s| && SkipTrivia(s, i) == |s|
    ensures Run(s, ScanState(i, false)) == [Yield(Ok(Token(EOF, "", ByteLen(s))))]
  {
    var eof := Yield(Ok(Token(EOF, "", ByteLen(s))));
    assert Offset(s, |s|) == ByteLen(s) by {
      assert s[..|s|] == s;
    }
    assert Step(s, ScanState(i, false)) == (ScanState(|s|, true), eof);
    assert Step(s, ScanState(|s|, true)).1 == Done;
    assert Run(s, ScanState(i, false)) == [eof] + Run(s, ScanState(|s|, true));
  }

  /**
   * A run without a panic ends with the EOF token, whose lexeme is empty and
   * whose offset is the byte length of the text, and no earlier outcome is
   * EOF.
   */
  lemma {:induction false} RunEndsWithEof(s: string, st: ScanState)
    requires st.pos <= |s| && !st.eofEmitted
    requires Panic !in Run(s, st)
    ensures var r := Run(s, st);
      && r != []
      && r[|r| - 1] == Yield(Ok(Token(EOF, "", ByteLen(s))))
      && forall i :: 0 <= i < |r| - 1 ==> !IsEof(r[i])
    decreases Measure(s, st)
  {
    var (next, out) := Step(s, st);
    var p := SkipTrivia(s, st.pos);
    var r := Run(s, st);
    assert r == [out] + Run(s, next);
    if p == |s| {
      assert s[..|s|] == s;
      assert Run(s, next) == [];
    } else {
      DispatchToken(s, p);
      assert !IsEof(out);
      assert Panic !in Run(s, next);
      RunEndsWithEof(s, next);
    }
  }

  /** Byte offsets do not decrease along the text. */
  lemma OffsetMonotone(s: string, i: nat, j: nat)
    requires i <= j <= |s|
    ensures Offset(s, i) <= Offset(s, j) <= ByteLen(s)
  {
    ByteLenSplit(s, i, j);
    ByteLenSplit(s, j, |s|);
    assert s[..|s|] == s;
  }

  /** Every token of a run lies between the byte offset where the run starts and the end of the text. */
  lemma {:induction false} RunTokensWithin(s: string, st: ScanState)
    requires st.pos <= |s|
    ensures forall o :: o in Run(s, st) && Emits(o) ==> Offset(s, st.pos) <= o.item.token.offset <= ByteLen(s)
    decreases Measure(s, st)
  {
    var (next, out) := Step(s, st);
    var p := SkipTrivia(s, st.pos);
    if out.Yield? {
      OffsetMonotone(s, st.pos, p);
      OffsetMonotone(s, p, |s|);
      if p < |s| {
        DispatchToken(s, p);
        OffsetMonotone(s, st.pos, next.pos);
        RunTokensWithin(s, next);
      }
    }
  }

  /** The offsets of the tokens in `r` strictly increase. */
  predicate OffsetsIncrease(r: seq<Pull>) {
    forall i, j :: 0 <= i < j < |r| && Emits(r[i]) && Emits(r[j]) ==> r[i].item.token.offset < r[j].item.token.offset
  }

  /** The offsets of the tokens of a run strictly increase. */
  lemma {:induction false} RunOffsetsIncrease(s: string, st: ScanState)
    requires st.pos <= |s|
    ensures OffsetsIncrease(Run(s, st))
    decreases Measure(s, st)
  {
    var (next, out) := Step(s, st);
    var p := SkipTrivia(s, st.pos);
    var r := Run(s, st);
    if out.Yield? && p < |s| {
      var rest := Run(s, next);
      assert r == [out] + rest;
      DispatchToken(s, p);
      ByteLenStrict(s, p, next.pos);
      RunTokensWithin(s, next);
      RunOffsetsIncrease(s, next);
      OffsetsIncreaseCons(out, rest);
    }
  }

  /** A token before tokens of greater offsets keeps the offsets increasing. */
  lemma OffsetsIncreaseCons(o: Pull, rest: seq<Pull>)
    requires OffsetsIncrease(rest)
    requires Emits(o) ==> forall x :: x in rest && Emits(x) ==> o.item.token.offset < x.item.token.offset
    ensures OffsetsIncrease([o] + rest)
  {
    var r := [o] + rest;
    forall i, j | 0 <= i < j < |r| && Emits(r[i]) && Emits(r[j])
      ensures r[i].item.token.offset < r[j].item.token.offset
    {
      assert r[j] == rest[j - 1] && rest[j - 1] in rest;
      if i > 0 {
        assert r[i] == rest[i - 1];
      }
    }
  }

  /** The state after `n` further calls of `next`. */
  function After(s: string, st: ScanState, n: nat): (r: ScanState)
    requires st.pos <= |s|
    ensures r.pos <= |s|
    decreases n
  {
    if n == 0 then st else After(s, Step(s, st).0, n - 1)
  }

  /** Once EOF was emitted, every later call of `next` returns `None`. */
  lemma {:induction false} DoneForever(s: string, st: ScanState, n: nat)
    requires st.pos <= |s| && st.eofEmitted
    ensures After(s, st, n).eofEmitted
    ensures Step(s, After(s, st, n)).1 == Done
    decreases n
  {
    if n > 0 {
      DoneForever(s, Step(s, st).0, n - 1);
    }
  }

  // ------------------------------------------------------ examples of the behaviour as written

  /** The lexeme of `"ab"` is `b`: the first character of the content is lost. */
  lemma StringExample()
    ensures Step("\"ab\"", Init) == (ScanState(4, false), Yield(Ok(Token(String, "b", 0))))
  {
    var s := "\"ab\"";
    assert FindChar(s, 1, '"') == Some(3);
    assert s[2..3] == "b";
  }

  /** The empty string literal panics. */
  lemma EmptyStringExample()
    ensures Step("\"\"", Init).1 == Panic
  {
    assert FindChar("\"\"", 1, '"') == Some(1);
  }

  /** A comment also skips the line after it: in `//c`, `foo`, `1` the next token is `1`. */
  lemma CommentExample()
    ensures SkipTrivia("//c\nfoo\n1", 0) == 8
  {
    var s := "//c\nfoo\n1";
    assert FindChar(s, 0, '\n') == Some(3);
    assert FindChar(s, 4, '\n') == Some(7);
    assert SkipTrivia(s, 4) == 4;
    assert SkipTrivia(s, 7) == 8;
  }

  // ------------------------------------------------------ the scanner's own tests

  /** The outcome carrying the token `Token(kind, lexeme, offset)`. */
  function Tok(kind: TokenKind, lexeme: string, offset: nat): Pull {
    Yield(Ok(Token(kind, lexeme, offset)))
  }

  /** The outcomes that carry the tokens `ts`, in order. */
  function Emitted(ts: seq<Token>): seq<Pull> {
    if ts == [] then [] else [Yield(Ok(ts[0]))] + Emitted(ts[1..])
  }

  /** One call of `next` from index `i` skips trivia and dispatches `t`, ending at index `end`. */
  predicate Yields(s: string, i: nat, end: nat, t: Token) {
    i <= |s| && SkipTrivia(s, i) < |s| && Dispatch(s, SkipTrivia(s, i)) == (end, Yield(Ok(t)))
  }

  /**
   * From index `i`, successive calls of `next` dispatch the tokens `ts` in
   * turn, token `j` ending at index `ends[j]`, and only trivia follows.
   */
  predicate Scans(s: string, i: nat, ends: seq<nat>, ts: seq<Token>)
    decreases ts
  {
    |ends| == |ts| && i <= |s| &&
    if ts == [] then SkipTrivia(s, i) == |s|
    else Yields(s, i, ends[0], ts[0]) && Scans(s, ends[0], ends[1..], ts[1..])
  }

  /** A call of `next` that yields a token puts it ahead of the rest of the run. */
  lemma RunYields(s: string, i: nat, q: nat, t: Token, rest: seq<Pull>)
    requires Yields(s, i, q, t) && Run(s, ScanState(q, false)) == rest
    ensures Run(s, ScanState(i, false)) == [Yield(Ok(t))] + rest
  {
  }

  /** The outcomes of a nonempty list of tokens, followed by `tail`, start with the first token. */
  lemma EmittedCons(ts: seq<Token>, tail: seq<Pull>)
    requires ts != []
    ensures Emitted(ts) + tail == [Yield(Ok(ts[0]))] + (Emitted(ts[1..]) + tail)
  {
  }

  /** A chain of dispatches from `i` is the run from `i`: its tokens, then EOF. */
  lemma {:induction false} ScansRun(s: string, i: nat, ends: seq<nat>, ts: seq<Token>)
    requires Scans(s, i, ends, ts)
    ensures Run(s, ScanState(i, false)) == Emitted(ts) + [Yield(Ok(Token(EOF, "", ByteLen(s))))]
    decreases ts
  {
    if ts == [] {
      TriviaOnlyRun(s, i);
    } else {
      var eof := [Yield(Ok(Token(EOF, "", ByteLen(s))))];
      ScansRun(s, ends[0], ends[1..], ts[1..]);
      RunYields(s, i, ends[0], ts[0], Emitted(ts[1..]) + eof);
      EmittedCons(ts, eof);
    }
  }

  /** Every character of `s` is ASCII. */
  predicate IsAscii(s: string) {
    forall k :: 0 <= k < |s| ==> s[k] as int < 0x80
  }

  /** In ASCII text the byte offset of an index is the index. */
  lemma AsciiOffset(s: string, p: nat)
    requires p <= |s| && IsAscii(s)
    ensures Offset(s, p) == p
  {
    AsciiByteLen(s[..p]);
  }

  /** A maximal run of digits from `i` to `j` is where `consume_digits` stops. */
  lemma {:induction false} DigitsEndAt(s: string, i: nat, j: nat)
    requires i <= j <= |s| && (forall k :: i <= k < j ==> IsDigit(s[k])) && (j == |s| || !IsDigit(s[j]))
    ensures DigitsEnd(s, i) == j
    decreases j - i
  {
    if i < j {
      DigitsEndAt(s, i + 1, j);
    }
  }

  /** A maximal run of identifier characters from `i` to `j` is where `consume_ident` stops. */
  lemma {:induction false} IdentEndAt(s: string, i: nat, j: nat)
    requires i <= j <= |s| && (forall k :: i <= k < j ==> IsIdentChar(s[k])) && (j == |s| || !IsIdentChar(s[j]))
    ensures IdentEnd(s, i) == j
    decreases j - i
  {
    if i < j {
      IdentEndAt(s, i + 1, j);
    }
  }

  /** A call of `next` that reaches a digit yields the number `scan_number` finds there. */
  lemma NumberYields(s: string, i: nat, p: nat, e: nat, v: Decimal, t: Token)
    requires i <= p < |s| && SkipTrivia(s, i) == p && IsDigit(s[p])
    requires NumberEnd(s, p + 1) == e && ParseNumber(s[p..e]) == Some(v)
    requires t == Token(Number(v), s[p..e], Offset(s, p))
    ensures Yields(s, i, e, t)
  {
  }

  /** A call of `next` that reaches a letter or `_` yields the keyword or identifier `scan_ident` finds there. */
  lemma WordYields(s: string, i: nat, p: nat, e: nat, t: Token)
    requires i <= p < |s| && SkipTrivia(s, i) == p && IsIdentStart(s[p]) && IdentEnd(s, p + 1) == e
    requires t == Token(KeywordKind(s[p..e]).GetOr(Identifier), s[p..e], Offset(s, p))
    ensures Yields(s, i, e, t)
  {
  }

  /** A call of `next` that reaches a punctuation character yields it as a token. */
  lemma PunctuationYields(s: string, i: nat, p: nat, t: Token)
    requires i <= p < |s| && SkipTrivia(s, i) == p && SingleCharKind(s[p]).Some?
    requires t == Token(SingleCharKind(s[p]).value, [s[p]], Offset(s, p))
    ensures Yields(s, i, p + 1, t)
  {
    PunctuationDispatch(s, p);
  }

  /** A call of `next` that reaches a string literal whose slice Rust accepts yields it. */
  lemma StringYields(s: string, i: nat, p: nat, close: nat, t: Token)
    requires i <= p < |s| && SkipTrivia(s, i) == p && s[p] == '"'
    requires FindChar(s, p + 1, '"') == Some(close) && p + 1 < close && Utf8Len(s[p + 1]) == 1
    requires t == Token(String, s[p + 2..close], Offset(s, p))
    ensures Yields(s, i, close + 1, t)
  {
    StringPanics(s, p);
    StringLexemeDropsFirst(s, p, close);
  }

  /** The number `123` at `p`, where neither a digit nor `.` and a digit follow. */
  lemma Number123(s: string, i: nat, p: nat, offset: nat)
    requires i <= p && p + 3 <= |s| && s[p] == '1' && s[p + 1] == '2' && s[p + 2] == '3' && SkipTrivia(s, i) == p
    requires p + 3 == |s| || (!IsDigit(s[p + 3]) && (s[p + 3] == '.' ==> p + 4 == |s| || !IsDigit(s[p + 4])))
    requires Offset(s, p) == offset
    ensures Yields(s, i, p + 3, Token(Number(Decimal("123", "")), "123", offset))
  {
    assert s[p..p + 3] == "123";
    DigitsEndAt(s, p + 1, p + 3);
    DecimalRoundTrip(Decimal("123", ""));
    NumberYields(s, i, p, p + 3, Decimal("123", ""), Token(Number(Decimal("123", "")), "123", offset));
  }

  /** `scan_number` on three digits, a dot and three digits at `p`, where no digit follows, takes all seven characters. */
  lemma End123456(s: string, p: nat)
    requires p + 7 <= |s| && IsDigit(s[p]) && IsDigit(s[p + 1]) && IsDigit(s[p + 2]) && s[p + 3] == '.'
    requires IsDigit(s[p + 4]) && IsDigit(s[p + 5]) && IsDigit(s[p + 6]) && (p + 7 == |s| || !IsDigit(s[p + 7]))
    ensures NumberEnd(s, p + 1) == p + 7
  {
    DigitsEndAt(s, p + 1, p + 3);
    DigitsEndAt(s, p + 4, p + 7);
  }

  /** `123.456` parses to its whole and its fractional digits. */
  lemma Parse123456()
    ensures ParseNumber("123.456") == Some(Decimal("123", "456"))
  {
    assert DecimalText(Decimal("123", "456")) == "123.456";
    DecimalRoundTrip(Decimal("123", "456"));
  }

  /** The number `123.456` at `p`, where no digit follows. */
  lemma Number123456(s: string, i: nat, p: nat, offset: nat)
    requires i <= p && p + 7 <= |s| && SkipTrivia(s, i) == p
    requires s[p] == '1' && s[p + 1] == '2' && s[p + 2] == '3' && s[p + 3] == '.'
    requires s[p + 4] == '4' && s[p + 5] == '5' && s[p + 6] == '6' && (p + 7 == |s| || !IsDigit(s[p + 7]))
    requires Offset(s, p) == offset
    ensures Yields(s, i, p + 7, Token(Number(Decimal("123", "456")), "123.456", offset))
  {
    End123456(s, p);
    assert s[p..p + 7] == "123.456";
    Parse123456();
    NumberYields(s, i, p, p + 7, Decimal("123", "456"), Token(Number(Decimal("123", "456")), "123.456", offset));
  }

  /** One call of `next` from `i` that yields a token, with only trivia after it. */
  lemma OneToken(s: string, i: nat, e: nat, t: Token)
    requires Yields(s, i, e, t) && e <= |s| && SkipTrivia(s, e) == |s|
    ensures Run(s, ScanState(i, false)) == [Yield(Ok(t)), Tok(EOF, "", ByteLen(s))]
  {
    TriviaOnlyRun(s, e);
    RunYields(s, i, e, t, [Tok(EOF, "", ByteLen(s))]);
  }

  /** Two calls of `next` from `i` that yield tokens, with only trivia after them. */
  lemma TwoTokens(s: string, i: nat, e0: nat, e1: nat, t0: Token, t1: Token)
    requires Yields(s, i, e0, t0) && Yields(s, e0, e1, t1) && e1 <= |s| && SkipTrivia(s, e1) == |s|
    ensures Run(s, ScanState(i, false)) == [Yield(Ok(t0)), Yield(Ok(t1)), Tok(EOF, "", ByteLen(s))]
  {
    OneToken(s, e0, e1, t1);
    RunYields(s, i, e0, t0, [Yield(Ok(t1)), Tok(EOF, "", ByteLen(s))]);
  }

  /** Three calls of `next` from the start that yield tokens, with only trivia after them. */
  lemma ThreeTokens(s: string, e0: nat, e1: nat, e2: nat, t0: Token, t1: Token, t2: Token)
    requires Yields(s, 0, e0, t0) && Yields(s, e0, e1, t1) && Yields(s, e1, e2, t2) && e2 <= |s| && SkipTrivia(s, e2) == |s|
    ensures Run(s, Init) == [Yield(Ok(t0)), Yield(Ok(t1)), Yield(Ok(t2)), Tok(EOF, "", ByteLen(s))]
  {
    TwoTokens(s, e0, e1, e2, t1, t2);
    RunYields(s, 0, e0, t0, [Yield(Ok(t1)), Yield(Ok(t2)), Tok(EOF, "", ByteLen(s))]);
  }

  /** `123.` scans as the number 123, a dot, and EOF: no digit follows the dot. */
  lemma TrailingDotRun(s: string)
    requires s == "123."
    ensures Run(s, Init) == [Tok(Number(Decimal("123", "")), "123", 0), Tok(Dot, ".", 3), Tok(EOF, "", 4)]
  {
    AsciiByteLen(s);
    AsciiOffset(s, 3);
    Number123(s, 0, 0, 0);
    PunctuationYields(s, 3, 3, Token(Dot, ".", 3));
    TwoTokens(s, 0, 3, 4, Token(Number(Decimal("123", "")), "123", 0), Token(Dot, ".", 3));
  }

  /** `123.toString` scans as the number 123, a dot, the identifier `toString`, and EOF. */
  lemma MethodCallRun(s: string)
    requires s == "123.toString"
    ensures Run(s, Init) == [Tok(Number(Decimal("123", "")), "123", 0), Tok(Dot, ".", 3), Tok(Identifier, "toString", 4), Tok(EOF, "", 12)]
  {
    MethodCallYields(s);
    ThreeTokens(s, 3, 4, 12, Token(Number(Decimal("123", "")), "123", 0), Token(Dot, ".", 3), Token(Identifier, "toString", 4));
  }

  /** The three calls of `next` on `123.toString` that yield tokens. */
  lemma MethodCallYields(s: string)
    requires s == "123.toString"
    ensures Yields(s, 0, 3, Token(Number(Decimal("123", "")), "123", 0)) && Yields(s, 3, 4, Token(Dot, ".", 3))
    ensures Yields(s, 4, 12, Token(Identifier, "toString", 4)) && SkipTrivia(s, 12) == 12 && ByteLen(s) == 12
  {
    AsciiByteLen(s);
    Number123(s, 0, 0, 0);
    DotYields(s);
    ToStringYields(s);
  }

  /** The second call of `next` on `123.toString` yields the dot. */
  lemma DotYields(s: string)
    requires s == "123.toString"
    ensures Yields(s, 3, 4, Token(Dot, ".", 3))
  {
    AsciiOffset(s, 3);
    PunctuationYields(s, 3, 3, Token(Dot, ".", 3));
  }

  /** The third call of `next` on `123.toString` yields the identifier `toString`. */
  lemma ToStringYields(s: string)
    requires s == "123.toString"
    ensures Yields(s, 4, 12, Token(Identifier, "toString", 4))
  {
    AsciiOffset(s, 4);
    assert IdentEnd(s, 5) == 12 && s[4..12] == "toString" && KeywordKind("toString") == None;
    WordYields(s, 4, 4, 12, Token(Identifier, "toString", 4));
  }

  /** `123.456` scans as one number and EOF. */
  lemma StandardFloatRun(s: string)
    requires s == "123.456"
    ensures Run(s, Init) == [Tok(Number(Decimal("123", "456")), "123.456", 0), Tok(EOF, "", 7)]
  {
    AsciiByteLen(s);
    StandardFloatYields(s);
    OneToken(s, 0, 7, Token(Number(Decimal("123", "456")), "123.456", 0));
  }

  /** The first call of `next` on `123.456` yields the whole number. */
  lemma StandardFloatYields(s: string)
    requires s == "123.456"
    ensures Yields(s, 0, 7, Token(Number(Decimal("123", "456")), "123.456", 0))
  {
    Number123456(s, 0, 0, 0);
  }

  /** `123 123.456` scans as two numbers and EOF. */
  lemma NumbersRun(s: string)
    requires s == "123 123.456"
    ensures Run(s, Init) == [Tok(Number(Decimal("123", "")), "123", 0), Tok(Number(Decimal("123", "456")), "123.456", 4), Tok(EOF, "", 11)]
  {
    AsciiByteLen(s);
    AsciiOffset(s, 4);
    Number123(s, 0, 0, 0);
    assert SkipTrivia(s, 3) == 4;
    Number123456(s, 3, 4, 4);
    TwoTokens(s, 0, 3, 11, Token(Number(Decimal("123", "")), "123", 0), Token(Number(Decimal("123", "456")), "123.456", 4));
  }

  /** `and if else` scans as three keywords and EOF. */
  lemma KeywordsRun(s: string)
    requires s == "and if else"
    ensures Run(s, Init) == [Tok(And, "and", 0), Tok(If, "if", 4), Tok(Else, "else", 7), Tok(EOF, "", 11)]
  {
    KeywordsYield(s);
    ThreeTokens(s, 3, 6, 11, Token(And, "and", 0), Token(If, "if", 4), Token(Else, "else", 7));
  }

  /** The three calls of `next` on `and if else` that yield tokens. */
  lemma KeywordsYield(s: string)
    requires s == "and if else"
    ensures Yields(s, 0, 3, Token(And, "and", 0)) && Yields(s, 3, 6, Token(If, "if", 4))
    ensures Yields(s, 6, 11, Token(Else, "else", 7)) && SkipTrivia(s, 11) == 11 && ByteLen(s) == 11
  {
    KeywordsLength(s);
    AndYields(s);
    IfYields(s);
    ElseYields(s);
  }

  /** `and if else` takes eleven bytes. */
  lemma KeywordsLength(s: string)
    requires s == "and if else"
    ensures ByteLen(s) == 11
  {
    AsciiByteLen(s);
  }

  /** The first call of `next` on `and if else` yields `and`. */
  lemma AndYields(s: string)
    requires s == "and if else"
    ensures Yields(s, 0, 3, Token(And, "and", 0))
  {
    assert s[1] == 'n' && s[2] == 'd' && s[3] == ' ';
    assert IdentEnd(s, 1) == 3 && s[0..3] == "and";
    WordYields(s, 0, 0, 3, Token(And, "and", 0));
  }

  /** The second call of `next` on `and if else` yields `if`. */
  lemma IfYields(s: string)
    requires s == "and if else"
    ensures Yields(s, 3, 6, Token(If, "if", 4))
  {
    AsciiOffset(s, 4);
    assert SkipTrivia(s, 3) == 4 && IdentEnd(s, 5) == 6 && s[4..6] == "if";
    WordYields(s, 3, 4, 6, Token(If, "if", 4));
  }

  /** The third call of `next` on `and if else` yields `else`. */
  lemma ElseYields(s: string)
    requires s == "and if else"
    ensures Yields(s, 6, 11, Token(Else, "else", 7))
  {
    AsciiOffset(s, 7);
    assert SkipTrivia(s, 6) == 7 && IdentEnd(s, 8) == 11 && s[7..11] == "else";
    WordYields(s, 6, 7, 11, Token(Else, "else", 7));
  }

  /** Spaces, a tab and line breaks scan as EOF alone, at byte 5. */
  lemma WhitespaceExample()
    ensures Run(" \t\n\r\n", Init) == [Yield(Ok(Token(EOF, "", 5)))]
  {
    var s := " \t\n\r\n";
    WhitespaceOnly(s, 0);
    TriviaOnlyRun(s, 0);
  }

  /** A comment with no newline scans as EOF alone, at its byte length. */
  lemma CommentOnlyExample(s: string)
    requires s == "// this is a comment"
    ensures Run(s, Init) == [Yield(Ok(Token(EOF, "", 20)))]
  {
    CommentOnly(s, 0);
    CommentLength(s);
    TriviaOnlyRun(s, 0);
  }

  /** `// this is a comment` takes twenty bytes. */
  lemma CommentLength(s: string)
    requires s == "// this is a comment"
    ensures ByteLen(s) == 20
  {
    AsciiByteLen(s);
  }

  /** A displayed EOF token is the name and one space. */
  lemma EofDisplay(offset: nat)
    ensures Display(Token(EOF, "", offset)) == "EOF "
  {
  }
}
