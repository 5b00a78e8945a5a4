/**
 * The scanner as the source has it: an object over the source text whose
 * methods move the start of the unread suffix `rest` and the byte offset
 * step by step. `rest` is `source[pos..]`; the object invariant ties
 * `byteOffset` to `pos`. Each call of `Next` does what `LexSpec.Step` says.
 */
module Scanning {
  import opened Wrappers
  import opened Text
  import opened Token
  import opened LexSpec

  class Scanner {
    const source: string
    /** The character index where `rest` starts. */
    var pos: nat
    /** The byte offset of `rest` within `source`. */
    var byteOffset: nat
    var eofEmitted: bool

    /** `rest` is a suffix of `source` and `byteOffset` counts the bytes before it. */
    ghost predicate Valid()
      reads this
    {
      pos <= |source| && byteOffset == Offset(source, pos)
    }

    function State(): ScanState
      reads this
    {
      ScanState(pos, eofEmitted)
    }

    function Rest(): string
      reads this
      requires pos <= |source|
    {
      source[pos..]
    }

    /** `Scanner::new`: nothing read, no EOF emitted. */
    constructor (source: string)
      ensures Valid() && this.source == source
      ensures State() == Init && byteOffset == 0 && Rest() == source
    {
      this.source := source;
      pos := 0;
      byteOffset := 0;
      eofEmitted := false;
    }

    /** `peek`: the first character of `rest`, which stays unread. */
    function Peek(): (c: Option<char>)
      reads this
      requires Valid()
      ensures c.Some? <==> Rest() != []
      ensures c.Some? ==> c.value == Rest()[0]
    {
      if pos < |source| then Some(source[pos]) else None
    }

    /** `peek_next`: the second character of `rest`, which stays unread. */
    function PeekNext(): (c: Option<char>)
      reads this
      requires Valid()
      ensures c.Some? <==> |Rest()| >= 2
      ensures c.Some? ==> c.value == Rest()[1]
    {
      if pos + 1 < |source| then Some(source[pos + 1]) else None
    }

    /** `advance`: consumes one character and adds its UTF-8 length to the byte offset. */
    method Advance() returns (c: Option<char>)
      requires Valid()
      modifies this`pos, this`byteOffset
      ensures Valid()
      ensures c == old(Peek())
      ensures pos == old(pos) + (if c.Some? then 1 else 0)
      ensures c.Some? ==> byteOffset == old(byteOffset) + Utf8Len(c.value)
    {
      if pos == |source| {
        return None;
      }
      var ch := source[pos];
      ByteLenStep(source, pos);
      pos := pos + 1;
      byteOffset := byteOffset + Utf8Len(ch);
      c := Some(ch);
    }

    /** `matches`: consumes the next character exactly when it is `expected`. */
    method Matches(expected: char) returns (matched: bool)
      requires Valid()
      modifies this`pos, this`byteOffset
      ensures Valid()
      ensures matched <==> old(Peek()) == Some(expected)
      ensures pos == old(pos) + (if matched then 1 else 0)
    {
      if Peek() == Some(expected) {
        var _ := Advance();
        return true;
      }
      return false;
    }

    /**
     * `skip_whitespace`. A comment first jumps `rest` past the next newline
     * (or to the end) and then consumes characters up to the newline that
     * ends the following line.
     */
    method SkipWhitespace()
      requires Valid()
      modifies this`pos, this`byteOffset
      ensures Valid()
      ensures pos == SkipTrivia(source, old(pos))
    {
      while true
        invariant Valid()
        invariant old(pos) <= pos
        invariant SkipTrivia(source, pos) == SkipTrivia(source, old(pos))
        decreases |source| - pos
      {
        var c := Peek();
        if c.Some? && IsWhitespace(c.value) {
          var _ := Advance();
        } else if c == Some('/') && PeekNext() == Some('/') {
          JumpPastNewline();
          SkipToNewline();
        } else {
          break;
        }
      }
    }

    /** The first half of a comment: `rest` jumps past the next newline, or to the end. */
    method JumpPastNewline()
      requires Valid() && pos < |source|
      modifies this`pos, this`byteOffset
      ensures Valid()
      ensures pos == PastNewline(source, old(pos))
    {
      var found := FindChar(source, pos, '\n');
      if found.Some? {
        var skip := ByteLen(source[pos..found.value]) + 1;
        ByteLenSplit(source, pos, found.value);
        ByteLenStep(source, found.value);
        byteOffset := byteOffset + skip;
        pos := found.value + 1;
      } else {
        ByteLenSplit(source, pos, |source|);
        assert source[..|source|] == source;
        byteOffset := byteOffset + ByteLen(source[pos..]);
        pos := |source|;
      }
    }

    /** The second half of a comment: consume characters up to the next newline. */
    method SkipToNewline()
      requires Valid()
      modifies this`pos, this`byteOffset
      ensures Valid()
      ensures pos == LineEnd(source, old(pos))
    {
      while !(pos < |source| && source[pos] == '\n') && pos < |source|
        invariant Valid()
        invariant old(pos) <= pos <= |source|
        invariant LineEnd(source, pos) == LineEnd(source, old(pos))
        decreases |source| - pos
      {
        var _ := Advance();
      }
    }

    /** `make_token`: the token of `kind` whose lexeme runs from `startOffset` to the current offset. */
    method MakeToken(kind: TokenKind, startOffset: nat, ghost startPos: nat) returns (r: Pull)
      requires Valid()
      requires startPos <= pos && startOffset == Offset(source, startPos)
      ensures r == Yield(Ok(NewToken(kind, source[startPos..pos], startOffset)))
    {
      SliceAt(source, startPos, pos, startOffset, byteOffset);
      var lexeme := Slice(source, startOffset, byteOffset).value;
      r := Yield(Ok(NewToken(kind, lexeme, startOffset)));
    }

    /** `consume_digits`. */
    method ConsumeDigits()
      requires Valid()
      modifies this`pos, this`byteOffset
      ensures Valid()
      ensures pos == DigitsEnd(source, old(pos))
    {
      var c := Peek();
      while c.Some?
        invariant Valid()
        invariant old(pos) <= pos
        invariant c == Peek()
        invariant DigitsEnd(source, pos) == DigitsEnd(source, old(pos))
        decreases |source| - pos
      {
        if IsDigit(c.value) {
          var _ := Advance();
          c := Peek();
        } else {
          break;
        }
      }
    }

    /** `consume_ident`. */
    method ConsumeIdent()
      requires Valid()
      modifies this`pos, this`byteOffset
      ensures Valid()
      ensures pos == IdentEnd(source, old(pos))
    {
      var c := Peek();
      while c.Some?
        invariant Valid()
        invariant old(pos) <= pos
        invariant c == Peek()
        invariant IdentEnd(source, pos) == IdentEnd(source, old(pos))
        decreases |source| - pos
      {
        if IsIdentChar(c.value) {
          var _ := Advance();
          c := Peek();
        } else {
          break;
        }
      }
    }

    /**
     * `&source[startContent..endContent]` for the content of a string literal
     * running from `p` to the closing quote at `close`: the slice starts one
     * byte past the content, so Rust rejects it when the content is empty or
     * starts with a character of more than one byte.
     */
    method ContentSlice(startContent: nat, endContent: nat, ghost p: nat, ghost close: nat) returns (lexeme: Option<string>)
      requires p <= close < |source| && source[close] == '"'
      requires startContent == Offset(source, p) + 1 && endContent == Offset(source, p) + ByteLen(source[p..close])
      ensures lexeme.None? <==> close == p || Utf8Len(source[p]) != 1
      ensures lexeme.Some? ==> lexeme.value == source[p + 1..close]
    {
      ghost var s := source;
      if close == p {
        EmptyContentSlice(s, p);
      } else if Utf8Len(s[p]) == 1 {
        NarrowContentSlice(s, p, close);
      } else {
        WideContentSlice(s, p, close);
      }
      lexeme := Slice(source, startContent, endContent);
    }

    /**
     * `scan_string_literal`, called just after the opening quote. The content
     * is sliced from one byte past the current offset, so the slice starts
     * one byte late.
     */
    method ScanStringLiteral(startOffset: nat) returns (r: Pull)
      requires Valid()
      requires 0 < pos && source[pos - 1] == '"' && startOffset == Offset(source, pos - 1)
      modifies this`pos, this`byteOffset
      ensures Valid()
      ensures (pos, r) == StringStep(source, old(pos) - 1)
    {
      var p, offset := pos, byteOffset;
      var found := FindChar(source, p, '"');
      if found.Some? {
        var close := found.value;
        var byteLength := ByteLen(source[p..close]);
        var startContent := offset + 1;
        var endContent := offset + byteLength;
        var lexeme := ContentSlice(startContent, endContent, p, close);
        if lexeme.None? {
          return Panic;
        }
        var advanceBy := byteLength + 1;
        assert offset + advanceBy == Offset(source, close + 1) by { OffsetPastAscii(source, p, close); }
        byteOffset := offset + advanceBy;
        pos := close + 1;
        r := Yield(Ok(NewToken(String, lexeme.value, startOffset)));
      } else {
        r := Yield(Err("Unterminated string"));
      }
    }

    /** `scan_number`, called just after the first digit. */
    method ScanNumber(startOffset: nat, ghost startPos: nat) returns (r: Pull)
      requires Valid()
      requires pos == startPos + 1 && IsDigit(source[startPos]) && startOffset == Offset(source, startPos)
      modifies this`pos, this`byteOffset
      ensures Valid()
      ensures pos == NumberEnd(source, old(pos))
      ensures r == Yield(Ok(NewToken(Number(ParseNumber(source[startPos..pos]).value), source[startPos..pos], startOffset)))
    {
      ConsumeDigits();
      var next := PeekNext();
      if next.Some? && Peek() == Some('.') && IsDigit(next.value) {
        var _ := Advance();
        ConsumeDigits();
      }
      assert pos == NumberEnd(source, startPos + 1);
      assert Slice(source, startOffset, byteOffset) == Some(source[startPos..pos]) by {
        SliceAt(source, startPos, pos, startOffset, byteOffset);
      }
      var lexeme := Slice(source, startOffset, byteOffset).value;
      var number := ParseNumber(lexeme).value;
      r := Yield(Ok(NewToken(Number(number), lexeme, startOffset)));
    }

    /** `scan_ident`, called just after the first letter or underscore. */
    method ScanIdent(startOffset: nat, ghost startPos: nat) returns (r: Pull)
      requires Valid()
      requires pos == startPos + 1 && IsIdentStart(source[startPos]) && startOffset == Offset(source, startPos)
      modifies this`pos, this`byteOffset
      ensures Valid()
      ensures pos == IdentEnd(source, old(pos))
      ensures r == Yield(Ok(NewToken(KeywordKind(source[startPos..pos]).GetOr(Identifier), source[startPos..pos], startOffset)))
    {
      ConsumeIdent();
      SliceAt(source, startPos, pos, startOffset, byteOffset);
      var lexeme := Slice(source, startOffset, byteOffset).value;
      var kind := KeywordKind(lexeme).GetOr(Identifier);
      r := Yield(Ok(NewToken(kind, lexeme, startOffset)));
    }

    /** `Iterator::next`: one step of the scanner, as `Step` describes it. */
    method Next() returns (r: Pull)
      requires Valid()
      modifies this
      ensures Valid()
      ensures State() == Step(source, old(State())).0
      ensures r == Step(source, old(State())).1
    {
      SkipWhitespace();
      if eofEmitted {
        return Done;
      }
      if pos == |source| {
        eofEmitted := true;
        return Yield(Ok(NewToken(EOF, "", byteOffset)));
      }
      var startOffset := byteOffset;
      ghost var startPos := pos;
      var c := Advance();
      var ch := c.value;
      var single := SingleCharKind(ch);
      if single.Some? {
        r := MakeToken(single.value, startOffset, startPos);
      } else if IsOperatorStart(ch) {
        var withEqual := Matches('=');
        r := MakeToken(OperatorKind(ch, withEqual), startOffset, startPos);
      } else if ch == '"' {
        r := ScanStringLiteral(startOffset);
      } else if IsIdentStart(ch) {
        r := ScanIdent(startOffset, startPos);
      } else if IsDigit(ch) {
        r := ScanNumber(startOffset, startPos);
      } else {
        r := Yield(Err(UnexpectedMessage(ch)));
      }
    }
  }
}
