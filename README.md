# rlox scanner, modelled in Dafny

This project models the scanner of rlox, a Rust implementation of the Lox
language front end. The scanner turns source text into a lazy sequence of
tokens. Each call of `next` yields one of three things:
- a token: its kind, its lexeme and the byte offset where it starts;
- an error message;
- `None`, once EOF has been emitted.

The model has two layers:

- **Spec layer.** `LexSpec` describes one call of `next` as the pure function `Step`, on a character index into the text. Rust slices text by byte offsets, so the model encodes text as UTF-8 exactly (module `Text`):
  - `Utf8Len` gives the byte length of one code point.
  - `ByteLen` gives the byte length of a text.
  - `CharIndex` maps a byte offset back to a character boundary.
  - `Slice` is Rust's `&s[lo..hi]`; it returns `None` where Rust panics.
- **Class layer.** `Scanning.Scanner` is the Rust struct as a class with fields `pos` and `byteOffset`:
  - `pos` marks where the unread suffix `rest` starts.
  - `byteOffset` is the byte offset of `pos`.
  - Its methods change these fields step by step, as the Rust methods do.
  - The object invariant `Valid` ties `byteOffset` to the UTF-8 offset of `pos`.
  - `Next` is proved to do exactly what `Step` says.

The properties of the scanner are proved about `Step`, `Dispatch` and `Run` in module `Properties`. `Run` is the whole sequence of outcomes from a state.

The model follows the code as written. Four behaviours of the code are worth knowing:

- **String lexeme.** `scan_string_literal` starts the content slice at the current byte offset plus one. The comment at src/scanner.rs:113 says the `+ 1` skips the opening quote, but `next` has already consumed that quote. So the lexeme starts one byte after the first character between the quotes, and `"ab"` scans as the lexeme `b` (`StringExample`, `StringLexemeDropsFirst`).
- **String panics.** The same slice panics when the literal is empty (`""`): its start then lies one byte past its end. It also panics when the first character between the quotes takes more than one byte: its start then lies inside that character. The model has the outcome `Panic` for both (`EmptyStringExample`, `StringPanics`).
- **Unterminated string.** When no closing quote follows, `scan_string_literal` returns the error without moving `rest`. Only the opening quote is consumed, so the next call scans the rest of the text as code (`Unterminated`, `DispatchErrors`).
- **Comments.** A comment moves `rest` past its newline and then on to the end of the following line. So that line is skipped as well (`CommentExample`).

`Next` in the source tests `eof_emitted` a second time (lines 192-194), just after the same test returned `None`. That branch can never run, and the model leaves it out.

## Model

| member | source | states |
|---|---|---|
| Token.NewToken | src/token.rs:61-68 | the token holds exactly the kind, lexeme and offset it was given |
| Token.KindName | src/token.rs:71-123 | every kind's printed name is non-empty and contains no space |
| Token.KindNameInverse | src/token.rs:71-123 | each name reads back as its kind, and NUMBER as no other kind |
| Token.NameDeterminesKind | src/token.rs:71-123 | distinct kinds print under distinct names (numbers differ only in value) |
| Token.Display | src/token.rs:71-123 | the line is the kind's name, one space, then the lexeme, and its first space ends the name |
| Token.DisplayReadBack | src/token.rs:71-123 | a displayed token reads back as its kind and lexeme: name, one space, lexeme |
| Token.ParseNumber | src/scanner.rs:139-142 | the lexeme parses exactly when it is digits, optionally `.` and digits, and the value prints back as the lexeme |
| Token.DecimalRoundTrip | src/scanner.rs:139-142 | parsing the printed form of a number value gives the value back |
| Text.IsWhitespace | src/scanner.rs:55 | within ASCII, whitespace is the space and tab through carriage return, and no whitespace character starts an identifier, a string or a comment |
| Text.ByteLenBounds | src/scanner.rs:64 | the byte length `str::len` gives lies between the text's character count and four times that count |
| Text.Utf8Len | src/scanner.rs:36-41 | a character advances the byte offset by 1 to 4 bytes, and by 1 exactly for ASCII |
| Text.Slice | src/scanner.rs:84 | a slice Rust accepts has start at most end and holds as many bytes as the bounds span |
| Text.SliceAt | src/scanner.rs:84 | slicing between the byte offsets of two character indices gives the characters between them |
| Text.CharIndexInside | src/scanner.rs:115 | a byte offset inside a multi-byte character is no boundary, so a slice there panics |
| Text.FindChar | src/scanner.rs:59 | `find` returns the first occurrence after the start, and None only when there is none |
| LexSpec.KeywordKind | src/scanner.rs:158-178 | the lookup gives only keyword kinds |
| LexSpec.KeywordWord | src/scanner.rs:158-178 | each keyword kind's reserved word looks up to that kind |
| LexSpec.KeywordTable | src/scanner.rs:158-178 | a lexeme is a keyword iff it equals that keyword's word, and the kind prints as the word in upper case |
| LexSpec.KeywordSpelling | src/token.rs:103-118 | every keyword kind's name is its reserved word in upper case |
| LexSpec.SingleCharKind | src/scanner.rs:202-212 | exactly the eleven characters `(){},.-+;*/` are one-character tokens; none of them starts an operator, a string, an identifier or whitespace, and their kinds are punctuation kinds |
| LexSpec.OperatorKind | src/scanner.rs:213-247 | an operator's kind is a two-character kind iff `=` follows, and it prints as the operator's name with `_EQUAL` appended exactly then |
| LexSpec.SkipTrivia | src/scanner.rs:52-75 | after skipping, `rest` is empty or starts with neither whitespace nor `//` |
| LexSpec.PastNewline | src/scanner.rs:59-66 | a comment jumps just past the first newline after it, or to the end when there is none |
| LexSpec.LineEnd | src/scanner.rs:68-70 | the loop after a comment stops at the first newline or at the end |
| LexSpec.DigitsEnd | src/scanner.rs:89-97 | the digit run consumed is the longest one |
| LexSpec.IdentEnd | src/scanner.rs:99-107 | the identifier run consumed is the longest one |
| LexSpec.NumberEnd | src/scanner.rs:126-136 | a number's span is a number lexeme and is followed by no digit |
| LexSpec.EmptyContentSlice | src/scanner.rs:112-115 | the content slice of `""` starts past its end, so Rust panics |
| LexSpec.NarrowContentSlice | src/scanner.rs:112-115 | with a one-byte first character, the content slice is the content without that character |
| LexSpec.WideContentSlice | src/scanner.rs:112-115 | with a multi-byte first character, the content slice starts inside it, so Rust panics |
| LexSpec.StringStep | src/scanner.rs:111-124 | a string literal always consumes at least its opening quote and stays within the text |
| LexSpec.IdentStep | src/scanner.rs:151-156 | `scan_ident` consumes the longest run of identifier characters and yields it, at its offset, as a keyword or an identifier |
| LexSpec.NumberStep | src/scanner.rs:126-149 | `scan_number` always yields a token; its lexeme is a number lexeme starting at the digit, and its value prints back as the lexeme |
| LexSpec.Dispatch | src/scanner.rs:200-253 | dispatch consumes at least one character and stays within the text |
| LexSpec.Step | src/scanner.rs:184-254 | `next` signals the end exactly when EOF was already emitted, and otherwise strictly reduces what is left to scan |
| LexSpec.Run | src/scanner.rs:184-254 | repeated calls of `next`: the run is empty iff EOF was already emitted, is no longer than what is left to scan, never holds `None`, and holds a panic only as its last outcome |
| Scanning.Scanner.constructor | src/scanner.rs:12-19 | the scanner starts at offset 0 with the whole text unread and no EOF emitted |
| Scanning.Scanner.Peek | src/scanner.rs:24-26 | `peek` gives the first unread character, and None exactly when nothing is left |
| Scanning.Scanner.PeekNext | src/scanner.rs:29-33 | `peek_next` gives the second unread character, and None exactly when fewer than two are left |
| Scanning.Scanner.Advance | src/scanner.rs:36-41 | `advance` consumes the peeked character and adds its UTF-8 length to the offset, keeping the offset invariant |
| Scanning.Scanner.Matches | src/scanner.rs:44-50 | `matches` consumes one character exactly when it is the expected one |
| Scanning.Scanner.SkipWhitespace | src/scanner.rs:52-75 | the loop stops where `SkipTrivia` says and keeps the offset invariant |
| Scanning.Scanner.JumpPastNewline | src/scanner.rs:59-66 | the comment's jump lands where `PastNewline` says, with the offset moved by the bytes skipped |
| Scanning.Scanner.SkipToNewline | src/scanner.rs:68-70 | the loop stops where `LineEnd` says |
| Scanning.Scanner.MakeToken | src/scanner.rs:77-87 | the token's lexeme is the text consumed since its start offset; the slice never panics here |
| Scanning.Scanner.ConsumeDigits | src/scanner.rs:89-97 | the loop stops where `DigitsEnd` says |
| Scanning.Scanner.ConsumeIdent | src/scanner.rs:99-107 | the loop stops where `IdentEnd` says |
| Scanning.Scanner.ContentSlice | src/scanner.rs:113-115 | the content slice panics iff the literal is empty or its first character is multi-byte, and otherwise drops that character |
| Scanning.Scanner.ScanStringLiteral | src/scanner.rs:111-124 | the new position and outcome are those of `StringStep` |
| Scanning.Scanner.ScanNumber | src/scanner.rs:126-149 | the number ends where `NumberEnd` says, its lexeme is the consumed text and its value parses from it |
| Scanning.Scanner.ScanIdent | src/scanner.rs:151-156 | the identifier ends where `IdentEnd` says, and its kind is the keyword lookup or `Identifier` |
| Scanning.Scanner.Next | src/scanner.rs:184-254 | one call of `next` yields and moves to exactly what `Step` gives |
| Properties.DispatchToken | src/scanner.rs:199-253 | each token starts at the byte offset of its first character and is never EOF; only a string panics |
| Properties.DispatchLexeme | src/scanner.rs:77-87 | a non-string lexeme is the non-empty text consumed; a string's lexeme is the text between the quotes minus its first character |
| Properties.DispatchErrors | src/scanner.rs:249-252 | an error consumes exactly one character, and it is "Unterminated string" iff that character is a quote |
| Properties.OperatorDispatch | src/scanner.rs:213-247 | an operator takes its two-character kind iff `=` follows; its kind is `OperatorKind` of its first character and prints as that operator's name, with `_EQUAL` appended when `=` follows; its lexeme is the one or two characters consumed |
| Properties.PunctuationDispatch | src/scanner.rs:202-212 | a punctuation character is consumed alone and yields its own kind, with itself as the lexeme, at its offset |
| Properties.IdentDispatch | src/scanner.rs:151-178 | maximal munch over identifier characters; a keyword kind iff the lexeme is a reserved word, and otherwise `Identifier` |
| Properties.NumberDispatch | src/scanner.rs:126-149 | the number is the longest number lexeme at its start, and its value prints back as the lexeme |
| Properties.NumberLongest | src/scanner.rs:129-136 | no longer span at a number's start is a number lexeme |
| Properties.StringLexemeDropsFirst | src/scanner.rs:112-120 | a scanned string moves past its closing quote, and its lexeme is the content without its first character |
| Properties.StringPanics | src/scanner.rs:112-115 | the string slice panics iff a closing quote exists and the literal is empty or starts with a multi-byte character |
| Properties.Unterminated | src/scanner.rs:121-123 | with no closing quote only the opening quote is consumed and the error is "Unterminated string" |
| Properties.WhitespaceOnly | src/scanner.rs:55-57 | whitespace up to the end of the text is skipped entirely |
| Properties.CommentOnly | src/scanner.rs:58-70 | a comment with no newline after it runs to the end of the text |
| Properties.TriviaOnlyRun | src/scanner.rs:184-197 | from a point after which the text is all whitespace and comments, the run is EOF alone, at the text's byte length |
| Properties.RunYields | src/scanner.rs:184-254 | a call that yields a token puts that token in front of the run from where the call stopped |
| Properties.ScansRun | src/scanner.rs:184-254 | calls that each yield a token, followed by only whitespace and comments, make a run of those tokens and then EOF |
| Properties.StringYields | src/scanner.rs:111-120 | a call that reaches a string literal whose slice Rust accepts yields it, with the lexeme from the second content character on, and moves past the closing quote |
| Properties.RunEndsWithEof | src/scanner.rs:184-197 | a run without a panic ends with one EOF token, with an empty lexeme at the text's byte length, and has no EOF before it |
| Properties.RunTokensWithin | src/scanner.rs:184-254 | every token of a run lies between the run's starting offset and the end of the text |
| Properties.RunOffsetsIncrease | src/scanner.rs:184-254 | the offsets of the tokens of a run strictly increase |
| Properties.OffsetsIncreaseCons | src/scanner.rs:184-254 | a token ahead of later tokens with greater offsets keeps the offsets increasing |
| Properties.DoneForever | src/scanner.rs:187-189 | once EOF was emitted, every later call returns `None` |
| Properties.StringExample | src/scanner.rs:111-120 | `"ab"` scans as a string token with lexeme `b` |
| Properties.EmptyStringExample | src/scanner.rs:111-115 | `""` panics |
| Properties.CommentExample | src/scanner.rs:52-75 | after `//c`, the line `foo` is skipped too, and scanning resumes at `1` |
| Properties.TrailingDotRun | src/scanner.rs:358-363 | `123.` scans as Number 123, Dot and EOF: the number stops before a dot no digit follows |
| Properties.MethodCallRun | src/scanner.rs:365-375 | `123.toString` scans as Number 123, Dot, the identifier `toString` and EOF |
| Properties.StandardFloatRun | src/scanner.rs:377-382 | `123.456` scans as one Number and EOF |
| Properties.NumbersRun | src/scanner.rs:333-343 | `123 123.456` scans as two Numbers and EOF |
| Properties.KeywordsRun | src/scanner.rs:345-356 | `and if else` scans as And, If, Else and EOF |
| Properties.WhitespaceExample | src/scanner.rs:309-315 | spaces, a tab and line breaks scan as EOF alone |
| Properties.CommentOnlyExample | src/scanner.rs:317-323 | a comment alone scans as EOF alone |
| Properties.EofDisplay | src/token.rs:120 | EOF displays as its name followed by one space, whatever its offset |

## Left out

- The 64-bit float of a number literal is not modelled. A number's value is `Decimal`, the digit strings before and after the dot. `ParseNumber` accepts every span `NumberEnd` produces: digits, optionally followed by `.` and digits. Rust's `str::parse::<f64>` also accepts every such string; a value too large for `f64` becomes infinity, not an error. So the "Invalid number literal" branch of `scan_number` (lines 139-142) is never taken, and the model does not carry it.
- Token.Display: it stops after the lexeme. For a number, the source also prints a space and the float's decimal rendering, and float formatting is not modelled.
- A panic is the outcome `Panic`, without Rust's panic message. A run stops at it.
- The second `eof_emitted` test in `next` (lines 192-194) is never reached, and the model leaves it out. The same holds for the `?` on `advance` at line 201: a character is always left at that point.
- The comment arm of `skip_whitespace` is split into two helper methods, `JumpPastNewline` and `SkipToNewline`. This only keeps each proof small.
- Lifetimes and borrowed lexemes are not modelled: a lexeme is a copy of the text it came from.
- The `Iterator` trait plumbing is left out: `Next` is the method that `Iterator::next` is. The test helper `scan_to_list` is left out too.
- Seven of the scanner's tests have a lemma that states the whole run of their input:
  - `test_ignore_whitespace`: `WhitespaceExample`.
  - `test_comments`: `CommentOnlyExample`.
  - `test_number`: `NumbersRun`.
  - `test_ident`: `KeywordsRun`.
  - `test_number_with_trailing_dot`: `TrailingDotRun`.
  - `test_number_method_call`: `MethodCallRun`.
  - `test_standard_float`: `StandardFloatRun`.
- Three tests have no whole-run lemma, because proving a run over their longer inputs costs more than the verifier's resource limit:
  - `test_single_char_tokens`: each of its steps is stated for every input by `PunctuationDispatch`.
  - `test_multi_char_operators`: each of its steps is stated for every input by `OperatorDispatch`.
  - `test_string_literals`: each of its steps is stated by `StringYields` and `StringLexemeDropsFirst`.
  - `RunYields` and `ScansRun` chain such steps into a run.
- `src/main.rs` and `src/lib.rs` are not part of this model. They hold file and prompt I/O, the REPL loop, and printing.
- `char::is_whitespace` is modelled by its table of the 25 Unicode White_Space code points.
