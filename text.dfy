/**
 * The parts of Rust's `char` and `str` that the scanner relies on.
 *
 * Text is a sequence of Unicode scalar values. Rust stores a `str` as UTF-8,
 * so every offset the scanner keeps is a byte offset: the offset of the
 * character at index `k` of `s` is `ByteLen(s[..k])`.
 */
module Text {
  import opened Wrappers

  /**
   * `char::is_whitespace`: the 25 code points with the Unicode White_Space
   * property. In ASCII these are the space and tab through carriage return,
   * and none of them can start a token, a string or a comment.
   */
  predicate IsWhitespace(c: char)
    ensures c as int < 0x80 ==> (IsWhitespace(c) <==> c == ' ' || '\t' <= c <= '\r')
    ensures IsWhitespace(c) ==> !IsIdentChar(c) && c != '"' && c != '/'
  {
    var n := c as int;
    (0x09 <= n <= 0x0D) || n == 0x20 || n == 0x85 || n == 0xA0 || n == 0x1680 ||
    (0x2000 <= n <= 0x200A) || n == 0x2028 || n == 0x2029 || n == 0x202F ||
    n == 0x205F || n == 0x3000
  }

  /** `char::is_ascii_digit`. */
  predicate IsDigit(c: char) {
    '0' <= c <= '9'
  }

  /** The letters of the dispatch arm `'a'..='z' | 'A'..='Z'`. */
  predicate IsAlpha(c: char) {
    'a' <= c <= 'z' || 'A' <= c <= 'Z'
  }

  /** A character that starts an identifier. */
  predicate IsIdentStart(c: char) {
    IsAlpha(c) || c == '_'
  }

  /** `c.is_ascii_alphanumeric() || c == '_'`. */
  predicate IsIdentChar(c: char) {
    IsAlpha(c) || IsDigit(c) || c == '_'
  }

  predicate AllDigits(w: string) {
    forall k :: 0 <= k < |w| ==> IsDigit(w[k])
  }

  /** `char::len_utf8`: the number of bytes UTF-8 uses for `c`. */
  function Utf8Len(c: char): (n: nat)
    ensures 1 <= n <= 4
    ensures n == 1 <==> c as int < 0x80
  {
    if c as int < 0x80 then 1
    else if c as int < 0x800 then 2
    else if c as int < 0x1_0000 then 3
    else 4
  }

  /** `str::len`: the number of bytes of the UTF-8 encoding of `s`. */
  function ByteLen(s: string): nat {
    if s == [] then 0 else Utf8Len(s[0]) + ByteLen(s[1..])
  }

  /** Every character takes one to four bytes. */
  lemma {:induction false} ByteLenBounds(s: string)
    ensures |s| <= ByteLen(s) <= 4 * |s|
  {
    if s != [] {
      ByteLenBounds(s[1..]);
    }
  }

  lemma {:induction false} ByteLenAppend(a: string, b: string)
    ensures ByteLen(a + b) == ByteLen(a) + ByteLen(b)
  {
    if a == [] {
      assert a + b == b;
    } else {
      assert (a + b)[0] == a[0] && (a + b)[1..] == a[1..] + b;
      ByteLenAppend(a[1..], b);
    }
  }

  /** Text of ASCII characters takes one byte per character. */
  lemma {:induction false} AsciiByteLen(s: string)
    requires forall k :: 0 <= k < |s| ==> s[k] as int < 0x80
    ensures ByteLen(s) == |s|
  {
    if s != [] {
      AsciiByteLen(s[1..]);
    }
  }

  /** The byte offset of index `j` is that of index `i` plus the bytes in between. */
  lemma ByteLenSplit(s: string, i: nat, j: nat)
    requires i <= j <= |s|
    ensures ByteLen(s[..j]) == ByteLen(s[..i]) + ByteLen(s[i..j])
  {
    assert s[..j] == s[..i] + s[i..j];
    ByteLenAppend(s[..i], s[i..j]);
  }

  /** Consuming the character at index `k` adds its UTF-8 length to the byte offset. */
  lemma ByteLenStep(s: string, k: nat)
    requires k < |s|
    ensures ByteLen(s[..k + 1]) == ByteLen(s[..k]) + Utf8Len(s[k])
  {
    ByteLenSplit(s, k, k + 1);
    assert s[k..k + 1] == [s[k]];
  }

  /** Consuming the characters from `i` up to and including a one-byte character at `j`. */
  lemma OffsetPastAscii(s: string, i: nat, j: nat)
    requires i <= j < |s| && Utf8Len(s[j]) == 1
    ensures ByteLen(s[..j + 1]) == ByteLen(s[..i]) + ByteLen(s[i..j]) + 1
  {
    ByteLenSplit(s, i, j);
    ByteLenStep(s, j);
  }

  /** Byte offsets grow strictly with the character index. */
  lemma ByteLenStrict(s: string, i: nat, j: nat)
    requires i < j <= |s|
    ensures ByteLen(s[..i]) < ByteLen(s[..j])
  {
    ByteLenSplit(s, i, j);
  }

  /**
   * The character index at which byte offset `b` falls on a character
   * boundary of `s`, or None when `b` is inside a character or past the end.
   */
  function CharIndex(s: string, b: nat): (r: Option<nat>)
    ensures r.Some? ==> r.value <= |s| && ByteLen(s[..r.value]) == b
  {
    if b == 0 then Some(0)
    else if s == [] || b < Utf8Len(s[0]) then None
    else
      match CharIndex(s[1..], b - Utf8Len(s[0]))
      case None => None
      case Some(k) =>
        assert s[..k + 1] == [s[0]] + s[1..][..k];
        ByteLenAppend([s[0]], s[1..][..k]);
        Some(k + 1)
  }

  /** Every character index is a boundary, and CharIndex finds it. */
  lemma {:induction false} CharIndexAt(s: string, k: nat)
    requires k <= |s|
    ensures CharIndex(s, ByteLen(s[..k])) == Some(k)
  {
    if k > 0 {
      assert s[..k] == [s[0]] + s[1..][..k - 1];
      ByteLenAppend([s[0]], s[1..][..k - 1]);
      CharIndexAt(s[1..], k - 1);
    }
  }

  /** A byte offset strictly inside the encoding of a character is no boundary. */
  lemma {:induction false} CharIndexInside(s: string, k: nat, d: nat)
    requires k < |s| && 0 < d < Utf8Len(s[k])
    ensures CharIndex(s, ByteLen(s[..k]) + d) == None
  {
    if k > 0 {
      assert s[..k] == [s[0]] + s[1..][..k - 1];
      ByteLenAppend([s[0]], s[1..][..k - 1]);
      CharIndexInside(s[1..], k - 1, d);
    }
  }

  /**
   * `&s[lo..hi]` on byte offsets: None where Rust panics, that is when
   * `lo > hi` or either offset is not a character boundary of `s`.
   */
  function Slice(s: string, lo: nat, hi: nat): (r: Option<string>)
    ensures r.Some? ==> lo <= hi && ByteLen(r.value) == hi - lo
  {
    match (CharIndex(s, lo), CharIndex(s, hi))
    case (Some(i), Some(j)) =>
      if i <= j then ByteLenSplit(s, i, j); Some(s[i..j]) else None
    case _ => None
  }

  /** Slicing between two character boundaries gives the characters between them. */
  lemma SliceAt(s: string, i: nat, j: nat, lo: nat, hi: nat)
    requires i <= j <= |s| && lo == ByteLen(s[..i]) && hi == ByteLen(s[..j])
    ensures Slice(s, lo, hi) == Some(s[i..j])
  {
    CharIndexAt(s, i);
    CharIndexAt(s, j);
  }

  /**
   * `str::find(c)` on the suffix `s[from..]`, as a character index into `s`
   * (the byte position Rust returns is `ByteLen(s[from..r])`).
   */
  function FindChar(s: string, from: nat, c: char): (r: Option<nat>)
    requires from <= |s|
    ensures r.Some? ==> from <= r.value < |s| && s[r.value] == c
    ensures r.Some? ==> forall k :: from <= k < r.value ==> s[k] != c
    ensures r.None? ==> forall k :: from <= k < |s| ==> s[k] != c
    decreases |s| - from
  {
    if from == |s| then None
    else if s[from] == c then Some(from)
    else FindChar(s, from + 1, c)
  }
}
