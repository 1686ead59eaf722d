/**
 * Character and string helpers shared by the server schema and the client
 * filters: the regex word class, ASCII case folding (`toLowerCase` restricted
 * to ASCII), substring search (`String.prototype.includes`) and the
 * whitespace trimming of `String.prototype.trim`.
 */
module Text {

  datatype Option<+T> = None | Some(value: T) {
    /** JavaScript's `x || fallback` for a value that is falsy only when missing. */
    function GetOr(default: T): T {
      match this
      case Some(v) => v
      case None => default
    }
  }

  /** The regex class `\w`: ASCII letters, digits and underscore. */
  predicate IsWordChar(c: char) {
    ('a' <= c <= 'z') || ('A' <= c <= 'Z') || ('0' <= c <= '9') || c == '_'
  }

  predicate IsAsciiUpper(c: char) {
    'A' <= c <= 'Z'
  }

  function LowerChar(c: char): (r: char)
    ensures !IsAsciiUpper(r)
    ensures !IsAsciiUpper(c) ==> r == c
  {
    if IsAsciiUpper(c) then (c as int + 32) as char else c
  }

  /** `s.toLowerCase()` on the ASCII range; every other character is kept. */
  function ToLower(s: string): (r: string)
    ensures |r| == |s|
    ensures forall i :: 0 <= i < |s| ==> r[i] == LowerChar(s[i])
  {
    seq(|s|, i requires 0 <= i < |s| => LowerChar(s[i]))
  }

  lemma ToLowerIdempotent(s: string)
    ensures ToLower(ToLower(s)) == ToLower(s)
  {
  }

  /** `sub` occurs in `s` starting at position `i`. */
  predicate OccursAt(s: string, sub: string, i: int) {
    0 <= i && i + |sub| <= |s| && s[i..i + |sub|] == sub
  }

  /** `s.includes(sub)`: `sub` occurs in `s` at some position. */
  predicate Includes(s: string, sub: string) {
    exists i :: 0 <= i <= |s| - |sub| && OccursAt(s, sub, i)
  }

  lemma IncludesEmpty(s: string)
    ensures Includes(s, "")
  {
    assert OccursAt(s, "", 0);
  }

  /** The case-insensitive search the list pages use: `a.toLowerCase().includes(b.toLowerCase())`. */
  predicate IncludesIgnoreCase(s: string, term: string) {
    Includes(ToLower(s), ToLower(term))
  }

  lemma IncludesIgnoreCaseEmpty(s: string)
    ensures IncludesIgnoreCase(s, "")
  {
    IncludesEmpty(ToLower(s));
  }

  /**
   * The characters `String.prototype.trim` removes: the ECMAScript
   * WhiteSpace (tab, vertical tab, form feed, space, no-break space, byte
   * order mark and the Unicode space separators) and LineTerminator
   * (line feed, carriage return, line and paragraph separator) classes.
   */
  predicate IsSpace(c: char) {
    || c == '\t' || c == '\n' || c == '\U{0B}' || c == '\U{0C}' || c == '\r' || c == ' '
    || c == '\U{A0}' || c == '\U{1680}' || ('\U{2000}' <= c <= '\U{200A}')
    || c == '\U{2028}' || c == '\U{2029}' || c == '\U{202F}' || c == '\U{205F}'
    || c == '\U{3000}' || c == '\U{FEFF}'
  }

  function TrimStart(s: string): (r: string)
    ensures |r| <= |s| && r == s[|s| - |r|..]
    ensures forall i :: 0 <= i < |s| - |r| ==> IsSpace(s[i])
    ensures r == [] || !IsSpace(r[0])
  {
    if s != [] && IsSpace(s[0]) then TrimStart(s[1..]) else s
  }

  function TrimEnd(s: string): (r: string)
    ensures |r| <= |s| && r == s[..|r|]
    ensures forall i :: |r| <= i < |s| ==> IsSpace(s[i])
    ensures r == [] || !IsSpace(r[|r| - 1])
  {
    if s != [] && IsSpace(s[|s| - 1]) then TrimEnd(s[..|s| - 1]) else s
  }

  /** `r` is the slice of `s` at `i` and everything of `s` around it is whitespace. */
  predicate SpaceAround(s: string, r: string, i: int) {
    && OccursAt(s, r, i)
    && (forall k :: 0 <= k < i ==> IsSpace(s[k]))
    && (forall k :: i + |r| <= k < |s| ==> IsSpace(s[k]))
  }

  /** Neither starts nor ends with whitespace. */
  predicate IsTrimmed(s: string) {
    s == [] || (!IsSpace(s[0]) && !IsSpace(s[|s| - 1]))
  }

  /** Trimming the front and then the back leaves a slice of `s` with only whitespace around it. */
  lemma {:induction false} TrimSlice(s: string)
    ensures SpaceAround(s, TrimEnd(TrimStart(s)), |s| - |TrimStart(s)|)
  {
    var t := TrimStart(s);
    var r := TrimEnd(t);
    var i := |s| - |t|;
    SliceOfSuffix(s, t, r, i);
    forall k | i + |r| <= k < |s|
      ensures IsSpace(s[k])
    {
      assert s[k] == t[k - i];
    }
  }

  /** A prefix of the suffix of `s` at `i` is the slice of `s` at `i`. */
  lemma SliceOfSuffix(s: string, t: string, r: string, i: nat)
    requires i <= |s| && t == s[i..] && |r| <= |t| && r == t[..|r|]
    ensures OccursAt(s, r, i)
    ensures forall k :: 0 <= k < |t| ==> t[k] == s[i + k]
  {
  }

  /** `s.trim()`: the longest middle slice of `s` that neither starts nor ends with whitespace. */
  function Trim(s: string): (r: string)
    ensures IsTrimmed(r)
    ensures exists i :: 0 <= i <= |s| - |r| && SpaceAround(s, r, i)
  {
    TrimSlice(s);
    TrimEnd(TrimStart(s))
  }

  /** Trimming a string that is already trimmed changes nothing. */
  lemma TrimmedFixed(s: string)
    requires IsTrimmed(s)
    ensures Trim(s) == s
  {
    assert TrimStart(s) == s;
    assert TrimEnd(s) == s;
  }

  /** Trimming is idempotent. */
  lemma TrimIdempotent(s: string)
    ensures Trim(Trim(s)) == Trim(s)
  {
    TrimmedFixed(Trim(s));
  }

  /** The UTF-16 code units a character takes: two above U+FFFF, one otherwise. */
  function CodeUnits(c: char): nat {
    if c as int > 0xFFFF then 2 else 1
  }

  /**
   * JavaScript's `s.length`, which the schema's `maxlength`, the `maxLength`
   * of an input and the pages' character counts all use: the number of
   * UTF-16 code units of `s`.
   */
  function Utf16Length(s: string): (n: nat)
    ensures |s| <= n <= 2 * |s|
    ensures n == 0 <==> s == []
  {
    if s == [] then 0 else CodeUnits(s[0]) + Utf16Length(s[1..])
  }

  /** A text in the Basic Multilingual Plane is as long in code units as in characters. */
  lemma {:induction false} BmpLength(s: string)
    requires forall i :: 0 <= i < |s| ==> s[i] as int <= 0xFFFF
    ensures Utf16Length(s) == |s|
  {
    if s != [] {
      assert forall i :: 0 <= i < |s[1..]| ==> s[1..][i] == s[i + 1];
      BmpLength(s[1..]);
    }
  }

  /** A text made only of characters above U+FFFF is twice as long in code units. */
  lemma {:induction false} AstralLength(s: string)
    requires forall i :: 0 <= i < |s| ==> s[i] as int > 0xFFFF
    ensures Utf16Length(s) == 2 * |s|
  {
    if s != [] {
      assert forall i :: 0 <= i < |s[1..]| ==> s[1..][i] == s[i + 1];
      AstralLength(s[1..]);
    }
  }
}
