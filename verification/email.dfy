/**
 * The contact-address rule of the job schema: the regular expression
 *
 *     ^\w+([\.-]?\w+)*@\w+([\.-]?\w+)*(\.\w{2,3})+$
 *
 * read twice. `PatternMatches` follows the expression's grammar piece by
 * piece (the reference); `MatchesEmail` is a hand-written recogniser that
 * splits at the '@' and checks each side by character classes. The two are
 * proved to accept exactly the same strings.
 */
module EmailPattern {
  import opened Text

  /** The class `[\.-]`. */
  predicate IsSep(c: char) {
    c == '.' || c == '-'
  }

  // ---------------------------------------------------------------------
  // Reference: the regex as a grammar
  // ---------------------------------------------------------------------

  /** `\w+` */
  ghost predicate Word(s: string) {
    |s| > 0 && forall i :: 0 <= i < |s| ==> IsWordChar(s[i])
  }

  /** `[\.-]?\w+` */
  ghost predicate Piece(s: string) {
    Word(s) || (|s| > 1 && IsSep(s[0]) && Word(s[1..]))
  }

  /** `([\.-]?\w+)*` */
  ghost predicate Pieces(s: string)
    decreases |s|, 1
  {
    s == [] || exists p :: PiecesAt(s, p)
  }

  /** `s` is one `[\.-]?\w+` of length `p` followed by `([\.-]?\w+)*`. */
  ghost predicate PiecesAt(s: string, p: int)
    decreases |s|, 0
  {
    0 < p <= |s| && Piece(s[..p]) && Pieces(s[p..])
  }

  /** `s` is `\w+` of length `p` followed by `([\.-]?\w+)*`. */
  ghost predicate NameAt(s: string, p: int) {
    0 < p <= |s| && Word(s[..p]) && Pieces(s[p..])
  }

  /** `\w+([\.-]?\w+)*`, the shape of the local part and of the start of the domain. */
  ghost predicate Name(s: string) {
    exists p :: NameAt(s, p)
  }

  /** `\.\w{2,3}` */
  ghost predicate Suffix(s: string) {
    (|s| == 3 || |s| == 4) && s[0] == '.' && Word(s[1..])
  }

  /** `(\.\w{2,3})+` */
  ghost predicate Suffixes(s: string)
    decreases |s|, 1
  {
    exists p :: SuffixesAt(s, p)
  }

  /** `s` is one `\.\w{2,3}` of length `p` followed by `(\.\w{2,3})*`. */
  ghost predicate SuffixesAt(s: string, p: int)
    decreases |s|, 0
  {
    0 < p <= |s| && Suffix(s[..p]) && (p == |s| || Suffixes(s[p..]))
  }

  /** The three parts of the pattern around the '@' at `i`, the domain name ending at `j`. */
  ghost predicate SplitMatches(s: string, i: int, j: int) {
    0 <= i < j <= |s| && Name(s[..i]) && s[i] == '@' && Name(s[i + 1..j]) && Suffixes(s[j..])
  }

  /** The whole anchored pattern `^...$` accepts `s`. */
  ghost predicate PatternMatches(s: string) {
    exists i, j :: SplitMatches(s, i, j)
  }

  // ---------------------------------------------------------------------
  // Recogniser
  // ---------------------------------------------------------------------

  /** Word characters separated by single '.' or '-', beginning and ending with a word character. */
  predicate Dotted(s: string) {
    && |s| > 0 && IsWordChar(s[0]) && IsWordChar(s[|s| - 1])
    && (forall i :: 0 <= i < |s| ==> IsWordChar(s[i]) || IsSep(s[i]))
    && (forall i :: 0 < i < |s| ==> IsSep(s[i]) ==> IsWordChar(s[i - 1]))
  }

  /** `s` ends with '.' followed by exactly `n` word characters. */
  predicate EndsWithLabel(s: string, n: int) {
    0 <= n < |s| && s[|s| - n - 1] == '.' && forall i :: |s| - n <= i < |s| ==> IsWordChar(s[i])
  }

  /** The part after the '@': dotted, its last label two or three word characters after a '.'. */
  predicate DomainOk(d: string) {
    Dotted(d) && (EndsWithLabel(d, 2) || EndsWithLabel(d, 3))
  }

  /** Index of the first occurrence of `c` in `s`. */
  function Find(s: string, c: char): (r: Option<nat>)
    ensures r.None? ==> forall k :: 0 <= k < |s| ==> s[k] != c
    ensures r.Some? ==> r.value < |s| && s[r.value] == c && forall k :: 0 <= k < r.value ==> s[k] != c
  {
    if s == [] then None
    else if s[0] == c then Some(0)
    else match Find(s[1..], c)
      case None => None
      case Some(k) => Some(k + 1)
  }

  /** The recogniser: split at the first '@', then check each side. */
  predicate MatchesEmail(s: string) {
    match Find(s, '@')
    case None => false
    case Some(i) => Dotted(s[..i]) && DomainOk(s[i + 1..])
  }

  // ---------------------------------------------------------------------
  // The recogniser and the pattern agree
  // ---------------------------------------------------------------------

  /** What `([\.-]?\w+)*` accepts, stated by character classes. */
  predicate PiecesShape(s: string) {
    s == [] || Dotted(s) || (|s| > 1 && IsSep(s[0]) && Dotted(s[1..]))
  }

  lemma WordDotted(w: string)
    requires Word(w)
    ensures Dotted(w)
  {
  }

  /** Gluing a word in front of a dotted name, directly or with one separator between. */
  lemma WordThenDotted(w: string, t: string)
    requires Word(w) && Dotted(t)
    ensures Dotted(w + t)
  {
    var s := w + t;
    forall i | 0 < i < |s| && IsSep(s[i])
      ensures IsWordChar(s[i - 1])
    {
      assert i > |w|;
      assert s[i] == t[i - |w|];
    }
  }

  lemma WordSepDotted(w: string, c: char, t: string)
    requires Word(w) && IsSep(c) && Dotted(t)
    ensures Dotted(w + [c] + t)
  {
    var s := w + [c] + t;
    forall i | 0 < i < |s| && IsSep(s[i])
      ensures IsWordChar(s[i - 1])
    {
      if i == |w| {
      } else {
        assert i > |w| + 1;
        assert s[i] == t[i - |w| - 1];
      }
    }
  }

  /** Two dotted names joined by a '.' form one dotted name. */
  lemma DottedDotDotted(a: string, t: string)
    requires Dotted(a) && Dotted(t)
    ensures Dotted(a + ['.'] + t)
  {
    var s := a + ['.'] + t;
    forall i | 0 < i < |s| && IsSep(s[i])
      ensures IsWordChar(s[i - 1])
    {
      if i < |a| {
        assert s[i] == a[i];
      } else if i == |a| {
      } else {
        assert i > |a| + 1;
        assert s[i] == t[i - |a| - 1];
      }
    }
  }

  /** A word followed by what `([\.-]?\w+)*` accepts is a dotted name. */
  lemma GlueShape(w: string, rest: string)
    requires Word(w) && PiecesShape(rest)
    ensures Dotted(w + rest)
  {
    if rest == [] {
      assert w + rest == w;
    } else if Dotted(rest) {
      WordThenDotted(w, rest);
    } else {
      assert rest == [rest[0]] + rest[1..];
      assert w + rest == w + [rest[0]] + rest[1..];
      WordSepDotted(w, rest[0], rest[1..]);
    }
  }

  /** Dropping the first character of a dotted name leaves something `([\.-]?\w+)*` accepts. */
  lemma DottedTail(t: string)
    requires Dotted(t)
    ensures PiecesShape(t[1..])
  {
    if |t| > 1 && IsSep(t[1]) {
      assert |t| > 2 by {
        assert IsWordChar(t[|t| - 1]);
      }
      assert !IsWordChar(t[1]);
      assert IsWordChar(t[2]);
      assert t[1..][1..] == t[2..];
    }
  }

  lemma {:induction false} PiecesToShape(s: string)
    requires Pieces(s)
    ensures PiecesShape(s)
    decreases |s|
  {
    if s != [] {
      var p :| PiecesAt(s, p);
      var head, rest := s[..p], s[p..];
      PiecesToShape(rest);
      if Word(head) {
        assert s == head + rest;
        GlueShape(head, rest);
      } else {
        assert s[1..] == head[1..] + rest;
        GlueShape(head[1..], rest);
      }
    }
  }

  lemma {:induction false} ShapeToPieces(s: string)
    requires PiecesShape(s)
    ensures Pieces(s)
    decreases |s|
  {
    if s == [] {
    } else if Dotted(s) {
      assert Word(s[..1]);
      DottedTail(s);
      ShapeToPieces(s[1..]);
      assert PiecesAt(s, 1);
    } else {
      var t := s[1..];
      assert Word(s[..2][1..]);
      assert s[2..] == t[1..];
      DottedTail(t);
      ShapeToPieces(s[2..]);
      assert PiecesAt(s, 2);
    }
  }

  lemma NameToDotted(s: string)
    requires Name(s)
    ensures Dotted(s)
  {
    var p :| NameAt(s, p);
    var w, rest := s[..p], s[p..];
    assert s == w + rest;
    PiecesToShape(rest);
    GlueShape(w, rest);
  }

  lemma DottedToName(s: string)
    requires Dotted(s)
    ensures Name(s)
  {
    assert Word(s[..1]);
    DottedTail(s);
    ShapeToPieces(s[1..]);
    assert NameAt(s, 1);
  }

  /** `(\.\w{2,3})+` accepts only a '.' followed by a dotted name whose last label has two or three characters. */
  lemma {:induction false} SuffixesShape(b: string)
    requires Suffixes(b)
    ensures |b| > 1 && b[0] == '.' && Dotted(b[1..])
    ensures EndsWithLabel(b, 2) || EndsWithLabel(b, 3)
    decreases |b|
  {
    var p :| SuffixesAt(b, p);
    var head := b[..p];
    WordDotted(head[1..]);
    if p == |b| {
      assert head == b;
      if |b| == 3 { assert EndsWithLabel(b, 2); } else { assert EndsWithLabel(b, 3); }
    } else {
      var rest := b[p..];
      SuffixesShape(rest);
      assert b[1..] == head[1..] + ['.'] + rest[1..];
      DottedDotDotted(head[1..], rest[1..]);
      assert EndsWithLabel(rest, 2) ==> EndsWithLabel(b, 2);
      assert EndsWithLabel(rest, 3) ==> EndsWithLabel(b, 3);
    }
  }

  /** The domain side: a name followed by `(\.\w{2,3})+` is what `DomainOk` accepts. */
  lemma DomainSplit(a: string, b: string)
    requires Name(a) && Suffixes(b)
    ensures DomainOk(a + b)
  {
    NameToDotted(a);
    SuffixesShape(b);
    assert a + b == a + ['.'] + b[1..];
    DottedDotDotted(a, b[1..]);
    assert EndsWithLabel(b, 2) ==> EndsWithLabel(a + b, 2);
    assert EndsWithLabel(b, 3) ==> EndsWithLabel(a + b, 3);
  }

  /** ... and every domain `DomainOk` accepts splits that way, just before its last '.'. */
  lemma DomainJoin(d: string) returns (j: nat)
    requires DomainOk(d)
    ensures 0 < j < |d| && Name(d[..j]) && Suffixes(d[j..])
  {
    var n := if EndsWithLabel(d, 2) then 2 else 3;
    j := |d| - n - 1;
    assert IsWordChar(d[0]) && d[j] == '.';
    var a := d[..j];
    assert IsWordChar(a[|a| - 1]) by {
      assert IsSep(d[j]);
    }
    assert Dotted(a) by {
      forall i | 0 < i < |a| && IsSep(a[i])
        ensures IsWordChar(a[i - 1])
      {
        assert a[i] == d[i] && a[i - 1] == d[i - 1];
      }
    }
    DottedToName(a);
    var b := d[j..];
    assert Suffix(b[..|b|]);
    assert SuffixesAt(b, |b|);
  }

  /** The recogniser accepts exactly the strings the regular expression accepts. */
  lemma MatchesEmailIsPattern(s: string)
    ensures MatchesEmail(s) <==> PatternMatches(s)
  {
    if PatternMatches(s) {
      var i, j :| SplitMatches(s, i, j);
      NameToDotted(s[..i]);
      assert forall k :: 0 <= k < i ==> s[k] == s[..i][k];
      assert Find(s, '@') == Some(i);
      assert s[i + 1..] == s[i + 1..j] + s[j..];
      DomainSplit(s[i + 1..j], s[j..]);
    }
    if MatchesEmail(s) {
      var i := Find(s, '@').value;
      DottedToName(s[..i]);
      var d := s[i + 1..];
      var j := DomainJoin(d);
      assert d[..j] == s[i + 1..i + 1 + j];
      assert d[j..] == s[i + 1 + j..];
      assert SplitMatches(s, i, i + 1 + j);
    }
  }

  /**
   * What every accepted contact looks like: it starts with a word character,
   * holds exactly one '@', and ends with '.' and two or three word characters.
   */
  lemma AcceptedContactShape(s: string)
    requires PatternMatches(s)
    ensures |s| > 0 && IsWordChar(s[0])
    ensures exists i :: 0 <= i < |s| && s[i] == '@' && forall k :: 0 <= k < |s| && s[k] == '@' ==> k == i
    ensures EndsWithLabel(s, 2) || EndsWithLabel(s, 3)
  {
    MatchesEmailIsPattern(s);
    var i := Find(s, '@').value;
    var d := s[i + 1..];
    forall k | i < k < |s|
      ensures s[k] != '@'
    {
      assert s[k] == d[k - i - 1];
    }
    assert s[..i][0] == s[0];
    assert d == s[|s| - |d|..];
  }

  lemma SampleContactAccepted()
    ensures MatchesEmail("hr@acme.com") && PatternMatches("hr@acme.com")
  {
    var s := "hr@acme.com";
    assert Find(s, '@') == Some(2);
    assert s[..2] == "hr" && s[3..] == "acme.com";
    SampleDomainOk();
    MatchesEmailIsPattern(s);
  }

  lemma SampleDomainOk()
    ensures Dotted("hr") && DomainOk("acme.com")
  {
    var d := "acme.com";
    assert d[4] == '.' && IsWordChar(d[5]) && IsWordChar(d[6]) && IsWordChar(d[7]);
    assert EndsWithLabel(d, 3);
  }

  /** A domain without a final '.' label is refused. */
  lemma SampleContactWithoutLabelRejected()
    ensures !PatternMatches("hr@acme")
  {
    MatchesEmailIsPattern("hr@acme");
    assert Find("hr@acme", '@') == Some(2);
    assert "hr@acme"[3..] == "acme";
    assert !EndsWithLabel("acme", 2) && !EndsWithLabel("acme", 3);
  }

  /** An address whose last label is a single character is refused, whatever precedes it. */
  lemma OneCharacterLabelRejected(s: string)
    requires |s| >= 2 && s[|s| - 2] == '.'
    ensures !PatternMatches(s)
  {
    MatchesEmailIsPattern(s);
  }

  /** Two separators in a row are refused. */
  lemma SampleContactDoubleDotRejected()
    ensures !PatternMatches("h..r@acme.com")
  {
    MatchesEmailIsPattern("h..r@acme.com");
    assert Find("h..r@acme.com", '@') == Some(4);
    var local := "h..r@acme.com"[..4];
    assert local == "h..r";
    assert IsSep(local[2]) && !IsWordChar(local[1]);
  }
}
