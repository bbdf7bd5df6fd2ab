/** What `parse_reference` of src/lib.rs makes of text around and instead of
    a reference: text before the first letter is skipped, digits included
    ("1 John 3" is John 3); input without a letter is an unknown error; a
    letter with no digit after it is where a book name never ends; numbers
    that do not fit in a byte are reported by the code of the number being
    read; and a chapter or a first verse of 0 is forgotten, as the code is
    written. */
module ReferenceParserEdgeCases {
  import opened Text
  import opened ReferenceParser
  import opened ReferenceParserProperties

  /** No letter in `s[i..j]`. */
  predicate NoLetterIn(s: string, i: nat, j: nat)
    requires i <= j <= |s|
  {
    forall m | i <= m < j :: !IsAlphabetic(s[m])
  }

  // ---------------------------------------------------------------------------
  // Before the book name

  /** Before a book name is found, everything but a letter is skipped. */
  lemma {:induction false} SkipNonLetters(s: string, pos: nat, k: nat)
    requires pos <= k <= |s| && NoLetterIn(s, pos, k)
    ensures Scan(s, pos, "", 0, 0) == Scan(s, k, "", 0, 0)
    decreases k - pos
  {
    if pos < k {
      SkipNonLetters(s, pos + 1, k);
    }
  }

  /** Without a letter there is no book name, and nothing is found. */
  lemma {:induction false} NoLetterUnknown(s: string)
    requires NoLetterIn(s, 0, |s|)
    ensures Parse(s) == Err(UnknownError)
  {
    SkipNonLetters(s, 0, |s|);
  }

  // ---------------------------------------------------------------------------
  // A book name that never ends

  /** A letter at `k` with no digit anywhere after it. */
  predicate EndlessLetter(s: string, k: nat) {
    && k < |s|
    && IsAlphabetic(s[k])
    && forall m | k < m < |s| :: !IsDigit(s[m])
  }

  /** When the first letter has no digit after it, the book name never
      ends. */
  lemma {:induction false} FirstLetterNeverEnds(s: string, k: nat)
    requires k <= |s| && NoLetterIn(s, 0, k) && EndlessLetter(s, k)
    ensures Parse(s) == Err(BookNameNeverEnds)
  {
    SkipNonLetters(s, 0, k);
    NoNextDigit(s, k + 1);
  }

  /** A book name never ends only at a letter with no digit after it. */
  lemma {:induction false} NeverEndsAtEndlessLetter(s: string)
    requires Parse(s) == Err(BookNameNeverEnds)
    ensures exists k | 0 <= k < |s| :: EndlessLetter(s, k)
  {
    ScanNeverEnds(s, 0, "", 0, 0);
  }

  lemma {:induction false} ScanNeverEnds(s: string, pos: nat, bookName: string, chapter: u8, number: u8)
    requires pos <= |s|
    ensures Scan(s, pos, bookName, chapter, number) == Err(BookNameNeverEnds) ==>
      exists k | pos <= k < |s| :: EndlessLetter(s, k)
    decreases |s| - pos, 1
  {
    if pos == |s| {
    } else if IsAlphabetic(s[pos]) {
      assert Scan(s, pos, bookName, chapter, number) == ScanBook(s, pos, chapter, number);
      var j := NextDigit(s, pos + 1);
      if j == |s| {
        assert EndlessLetter(s, pos);
      } else {
        ScanNeverEnds(s, j, s[pos..TrimSpacesEnd(s, pos, j)], chapter, number);
      }
    } else if IsDigit(s[pos]) && number != 0 {
      assert Scan(s, pos, bookName, chapter, number) == ScanEndNumber(s, pos, bookName, chapter, number);
    } else if IsDigit(s[pos]) && chapter != 0 {
      assert Scan(s, pos, bookName, chapter, number) == ScanNumber(s, pos, bookName, chapter);
      NumberNeverEnds(s, pos, bookName, chapter);
    } else if IsDigit(s[pos]) && bookName != "" {
      assert Scan(s, pos, bookName, chapter, number) == ScanChapter(s, pos, bookName);
      ChapterNeverEnds(s, pos, bookName);
    } else {
      ScanNeverEnds(s, pos + 1, bookName, chapter, number);
    }
  }

  lemma {:induction false} NumberNeverEnds(s: string, pos: nat, bookName: string, chapter: u8)
    requires pos < |s|
    ensures ScanNumber(s, pos, bookName, chapter) == Err(BookNameNeverEnds) ==>
      exists k | pos <= k < |s| :: EndlessLetter(s, k)
    decreases |s| - pos, 0
  {
    var e := DigitRunEnd(s, pos + 1);
    if e < |s| && s[e] == '-' && ParseU8(s[pos..e]).Some? {
      ScanNeverEnds(s, e + 1, bookName, chapter, ParseU8(s[pos..e]).value);
    }
  }

  lemma {:induction false} ChapterNeverEnds(s: string, pos: nat, bookName: string)
    requires pos < |s|
    ensures ScanChapter(s, pos, bookName) == Err(BookNameNeverEnds) ==>
      exists k | pos <= k < |s| :: EndlessLetter(s, k)
    decreases |s| - pos, 0
  {
    var e := DigitRunEnd(s, pos + 1);
    if e < |s| && s[e] == ':' && ParseU8(s[pos..e]).Some? {
      ScanNeverEnds(s, e + 1, bookName, ParseU8(s[pos..e]).value, 0);
    }
  }

  // ---------------------------------------------------------------------------
  // Numbers that do not fit in a byte

  /** Where the parts of "Book C" followed by `t` stand. */
  lemma {:induction false} ChapterTailParts(w: string, c: string, t: string)
    requires c != []
    ensures var s := w + " " + c + t;
      && s[..|w|] == w && s[|w|] == ' ' && |w| + 1 < |s| && s[|w| + 1] == c[0]
      && |w| + 1 + |c| + |t| == |s| && s[|w| + 1..|w| + 1 + |c|] == c
      && (t != [] ==> s[|w| + 1 + |c|] == t[0])
  {
    var s1 := w + " " + c;
    var s := s1 + t;
    assert s1[..|w|] == w;
    assert s[..|s1|] == s1;
    assert s1[|w| + 1..] == c;
  }

  /** Where the parts of "Book C:V" followed by `t` stand. */
  lemma {:induction false} VerseTailParts(w: string, c: string, v: string, t: string)
    requires c != []
    ensures var s := w + " " + c + ":" + v + t;
      && s[..|w|] == w && s[|w|] == ' ' && |w| + 1 < |s| && s[|w| + 1] == c[0]
      && |w| + 1 + |c| + 1 + |v| + |t| == |s|
      && s[|w| + 1..|w| + 1 + |c|] == c && s[|w| + 1 + |c|] == ':'
      && s[|w| + 1 + |c| + 1..|w| + 1 + |c| + 1 + |v|] == v
      && (t != [] ==> s[|w| + 1 + |c| + 1 + |v|] == t[0])
  {
    var s1 := w + " " + c;
    var s2 := s1 + ":" + v;
    var s := s2 + t;
    assert s1[..|w|] == w;
    assert s2[..|s1|] == s1;
    assert s[..|s2|] == s2;
    assert s1[|w| + 1..] == c;
    assert s2[|s1| + 1..] == v;
    assert s2[|w| + 1..|s1|] == s1[|w| + 1..];
    assert s[|w| + 1..|s1|] == s2[|w| + 1..|s1|];
    assert s[|s1| + 1..|s2|] == s2[|s1| + 1..];
  }

  /** A chapter that does not fit in a byte, whatever follows it. */
  lemma {:induction false} ScanChapterOverflow(s: string, k: nat, w: string, d: string)
    requires w != "" && d != [] && AllDigits(d) && DecimalValue(d) >= 256
    requires k + |d| <= |s| && s[k..k + |d|] == d
    requires k + |d| < |s| ==> !IsDigit(s[k + |d|])
    ensures Scan(s, k, w, 0, 0) == Err(InvalidChapterFormat)
  {
    DigitsAt(s, k, d);
    assert ParseU8(d) == None;
    ChapterNone(s, k, w, d);
  }

  /** A verse number that does not fit in a byte: an error about the verse
      number when a `-` follows it, and about the chapter otherwise. */
  lemma {:induction false} ScanVerseOverflow(s: string, k: nat, w: string, chapter: u8, d: string)
    requires chapter != 0 && d != [] && AllDigits(d) && DecimalValue(d) >= 256
    requires k + |d| <= |s| && s[k..k + |d|] == d
    requires k + |d| < |s| ==> !IsDigit(s[k + |d|])
    ensures Scan(s, k, w, chapter, 0)
      == if k + |d| < |s| && s[k + |d|] == '-' then Err(InvalidVerseNumberFormat) else Err(InvalidChapterFormat)
  {
    DigitsAt(s, k, d);
    assert ParseU8(d) == None;
    VerseNone(s, k, w, chapter, d);
  }

  lemma {:induction false} ChapterNone(s: string, k: nat, w: string, d: string)
    requires w != "" && d != [] && ParseU8(d) == None
    requires k + |d| <= |s| && s[k..k + |d|] == d && IsDigit(s[k])
    requires DigitRunEnd(s, k + 1) == k + |d|
    ensures Scan(s, k, w, 0, 0) == Err(InvalidChapterFormat)
  {
    assert Scan(s, k, w, 0, 0) == ScanChapter(s, k, w);
  }

  lemma {:induction false} VerseNone(s: string, k: nat, w: string, chapter: u8, d: string)
    requires chapter != 0 && d != [] && ParseU8(d) == None
    requires k + |d| <= |s| && s[k..k + |d|] == d && IsDigit(s[k])
    requires DigitRunEnd(s, k + 1) == k + |d|
    ensures Scan(s, k, w, chapter, 0)
      == if k + |d| < |s| && s[k + |d|] == '-' then Err(InvalidVerseNumberFormat) else Err(InvalidChapterFormat)
  {
    assert Scan(s, k, w, chapter, 0) == ScanNumber(s, k, w, chapter);
  }

  /** "Book C" with `C` of 256 or more is a chapter format error, whatever
      follows the digits. */
  lemma {:induction false} ChapterOverflow(w: string, c: string, t: string)
    requires IsBookName(w) && c != [] && AllDigits(c) && DecimalValue(c) >= 256
    requires t == [] || !IsDigit(t[0])
    ensures Parse(w + " " + c + t) == Err(InvalidChapterFormat)
  {
    var s := w + " " + c + t;
    ChapterTailParts(w, c, t);
    ScanChapterOverflow(s, |w| + 1, w, c);
    ScanBookThenDigits(s, w);
  }

  /** "Book C:V" with `V` of 256 or more: a verse number format error when a
      `-` follows, a chapter format error otherwise. */
  lemma {:induction false} VerseOverflow(w: string, c: string, v: string, t: string)
    requires IsBookName(w) && c != [] && AllDigits(c) && 1 <= DecimalValue(c) < 256
    requires v != [] && AllDigits(v) && DecimalValue(v) >= 256
    requires t == [] || !IsDigit(t[0])
    ensures Parse(w + " " + c + ":" + v + t)
      == if t != [] && t[0] == '-' then Err(InvalidVerseNumberFormat) else Err(InvalidChapterFormat)
  {
    var s := w + " " + c + ":" + v + t;
    VerseTailParts(w, c, v, t);
    var dash := t != [] && t[0] == '-';
    VerseOverflowTail(s, |w| + 1, w, c, v, dash);
    ScanBookThenDigits(s, w);
  }

  /** From the chapter of "Book C:V" on, with `V` of 256 or more; `dash` says
      whether a `-` follows `V`. */
  lemma {:induction false} VerseOverflowTail(s: string, k: nat, w: string, c: string, v: string, dash: bool)
    requires IsBookName(w) && c != [] && AllDigits(c) && 1 <= DecimalValue(c) < 256
    requires v != [] && AllDigits(v) && DecimalValue(v) >= 256
    requires k + |c| + 1 + |v| <= |s|
    requires s[k..k + |c|] == c && s[k + |c|] == ':' && s[k + |c| + 1..k + |c| + 1 + |v|] == v
    requires k + |c| + 1 + |v| < |s| ==> !IsDigit(s[k + |c| + 1 + |v|])
    requires dash == (k + |c| + 1 + |v| < |s| && s[k + |c| + 1 + |v|] == '-')
    ensures Scan(s, k, w, 0, 0) == if dash then Err(InvalidVerseNumberFormat) else Err(InvalidChapterFormat)
  {
    ScanVerseOverflow(s, k + |c| + 1, w, DecimalValue(c) as u8, v);
    ScanChapterColon(s, k, w, c);
  }

  // ---------------------------------------------------------------------------
  // A zero is taken for "not found yet"

  /** "Book 0:C": the chapter 0 is forgotten, and the number after the colon
      is read as the chapter. */
  lemma {:induction false} ZeroChapterForgotten(w: string, z: string, c: string)
    requires IsBookName(w) && z != [] && AllDigits(z) && DecimalValue(z) == 0
    requires c != [] && AllDigits(c)
    ensures Parse(w + " " + z + ":" + c)
      == if DecimalValue(c) < 256 then Ok(Chapter(w, DecimalValue(c) as u8)) else Err(InvalidChapterFormat)
  {
    var s := w + " " + z + ":" + c;
    VerseTailParts(w, z, c, []);
    ZeroChapterTail(s, |w| + 1, w, z, c);
    ScanBookThenDigits(s, w);
  }

  lemma {:induction false} ZeroChapterTail(s: string, k: nat, w: string, z: string, c: string)
    requires IsBookName(w) && z != [] && AllDigits(z) && DecimalValue(z) == 0
    requires c != [] && AllDigits(c)
    requires k + |z| + 1 + |c| == |s|
    requires s[k..k + |z|] == z && s[k + |z|] == ':' && s[k + |z| + 1..k + |z| + 1 + |c|] == c
    ensures Scan(s, k, w, 0, 0)
      == if DecimalValue(c) < 256 then Ok(Chapter(w, DecimalValue(c) as u8)) else Err(InvalidChapterFormat)
  {
    ScanChapterAt(s, k + |z| + 1, w, c);
    ScanChapterColon(s, k, w, z);
  }

  /** "Book C:0-V": the first verse 0 is forgotten, and the number after the
      dash is read as a single verse. */
  lemma {:induction false} ZeroVerseForgotten(w: string, c: string, z: string, v: string)
    requires IsBookName(w) && c != [] && AllDigits(c) && 1 <= DecimalValue(c) < 256
    requires z != [] && AllDigits(z) && DecimalValue(z) == 0
    requires v != [] && AllDigits(v)
    ensures Parse(w + " " + c + ":" + z + "-" + v)
      == if DecimalValue(v) < 256 then Ok(Verse(w, DecimalValue(c) as u8, DecimalValue(v) as u8))
         else Err(InvalidChapterFormat)
  {
    var s := w + " " + c + ":" + z + "-" + v;
    RangeParts(w, c, z, v);
    ZeroVerseTail(s, |w| + 1 + |c| + 1, w, DecimalValue(c) as u8, z, v);
    ScanChapterColon(s, |w| + 1, w, c);
    ScanBookThenDigits(s, w);
  }

  lemma {:induction false} ZeroVerseTail(s: string, k: nat, w: string, chapter: u8, z: string, v: string)
    requires chapter != 0 && z != [] && AllDigits(z) && DecimalValue(z) == 0
    requires v != [] && AllDigits(v)
    requires k + |z| + 1 + |v| == |s|
    requires s[k..k + |z|] == z && s[k + |z|] == '-' && s[k + |z| + 1..] == v
    ensures Scan(s, k, w, chapter, 0)
      == if DecimalValue(v) < 256 then Ok(Verse(w, chapter, DecimalValue(v) as u8)) else Err(InvalidChapterFormat)
  {
    var k' := k + |z| + 1;
    assert s[k'..k' + |v|] == v;
    ScanVerseAt(s, k', w, chapter, v);
    ScanVerseDash(s, k, w, chapter, z);
  }

  // ---------------------------------------------------------------------------
  // Input that runs out

  /** "Book C:" with nothing after the colon: the scanner runs off the end of
      the input with a chapter and no verse, which is an unknown error. */
  lemma {:induction false} ChapterColonAtEnd(w: string, c: string)
    requires IsBookName(w) && c != [] && AllDigits(c) && DecimalValue(c) < 256
    ensures Parse(w + " " + c + ":") == Err(UnknownError)
  {
    var s := w + " " + c + ":";
    ChapterTailParts(w, c, ":");
    ScanChapterColon(s, |w| + 1, w, c);
    assert Scan(s, |s|, w, DecimalValue(c) as u8, 0) == Err(UnknownError);
    ScanBookThenDigits(s, w);
  }
}
