/** What `parse_reference` of src/lib.rs accepts and what it reports: every
    result it returns is well formed and names a book cut from the input, and
    "Book C", "Book C:V" and "Book C:V-E" parse to the chapter, the verse and
    the range they spell, or to the error code the code reports for them. */
module ReferenceParserProperties {
  import opened Text
  import opened ReferenceParser

  /** A book name as the scanner cuts it: it starts with a letter, holds no
      digit and does not end with a space. */
  predicate IsBookName(w: string) {
    && w != []
    && IsAlphabetic(w[0])
    && w[|w| - 1] != ' '
    && forall i | 0 <= i < |w| :: !IsDigit(w[i])
  }

  /** What every successful parse satisfies: a verse needs a chapter other
      than 0, and a range a first verse other than 0 and no larger than the
      last. A chapter on its own may be 0. */
  predicate WellFormed(r: ReferenceParseResult) {
    && IsBookName(r.bookName)
    && (r.Verse? ==> r.chapter != 0)
    && (r.VerseFromTo? ==> r.chapter != 0 && 1 <= r.numberFrom <= r.numberTo)
  }

  /** `w` is `s[i..j]`. */
  predicate SliceAt(w: string, s: string, i: int, j: int) {
    0 <= i <= j <= |s| && s[i..j] == w
  }

  /** `w` is a contiguous slice of `s`. */
  predicate IsSliceOf(w: string, s: string) {
    exists i, j | 0 <= i <= j <= |s| :: SliceAt(w, s, i, j)
  }

  // ---------------------------------------------------------------------------
  // Where the inner loops stop, on inputs of a known shape

  lemma {:induction false} NextDigitAt(s: string, k: nat, j: nat)
    requires k <= j < |s| && IsDigit(s[j])
    requires forall m | k <= m < j :: !IsDigit(s[m])
    ensures NextDigit(s, k) == j
    decreases j - k
  {
    if k < j {
      NextDigitAt(s, k + 1, j);
    }
  }

  lemma {:induction false} NoNextDigit(s: string, k: nat)
    requires k <= |s|
    requires forall m | k <= m < |s| :: !IsDigit(s[m])
    ensures NextDigit(s, k) == |s|
    decreases |s| - k
  {
    if k < |s| {
      NoNextDigit(s, k + 1);
    }
  }

  lemma {:induction false} DigitRunEndAt(s: string, k: nat, e: nat)
    requires k <= e <= |s|
    requires forall m | k <= m < e :: IsDigit(s[m])
    requires e < |s| ==> !IsDigit(s[e])
    ensures DigitRunEnd(s, k) == e
    decreases e - k
  {
    if k < e {
      DigitRunEndAt(s, k + 1, e);
    }
  }

  lemma {:induction false} TrimSpacesEndAt(s: string, i: nat, t: nat, e: nat)
    requires i < t <= e <= |s| && s[i] != ' ' && s[t - 1] != ' '
    requires forall m | t <= m < e :: s[m] == ' '
    ensures TrimSpacesEnd(s, i, e) == t
    decreases e
  {
    if t < e {
      TrimSpacesEndAt(s, i, t, e - 1);
    }
  }

  /** A run of digits `d` at `pos`, ended by a non-digit or the end of `s`:
      the scanner reads exactly `d`. */
  lemma {:induction false} DigitsAt(s: string, pos: nat, d: string)
    requires d != [] && AllDigits(d)
    requires pos + |d| <= |s| && s[pos..pos + |d|] == d
    requires pos + |d| < |s| ==> !IsDigit(s[pos + |d|])
    ensures IsDigit(s[pos])
    ensures DigitRunEnd(s, pos + 1) == pos + |d|
  {
    assert s[pos] == d[0];
    forall m | pos + 1 <= m < pos + |d|
      ensures IsDigit(s[m])
    {
      assert s[m] == d[m - pos];
    }
    DigitRunEndAt(s, pos + 1, pos + |d|);
  }

  // ---------------------------------------------------------------------------
  // The shape of every result

  /** The book name the scanner cuts out of `s` at `pos`. */
  lemma {:induction false} BookCut(s: string, pos: nat, j: nat)
    requires pos < j < |s| && IsAlphabetic(s[pos]) && j == NextDigit(s, pos + 1)
    ensures IsBookName(s[pos..TrimSpacesEnd(s, pos, j)])
    ensures IsSliceOf(s[pos..TrimSpacesEnd(s, pos, j)], s)
  {
    var t := TrimSpacesEnd(s, pos, j);
    var w := s[pos..t];
    assert w[0] == s[pos] && w[|w| - 1] == s[t - 1];
    assert forall i | 0 <= i < |w| :: w[i] == s[pos + i];
    assert SliceAt(w, s, pos, t);
  }

  /** The facts the scanner keeps while it runs. */
  predicate ScanState(bookName: string, chapter: u8, number: u8) {
    && (bookName != "" ==> IsBookName(bookName))
    && (chapter != 0 ==> bookName != "")
    && (number != 0 ==> chapter != 0)
  }

  lemma {:induction false} ScanWellFormed(s: string, pos: nat, bookName: string, chapter: u8, number: u8)
    requires pos <= |s|
    requires ScanState(bookName, chapter, number)
    ensures var r := Scan(s, pos, bookName, chapter, number);
      r.Ok? ==> WellFormed(r.value)
    decreases |s| - pos, 1
  {
    if pos == |s| {
    } else if IsAlphabetic(s[pos]) {
      var j := NextDigit(s, pos + 1);
      if j < |s| {
        BookCut(s, pos, j);
        ScanWellFormed(s, j, s[pos..TrimSpacesEnd(s, pos, j)], chapter, number);
      }
    } else if IsDigit(s[pos]) && number != 0 {
    } else if IsDigit(s[pos]) && chapter != 0 {
      NumberWellFormed(s, pos, bookName, chapter);
    } else if IsDigit(s[pos]) && bookName != "" {
      ChapterWellFormed(s, pos, bookName);
    } else {
      ScanWellFormed(s, pos + 1, bookName, chapter, number);
    }
  }

  lemma {:induction false} NumberWellFormed(s: string, pos: nat, bookName: string, chapter: u8)
    requires pos < |s| && chapter != 0
    requires ScanState(bookName, chapter, 0)
    ensures var r := ScanNumber(s, pos, bookName, chapter);
      r.Ok? ==> WellFormed(r.value)
    decreases |s| - pos, 0
  {
    var e := DigitRunEnd(s, pos + 1);
    if e < |s| && s[e] == '-' && ParseU8(s[pos..e]).Some? {
      ScanWellFormed(s, e + 1, bookName, chapter, ParseU8(s[pos..e]).value);
    }
  }

  lemma {:induction false} ChapterWellFormed(s: string, pos: nat, bookName: string)
    requires pos < |s| && bookName != ""
    requires ScanState(bookName, 0, 0)
    ensures var r := ScanChapter(s, pos, bookName);
      r.Ok? ==> WellFormed(r.value)
    decreases |s| - pos, 0
  {
    var e := DigitRunEnd(s, pos + 1);
    if e < |s| && s[e] == ':' && ParseU8(s[pos..e]).Some? {
      ScanWellFormed(s, e + 1, bookName, ParseU8(s[pos..e]).value, 0);
    }
  }

  lemma {:induction false} ScanSlice(s: string, pos: nat, bookName: string, chapter: u8, number: u8)
    requires pos <= |s|
    requires bookName != "" ==> IsSliceOf(bookName, s)
    ensures var r := Scan(s, pos, bookName, chapter, number);
      r.Ok? && r.value.bookName != "" ==> IsSliceOf(r.value.bookName, s)
    decreases |s| - pos, 1
  {
    if pos == |s| {
    } else if IsAlphabetic(s[pos]) {
      var j := NextDigit(s, pos + 1);
      if j < |s| {
        BookCut(s, pos, j);
        ScanSlice(s, j, s[pos..TrimSpacesEnd(s, pos, j)], chapter, number);
      }
    } else if IsDigit(s[pos]) && number != 0 {
    } else if IsDigit(s[pos]) && chapter != 0 {
      NumberSlice(s, pos, bookName, chapter);
    } else if IsDigit(s[pos]) && bookName != "" {
      ChapterSlice(s, pos, bookName);
    } else {
      ScanSlice(s, pos + 1, bookName, chapter, number);
    }
  }

  lemma {:induction false} NumberSlice(s: string, pos: nat, bookName: string, chapter: u8)
    requires pos < |s|
    requires bookName != "" ==> IsSliceOf(bookName, s)
    ensures var r := ScanNumber(s, pos, bookName, chapter);
      r.Ok? && r.value.bookName != "" ==> IsSliceOf(r.value.bookName, s)
    decreases |s| - pos, 0
  {
    var e := DigitRunEnd(s, pos + 1);
    if e < |s| && s[e] == '-' && ParseU8(s[pos..e]).Some? {
      ScanSlice(s, e + 1, bookName, chapter, ParseU8(s[pos..e]).value);
    }
  }

  lemma {:induction false} ChapterSlice(s: string, pos: nat, bookName: string)
    requires pos < |s|
    requires bookName != "" ==> IsSliceOf(bookName, s)
    ensures var r := ScanChapter(s, pos, bookName);
      r.Ok? && r.value.bookName != "" ==> IsSliceOf(r.value.bookName, s)
    decreases |s| - pos, 0
  {
    var e := DigitRunEnd(s, pos + 1);
    if e < |s| && s[e] == ':' && ParseU8(s[pos..e]).Some? {
      ScanSlice(s, e + 1, bookName, ParseU8(s[pos..e]).value, 0);
    }
  }

  /** Every successful parse is well formed, and its book name is a slice of
      the input. */
  lemma {:induction false} ParseWellFormed(value: string)
    ensures var r := Parse(value);
      r.Ok? ==> WellFormed(r.value) && IsSliceOf(r.value.bookName, value)
  {
    ScanWellFormed(value, 0, "", 0, 0);
    ScanSlice(value, 0, "", 0, 0);
  }

  // ---------------------------------------------------------------------------
  // The scanner on inputs of a known shape
  //
  // Each step of the scanner is stated about a position whose facts are
  // given outright (where the inner loops stop, what `ParseU8` makes of the
  // digits), and the lemmas about a whole input first establish those facts
  // and then chain the steps.

  /** The book name `w` starts at `pos`, and the first digit after it is at
      `j`. */
  predicate BookEndsAt(s: string, pos: nat, j: nat, w: string) {
    && pos < pos + |w| <= j < |s| && IsAlphabetic(s[pos])
    && NextDigit(s, pos + 1) == j && TrimSpacesEnd(s, pos, j) == pos + |w|
    && s[pos..pos + |w|] == w
  }

  lemma {:induction false} BookStep(s: string, pos: nat, j: nat, w: string, bookName: string, chapter: u8, number: u8)
    requires BookEndsAt(s, pos, j, w)
    ensures Scan(s, pos, bookName, chapter, number) == Scan(s, j, w, chapter, number)
  {
    assert Scan(s, pos, bookName, chapter, number) == ScanBook(s, pos, chapter, number);
    assert ScanBook(s, pos, chapter, number) == Scan(s, j, w, chapter, number);
  }

  lemma {:induction false} ChapterAlone(s: string, k: nat, w: string, d: string, n: nat)
    requires w != "" && d != [] && ParseU8(d) == (if n < 256 then Some(n as u8) else None)
    requires k + |d| <= |s| && s[k..k + |d|] == d && IsDigit(s[k])
    requires DigitRunEnd(s, k + 1) == k + |d| && (k + |d| < |s| ==> s[k + |d|] != ':')
    ensures Scan(s, k, w, 0, 0) == if n < 256 then Ok(Chapter(w, n as u8)) else Err(InvalidChapterFormat)
  {
    assert Scan(s, k, w, 0, 0) == ScanChapter(s, k, w);
  }

  lemma {:induction false} ChapterThenColon(s: string, k: nat, w: string, d: string, n: nat)
    requires w != "" && d != [] && n < 256 && ParseU8(d) == Some(n as u8)
    requires k + |d| < |s| && s[k..k + |d|] == d && IsDigit(s[k])
    requires DigitRunEnd(s, k + 1) == k + |d| && s[k + |d|] == ':'
    ensures Scan(s, k, w, 0, 0) == Scan(s, k + |d| + 1, w, n as u8, 0)
  {
    assert Scan(s, k, w, 0, 0) == ScanChapter(s, k, w);
  }

  lemma {:induction false} VerseAlone(s: string, k: nat, w: string, chapter: u8, d: string, n: nat)
    requires chapter != 0 && d != [] && ParseU8(d) == (if n < 256 then Some(n as u8) else None)
    requires k + |d| <= |s| && s[k..k + |d|] == d && IsDigit(s[k])
    requires DigitRunEnd(s, k + 1) == k + |d| && (k + |d| < |s| ==> s[k + |d|] != '-')
    ensures Scan(s, k, w, chapter, 0)
      == if n < 256 then Ok(Verse(w, chapter, n as u8)) else Err(InvalidChapterFormat)
  {
    assert Scan(s, k, w, chapter, 0) == ScanNumber(s, k, w, chapter);
  }

  lemma {:induction false} VerseThenDash(s: string, k: nat, w: string, chapter: u8, d: string, n: nat)
    requires chapter != 0 && d != [] && n < 256 && ParseU8(d) == Some(n as u8)
    requires k + |d| < |s| && s[k..k + |d|] == d && IsDigit(s[k])
    requires DigitRunEnd(s, k + 1) == k + |d| && s[k + |d|] == '-'
    ensures Scan(s, k, w, chapter, 0) == Scan(s, k + |d| + 1, w, chapter, n as u8)
  {
    assert Scan(s, k, w, chapter, 0) == ScanNumber(s, k, w, chapter);
  }

  lemma {:induction false} RangeEnd(s: string, k: nat, w: string, chapter: u8, number: u8, d: string, n: nat)
    requires number != 0 && d != [] && ParseU8(d) == (if n < 256 then Some(n as u8) else None)
    requires k + |d| <= |s| && s[k..k + |d|] == d && IsDigit(s[k])
    requires DigitRunEnd(s, k + 1) == k + |d|
    ensures Scan(s, k, w, chapter, number)
      == if n >= 256 then Err(InvalidVerseNumberFormat)
         else if n < number as int then Err(InvalidRangeBetweenVerseNumbers)
         else Ok(VerseFromTo(w, chapter, number, n as u8))
  {
  }

  /** A book name at `k` followed by a space and a digit: the scanner cuts
      out the book name and stands at the digit. */
  /** Where a book name followed by a space and a digit sits in the input,
      the scanner's book step reads exactly that name. */
  lemma {:induction false} BookAt(s: string, k: nat, w: string)
    requires IsBookName(w) && k + |w| + 1 < |s|
    requires s[k..k + |w|] == w && s[k + |w|] == ' ' && IsDigit(s[k + |w| + 1])
    ensures BookEndsAt(s, k, k + |w| + 1, w)
  {
    assert s[k] == w[0];
    assert forall m | k <= m < k + |w| :: s[m] == w[m - k];
    NextDigitAt(s, k + 1, k + |w| + 1);
    TrimSpacesEndAt(s, k, k + |w|, k + |w| + 1);
  }

  /** A book name at `k` followed by a space and a digit: the scanner cuts
      out the book name and stands at the digit. */
  lemma {:induction false} ScanBookAt(s: string, k: nat, w: string)
    requires IsBookName(w) && k + |w| + 1 < |s|
    requires s[k..k + |w|] == w && s[k + |w|] == ' ' && IsDigit(s[k + |w| + 1])
    ensures Scan(s, k, "", 0, 0) == Scan(s, k + |w| + 1, w, 0, 0)
  {
    BookAt(s, k, w);
    BookStep(s, k, k + |w| + 1, w, "", 0, 0);
  }

  /** The input starts with a book name, a space and a digit. */
  lemma {:induction false} ScanBookThenDigits(s: string, w: string)
    requires IsBookName(w) && |w| + 1 < |s|
    requires s[..|w|] == w && s[|w|] == ' ' && IsDigit(s[|w| + 1])
    ensures Parse(s) == Scan(s, |w| + 1, w, 0, 0)
  {
    assert s[0..0 + |w|] == s[..|w|];
    ScanBookAt(s, 0, w);
  }

  /** A chapter that ends the input or is followed by neither a digit nor a
      `:`. */
  lemma {:induction false} ScanChapterAt(s: string, k: nat, w: string, d: string)
    requires w != "" && d != [] && AllDigits(d)
    requires k + |d| <= |s| && s[k..k + |d|] == d
    requires k + |d| < |s| ==> !IsDigit(s[k + |d|]) && s[k + |d|] != ':'
    ensures Scan(s, k, w, 0, 0)
      == if DecimalValue(d) < 256 then Ok(Chapter(w, DecimalValue(d) as u8)) else Err(InvalidChapterFormat)
  {
    DigitsAt(s, k, d);
    ChapterAlone(s, k, w, d, DecimalValue(d));
  }

  /** A chapter followed by `:`: the scanner goes on after the colon. */
  lemma {:induction false} ScanChapterColon(s: string, k: nat, w: string, d: string)
    requires w != "" && d != [] && AllDigits(d) && DecimalValue(d) < 256
    requires k + |d| < |s| && s[k..k + |d|] == d && s[k + |d|] == ':'
    ensures Scan(s, k, w, 0, 0) == Scan(s, k + |d| + 1, w, DecimalValue(d) as u8, 0)
  {
    DigitsAt(s, k, d);
    ChapterThenColon(s, k, w, d, DecimalValue(d));
  }

  /** A verse number that ends the input or is followed by neither a digit nor
      a `-`. */
  lemma {:induction false} ScanVerseAt(s: string, k: nat, w: string, chapter: u8, d: string)
    requires chapter != 0 && d != [] && AllDigits(d)
    requires k + |d| <= |s| && s[k..k + |d|] == d
    requires k + |d| < |s| ==> !IsDigit(s[k + |d|]) && s[k + |d|] != '-'
    ensures Scan(s, k, w, chapter, 0)
      == if DecimalValue(d) < 256 then Ok(Verse(w, chapter, DecimalValue(d) as u8)) else Err(InvalidChapterFormat)
  {
    DigitsAt(s, k, d);
    VerseAlone(s, k, w, chapter, d, DecimalValue(d));
  }

  /** A verse number followed by `-`: the scanner goes on after the dash. */
  lemma {:induction false} ScanVerseDash(s: string, k: nat, w: string, chapter: u8, d: string)
    requires chapter != 0 && d != [] && AllDigits(d) && DecimalValue(d) < 256
    requires k + |d| < |s| && s[k..k + |d|] == d && s[k + |d|] == '-'
    ensures Scan(s, k, w, chapter, 0) == Scan(s, k + |d| + 1, w, chapter, DecimalValue(d) as u8)
  {
    DigitsAt(s, k, d);
    VerseThenDash(s, k, w, chapter, d, DecimalValue(d));
  }

  /** The end of a range. */
  lemma {:induction false} ScanEndAt(s: string, k: nat, w: string, chapter: u8, number: u8, d: string)
    requires number != 0 && d != [] && AllDigits(d)
    requires k + |d| <= |s| && s[k..k + |d|] == d
    requires k + |d| < |s| ==> !IsDigit(s[k + |d|])
    ensures Scan(s, k, w, chapter, number)
      == if DecimalValue(d) >= 256 then Err(InvalidVerseNumberFormat)
         else if DecimalValue(d) < number as int then Err(InvalidRangeBetweenVerseNumbers)
         else Ok(VerseFromTo(w, chapter, number, DecimalValue(d) as u8))
  {
    DigitsAt(s, k, d);
    RangeEnd(s, k, w, chapter, number, d, DecimalValue(d));
  }

  // ---------------------------------------------------------------------------
  // The three forms, and what goes wrong in each

  /** Where the parts of "Book C" and "Book C:V" stand. */
  lemma {:induction false} Parts(w: string, c: string, v: string)
    requires c != []
    ensures var s := w + " " + c;
      && s[..|w|] == w && s[|w|] == ' ' && |w| + 1 < |s| && s[|w| + 1] == c[0]
      && |w| + 1 + |c| == |s| && s[|w| + 1..|w| + 1 + |c|] == c
    ensures var s := w + " " + c + ":" + v;
      && s[..|w|] == w && s[|w|] == ' ' && |w| + 1 < |s| && s[|w| + 1] == c[0]
      && |w| + 1 + |c| + 1 + |v| == |s|
      && s[|w| + 1..|w| + 1 + |c|] == c && s[|w| + 1 + |c|] == ':'
      && s[|w| + 1 + |c| + 1..|w| + 1 + |c| + 1 + |v|] == v
  {
    var s1 := w + " " + c;
    var s2 := s1 + ":" + v;
    assert s1[..|w|] == w;
    assert s2[..|s1|] == s1;
    assert s1[|w| + 1..] == c;
    assert s2[|s1| + 1..] == v;
    assert s2[|w| + 1..|s1|] == s1[|w| + 1..];
  }

  /** Where the parts of "Book C:V-E" stand. */
  lemma {:induction false} RangeParts(w: string, c: string, v: string, e: string)
    requires c != []
    ensures var s := w + " " + c + ":" + v + "-" + e;
      && s[..|w|] == w && s[|w|] == ' ' && |w| + 1 < |s| && s[|w| + 1] == c[0]
      && |w| + 1 + |c| + 1 + |v| + 1 + |e| == |s|
      && s[|w| + 1..|w| + 1 + |c|] == c && s[|w| + 1 + |c|] == ':'
      && s[|w| + 1 + |c| + 1..|w| + 1 + |c| + 1 + |v|] == v && s[|w| + 1 + |c| + 1 + |v|] == '-'
      && s[|w| + 1 + |c| + 1 + |v| + 1..|w| + 1 + |c| + 1 + |v| + 1 + |e|] == e
  {
    var s1 := w + " " + c;
    var s2 := s1 + ":" + v;
    var s3 := s2 + "-" + e;
    assert s1[..|w|] == w;
    assert s2[..|s1|] == s1;
    assert s3[..|s2|] == s2;
    assert s1[|w| + 1..] == c;
    assert s2[|s1| + 1..] == v;
    assert s3[|s2| + 1..] == e;
    assert s2[|w| + 1..|s1|] == s1[|w| + 1..];
    assert s3[|w| + 1..|s1|] == s2[|w| + 1..|s1|];
    assert s3[|s1| + 1..|s2|] == s2[|s1| + 1..];
  }

  /** "Book C": a chapter on its own, or a chapter format error when `C` does
      not fit in a byte. */
  lemma {:induction false} ParsesChapterForm(w: string, c: string)
    requires IsBookName(w) && c != [] && AllDigits(c)
    ensures Parse(w + " " + c)
      == if DecimalValue(c) < 256 then Ok(Chapter(w, DecimalValue(c) as u8)) else Err(InvalidChapterFormat)
  {
    var s := w + " " + c;
    Parts(w, c, []);
    assert IsDigit(s[|w| + 1]);
    ScanChapterAt(s, |w| + 1, w, c);
    ScanBookThenDigits(s, w);
  }

  /** "Book C:V" with a chapter from 1 to 255: a verse. A verse number that
      does not fit in a byte is reported as a chapter format error. */
  lemma {:induction false} ParsesVerseForm(w: string, c: string, v: string)
    requires IsBookName(w) && c != [] && AllDigits(c) && v != [] && AllDigits(v)
    requires 1 <= DecimalValue(c) < 256
    ensures Parse(w + " " + c + ":" + v)
      == if DecimalValue(v) < 256 then Ok(Verse(w, DecimalValue(c) as u8, DecimalValue(v) as u8))
         else Err(InvalidChapterFormat)
  {
    var s := w + " " + c + ":" + v;
    Parts(w, c, v);
    assert IsDigit(s[|w| + 1]);
    ScanVerseTail(s, |w| + 1, w, c, v);
    ScanBookThenDigits(s, w);
  }

  /** From the chapter of "Book C:V" on. */
  lemma {:induction false} ScanVerseTail(s: string, k: nat, w: string, c: string, v: string)
    requires w != "" && c != [] && AllDigits(c) && v != [] && AllDigits(v)
    requires 1 <= DecimalValue(c) < 256
    requires k + |c| + 1 + |v| == |s|
    requires s[k..k + |c|] == c && s[k + |c|] == ':' && s[k + |c| + 1..k + |c| + 1 + |v|] == v
    ensures Scan(s, k, w, 0, 0)
      == if DecimalValue(v) < 256 then Ok(Verse(w, DecimalValue(c) as u8, DecimalValue(v) as u8))
         else Err(InvalidChapterFormat)
  {
    ScanChapterColon(s, k, w, c);
    ScanVerseAfterColon(s, k, w, c, v);
  }

  lemma {:induction false} ScanVerseAfterColon(s: string, k: nat, w: string, c: string, v: string)
    requires w != "" && c != [] && AllDigits(c) && v != [] && AllDigits(v)
    requires 1 <= DecimalValue(c) < 256
    requires k + |c| + 1 + |v| == |s|
    requires s[k..k + |c|] == c && s[k + |c|] == ':' && s[k + |c| + 1..k + |c| + 1 + |v|] == v
    ensures Scan(s, k + |c| + 1, w, DecimalValue(c) as u8, 0)
      == if DecimalValue(v) < 256 then Ok(Verse(w, DecimalValue(c) as u8, DecimalValue(v) as u8))
         else Err(InvalidChapterFormat)
  {
    ScanVerseAt(s, k + |c| + 1, w, DecimalValue(c) as u8, v);
  }

  /** "Book C:V-E" with a chapter and a first verse from 1 to 255: a range, or
      an error when `E` does not fit in a byte or is smaller than `V`. */
  lemma {:induction false} ParsesRangeForm(w: string, c: string, v: string, e: string)
    requires IsBookName(w) && c != [] && AllDigits(c) && v != [] && AllDigits(v) && e != [] && AllDigits(e)
    requires 1 <= DecimalValue(c) < 256 && 1 <= DecimalValue(v) < 256
    ensures Parse(w + " " + c + ":" + v + "-" + e)
      == if DecimalValue(e) >= 256 then Err(InvalidVerseNumberFormat)
         else if DecimalValue(e) < DecimalValue(v) then Err(InvalidRangeBetweenVerseNumbers)
         else Ok(VerseFromTo(w, DecimalValue(c) as u8, DecimalValue(v) as u8, DecimalValue(e) as u8))
  {
    var s := w + " " + c + ":" + v + "-" + e;
    RangeParts(w, c, v, e);
    assert IsDigit(s[|w| + 1]);
    ScanRangeTail(s, |w| + 1, w, c, v, e);
    ScanBookThenDigits(s, w);
  }

  /** From the chapter of "Book C:V-E" on. */
  lemma {:induction false} ScanRangeTail(s: string, k: nat, w: string, c: string, v: string, e: string)
    requires w != "" && c != [] && AllDigits(c) && v != [] && AllDigits(v) && e != [] && AllDigits(e)
    requires 1 <= DecimalValue(c) < 256 && 1 <= DecimalValue(v) < 256
    requires k + |c| + 1 + |v| + 1 + |e| == |s|
    requires s[k..k + |c|] == c && s[k + |c|] == ':'
    requires s[k + |c| + 1..k + |c| + 1 + |v|] == v && s[k + |c| + 1 + |v|] == '-'
    requires s[k + |c| + 1 + |v| + 1..k + |c| + 1 + |v| + 1 + |e|] == e
    ensures Scan(s, k, w, 0, 0)
      == if DecimalValue(e) >= 256 then Err(InvalidVerseNumberFormat)
         else if DecimalValue(e) < DecimalValue(v) then Err(InvalidRangeBetweenVerseNumbers)
         else Ok(VerseFromTo(w, DecimalValue(c) as u8, DecimalValue(v) as u8, DecimalValue(e) as u8))
  {
    ScanRangeFromVerse(s, k + |c| + 1, w, DecimalValue(c) as u8, v, e);
    ScanChapterColon(s, k, w, c);
  }

  /** From the first verse of "Book C:V-E" on. */
  lemma {:induction false} ScanRangeFromVerse(s: string, k: nat, w: string, chapter: u8, v: string, e: string)
    requires chapter != 0 && v != [] && AllDigits(v) && e != [] && AllDigits(e)
    requires 1 <= DecimalValue(v) < 256
    requires k + |v| + 1 + |e| == |s|
    requires s[k..k + |v|] == v && s[k + |v|] == '-'
    requires s[k + |v| + 1..k + |v| + 1 + |e|] == e
    ensures Scan(s, k, w, chapter, 0)
      == if DecimalValue(e) >= 256 then Err(InvalidVerseNumberFormat)
         else if DecimalValue(e) < DecimalValue(v) then Err(InvalidRangeBetweenVerseNumbers)
         else Ok(VerseFromTo(w, chapter, DecimalValue(v) as u8, DecimalValue(e) as u8))
  {
    ScanEndAt(s, k + |v| + 1, w, chapter, DecimalValue(v) as u8, e);
    ScanVerseDash(s, k, w, chapter, v);
  }
}
