/** The free-form reference parser of src/lib.rs: `parse_reference` reads a
    book name, a chapter, and optionally a verse number or a range of verse
    numbers out of a string such as "1 John 3:16-18", character by character,
    and the error codes it reports with their English messages. */
module ReferenceParser {
  import opened Text

  datatype Locale = En

  /** What a successful parse finds. The book name is a slice of the input. */
  datatype ReferenceParseResult =
    | Chapter(bookName: string, chapter: u8)
    | Verse(bookName: string, chapter: u8, number: u8)
    | VerseFromTo(bookName: string, chapter: u8, numberFrom: u8, numberTo: u8)

  datatype ReferenceParseErrorCode =
    | BookNameNeverEnds
    | InvalidChapterFormat
    | InvalidRangeBetweenVerseNumbers
    | InvalidVerseNumberFormat
    | UnknownError

  datatype Result<T, E> = Ok(value: T) | Err(error: E)

  /** `ReferenceParseErrorCode::to_string`: a sentence per code. */
  function ErrorMessage(code: ReferenceParseErrorCode, locale: Locale): (m: string)
    ensures |m| > 0 && IsUppercase(m[0]) && m[|m| - 1] == '.'
  {
    match code
    case BookNameNeverEnds => "Book name never ends."
    case InvalidChapterFormat => "Invalid chapter format."
    case InvalidRangeBetweenVerseNumbers => "Invalid range between verse numbers."
    case InvalidVerseNumberFormat => "Invalid verse number format."
    case UnknownError => "Unknown error."
  }

  /** Different codes have different messages. */
  lemma ErrorMessagesDiffer(a: ReferenceParseErrorCode, b: ReferenceParseErrorCode, locale: Locale)
    requires a != b
    ensures ErrorMessage(a, locale) != ErrorMessage(b, locale)
  {
    assert |ErrorMessage(a, locale)| != |ErrorMessage(b, locale)|;
  }

  // ---------------------------------------------------------------------------
  // Where the scanner's inner loops stop

  /** The first digit at or after `k`, or `|s|` when there is none: where the
      book-name loop stops peeking. */
  function NextDigit(s: string, k: nat): (j: nat)
    requires k <= |s|
    ensures k <= j <= |s|
    ensures j < |s| ==> IsDigit(s[j])
    ensures forall m | k <= m < j :: !IsDigit(s[m])
    decreases |s| - k
  {
    if k == |s| || IsDigit(s[k]) then k else NextDigit(s, k + 1)
  }

  /** The end of the run of digits starting at `k`: where the number loops
      stop peeking. */
  function DigitRunEnd(s: string, k: nat): (e: nat)
    requires k <= |s|
    ensures k <= e <= |s|
    ensures forall m | k <= m < e :: IsDigit(s[m])
    ensures e < |s| ==> !IsDigit(s[e])
    decreases |s| - k
  {
    if k < |s| && IsDigit(s[k]) then DigitRunEnd(s, k + 1) else k
  }

  /** The end of `s[i..e]` with its trailing spaces cut off; `s[i]` is not a
      space, so the cut never reaches it. */
  function TrimSpacesEnd(s: string, i: nat, e: nat): (t: nat)
    requires i < e <= |s| && s[i] != ' '
    ensures i < t <= e && s[t - 1] != ' '
    ensures forall m | t <= m < e :: s[m] == ' '
    decreases e
  {
    if s[e - 1] == ' ' then TrimSpacesEnd(s, i, e - 1) else e
  }

  // ---------------------------------------------------------------------------
  // The scanner

  /** What `parse_reference` returns when its iterator stands at `pos` having
      found `bookName`, `chapter` and `number` so far (0 and "" mean not yet).
      An alphabetic character starts a book name that runs up to, and not
      including, the next digit, less trailing spaces. A digit starts the
      first of the end verse number, the verse number and the chapter that is
      still missing. A digit before any book name and every other character
      are skipped. */
  function Scan(s: string, pos: nat, bookName: string, chapter: u8, number: u8)
    : (r: Result<ReferenceParseResult, ReferenceParseErrorCode>)
    requires pos <= |s|
    ensures r.Ok? && r.value.VerseFromTo? ==> r.value.numberFrom <= r.value.numberTo
    decreases |s| - pos, 2
  {
    if pos == |s| then Err(UnknownError)
    else if IsAlphabetic(s[pos]) then ScanBook(s, pos, chapter, number)
    else if IsDigit(s[pos]) && (number != 0 || chapter != 0 || bookName != "") then
      ScanDigits(s, pos, bookName, chapter, number)
    else Scan(s, pos + 1, bookName, chapter, number)
  }

  /** The digit at `pos` starts the first of the end verse number, the verse
      number and the chapter that is still missing. */
  function ScanDigits(s: string, pos: nat, bookName: string, chapter: u8, number: u8)
    : (r: Result<ReferenceParseResult, ReferenceParseErrorCode>)
    requires pos < |s|
    ensures r.Ok? && r.value.VerseFromTo? ==> r.value.numberFrom <= r.value.numberTo
    decreases |s| - pos, 1
  {
    if number != 0 then ScanEndNumber(s, pos, bookName, chapter, number)
    else if chapter != 0 then ScanNumber(s, pos, bookName, chapter)
    else ScanChapter(s, pos, bookName)
  }

  /** The letter at `pos` starts a book name, which runs up to the next digit
      less its trailing spaces and replaces any name found before. */
  function ScanBook(s: string, pos: nat, chapter: u8, number: u8)
    : (r: Result<ReferenceParseResult, ReferenceParseErrorCode>)
    requires pos < |s| && IsAlphabetic(s[pos])
    ensures r.Ok? && r.value.VerseFromTo? ==> r.value.numberFrom <= r.value.numberTo
    decreases |s| - pos, 0
  {
    var j := NextDigit(s, pos + 1);
    if j == |s| then Err(BookNameNeverEnds)
    else Scan(s, j, s[pos..TrimSpacesEnd(s, pos, j)], chapter, number)
  }

  /** The digits at `pos` after a verse number and a `-`: the end of a range,
      which may not be smaller than its start. */
  function ScanEndNumber(s: string, pos: nat, bookName: string, chapter: u8, number: u8)
    : (r: Result<ReferenceParseResult, ReferenceParseErrorCode>)
    requires pos < |s|
    ensures r.Ok? ==> r.value.VerseFromTo? && r.value.bookName == bookName && r.value.chapter == chapter
    ensures r.Ok? ==> r.value.numberFrom == number <= r.value.numberTo
  {
    var e := DigitRunEnd(s, pos + 1);
    match ParseU8(s[pos..e])
    case None => Err(InvalidVerseNumberFormat)
    case Some(endNumber) =>
      if endNumber < number then Err(InvalidRangeBetweenVerseNumbers)
      else Ok(VerseFromTo(bookName, chapter, number, endNumber))
  }

  /** The digits at `pos` after a chapter and a `:`: a verse number, or the
      start of a range when a `-` follows. A lone verse number that does not
      fit in a byte is reported as a chapter format error. */
  function ScanNumber(s: string, pos: nat, bookName: string, chapter: u8)
    : (r: Result<ReferenceParseResult, ReferenceParseErrorCode>)
    requires pos < |s|
    ensures r.Ok? && r.value.VerseFromTo? ==> r.value.numberFrom <= r.value.numberTo
    decreases |s| - pos, 0
  {
    var e := DigitRunEnd(s, pos + 1);
    if e < |s| && s[e] == '-' then
      match ParseU8(s[pos..e])
      case None => Err(InvalidVerseNumberFormat)
      case Some(n) => Scan(s, e + 1, bookName, chapter, n)
    else
      match ParseU8(s[pos..e])
      case None => Err(InvalidChapterFormat)
      case Some(n) => Ok(Verse(bookName, chapter, n))
  }

  /** The digits at `pos` after a book name: a chapter, followed by a verse
      when a `:` follows. */
  function ScanChapter(s: string, pos: nat, bookName: string)
    : (r: Result<ReferenceParseResult, ReferenceParseErrorCode>)
    requires pos < |s|
    ensures r.Ok? && r.value.VerseFromTo? ==> r.value.numberFrom <= r.value.numberTo
    decreases |s| - pos, 0
  {
    var e := DigitRunEnd(s, pos + 1);
    if e < |s| && s[e] == ':' then
      match ParseU8(s[pos..e])
      case None => Err(InvalidChapterFormat)
      case Some(n) => Scan(s, e + 1, bookName, n, 0)
    else
      match ParseU8(s[pos..e])
      case None => Err(InvalidChapterFormat)
      case Some(n) => Ok(Chapter(bookName, n))
  }

  /** `parse_reference` from the start of the input with nothing found. */
  function Parse(value: string): (r: Result<ReferenceParseResult, ReferenceParseErrorCode>)
    ensures r.Ok? && r.value.VerseFromTo? ==> r.value.numberFrom <= r.value.numberTo
  {
    Scan(value, 0, "", 0, 0)
  }

  /** `parse_reference`: one pass over the characters of `value` with a
      peeking iterator, as the source does it. */
  method ParseReference(value: string) returns (result: Result<ReferenceParseResult, ReferenceParseErrorCode>)
    ensures result == Parse(value)
  {
    var bookName: string := "";
    var chapter: u8 := 0;
    var number: u8 := 0;
    var next := 0;
    while next < |value|
      invariant next <= |value|
      invariant Scan(value, next, bookName, chapter, number) == Parse(value)
      decreases |value| - next
    {
      var i := next;
      next := next + 1;
      if IsAlphabetic(value[i]) {
        assert Scan(value, i, bookName, chapter, number) == ScanBook(value, i, chapter, number);
        // Skip to the next digit without consuming it.
        while next < |value| && !IsDigit(value[next])
          invariant i < next <= |value|
          invariant NextDigit(value, next) == NextDigit(value, i + 1)
          decreases |value| - next
        {
          next := next + 1;
        }
        if next == |value| {
          return Err(BookNameNeverEnds);
        }
        var trimOffset := 0;
        while value[next - 1 - trimOffset] == ' '
          invariant 0 <= trimOffset < next - i
          invariant TrimSpacesEnd(value, i, next - trimOffset) == TrimSpacesEnd(value, i, next)
          decreases next - trimOffset
        {
          trimOffset := trimOffset + 1;
        }
        bookName := value[i..next - trimOffset];
      } else if IsDigit(value[i]) && (number != 0 || chapter != 0 || bookName != "") {
        assert Scan(value, i, bookName, chapter, number) == ScanDigits(value, i, bookName, chapter, number);
        // Collect the rest of the run of digits.
        while next < |value| && IsDigit(value[next])
          invariant i < next <= |value|
          invariant DigitRunEnd(value, next) == DigitRunEnd(value, i + 1)
          decreases |value| - next
        {
          next := next + 1;
        }
        var digits := value[i..next];
        if number != 0 {
          var endNumber := ParseU8(digits);
          if endNumber.None? {
            return Err(InvalidVerseNumberFormat);
          }
          if endNumber.value < number {
            return Err(InvalidRangeBetweenVerseNumbers);
          }
          return Ok(VerseFromTo(bookName, chapter, number, endNumber.value));
        } else if chapter != 0 {
          assert ScanDigits(value, i, bookName, chapter, number) == ScanNumber(value, i, bookName, chapter);
          if next < |value| && value[next] == '-' {
            next := next + 1;
            var parsed := ParseU8(digits);
            if parsed.None? {
              return Err(InvalidVerseNumberFormat);
            }
            number := parsed.value;
          } else {
            var parsed := ParseU8(digits);
            if parsed.None? {
              return Err(InvalidChapterFormat);
            }
            return Ok(Verse(bookName, chapter, parsed.value));
          }
        } else {
          assert ScanDigits(value, i, bookName, chapter, number) == ScanChapter(value, i, bookName);
          if next < |value| && value[next] == ':' {
            next := next + 1;
            var parsed := ParseU8(digits);
            if parsed.None? {
              return Err(InvalidChapterFormat);
            }
            chapter := parsed.value;
          } else {
            var parsed := ParseU8(digits);
            if parsed.None? {
              return Err(InvalidChapterFormat);
            }
            return Ok(Chapter(bookName, parsed.value));
          }
        }
      }
    }
    return Err(UnknownError);
  }
}
