/** The locale-aware book registry and the strict reference parser and renderer
    of src/bible.rs: a reference is read as `"<abbreviation> <chapter>"` or
    `"<abbreviation> <chapter>:<number>"`, the abbreviation is looked up in the
    chosen text's table, the chapter is checked against the book's chapter
    count, and a reference is rendered with the text's display abbreviation. */
module Bible {
  import opened Text

  /** The books of the registry, in canonical order. src/bible.rs declares only
      Matthew and John; the five books of Moses come from the tables of
      src/books.rs, which share this type (see module Books). */
  datatype BookId = Genesis | Exodus | Leviticus | Numbers | Deuteronomy | Matthew | John

  /** The published texts whose naming conventions the registry knows. */
  datatype TextId = EnLSB | FiR1933_38

  /** A book's display abbreviation and its number of chapters in one text. */
  datatype BookInfo = BookInfo(abbreviation: string, chapterCount: u8)

  type BookHashMap = map<BookId, BookInfo>

  /** The four registry tables: book information per text, and sanitised
      abbreviation to book per text. Both iterations of the registry (the
      two-book tables below, the seven-book tables of module Books) have this
      shape, and every lookup takes the tables as a parameter. */
  datatype Tables = Tables(
    bookInfoForEnLsb: BookHashMap,
    bookInfoForFiR1933_38: BookHashMap,
    bookAbbreviationsToIdsEn: map<string, BookId>,
    bookAbbreviationsToIdsFi: map<string, BookId>)

  /** The tables of src/bible.rs. */
  const BibleTables := Tables(
    map[Matthew := BookInfo("Matthew", 28), John := BookInfo("John", 21)],
    map[Matthew := BookInfo("Matt.", 28), John := BookInfo("Joh.", 21)],
    map["matt" := Matthew, "matthew" := Matthew, "john" := John],
    map["matt" := Matthew, "matteus" := Matthew, "joh" := John, "johannes" := John])

  function Get<K, V>(m: map<K, V>, k: K): Option<V> {
    if k in m then Some(m[k]) else None
  }

  // ---------------------------------------------------------------------------
  // Registry lookups

  /** The book-information table of a text (`find_books_by_text`). */
  function FindBooksByText(tables: Tables, text: TextId): (r: BookHashMap)
    ensures text == EnLSB ==> r == tables.bookInfoForEnLsb
    ensures text == FiR1933_38 ==> r == tables.bookInfoForFiR1933_38
  {
    match text
    case EnLSB => tables.bookInfoForEnLsb
    case FiR1933_38 => tables.bookInfoForFiR1933_38
  }

  /** The abbreviation table of a text. */
  function AbbreviationsByText(tables: Tables, text: TextId): (r: map<string, BookId>)
    ensures text == EnLSB ==> r == tables.bookAbbreviationsToIdsEn
    ensures text == FiR1933_38 ==> r == tables.bookAbbreviationsToIdsFi
  {
    match text
    case EnLSB => tables.bookAbbreviationsToIdsEn
    case FiR1933_38 => tables.bookAbbreviationsToIdsFi
  }

  /** The book whose abbreviation, exactly as given, is a key of the text's
      abbreviation table. */
  function FindBySanitizedAbbreviation(tables: Tables, text: TextId, abbreviation: string): (r: Option<BookId>)
    ensures r.Some? <==> abbreviation in AbbreviationsByText(tables, text)
    ensures r.Some? ==> AbbreviationsByText(tables, text)[abbreviation] == r.value
  {
    match text
    case EnLSB => Get(tables.bookAbbreviationsToIdsEn, abbreviation)
    case FiR1933_38 => Get(tables.bookAbbreviationsToIdsFi, abbreviation)
  }

  /** A book's information in a text, present exactly when the text's table
      of `FindBooksByText` has the book. */
  function GetByBookIdAndText(tables: Tables, bookId: BookId, text: TextId): (r: Option<BookInfo>)
    ensures r.Some? <==> bookId in FindBooksByText(tables, text)
    ensures r.Some? ==> r.value == FindBooksByText(tables, text)[bookId]
  {
    match text
    case EnLSB => Get(tables.bookInfoForEnLsb, bookId)
    case FiR1933_38 => Get(tables.bookInfoForFiR1933_38, bookId)
  }

  /** `BookInfo::sanitize`: every `.` removed, then lower-cased. */
  function Sanitize(value: string): (r: string)
    ensures '.' !in r && NoUppercase(r)
    ensures |r| <= |value|
  {
    RemoveFacts(value, '.');
    Lowercase(Remove(value, '.'))
  }

  /** A sanitised string has no `.` and no capital, and every character in it
      other than a letter was already in the input. */
  lemma {:induction false} SanitizeShape(value: string)
    ensures '.' !in Sanitize(value)
    ensures NoUppercase(Sanitize(value))
    ensures forall c :: c in Sanitize(value) && !IsAlphabetic(c) ==> c in value
  {
    RemoveFacts(value, '.');
  }

  /** Without a `.`, sanitising is lower-casing. */
  lemma {:induction false} SanitizeWithoutDots(value: string)
    requires '.' !in value
    ensures Sanitize(value) == Lowercase(value)
  {
    RemoveAbsent(value, '.');
  }

  /** A `.` vanishes from between the two parts around it. */
  lemma {:induction false} SanitizeAtDot(value: string, i: nat)
    requires i < |value| && value[i] == '.'
    ensures Sanitize(value) == Sanitize(value[..i]) + Sanitize(value[i + 1..])
  {
    RemoveAt(value, i, '.');
  }

  /** Sanitising twice is sanitising once. */
  lemma {:induction false} SanitizeIdempotent(value: string)
    ensures Sanitize(Sanitize(value)) == Sanitize(value)
  {
    SanitizeShape(value);
    SanitizeFixedPoints(Sanitize(value));
  }

  /** The strings sanitising leaves alone are exactly the lower-case strings
      without a `.`: the only keys a sanitised lookup can ever hit. */
  lemma {:induction false} SanitizeFixedPoints(value: string)
    ensures Sanitize(value) == value <==> '.' !in value && NoUppercase(value)
  {
    SanitizeShape(value);
    if '.' !in value && NoUppercase(value) {
      RemoveAbsent(value, '.');
      LowercaseKeepsLowercase(value);
    }
  }

  // ---------------------------------------------------------------------------
  // References and their rendering

  datatype Reference =
    | BookChapter(bookId: BookId, chapter: u8)
    | BookChapterNumber(bookId: BookId, chapter: u8, number: u8)

  /** The display abbreviation of the reference's book; the source unwraps the
      lookup, so the book must be in the text's table. */
  function GetBookAbbreviation(tables: Tables, r: Reference, text: TextId): (a: string)
    requires r.bookId in FindBooksByText(tables, text)
    ensures GetByBookIdAndText(tables, r.bookId, text) == Some(BookInfo(a, FindBooksByText(tables, text)[r.bookId].chapterCount))
  {
    FindBooksByText(tables, text)[r.bookId].abbreviation
  }

  function GetChapter(r: Reference): (c: u8)
    ensures r.BookChapter? ==> r == BookChapter(r.bookId, c)
    ensures r.BookChapterNumber? ==> r == BookChapterNumber(r.bookId, c, r.number)
  {
    match r
    case BookChapter(_, chapter) => chapter
    case BookChapterNumber(_, chapter, _) => chapter
  }

  function GetNumber(r: Reference): (n: Option<u8>)
    ensures n.Some? <==> r.BookChapterNumber?
    ensures n.Some? ==> r == BookChapterNumber(r.bookId, r.chapter, n.value)
  {
    match r
    case BookChapterNumber(_, _, number) => Some(number)
    case _ => None
  }

  const Undefined := "undefined"

  /** `Reference::to_string`: `"<abbreviation> <chapter>"` or
      `"<abbreviation> <chapter>:<number>"`, with "undefined" in place of a
      book the text's table does not know. */
  function ReferenceToString(tables: Tables, r: Reference, text: TextId): (s: string)
    ensures |s| > 0 && IsDigit(s[|s| - 1])
  {
    match r
    case BookChapter(bookId, chapter) =>
      var abbreviation := match GetByBookIdAndText(tables, bookId, text)
        case Some(info) => info.abbreviation
        case None => Undefined;
      abbreviation + " " + Decimal(chapter as nat)
    case BookChapterNumber(bookId, chapter, number) =>
      var abbreviation := match GetByBookIdAndText(tables, bookId, text)
        case Some(info) => info.abbreviation
        case None => Undefined;
      abbreviation + " " + (Decimal(chapter as nat) + ":" + Decimal(number as nat))
  }

  /** Printing a reference piece by piece through its accessors, as the
      command-line tool does, gives the same text as `ReferenceToString`. */
  lemma {:induction false} AccessorsRender(tables: Tables, r: Reference, text: TextId)
    requires r.bookId in FindBooksByText(tables, text)
    ensures ReferenceToString(tables, r, text)
         == GetBookAbbreviation(tables, r, text) + " " + Decimal(GetChapter(r) as nat)
            + match GetNumber(r) case Some(n) => ":" + Decimal(n as nat) case None => ""
  {
  }

  // ---------------------------------------------------------------------------
  // The strict parser

  /** A reference names a book of the text and a chapter the book has. */
  function ValidReference(tables: Tables, text: TextId, r: Reference): (ok: bool)
    ensures ok <==>
      var info := GetByBookIdAndText(tables, r.bookId, text);
      info.Some? && 1 <= r.chapter <= info.value.chapterCount
  {
    var books := FindBooksByText(tables, text);
    r.bookId in books && 1 <= r.chapter <= books[r.bookId].chapterCount
  }

  /** `parse_reference_by_text`: the trimmed input must split on single spaces
      into exactly a book abbreviation and `chapter` or `chapter:number`; the
      abbreviation, once sanitised, must be a key of the text's table. */
  function ParseReferenceByText(tables: Tables, reference: string, text: TextId): (r: Option<Reference>)
    ensures r.Some? ==> ValidReference(tables, text, r.value)
    ensures r.Some? ==>
      var parts := Split(Trim(reference), ' ');
      |parts| == 2 && FindBySanitizedAbbreviation(tables, text, Sanitize(parts[0])) == Some(r.value.bookId)
  {
    var parts := Split(Trim(reference), ' ');
    if |parts| != 2 then None
    else
      match FindBySanitizedAbbreviation(tables, text, Sanitize(parts[0]))
      case None => None
      case Some(bookId) =>
        var books := FindBooksByText(tables, text);
        if bookId !in books then None
        else ParseChapterAndNumber(bookId, books[bookId].chapterCount, parts[1])
  }

  /** The second part of a reference: `chapter` or `chapter:number`, where the
      chapter must lie between 1 and the book's chapter count and the number
      only has to be a byte. */
  function ParseChapterAndNumber(bookId: BookId, chapterCount: u8, part: string): (r: Option<Reference>)
    ensures r.Some? ==> r.value.bookId == bookId && 1 <= r.value.chapter <= chapterCount
    ensures r.Some? ==> |Split(part, ':')| == (if r.value.BookChapter? then 1 else 2)
    ensures r.Some? ==> ParseU8(Split(part, ':')[0]) == Some(r.value.chapter)
    ensures r.Some? && r.value.BookChapterNumber? ==> ParseU8(Split(part, ':')[1]) == Some(r.value.number)
  {
    var fields := Split(part, ':');
    if |fields| == 1 then
      match ParseU8(fields[0])
      case None => None
      case Some(chapter) =>
        if chapter < 1 || chapter > chapterCount then None
        else Some(BookChapter(bookId, chapter))
    else if |fields| == 2 then
      match ParseU8(fields[0])
      case None => None
      case Some(chapter) =>
        if chapter < 1 || chapter > chapterCount then None
        else
          match ParseU8(fields[1])
          case None => None
          case Some(number) => Some(BookChapterNumber(bookId, chapter, number))
    else None
  }

  /** The converse: every tail that `parse::<u8>` accepts with a chapter in
      range is read, not only tails written the way `to_string` writes them;
      "+1" and "01" are chapter 1 as much as "1" is. */
  lemma {:induction false} ParseChapterAndNumberAccepts(bookId: BookId, chapterCount: u8, part: string)
    ensures var fields := Split(part, ':');
      |fields| == 1 && ParseU8(fields[0]).Some? && 1 <= ParseU8(fields[0]).value <= chapterCount ==>
        ParseChapterAndNumber(bookId, chapterCount, part) == Some(BookChapter(bookId, ParseU8(fields[0]).value))
    ensures var fields := Split(part, ':');
      |fields| == 2 && ParseU8(fields[0]).Some? && 1 <= ParseU8(fields[0]).value <= chapterCount
      && ParseU8(fields[1]).Some? ==>
        ParseChapterAndNumber(bookId, chapterCount, part)
        == Some(BookChapterNumber(bookId, ParseU8(fields[0]).value, ParseU8(fields[1]).value))
    ensures |Split(part, ':')| > 2 ==> ParseChapterAndNumber(bookId, chapterCount, part) == None
  {
  }

  /** A chapter written with a leading zero or a plus sign is read. */
  lemma {:induction false} ParsesPaddedChapter(part: string)
    requires part == "01" || part == "+1"
    ensures ParseChapterAndNumber(John, 21, part) == Some(BookChapter(John, 1))
  {
    SplitWithout(part, ':');
    ParseChapterAndNumberAccepts(John, 21, part);
    if part == "01" {
      assert part[..1] == "0" && "0"[..0] == [];
      assert DecimalValue(part) == 1;
    } else {
      assert part[1..] == "1" && "1"[..0] == [];
      assert DecimalValue(part[1..]) == 1;
    }
  }

  /** A reference parses only when its trimmed text has exactly one space and
      its second part at most one colon. */
  lemma {:induction false} ParseShape(tables: Tables, reference: string, text: TextId)
    requires ParseReferenceByText(tables, reference, text).Some?
    ensures Occurrences(Trim(reference), ' ') == 1
    ensures Occurrences(Split(Trim(reference), ' ')[1], ':') <= 1
  {
    SplitCount(Trim(reference), ' ');
    SplitCount(Split(Trim(reference), ' ')[1], ':');
  }

  /** `parse_references_by_text`: one result per `;`-separated part, in order. */
  function ParseReferencesByText(tables: Tables, reference: string, text: TextId): (rs: seq<Option<Reference>>)
    ensures |rs| == Occurrences(reference, ';') + 1
    ensures forall i :: 0 <= i < |Split(reference, ';')| ==>
      i < |rs| && rs[i] == ParseReferenceByText(tables, Split(reference, ';')[i], text)
  {
    var parts := Split(reference, ';');
    SplitCount(reference, ';');
    seq(|parts|, i requires 0 <= i < |parts| => ParseReferenceByText(tables, parts[i], text))
  }

  /** Two references separated by `;` are read one after the other. */
  lemma {:induction false} ParseTwoReferences(tables: Tables, left: string, right: string, text: TextId)
    requires ';' !in left && ';' !in right
    ensures ParseReferencesByText(tables, left + ";" + right, text)
         == [ParseReferenceByText(tables, left, text), ParseReferenceByText(tables, right, text)]
  {
    ParseReferencesByParts(tables, [left, right], text);
    assert Join([left, right], ';') == left + ";" + right;
  }

  /** Parts joined with `;` are parsed each on its own: a part that fails is
      None in its own place and does not affect the others. */
  lemma {:induction false} ParseReferencesByParts(tables: Tables, parts: seq<string>, text: TextId)
    requires |parts| >= 1
    requires forall p :: p in parts ==> ';' !in p
    ensures var rs := ParseReferencesByText(tables, Join(parts, ';'), text);
      && |rs| == |parts|
      && forall i :: 0 <= i < |parts| ==> rs[i] == ParseReferenceByText(tables, parts[i], text)
  {
    SplitJoin(parts, ';');
  }

  /** The strict parser reaches a book only through a key without spaces, dots
      or capitals: keys such as "1 moos" or "joh." can never be hit. */
  lemma {:induction false} ParseReachesOnlyPlainKeys(tables: Tables, reference: string, text: TextId)
    requires ParseReferenceByText(tables, reference, text).Some?
    ensures exists key ::
      && key in AbbreviationsByText(tables, text)
      && ' ' !in key && '.' !in key && NoUppercase(key)
      && AbbreviationsByText(tables, text)[key] == ParseReferenceByText(tables, reference, text).value.bookId
  {
    var parts := Split(Trim(reference), ' ');
    var key := Sanitize(parts[0]);
    assert parts[0] in parts;
    SanitizeShape(parts[0]);
    assert ' ' !in key;
  }

  // ---------------------------------------------------------------------------
  // Rendering and parsing are inverse

  /** A book of a text renders to text the text's own parser reads back: its
      display abbreviation is non-empty, starts with a non-space, has no inner
      space, and sanitises to a key of that book. */
  predicate ReadableBook(tables: Tables, text: TextId, b: BookId)
    requires b in FindBooksByText(tables, text)
  {
    var a := FindBooksByText(tables, text)[b].abbreviation;
    && a != []
    && !IsWhitespace(a[0])
    && ' ' !in a
    && FindBySanitizedAbbreviation(tables, text, Sanitize(a)) == Some(b)
  }

  /** Every book a text can display renders readably. */
  predicate RendersReadably(tables: Tables, text: TextId) {
    forall b | b in FindBooksByText(tables, text) :: ReadableBook(tables, text, b)
  }

  /** Parsing the rendering of a valid reference in the same text gives the
      reference back. */
  lemma {:induction false} RoundTrip(tables: Tables, text: TextId, r: Reference)
    requires RendersReadably(tables, text)
    requires ValidReference(tables, text, r)
    ensures ParseReferenceByText(tables, ReferenceToString(tables, r, text), text) == Some(r)
  {
    var a := FindBooksByText(tables, text)[r.bookId].abbreviation;
    assert ReferenceToString(tables, r, text) == a + " " + RenderedTail(r);
    assert ReadableBook(tables, text, r.bookId);
    ReadsBack(tables, text, a, r);
  }

  /** Any one-word book name that sanitises to a key of the reference's book,
      followed by a space and the reference's chapter (and number), is read as
      the reference exactly when the reference is valid in the text. */
  lemma {:induction false} ReadsBack(tables: Tables, text: TextId, a: string, r: Reference)
    requires a != [] && !IsWhitespace(a[0]) && ' ' !in a
    requires FindBySanitizedAbbreviation(tables, text, Sanitize(a)) == Some(r.bookId)
    ensures ParseReferenceByText(tables, a + " " + RenderedTail(r), text)
         == if ValidReference(tables, text, r) then Some(r) else None
  {
    var tail := RenderedTail(r);
    RenderedSplits(a, tail);
    ParseParts(tables, text, a, tail);
    var books := FindBooksByText(tables, text);
    if r.bookId in books {
      TailRoundTrip(r, books[r.bookId].chapterCount);
    }
  }

  /** An input that is already trimmed and splits into a book name and a tail
      is looked up by the book name and then read by its tail. */
  lemma {:induction false} ParseParts(tables: Tables, text: TextId, a: string, tail: string)
    requires Trim(a + " " + tail) == a + " " + tail
    requires Split(a + " " + tail, ' ') == [a, tail]
    ensures ParseReferenceByText(tables, a + " " + tail, text)
         == match FindBySanitizedAbbreviation(tables, text, Sanitize(a))
            case None => None
            case Some(b) =>
              if b in FindBooksByText(tables, text)
              then ParseChapterAndNumber(b, FindBooksByText(tables, text)[b].chapterCount, tail)
              else None
  {
  }

  /** The chapter-and-number part of a rendering is read back as the
      reference exactly when its chapter is within the book. */
  lemma {:induction false} TailRoundTrip(r: Reference, chapterCount: u8)
    ensures ParseChapterAndNumber(r.bookId, chapterCount, RenderedTail(r))
         == if 1 <= r.chapter <= chapterCount then Some(r) else None
  {
    DecimalParses(r.chapter);
    if r.BookChapterNumber? {
      DecimalParses(r.number);
    }
  }

  /** What `ReferenceToString` puts after the abbreviation and the space. */
  function RenderedTail(r: Reference): (tail: string)
    ensures tail != [] && IsDigit(tail[|tail| - 1]) && ' ' !in tail
    ensures r.BookChapter? ==> Split(tail, ':') == [Decimal(r.chapter as nat)]
    ensures r.BookChapterNumber? ==>
      Split(tail, ':') == [Decimal(r.chapter as nat), Decimal(r.number as nat)]
  {
    var chapter := Decimal(r.chapter as nat);
    DecimalHasNo(r.chapter as nat, ' ');
    DecimalHasNo(r.chapter as nat, ':');
    match r
    case BookChapter(_, _) =>
      SplitWithout(chapter, ':');
      chapter
    case BookChapterNumber(_, _, n) =>
      var number := Decimal(n as nat);
      DecimalHasNo(n as nat, ' ');
      DecimalHasNo(n as nat, ':');
      SplitJoin([chapter, number], ':');
      chapter + ":" + number
  }

  /** Two words joined by one space trim to themselves and split back. */
  lemma {:induction false} RenderedSplits(a: string, tail: string)
    requires a != [] && !IsWhitespace(a[0]) && ' ' !in a
    requires tail != [] && !IsWhitespace(tail[|tail| - 1]) && ' ' !in tail
    ensures Trim(a + " " + tail) == a + " " + tail
    ensures Split(a + " " + tail, ' ') == [a, tail]
  {
    var s := a + " " + tail;
    assert s[0] == a[0] && s[|s| - 1] == tail[|tail| - 1];
    SplitJoin([a, tail], ' ');
  }

  /** Only the trimmed input matters to the strict parser. */
  lemma {:induction false} ParseDependsOnTrim(tables: Tables, u: string, v: string, text: TextId)
    requires Trim(u) == Trim(v)
    ensures ParseReferenceByText(tables, u, text) == ParseReferenceByText(tables, v, text)
  {
  }

  // ---------------------------------------------------------------------------
  // Inputs the strict parser refuses

  /** An input with no space once trimmed ("1", "Nothing", "Matt") is not a
      reference. */
  lemma {:induction false} RejectsOneWord(tables: Tables, reference: string, text: TextId)
    requires ' ' !in Trim(reference)
    ensures ParseReferenceByText(tables, reference, text) == None
  {
    SplitWithout(Trim(reference), ' ');
  }

  /** A book name that does not sanitise to a key of the text ("Mat." becomes
      "mat") is not a reference, whatever follows it. */
  lemma {:induction false} RejectsUnknownBook(tables: Tables, text: TextId, a: string, tail: string)
    requires a != [] && !IsWhitespace(a[0]) && ' ' !in a
    requires tail != [] && !IsWhitespace(tail[|tail| - 1]) && ' ' !in tail
    requires Sanitize(a) !in AbbreviationsByText(tables, text)
    ensures ParseReferenceByText(tables, a + " " + tail, text) == None
  {
    RenderedSplits(a, tail);
    ParseParts(tables, text, a, tail);
  }

  /** More than one space between the parts, or a third part, is refused:
      the input must split into exactly two pieces. */
  lemma {:induction false} RejectsManySpaces(tables: Tables, reference: string, text: TextId)
    requires Occurrences(Trim(reference), ' ') != 1
    ensures ParseReferenceByText(tables, reference, text) == None
  {
    SplitCount(Trim(reference), ' ');
  }

  /** Converting between texts: a reference read in one text and rendered in
      another is read back the same in the other, provided both texts render
      readably and agree on the book's chapter count. */
  lemma {:induction false} ConvertRoundTrip(tables: Tables, from: TextId, to: TextId, reference: string)
    requires RendersReadably(tables, to)
    requires ParseReferenceByText(tables, reference, from).Some?
    requires var b := ParseReferenceByText(tables, reference, from).value.bookId;
      b in FindBooksByText(tables, to)
      && FindBooksByText(tables, to)[b].chapterCount == FindBooksByText(tables, from)[b].chapterCount
    ensures var r := ParseReferenceByText(tables, reference, from).value;
      ParseReferenceByText(tables, ReferenceToString(tables, r, to), to) == Some(r)
  {
    RoundTrip(tables, to, ParseReferenceByText(tables, reference, from).value);
  }

  /** A display abbreviation with a space in it never reads back: its
      rendering has two spaces, and the parser wants exactly one. */
  lemma {:induction false} SpacedBookNeverReadsBack(tables: Tables, text: TextId, r: Reference)
    requires r.bookId in FindBooksByText(tables, text)
    requires var a := FindBooksByText(tables, text)[r.bookId].abbreviation;
      a != [] && !IsWhitespace(a[0]) && ' ' in a
    ensures ParseReferenceByText(tables, ReferenceToString(tables, r, text), text) == None
  {
    var a, tail := FindBooksByText(tables, text)[r.bookId].abbreviation, RenderedTail(r);
    var s := a + " " + tail;
    assert ReferenceToString(tables, r, text) == s;
    assert s[0] == a[0] && s[|s| - 1] == tail[|tail| - 1];
    assert Trim(s) == s;
    SeparatorTwice(a, tail, ' ');
    RejectsManySpaces(tables, s, text);
  }

  /** `to_string` shows the display abbreviation of a book the text knows ... */
  lemma {:induction false} RendersDisplay(tables: Tables, r: Reference, text: TextId)
    requires r.bookId in FindBooksByText(tables, text)
    ensures ReferenceToString(tables, r, text)
         == FindBooksByText(tables, text)[r.bookId].abbreviation + " " + RenderedTail(r)
  {
  }

  /** ... and "undefined" in place of a book it does not. */
  lemma {:induction false} RendersUndefined(tables: Tables, r: Reference, text: TextId)
    requires r.bookId !in FindBooksByText(tables, text)
    ensures ReferenceToString(tables, r, text) == Undefined + " " + RenderedTail(r)
  {
  }

  // ---------------------------------------------------------------------------
  // The two-book tables

  /** A book renders readably once its display abbreviation is known to be a
      single word that sanitises to one of the book's keys. */
  lemma {:induction false} ReadableByKey(tables: Tables, text: TextId, b: BookId, key: string)
    requires b in FindBooksByText(tables, text)
    requires var a := FindBooksByText(tables, text)[b].abbreviation;
      a != [] && !IsWhitespace(a[0]) && ' ' !in a && Sanitize(a) == key
    requires key in AbbreviationsByText(tables, text)
    requires AbbreviationsByText(tables, text)[key] == b
    ensures ReadableBook(tables, text, b)
  {
  }

  /** What the English display abbreviations of src/bible.rs sanitise to. */
  lemma {:induction false} EnDisplaySanitizes(a: string, key: string)
    requires (a == "Matthew" && key == "matthew") || (a == "John" && key == "john")
    ensures a != [] && !IsWhitespace(a[0]) && ' ' !in a
    ensures Sanitize(a) == key
  {
    SanitizeWithoutDots(a);
  }

  /** What the Finnish display abbreviations of src/bible.rs sanitise to: the
      trailing dot goes. */
  lemma {:induction false} FiDisplaySanitizes(a: string, key: string)
    requires (a == "Matt." && key == "matt") || (a == "Joh." && key == "joh")
    ensures a != [] && !IsWhitespace(a[0]) && ' ' !in a
    ensures Sanitize(a) == key
  {
    SanitizeAtDot(a, |a| - 1);
    SanitizeWithoutDots(a[..|a| - 1]);
  }

  /** The display abbreviations of src/bible.rs render readably in both texts:
      "Matthew", "John", "Matt." and "Joh." sanitise to keys of their books. */
  lemma {:induction false} BibleTablesRenderReadably()
    ensures RendersReadably(BibleTables, EnLSB)
    ensures RendersReadably(BibleTables, FiR1933_38)
  {
    BibleTablesRenderReadablyEn();
    BibleTablesRenderReadablyFi();
  }

  lemma {:induction false} BibleTablesRenderReadablyEn()
    ensures RendersReadably(BibleTables, EnLSB)
  {
    var en := FindBooksByText(BibleTables, EnLSB);
    EnDisplaySanitizes(en[Matthew].abbreviation, "matthew");
    ReadableByKey(BibleTables, EnLSB, Matthew, "matthew");
    EnDisplaySanitizes(en[John].abbreviation, "john");
    ReadableByKey(BibleTables, EnLSB, John, "john");
  }

  lemma {:induction false} BibleTablesRenderReadablyFi()
    ensures RendersReadably(BibleTables, FiR1933_38)
  {
    var fi := FindBooksByText(BibleTables, FiR1933_38);
    FiDisplaySanitizes(fi[Matthew].abbreviation, "matt");
    ReadableByKey(BibleTables, FiR1933_38, Matthew, "matt");
    FiDisplaySanitizes(fi[John].abbreviation, "joh");
    ReadableByKey(BibleTables, FiR1933_38, John, "joh");
  }

  /** The tables of src/bible.rs list Matthew with 28 chapters and John with
      21 in both texts, and every abbreviation key names one of them. */
  lemma {:induction false} BibleTablesContents(text: TextId)
    ensures FindBooksByText(BibleTables, text).Keys == {Matthew, John}
    ensures FindBooksByText(BibleTables, text)[Matthew].chapterCount == 28
    ensures FindBooksByText(BibleTables, text)[John].chapterCount == 21
    ensures forall k | k in AbbreviationsByText(BibleTables, text) ::
      AbbreviationsByText(BibleTables, text)[k] in FindBooksByText(BibleTables, text)
  {
  }

  /** On the tables of src/bible.rs every valid reference survives rendering
      and parsing in the same text. */
  lemma {:induction false} BibleTablesRoundTrip(text: TextId, r: Reference)
    requires ValidReference(BibleTables, text, r)
    ensures ParseReferenceByText(BibleTables, ReferenceToString(BibleTables, r, text), text) == Some(r)
  {
    BibleTablesRenderReadably();
    RoundTrip(BibleTables, text, r);
  }

  // ---------------------------------------------------------------------------
  // The unit tests of src/bible.rs, on the two-book tables. Each input is
  // given as its book word and its tail. The words are parameters fixed by a
  // `requires` rather than literals in the lemma body, which keeps each proof
  // about one concrete string small.

  /** What the book words of the unit tests sanitise to. */
  lemma {:induction false} ExampleWordSanitizes(a: string, key: string)
    requires || (a == "Joh" && key == "joh")
             || (a == "matt" && key == "matt")
             || (a == "Matt" && key == "matt")
    ensures a != [] && !IsWhitespace(a[0]) && ' ' !in a
    ensures Sanitize(a) == key
  {
    SanitizeWithoutDots(a);
  }

  /** The misspelt dotted word of the unit tests sanitises without its dot;
      the other dotted words are the Finnish display names
      (`FiDisplaySanitizes`). */
  lemma {:induction false} ExampleDottedWordSanitizes(a: string, key: string)
    requires a == "Mat." && key == "mat"
    ensures a != [] && !IsWhitespace(a[0]) && ' ' !in a
    ensures Sanitize(a) == key
  {
    SanitizeAtDot(a, |a| - 1);
    SanitizeWithoutDots(a[..|a| - 1]);
  }

  /** "Joh 1" read in the Finnish text is John 1, rendered in English as
      "John 1". */
  lemma {:induction false} ConvertsJohnOne(book: string, tail: string)
    requires book == "Joh" && tail == "1"
    ensures ParseReferenceByText(BibleTables, book + " " + tail, FiR1933_38) == Some(BookChapter(John, 1))
    ensures ReferenceToString(BibleTables, BookChapter(John, 1), EnLSB) == "John 1"
  {
    ExampleWordSanitizes(book, "joh");
    ReadsBack(BibleTables, FiR1933_38, book, BookChapter(John, 1));
    assert RenderedTail(BookChapter(John, 1)) == tail;
  }

  /** "Joh 0" and "Joh 22" name chapters John does not have. */
  lemma {:induction false} RejectsMissingChapter(book: string, tail: string, chapter: u8)
    requires book == "Joh"
    requires (tail == "0" && chapter == 0) || (tail == "22" && chapter == 22)
    ensures ParseReferenceByText(BibleTables, book + " " + tail, FiR1933_38) == None
  {
    ExampleWordSanitizes(book, "joh");
    ReadsBack(BibleTables, FiR1933_38, book, BookChapter(John, chapter));
    assert RenderedTail(BookChapter(John, chapter)) == tail;
  }

  /** "1", "Nothing" and "Matt" are one word only; "Mat. 1" names no book. */
  lemma {:induction false} RejectsMalformed(reference: string, book: string, tail: string)
    requires reference == "1" || reference == "Nothing" || reference == "Matt"
    requires book == "Mat." && tail == "1"
    ensures ParseReferenceByText(BibleTables, reference, FiR1933_38) == None
    ensures ParseReferenceByText(BibleTables, book + " " + tail, FiR1933_38) == None
  {
    RejectsOneWord(BibleTables, reference, FiR1933_38);
    ExampleDottedWordSanitizes(book, "mat");
    RejectsUnknownBook(BibleTables, FiR1933_38, book, tail);
  }

  /** "matt 1" is Matthew 1, and so is "Matt 1". */
  lemma {:induction false} ParsesMatthew(book: string, tail: string)
    requires book == "matt" || book == "Matt"
    requires tail == "1"
    ensures ParseReferenceByText(BibleTables, book + " " + tail, FiR1933_38) == Some(BookChapter(Matthew, 1))
  {
    ExampleWordSanitizes(book, "matt");
    ReadsBack(BibleTables, FiR1933_38, book, BookChapter(Matthew, 1));
    assert RenderedTail(BookChapter(Matthew, 1)) == tail;
  }

  /** "Matt. 1" and "Matt. 10" are chapters of Matthew. */
  lemma {:induction false} ParsesDottedMatthew(book: string, tail: string, chapter: u8)
    requires book == "Matt."
    requires (tail == "1" && chapter == 1) || (tail == "10" && chapter == 10)
    ensures ParseReferenceByText(BibleTables, book + " " + tail, FiR1933_38) == Some(BookChapter(Matthew, chapter))
  {
    FiDisplaySanitizes(book, "matt");
    ReadsBack(BibleTables, FiR1933_38, book, BookChapter(Matthew, chapter));
    assert RenderedTail(BookChapter(Matthew, chapter)) == tail;
  }

  /** "Joh. 1" is John 1. */
  lemma {:induction false} ParsesDottedJohn(book: string, tail: string)
    requires book == "Joh." && tail == "1"
    ensures ParseReferenceByText(BibleTables, book + " " + tail, FiR1933_38) == Some(BookChapter(John, 1))
  {
    FiDisplaySanitizes(book, "joh");
    ReadsBack(BibleTables, FiR1933_38, book, BookChapter(John, 1));
    assert RenderedTail(BookChapter(John, 1)) == tail;
  }

  /** What src/main.rs prints: "Joh. 1" read in the Finnish text is John 1,
      and printed through the accessors it is "Joh. 1" again. */
  lemma {:induction false} MainPrintsJohnOne(book: string, tail: string)
    requires book == "Joh." && tail == "1"
    ensures ParseReferenceByText(BibleTables, book + " " + tail, FiR1933_38) == Some(BookChapter(John, 1))
    ensures var r := BookChapter(John, 1);
      && GetNumber(r) == None
      && "Reference: " + GetBookAbbreviation(BibleTables, r, FiR1933_38) + " " + Decimal(GetChapter(r) as nat)
         == "Reference: " + book + " " + tail
  {
    ParsesDottedJohn(book, tail);
    var r := BookChapter(John, 1);
    AccessorsRender(BibleTables, r, FiR1933_38);
    assert RenderedTail(r) == tail;
  }

  /** "Joh 1:1" is the first verse of John. */
  lemma {:induction false} ParsesFirstVerse(book: string, tail: string)
    requires book == "Joh" && tail == "1:1"
    ensures ParseReferenceByText(BibleTables, book + " " + tail, FiR1933_38)
         == Some(BookChapterNumber(John, 1, 1))
  {
    var r := BookChapterNumber(John, 1, 1);
    ExampleWordSanitizes(book, "joh");
    ReadsBack(BibleTables, FiR1933_38, book, r);
    assert RenderedTail(r) == tail;
  }

  /** "Joh 20:23" is John 20:23. */
  lemma {:induction false} ParsesVerse(book: string, tail: string, chapter: u8, number: u8)
    requires book == "Joh" && tail == "20:23" && chapter == 20 && number == 23
    ensures ParseReferenceByText(BibleTables, book + " " + tail, FiR1933_38)
         == Some(BookChapterNumber(John, chapter, number))
  {
    var r := BookChapterNumber(John, chapter, number);
    ExampleWordSanitizes(book, "joh");
    VerseTail(r, tail);
    ReadsBack(BibleTables, FiR1933_38, book, r);
  }

  /** "Matt 1; Joh. 1" is read as Matthew 1 and John 1: the space after the
      `;` is trimmed away. */
  lemma {:induction false} ParsesTwoChapters(book1: string, tail1: string, book2: string, tail2: string)
    requires book1 == "Matt" && tail1 == "1" && book2 == "Joh." && tail2 == "1"
    ensures ParseReferencesByText(BibleTables, (book1 + " " + tail1) + ";" + (" " + (book2 + " " + tail2)), FiR1933_38)
         == [Some(BookChapter(Matthew, 1)), Some(BookChapter(John, 1))]
  {
    ExamplesSeparable(tail1, tail2);
    ParsesMatthew(book1, tail1);
    ParsesDottedJohn(book2, tail2);
    TwoParts(book1, tail1, book2, tail2, Some(BookChapter(Matthew, 1)), Some(BookChapter(John, 1)));
  }

  /** "Matt 19:18; Joh. 11:12" is read as Matthew 19:18 and John 11:12. */
  lemma {:induction false} ParsesTwoVerses(book1: string, tail1: string, book2: string, tail2: string)
    requires book1 == "Matt" && tail1 == "19:18" && book2 == "Joh." && tail2 == "11:12"
    ensures ParseReferencesByText(BibleTables, (book1 + " " + tail1) + ";" + (" " + (book2 + " " + tail2)), FiR1933_38)
         == [Some(BookChapterNumber(Matthew, 19, 18)), Some(BookChapterNumber(John, 11, 12))]
  {
    ExamplesSeparable(tail1, tail2);
    ParsesMatthewVerse(book1, tail1);
    ParsesDottedJohnVerse(book2, tail2);
    TwoParts(book1, tail1, book2, tail2, Some(BookChapterNumber(Matthew, 19, 18)), Some(BookChapterNumber(John, 11, 12)));
  }

  /** "Matt 19:18" is Matthew 19:18. */
  lemma {:induction false} ParsesMatthewVerse(book: string, tail: string)
    requires book == "Matt" && tail == "19:18"
    ensures ParseReferenceByText(BibleTables, book + " " + tail, FiR1933_38)
         == Some(BookChapterNumber(Matthew, 19, 18))
  {
    var r := BookChapterNumber(Matthew, 19, 18);
    ExampleWordSanitizes(book, "matt");
    assert Decimal(19) == "19" && Decimal(18) == "18";
    assert RenderedTail(r) == tail;
    ReadsBack(BibleTables, FiR1933_38, book, r);
  }

  /** "Joh. 11:12" is John 11:12. */
  lemma {:induction false} ParsesDottedJohnVerse(book: string, tail: string)
    requires book == "Joh." && tail == "11:12"
    ensures ParseReferenceByText(BibleTables, book + " " + tail, FiR1933_38)
         == Some(BookChapterNumber(John, 11, 12))
  {
    var r := BookChapterNumber(John, 11, 12);
    FiDisplaySanitizes(book, "joh");
    assert Decimal(11) == "11" && Decimal(12) == "12";
    assert RenderedTail(r) == tail;
    ReadsBack(BibleTables, FiR1933_38, book, r);
  }

  /** No part holds a `;`, and the second reference neither starts nor ends
      with white space. */
  predicate Separable(book1: string, tail1: string, book2: string, tail2: string)
  {
    && ';' !in book1 && ';' !in tail1 && ';' !in book2 && ';' !in tail2
    && book2 != [] && !IsWhitespace(book2[0]) && tail2 != [] && !IsWhitespace(tail2[|tail2| - 1])
  }

  lemma {:induction false} ExamplesSeparable(tail1: string, tail2: string)
    requires (tail1 == "1" && tail2 == "1") || (tail1 == "19:18" && tail2 == "11:12")
    ensures Separable("Matt", tail1, "Joh.", tail2)
  {
  }

  /** Two one-word-and-tail references joined by "; " are read one after the
      other; the space before the second is trimmed away. */
  lemma {:induction false} TwoParts(book1: string, tail1: string, book2: string, tail2: string, a: Option<Reference>, b: Option<Reference>)
    requires Separable(book1, tail1, book2, tail2)
    requires ParseReferenceByText(BibleTables, book1 + " " + tail1, FiR1933_38) == a
    requires ParseReferenceByText(BibleTables, book2 + " " + tail2, FiR1933_38) == b
    ensures ParseReferencesByText(BibleTables, (book1 + " " + tail1) + ";" + (" " + (book2 + " " + tail2)), FiR1933_38)
         == [a, b]
  {
    var left, part := book1 + " " + tail1, book2 + " " + tail2;
    assert part[0] == book2[0] && part[|part| - 1] == tail2[|tail2| - 1];
    ParseTwoReferences(BibleTables, left, " " + part, FiR1933_38);
    TrimLeadingSpace(part);
    ParseDependsOnTrim(BibleTables, " " + part, part, FiR1933_38);
  }

  lemma {:induction false} VerseTail(r: Reference, tail: string)
    requires r.BookChapterNumber? && r.chapter == 20 && r.number == 23 && tail == "20:23"
    ensures RenderedTail(r) == tail
  {
    assert Decimal(r.chapter as nat) == "20" && Decimal(r.number as nat) == "23";
  }
}
