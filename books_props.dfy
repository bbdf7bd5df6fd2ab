/** Properties of the seven-book registry tables of src/books.rs, and what
    they mean for the strict parser and renderer of module Bible. */
module BooksProperties {
  import opened Text
  import opened Bible
  import opened Books

  predicate IsPentateuch(b: BookId) {
    b in {Genesis, Exodus, Leviticus, Numbers, Deuteronomy}
  }

  // ---------------------------------------------------------------------------
  // The shape of the tables

  /** Both texts know every book, so `to_string` never falls back to
      "undefined" and `get_book_abbreviation` never fails to unwrap. */
  lemma EveryBookKnown(b: BookId, text: TextId)
    ensures b in FindBooksByText(BooksTables, text)
    ensures GetByBookIdAndText(BooksTables, b, text).Some?
  {
  }

  /** Every book an abbreviation leads to has information in the same text. */
  lemma AbbreviationTargetsKnown(text: TextId)
    ensures forall key | key in AbbreviationsByText(BooksTables, text) ::
      AbbreviationsByText(BooksTables, text)[key] in FindBooksByText(BooksTables, text)
  {
    forall key | key in AbbreviationsByText(BooksTables, text)
      ensures AbbreviationsByText(BooksTables, text)[key] in FindBooksByText(BooksTables, text)
    {
      EveryBookKnown(AbbreviationsByText(BooksTables, text)[key], text);
    }
  }

  /** The chapter count of a book is at least one and the same in both texts. */
  lemma ChapterCountsAgree(b: BookId)
    ensures b in BookInfoForEnLsb && b in BookInfoForFiR1933_38
    ensures 1 <= BookInfoForEnLsb[b].chapterCount
    ensures BookInfoForEnLsb[b].chapterCount == BookInfoForFiR1933_38[b].chapterCount
  {
  }

  /** Both sides of a many-to-one table: two different keys lead to `b`. */
  predicate TwoKeysFor(m: map<string, BookId>, b: BookId, k1: string, k2: string) {
    k1 in m && k2 in m && k1 != k2 && m[k1] == b && m[k2] == b
  }

  /** Every book has at least two keys in the English table. */
  lemma EnglishKeysPerBook(b: BookId)
    ensures exists k1, k2 :: TwoKeysFor(BookAbbreviationsToIdsEn, b, k1, k2)
  {
    var en := BookAbbreviationsToIdsEn;
    if IsPentateuch(b) {
      EnglishKeysPerBookOfMoses(b);
    } else if b == Matthew {
      assert TwoKeysFor(en, b, "matt", "mt");
    } else {
      assert TwoKeysFor(en, b, "jh", "john");
    }
  }

  lemma EnglishKeysPerBookOfMoses(b: BookId)
    requires IsPentateuch(b)
    ensures exists k1, k2 :: TwoKeysFor(BookAbbreviationsToIdsEn, b, k1, k2)
  {
    var en := BookAbbreviationsToIdsEn;
    match b
    case Genesis => assert TwoKeysFor(en, b, "gen", "gn");
    case Exodus => assert TwoKeysFor(en, b, "ex", "exo");
    case Leviticus => assert TwoKeysFor(en, b, "lev", "lv");
    case Numbers => assert TwoKeysFor(en, b, "nm", "num");
    case Deuteronomy => assert TwoKeysFor(en, b, "de", "dt");
  }

  /** Every book has at least two keys in the Finnish table. */
  lemma FinnishKeysPerBook(b: BookId)
    ensures exists k1, k2 :: TwoKeysFor(BookAbbreviationsToIdsFi, b, k1, k2)
  {
    var fi := BookAbbreviationsToIdsFi;
    if IsPentateuch(b) {
      FinnishKeysPerBookOfMoses(b);
    } else if b == Matthew {
      assert TwoKeysFor(fi, b, "matt", "matteus");
    } else {
      assert TwoKeysFor(fi, b, "joh", "johannes");
    }
  }

  lemma FinnishKeysPerBookOfMoses(b: BookId)
    requires IsPentateuch(b)
    ensures exists k1, k2 :: TwoKeysFor(BookAbbreviationsToIdsFi, b, k1, k2)
  {
    var fi := BookAbbreviationsToIdsFi;
    match b
    case Genesis => assert TwoKeysFor(fi, b, "1mo", "1 moos");
    case Exodus => assert TwoKeysFor(fi, b, "2mo", "2 moos");
    case Leviticus => assert TwoKeysFor(fi, b, "3mo", "3 moos");
    case Numbers => assert TwoKeysFor(fi, b, "4mo", "4 moos");
    case Deuteronomy => assert TwoKeysFor(fi, b, "5mo", "5 moos");
  }

  /** Every English key is a word of lower-case ASCII letters. */
  lemma EnglishKeysArePlain()
    ensures forall key | key in BookAbbreviationsToIdsEn :: forall c | c in key :: 'a' <= c <= 'z'
  {
  }

  /** Every Finnish key is made of lower-case ASCII letters, the digits 1 to 5,
      spaces and dots; none has an upper-case letter. */
  lemma FinnishKeysAreLowercase()
    ensures forall key | key in BookAbbreviationsToIdsFi ::
      forall c | c in key :: c == ' ' || c == '.' || '1' <= c <= '5' || 'a' <= c <= 'z'
  {
  }

  /** The English keys are all reachable: each one is its own sanitisation. */
  lemma EnglishKeysReachable()
    ensures forall key | key in BookAbbreviationsToIdsEn :: Sanitize(key) == key
  {
    EnglishKeysArePlain();
    forall key | key in BookAbbreviationsToIdsEn
      ensures Sanitize(key) == key
    {
      assert '.' !in key && NoUppercase(key);
      SanitizeFixedPoints(key);
    }
  }

  /** The Finnish keys with a `.` ("1. moos.", "matt.", "joh." and the like)
      are never the sanitisation of anything, so no lookup reaches them. */
  lemma DottedKeysUnreachable(value: string)
    ensures forall key | key in BookAbbreviationsToIdsFi && '.' in key :: Sanitize(value) != key
  {
    SanitizeShape(value);
  }

  // ---------------------------------------------------------------------------
  // Display abbreviations

  /** The lower-cased English display name of every book is a key of that
      book. */
  lemma EnglishDisplayKeys()
    ensures "genesis" in BookAbbreviationsToIdsEn && BookAbbreviationsToIdsEn["genesis"] == Genesis
    ensures "exodus" in BookAbbreviationsToIdsEn && BookAbbreviationsToIdsEn["exodus"] == Exodus
    ensures "leviticus" in BookAbbreviationsToIdsEn && BookAbbreviationsToIdsEn["leviticus"] == Leviticus
    ensures "numbers" in BookAbbreviationsToIdsEn && BookAbbreviationsToIdsEn["numbers"] == Numbers
    ensures "deuteronomy" in BookAbbreviationsToIdsEn && BookAbbreviationsToIdsEn["deuteronomy"] == Deuteronomy
    ensures "matthew" in BookAbbreviationsToIdsEn && BookAbbreviationsToIdsEn["matthew"] == Matthew
    ensures "john" in BookAbbreviationsToIdsEn && BookAbbreviationsToIdsEn["john"] == John
  {
  }

  // The English names of the books of Moses are plain words; each one
  // sanitises to a key of its own book. There is one lemma per book because
  // a single lemma over all five names costs the solver more than the five
  // small ones together.

  lemma GenesisSanitizes(a: string)
    requires a == "Genesis"
    ensures a != [] && !IsWhitespace(a[0]) && ' ' !in a
    ensures Sanitize(a) == "genesis"
  {
    SanitizeWithoutDots(a);
  }

  lemma GenesisReadableInEnglish()
    ensures ReadableBook(BooksTables, EnLSB, Genesis)
  {
    var a := BookInfoForEnLsb[Genesis].abbreviation;
    GenesisSanitizes(a);
    EnglishDisplayKeys();
    ReadableByKey(BooksTables, EnLSB, Genesis, "genesis");
  }

  lemma ExodusSanitizes(a: string)
    requires a == "Exodus"
    ensures a != [] && !IsWhitespace(a[0]) && ' ' !in a
    ensures Sanitize(a) == "exodus"
  {
    SanitizeWithoutDots(a);
  }

  lemma ExodusReadableInEnglish()
    ensures ReadableBook(BooksTables, EnLSB, Exodus)
  {
    var a := BookInfoForEnLsb[Exodus].abbreviation;
    ExodusSanitizes(a);
    EnglishDisplayKeys();
    ReadableByKey(BooksTables, EnLSB, Exodus, "exodus");
  }

  lemma LeviticusSanitizes(a: string)
    requires a == "Leviticus"
    ensures a != [] && !IsWhitespace(a[0]) && ' ' !in a
    ensures Sanitize(a) == "leviticus"
  {
    SanitizeWithoutDots(a);
  }

  lemma LeviticusReadableInEnglish()
    ensures ReadableBook(BooksTables, EnLSB, Leviticus)
  {
    var a := BookInfoForEnLsb[Leviticus].abbreviation;
    LeviticusSanitizes(a);
    EnglishDisplayKeys();
    ReadableByKey(BooksTables, EnLSB, Leviticus, "leviticus");
  }

  lemma NumbersSanitizes(a: string)
    requires a == "Numbers"
    ensures a != [] && !IsWhitespace(a[0]) && ' ' !in a
    ensures Sanitize(a) == "numbers"
  {
    SanitizeWithoutDots(a);
  }

  lemma NumbersReadableInEnglish()
    ensures ReadableBook(BooksTables, EnLSB, Numbers)
  {
    var a := BookInfoForEnLsb[Numbers].abbreviation;
    NumbersSanitizes(a);
    EnglishDisplayKeys();
    ReadableByKey(BooksTables, EnLSB, Numbers, "numbers");
  }

  lemma DeuteronomySanitizes(a: string)
    requires a == "Deuteronomy"
    ensures a != [] && !IsWhitespace(a[0]) && ' ' !in a
    ensures Sanitize(a) == "deuteronomy"
  {
    SanitizeWithoutDots(a);
  }

  lemma DeuteronomyReadableInEnglish()
    ensures ReadableBook(BooksTables, EnLSB, Deuteronomy)
  {
    var a := BookInfoForEnLsb[Deuteronomy].abbreviation;
    DeuteronomySanitizes(a);
    EnglishDisplayKeys();
    ReadableByKey(BooksTables, EnLSB, Deuteronomy, "deuteronomy");
  }

  /** "n. Moos." sanitises to "n moos": both dots go, the space stays. */
  lemma MosesFinnishSanitizes(d: char, a: string, key: string)
    requires '1' <= d <= '5'
    requires a == [d] + ". Moos." && key == [d] + " moos"
    ensures a != [] && !IsWhitespace(a[0]) && ' ' in a
    ensures Sanitize(a) == key
  {
    assert a[2] == ' ';
    SanitizeAtDot(a, 1);
    var rest := a[2..];
    assert rest == " Moos.";
    SanitizeAtDot(rest, 5);
    SanitizeWithoutDots(rest[..5]);
    SanitizeWithoutDots(a[..1]);
    SanitizeWithoutDots(rest[6..]);
  }

  /** Each Finnish display name of a book of Moses sanitises to a key of the
      Finnish table that leads back to the same book ("1. Moos." to "1 moos");
      what keeps it from reading back is its space, not its key. */
  lemma FinnishMosesKey(b: BookId)
    requires IsPentateuch(b)
    ensures var key := Sanitize(BookInfoForFiR1933_38[b].abbreviation);
      key in BookAbbreviationsToIdsFi && BookAbbreviationsToIdsFi[key] == b
  {
    if b == Genesis || b == Exodus || b == Leviticus {
      FirstMosesKeys(b);
    } else {
      LastMosesKeys(b);
    }
  }

  lemma FirstMosesKeys(b: BookId)
    requires b == Genesis || b == Exodus || b == Leviticus
    ensures var key := Sanitize(BookInfoForFiR1933_38[b].abbreviation);
      key in BookAbbreviationsToIdsFi && BookAbbreviationsToIdsFi[key] == b
  {
    match b
    case Genesis => MosesKeyLeadsBack(b, '1', "1 moos");
    case Exodus => MosesKeyLeadsBack(b, '2', "2 moos");
    case Leviticus => MosesKeyLeadsBack(b, '3', "3 moos");
  }

  lemma LastMosesKeys(b: BookId)
    requires b == Numbers || b == Deuteronomy
    ensures var key := Sanitize(BookInfoForFiR1933_38[b].abbreviation);
      key in BookAbbreviationsToIdsFi && BookAbbreviationsToIdsFi[key] == b
  {
    match b
    case Numbers => MosesKeyLeadsBack(b, '4', "4 moos");
    case Deuteronomy => MosesKeyLeadsBack(b, '5', "5 moos");
  }

  lemma MosesKeyLeadsBack(b: BookId, d: char, key: string)
    requires '1' <= d <= '5'
    requires b in BookInfoForFiR1933_38 && BookInfoForFiR1933_38[b].abbreviation == [d] + ". Moos."
    requires key == [d] + " moos"
    requires key in BookAbbreviationsToIdsFi && BookAbbreviationsToIdsFi[key] == b
    ensures var key' := Sanitize(BookInfoForFiR1933_38[b].abbreviation);
      key' in BookAbbreviationsToIdsFi && BookAbbreviationsToIdsFi[key'] == b
  {
    MosesFinnishSanitizes(d, BookInfoForFiR1933_38[b].abbreviation, key);
  }

  // ---------------------------------------------------------------------------
  // What renders readably, and what round-trips

  lemma MatthewReadableInEnglish()
    ensures ReadableBook(BooksTables, EnLSB, Matthew)
  {
    var a := BookInfoForEnLsb[Matthew].abbreviation;
    EnDisplaySanitizes(a, "matthew");
    EnglishDisplayKeys();
    ReadableByKey(BooksTables, EnLSB, Matthew, "matthew");
  }

  lemma JohnReadableInEnglish()
    ensures ReadableBook(BooksTables, EnLSB, John)
  {
    var a := BookInfoForEnLsb[John].abbreviation;
    EnDisplaySanitizes(a, "john");
    EnglishDisplayKeys();
    ReadableByKey(BooksTables, EnLSB, John, "john");
  }

  /** Every English display name reads back as its own book. */
  lemma EnglishReadable(b: BookId)
    ensures ReadableBook(BooksTables, EnLSB, b)
    ensures var key := Sanitize(BookInfoForEnLsb[b].abbreviation);
      key in BookAbbreviationsToIdsEn && BookAbbreviationsToIdsEn[key] == b
  {
    match b
    case Genesis => GenesisReadableInEnglish();
    case Exodus => ExodusReadableInEnglish();
    case Leviticus => LeviticusReadableInEnglish();
    case Numbers => NumbersReadableInEnglish();
    case Deuteronomy => DeuteronomyReadableInEnglish();
    case Matthew => MatthewReadableInEnglish();
    case John => JohnReadableInEnglish();
  }

  /** In English, rendering a valid reference and parsing it back gives the
      reference. */
  lemma EnglishRoundTrip(r: Reference)
    requires ValidReference(BooksTables, EnLSB, r)
    ensures ParseReferenceByText(BooksTables, ReferenceToString(BooksTables, r, EnLSB), EnLSB) == Some(r)
  {
    forall b | b in FindBooksByText(BooksTables, EnLSB)
      ensures ReadableBook(BooksTables, EnLSB, b)
    {
      EnglishReadable(b);
    }
    RoundTrip(BooksTables, EnLSB, r);
  }

  /** The Finnish gospel abbreviations lose their dot and read back. */
  lemma FinnishGospelReadable(b: BookId)
    requires !IsPentateuch(b)
    ensures ReadableBook(BooksTables, FiR1933_38, b)
  {
    var fi := BookAbbreviationsToIdsFi;
    var a := BookInfoForFiR1933_38[b].abbreviation;
    if b == Matthew {
      FiDisplaySanitizes(a, "matt");
      assert "matt" in fi && fi["matt"] == b;
      ReadableByKey(BooksTables, FiR1933_38, b, "matt");
    } else {
      FiDisplaySanitizes(a, "joh");
      assert "joh" in fi && fi["joh"] == b;
      ReadableByKey(BooksTables, FiR1933_38, b, "joh");
    }
  }

  /** In Finnish, a valid reference to a gospel reads back. */
  lemma FinnishGospelRoundTrip(r: Reference)
    requires !IsPentateuch(r.bookId)
    requires ValidReference(BooksTables, FiR1933_38, r)
    ensures ParseReferenceByText(BooksTables, ReferenceToString(BooksTables, r, FiR1933_38), FiR1933_38) == Some(r)
  {
    var a := BookInfoForFiR1933_38[r.bookId].abbreviation;
    FinnishGospelReadable(r.bookId);
    assert ReferenceToString(BooksTables, r, FiR1933_38) == a + " " + RenderedTail(r);
    ReadsBack(BooksTables, FiR1933_38, a, r);
  }

  /** In Finnish, no reference to a book of Moses reads back: "1. Moos. 3"
      splits into three words, and the strict parser wants two. */
  lemma FinnishPentateuchNeverReadsBack(r: Reference)
    requires IsPentateuch(r.bookId)
    ensures ParseReferenceByText(BooksTables, ReferenceToString(BooksTables, r, FiR1933_38), FiR1933_38) == None
  {
    var a := BookInfoForFiR1933_38[r.bookId].abbreviation;
    var d := match r.bookId
      case Genesis => '1'
      case Exodus => '2'
      case Leviticus => '3'
      case Numbers => '4'
      case _ => '5';
    assert a == [d] + ". Moos.";
    assert a[2] == ' ';
    SpacedBookNeverReadsBack(BooksTables, FiR1933_38, r);
  }

  /** Whatever the Finnish parser accepts converts to English and reads back
      there unchanged. */
  lemma FinnishConvertsToEnglish(reference: string)
    requires ParseReferenceByText(BooksTables, reference, FiR1933_38).Some?
    ensures var r := ParseReferenceByText(BooksTables, reference, FiR1933_38).value;
      ParseReferenceByText(BooksTables, ReferenceToString(BooksTables, r, EnLSB), EnLSB) == Some(r)
  {
    var r := ParseReferenceByText(BooksTables, reference, FiR1933_38).value;
    ChapterCountsAgree(r.bookId);
    EnglishRoundTrip(r);
  }
}
