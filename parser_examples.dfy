/** The unit tests of src/lib.rs, each stated as what `Parse` returns on the
    test's input and proved from the general lemmas about the three forms and
    about the text before a book name. */
module ReferenceParserExamples {
  import opened Text
  import opened ReferenceParser
  import opened ReferenceParserProperties
  import opened ReferenceParserEdgeCases

  lemma {:induction false} JohnIsBookName()
    ensures IsBookName("John")
  {
    assert !IsDigit('J') && !IsDigit('o') && !IsDigit('h') && !IsDigit('n');
  }

  /** A range whose end verse is smaller than its start is refused. */
  lemma {:induction false} RangeBackwards()
    ensures Parse("John 3:2-1") == Err(InvalidRangeBetweenVerseNumbers)
  {
    JohnIsBookName();
    assert DecimalValue("3") == 3 && DecimalValue("2") == 2 && DecimalValue("1") == 1;
    ParsesRangeForm("John", "3", "2", "1");
    assert "John" + " " + "3" + ":" + "2" + "-" + "1" == "John 3:2-1";
  }

  /** A one-word book name and a chapter. */
  lemma {:induction false} ChapterOneWordBook()
    ensures Parse("John 3") == Ok(Chapter("John", 3))
  {
    JohnIsBookName();
    assert DecimalValue("3") == 3;
    ParsesChapterForm("John", "3");
    assert "John" + " " + "3" == "John 3";
  }

  /** The number in front of "1 John" is skipped with everything else before
      the first letter, so the book name is "John". */
  lemma {:induction false} ChapterTwoWordBook()
    ensures Parse("1 John 3") == Ok(Chapter("John", 3))
    ensures Parse("1 John 15") == Ok(Chapter("John", 15))
  {
    JohnIsBookName();
    assert DecimalValue("3") == 3 && DecimalValue("15") == 15;
    assert "1 John 3" == "1 John " + "3" && "1 John 15" == "1 John " + "15";
    LeadingNumberSkipped("1 John 3", "3");
    LeadingNumberSkipped("1 John 15", "15");
  }

  /** "1 John " followed by the digits `c`: the chapter `c` of John. */
  lemma {:induction false} LeadingNumberSkipped(s: string, c: string)
    requires IsBookName("John") && c != [] && AllDigits(c) && DecimalValue(c) < 256
    requires s == "1 John " + c
    ensures Parse(s) == Ok(Chapter("John", DecimalValue(c) as u8))
  {
    assert s[2..6] == "John" && s[6] == ' ' && s[7..7 + |c|] == c && |s| == 7 + |c|;
    assert NoLetterIn(s, 0, 2);
    SkipNonLetters(s, 0, 2);
    ScanBookAt(s, 2, "John");
    ScanChapterAt(s, 7, "John", c);
  }

  /** A single verse. */
  lemma {:induction false} OneVerse()
    ensures Parse("John 3:1") == Ok(Verse("John", 3, 1))
    ensures Parse("John 3:16") == Ok(Verse("John", 3, 16))
  {
    JohnIsBookName();
    assert DecimalValue("3") == 3 && DecimalValue("1") == 1 && DecimalValue("16") == 16;
    ParsesVerseForm("John", "3", "1");
    ParsesVerseForm("John", "3", "16");
    assert "John" + " " + "3" + ":" + "1" == "John 3:1";
    assert "John" + " " + "3" + ":" + "16" == "John 3:16";
  }

  /** A range of verses. */
  lemma {:induction false} ManyVerses()
    ensures Parse("John 3:1-2") == Ok(VerseFromTo("John", 3, 1, 2))
  {
    JohnIsBookName();
    assert DecimalValue("3") == 3 && DecimalValue("1") == 1 && DecimalValue("2") == 2;
    ParsesRangeForm("John", "3", "1", "2");
    assert "John" + " " + "3" + ":" + "1" + "-" + "2" == "John 3:1-2";
  }
}
