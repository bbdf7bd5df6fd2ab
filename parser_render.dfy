/** A canonical text for every parse result of src/lib.rs, "Book C",
    "Book C:V" or "Book C:V-E" with decimal numbers, and the proof that the
    parser reads it back: together with `ParseWellFormed` it says that the
    results `parse_reference` can return are exactly the well-formed ones. */
module ReferenceRendering {
  import opened Text
  import opened ReferenceParser
  import opened ReferenceParserProperties

  /** The canonical text of a parse result. */
  function ReferenceText(r: ReferenceParseResult): (t: string)
    ensures |r.bookName| < |t| && t[..|r.bookName|] == r.bookName && t[|r.bookName|] == ' '
  {
    match r
    case Chapter(w, c) => w + " " + Decimal(c as nat)
    case Verse(w, c, n) => w + " " + Decimal(c as nat) + ":" + Decimal(n as nat)
    case VerseFromTo(w, c, a, b) =>
      w + " " + Decimal(c as nat) + ":" + Decimal(a as nat) + "-" + Decimal(b as nat)
  }

  /** Every well-formed result is what the parser makes of its canonical
      text. */
  lemma {:induction false} RenderParses(r: ReferenceParseResult)
    requires WellFormed(r)
    ensures Parse(ReferenceText(r)) == Ok(r)
  {
    match r
    case Chapter(w, c) =>
      ParsesChapterForm(w, Decimal(c as nat));
    case Verse(w, c, n) =>
      ParsesVerseForm(w, Decimal(c as nat), Decimal(n as nat));
    case VerseFromTo(w, c, a, b) =>
      ParsesRangeForm(w, Decimal(c as nat), Decimal(a as nat), Decimal(b as nat));
  }

  /** Whatever the parser accepts, it also accepts in canonical form, with
      the same result. */
  lemma {:induction false} CanonicalForm(value: string)
    requires Parse(value).Ok?
    ensures Parse(ReferenceText(Parse(value).value)) == Parse(value)
  {
    ParseWellFormed(value);
    RenderParses(Parse(value).value);
  }

  /** Two well-formed results with the same canonical text are the same. */
  lemma {:induction false} ReferenceTextInjective(r1: ReferenceParseResult, r2: ReferenceParseResult)
    requires WellFormed(r1) && WellFormed(r2)
    requires ReferenceText(r1) == ReferenceText(r2)
    ensures r1 == r2
  {
    RenderParses(r1);
    RenderParses(r2);
  }
}
