# Bible reference parsing, modelled in Dafny

This project models the reference-parsing core of a small Rust library for
Bible references. The library has three parts:

- **Book registry.** For each published text (the English LSB and the
  Finnish 1933/38 translation) it keeps two tables. One gives each book a
  display abbreviation and a chapter count. The other maps sanitised
  abbreviations (dots removed, lower-cased) to books. There are two
  versions of the tables: a two-book one in `src/bible.rs` and a
  seven-book one in `src/books.rs`.
- **Strict parser and renderer** (`src/bible.rs`).
  `parse_reference_by_text` reads `"<book> <chapter>"` or
  `"<book> <chapter>:<number>"` in one text, checking the chapter against
  the book's chapter count. `parse_references_by_text` reads a
  `;`-separated list of such references. `Reference::to_string` renders a
  reference in a text. Parsing in one text and rendering in another
  converts between texts.
- **Free-form parser** (`src/lib.rs`). `parse_reference` scans a string
  such as `"1 John 3:16-18"` character by character with a peeking
  iterator. It returns a book name cut from the input, a chapter and
  optionally a verse or a range of verses, or one of five error codes.

Modules:

| file | module | contents |
|---|---|---|
| `text.dfy` | `Text` | The Rust standard-library behaviour the core relies on: `u8`, `Option`, ASCII character classes, `str::trim`, `split` on one character, `replace(".", "")`, `to_lowercase`, `parse::<u8>` and `u8` display, each with its laws (split/join inverse, parse of display). |
| `bible.dfy` | `Bible` | The registry, sanitiser, lookups, `Reference` with its accessors and `to_string`, the strict parser, the two-book tables of `src/bible.rs`, the round trip, and the unit tests of `src/bible.rs`. |
| `books.dfy`, `books_props.dfy` | `Books`, `BooksProperties` | The seven-book tables of `src/books.rs` and what holds of them and of the strict parser over them. |
| `parser.dfy` | `ReferenceParser` | `parse_reference`: a specification function `Scan` that follows the cursor through the same branches, and a method `ParseReference` with the source's loops, proved equal to it. Also the error codes and their messages. |
| `parser_props.dfy`, `parser_edges.dfy`, `parser_render.dfy`, `parser_examples.dfy` | `ReferenceParserProperties`, `ReferenceParserEdgeCases`, `ReferenceRendering`, `ReferenceParserExamples` | What `parse_reference` returns: well-formedness, the three reference forms, every error code, the text around a reference, a canonical text for every result, and the unit tests of `src/lib.rs`. |

Behaviours of the code worth noting, each of which the model keeps:

- `"1 John 3"` is read as book `"John"`, chapter 3. Everything before the
  first letter is skipped, digits included.
- The free-form parser has no "verse onwards" (`+`) form.
- The free-form parser looks no book up in any registry.
- A lone chapter `0` is accepted.
- A chapter `0` before `:` and a first verse `0` before `-` are forgotten.
  Scanning goes on as if they had not been read.
- A lone verse number above 255 is reported as `InvalidChapterFormat`, not
  as a verse error.
- The strict parser accepts any tail that `parse::<u8>` accepts, so `"Joh +1"`
  and `"Joh 01"` are John 1.
- With the seven-book tables of `src/books.rs`, no Finnish reference to a book
  of Moses reads back: `"1. Moos."` renders with a space, and the strict parser
  wants exactly two words. Its sanitised key `"1 moos"` is in the table all the
  same.

## Model

| member | source | states |
|---|---|---|
| `Text.CharacterClasses` | src/lib.rs:58-76 | `char::is_alphabetic` (ASCII letters), `char::is_digit(10)` and `char::is_whitespace` (the White_Space set that `trim` drops) are disjoint. Space, tab, line feed and carriage return are whitespace. |
| `Text.ToLowercase` | src/bible.rs:36 | The result is never upper case. It is a letter exactly when the input is. A character that is not upper case is unchanged. An upper-case letter moves to its lower-case partner, 32 code points on. |
| `Text.Lowercase` | src/bible.rs:36 | Lower-casing keeps the length and leaves no capital. Each character is the lower-case form of the input character at the same place. Every non-letter of the result was in the input. |
| `Text.LowercaseKeepsLowercase` | src/bible.rs:36 | Lower-casing leaves text without capitals unchanged. |
| `Text.Remove` | src/bible.rs:36 | `replace(".", "")` never lengthens its input. |
| `Text.RemoveFacts` | src/bible.rs:36 | After removal the character is gone. Every remaining character comes from the input. |
| `Text.RemoveAppend` | src/bible.rs:36 | Removal distributes over concatenation. |
| `Text.RemoveAt` | src/bible.rs:36 | Removing at an occurrence splits the work around it. |
| `Text.RemoveAbsent` | src/bible.rs:36 | Removing an absent character changes nothing. |
| `Text.Occurrences` | src/bible.rs:136-137 | The count of a character is at most the length, and zero exactly when the character is absent. |
| `Text.OccurrencesAppend` | src/bible.rs:136-137 | Counts add over concatenation. |
| `Text.SeparatorTwice` | src/bible.rs:136-137 | A separator inside the first part plus the joining one make at least two. |
| `Text.LeadingWhitespace` | src/bible.rs:136 | The index of the first non-whitespace character: everything before it is whitespace. |
| `Text.TrailingWhitespaceStart` | src/bible.rs:136 | The end of the text without trailing whitespace: everything after it is whitespace. |
| `Text.Trim` | src/bible.rs:136 | `str::trim`: all-whitespace text trims to nothing. Otherwise the result is the input from its first to its last non-whitespace character. So it neither starts nor ends with whitespace, already-trimmed text is unchanged, and it is never longer. |
| `Text.TrimLeadingSpace` | src/bible.rs:136 | A leading space before trimmed text is trimmed away. |
| `Text.Split` | src/bible.rs:136 | `split` yields at least one piece, and no piece holds the separator. |
| `Text.SplitCount` | src/bible.rs:136-137 | There is one piece more than there are separators. |
| `Text.JoinSplit` | src/bible.rs:136 | Joining the pieces with the separator gives back the original text. |
| `Text.SplitJoin` | src/bible.rs:195-197 | Splitting separator-free pieces joined by the separator gives back the pieces. |
| `Text.SplitWithout` | src/bible.rs:136 | Text without the separator is a single piece. |
| `Text.SplitPrefix` | src/bible.rs:136 | A separator-free prefix followed by the separator is the first piece. |
| `Text.DigitValue` | src/lib.rs:91-93 | A digit's value is below ten. |
| `Text.DigitChar` | src/bible.rs:105 | The digit for a value below ten is a digit with that value. |
| `Text.ParseU8` | src/bible.rs:154 | `parse::<u8>` accepts only text starting with a digit or `+`. On a non-empty digit run it is the run's value, or an error above 255. |
| `Text.DecimalValueZero` | src/bible.rs:154 | The value that `parse::<u8>` reads from a digit run is zero exactly when every digit is `0`. |
| `Text.Decimal` | src/bible.rs:105 | The display of a number is a non-empty digit run with no leading zero, whose value is the number. |
| `Text.DecimalParses` | src/bible.rs:105 | Parsing the display of a byte gives the byte back. |
| `Text.DecimalHasNo` | src/bible.rs:112 | A number's display holds no non-digit, so no `:` or space. |
| `Bible.FindBooksByText` | src/bible.rs:121-126 | English selects the English book-information table, Finnish the Finnish one. |
| `Bible.AbbreviationsByText` | src/bible.rs:16-24 | English selects the English abbreviation table, Finnish the Finnish one. |
| `Bible.Sanitize` | src/bible.rs:35-37 | `sanitize` leaves no `.` and no capital, and never lengthens its input. |
| `Bible.FindBySanitizedAbbreviation` | src/bible.rs:16-24 | A book is found exactly when the abbreviation is a key of the chosen text's table, and it is the book that key maps to. |
| `Bible.GetByBookIdAndText` | src/bible.rs:29-34 | Book information is found exactly when the book is in the text's info table, and it is that entry. |
| `Bible.SanitizeShape` | src/bible.rs:35-37 | A sanitised string has no `.` and no capital. Every non-letter in it comes from the input. |
| `Bible.SanitizeWithoutDots` | src/bible.rs:35-37 | Without a dot, sanitising is lower-casing. |
| `Bible.SanitizeAtDot` | src/bible.rs:35-37 | A dot vanishes from between the two sanitised parts around it. |
| `Bible.SanitizeIdempotent` | src/bible.rs:35-37 | Sanitising twice is sanitising once. |
| `Bible.SanitizeFixedPoints` | src/bible.rs:35-37 | Sanitising leaves a string unchanged if and only if it has no dot and no capital. |
| `Bible.GetBookAbbreviation` | src/bible.rs:70-82 | The abbreviation is the one in the text's info table for the reference's book. The source unwraps this lookup, so the book must be present. |
| `Bible.GetChapter` | src/bible.rs:85-90 | Returns the chapter field of either reference kind. |
| `Bible.GetNumber` | src/bible.rs:93-98 | A number is returned exactly for a chapter-and-number reference, and it is that reference's number. |
| `Bible.ReferenceToString` | src/bible.rs:99-118 | The rendering is non-empty and ends with a digit. |
| `Bible.RendersDisplay` | src/bible.rs:99-118 | A book the text knows renders as its display abbreviation, a space, the chapter and optionally `:number`. |
| `Bible.RendersUndefined` | src/bible.rs:100-114 | A book the text does not know renders as `"undefined"` followed by the same tail. |
| `Bible.AccessorsRender` | src/bible.rs:70-118 | Rendering through `get_book_abbreviation`, `get_chapter` and `get_number` gives the same text as `to_string`. |
| `Bible.MainPrintsJohnOne` | src/main.rs:3-20 | The demonstration program reads "Joh. 1" in Finnish as John 1, which has no number, and prints "Reference: Joh. 1" through the accessors. |
| `Bible.ParseReferenceByText` | src/bible.rs:131-188 | A result is always a valid reference (a known book, a chapter from 1 to the book's count). The trimmed input split into exactly two parts, and the first part sanitised to a key of the result's book. |
| `Bible.ParseChapterAndNumber` | src/bible.rs:152-184 | A result has the given book and a chapter from 1 to the count. Its kind matches whether the part had one or two `:`-fields. Its chapter and number are what `parse::<u8>` made of those fields. |
| `Bible.ParseChapterAndNumberAccepts` | src/bible.rs:151-186 | The converse: a single field that `parse::<u8>` reads as an in-range chapter gives that chapter; two such fields, the second any byte, give chapter and number; three or more fields give nothing. |
| `Bible.ParsesPaddedChapter` | src/bible.rs:154 | Chapters written "01" or "+1" are chapter 1, since `parse::<u8>` accepts them. |
| `Bible.ParseShape` | src/bible.rs:136-137 | A successful parse means the trimmed input has exactly one space and its second part at most one `:`. |
| `Bible.ParseParts` | src/bible.rs:131-188 | On trimmed input that splits into a book and a tail, the parser is the lookup of the sanitised book followed by the tail's chapter-and-number parse. |
| `Bible.ParseDependsOnTrim` | src/bible.rs:136 | Inputs with the same trimmed text parse the same. |
| `Bible.RejectsOneWord` | src/bible.rs:136-138 | Trimmed input with no space is refused. |
| `Bible.RejectsManySpaces` | src/bible.rs:136-138 | Trimmed input with other than exactly one space is refused. |
| `Bible.RejectsUnknownBook` | src/bible.rs:140-145 | A book word that does not sanitise to a key of the text is refused. |
| `Bible.ParseReachesOnlyPlainKeys` | src/bible.rs:140-145 | A successful parse reaches its book through a key with no space, no dot and no capital. |
| `Bible.ParseReferencesByText` | src/bible.rs:190-198 | One result per `;`-separated part, as many as there are `;` plus one, each the strict parse of its part, in order. |
| `Bible.ParseReferencesByParts` | src/bible.rs:190-198 | Separator-free parts joined with `;` are parsed each on its own, one result per part, in place. |
| `Bible.ParseTwoReferences` | src/bible.rs:190-198 | Two `;`-separated references give the two single parses, in order. |
| `Bible.RenderedTail` | src/bible.rs:105-112 | The rendered tail ends with a digit and has no space. It splits on `:` into the chapter's display, or the chapter's and the number's. |
| `Bible.RenderedSplits` | src/bible.rs:136 | A book word and a tail joined by one space trim to themselves and split back into the two. |
| `Bible.TailRoundTrip` | src/bible.rs:152-184 | Parsing a reference's rendered tail gives the reference back exactly when its chapter lies between 1 and the count. |
| `Bible.ReadsBack` | src/bible.rs:131-188 | A one-word book name that sanitises to the reference's book, followed by the rendered tail, parses to the reference exactly when the reference is valid. |
| `Bible.ValidReference` | src/bible.rs:147-160 | A reference is valid exactly when its book has information in the text and its chapter lies between 1 and that book's chapter count. |
| `Bible.RoundTrip` | src/bible.rs:99-188 | Where every display abbreviation of a text renders readably, parsing the rendering of any valid reference gives it back. |
| `Bible.ConvertRoundTrip` | src/bible.rs:99-188 | A reference read in one text and rendered in another reads back unchanged in the other, when the other renders readably and agrees on the chapter count. |
| `Bible.SpacedBookNeverReadsBack` | src/bible.rs:99-137 | A display abbreviation containing a space never reads back: its rendering has two spaces. |
| `Bible.ReadableByKey` | src/bible.rs:140-145 | A display abbreviation that is one word and sanitises to a key of its own book renders readably. |
| `Bible.EnDisplaySanitizes` | src/bible.rs:42-52 | "Matthew" and "John" are single words sanitising to "matthew" and "john". |
| `Bible.FiDisplaySanitizes` | src/bible.rs:46-57 | "Matt." and "Joh." are single words sanitising to "matt" and "joh". |
| `Bible.BibleTablesRenderReadably` | src/bible.rs:40-60 | Every display abbreviation of the two-book tables renders readably in both texts. |
| `Bible.BibleTablesRenderReadablyEn` | src/bible.rs:41-53 | The English two-book tables render readably. |
| `Bible.BibleTablesRenderReadablyFi` | src/bible.rs:45-59 | The Finnish two-book tables render readably. |
| `Bible.BibleTablesContents` | src/bible.rs:40-60 | In both texts the two-book tables list Matthew with 28 chapters and John with 21, and every abbreviation key names one of the two. |
| `Bible.BibleTablesRoundTrip` | src/bible.rs:40-188 | On the two-book tables, rendering a valid reference and parsing it in the same text gives it back. |
| `Bible.ExampleWordSanitizes` | src/bible.rs:295-304 | The book words of the tests sanitise to their keys. |
| `Bible.ExampleDottedWordSanitizes` | src/bible.rs:250 | The misspelt test word "Mat." is a single word that sanitises to "mat", no key of either table. |
| `Bible.ConvertsJohnOne` | src/bible.rs:219-224 | "Joh 1" read in Finnish is John 1, which renders as "John 1" in English. |
| `Bible.RejectsMissingChapter` | src/bible.rs:225-235 | "Joh 0" and "Joh 22" are refused. |
| `Bible.RejectsMalformed` | src/bible.rs:236-251 | "1", "Nothing", "Matt" and "Mat. 1" are refused. |
| `Bible.ParsesMatthew` | src/bible.rs:295 | "matt 1" and "Matt 1" are Matthew 1. |
| `Bible.ParsesDottedMatthew` | src/bible.rs:296-297 | "Matt. 1" and "Matt. 10" are Matthew 1 and Matthew 10. |
| `Bible.ParsesDottedJohn` | src/bible.rs:298 | "Joh. 1" is John 1. |
| `Bible.ParsesFirstVerse` | src/bible.rs:304-310 | "Joh 1:1" is John 1:1. |
| `Bible.ParsesVerse` | src/bible.rs:312-318 | "Joh 20:23" is John 20:23. |
| `Bible.VerseTail` | src/bible.rs:312 | The rendered tail of chapter 20, verse 23 is "20:23". |
| `Bible.TwoParts` | src/bible.rs:190-198 | Two single-word references joined by "; " give their two parses, the space being trimmed away. |
| `Bible.ParsesTwoChapters` | src/bible.rs:252-264 | "Matt 1; Joh. 1" gives Matthew 1 and John 1. |
| `Bible.ParsesTwoVerses` | src/bible.rs:265-279 | "Matt 19:18; Joh. 11:12" gives Matthew 19:18 and John 11:12. |
| `Bible.ParsesMatthewVerse` | src/bible.rs:267-273 | "Matt 19:18" is Matthew 19:18. |
| `Bible.ParsesDottedJohnVerse` | src/bible.rs:274-278 | "Joh. 11:12" is John 11:12. |
| `BooksProperties.EveryBookKnown` | src/books.rs:10-27 | Both texts know every book, so with these tables `to_string` never reaches its `"undefined"` branch. |
| `BooksProperties.AbbreviationTargetsKnown` | src/books.rs:10-78 | Every book an abbreviation maps to has information in the same text. |
| `BooksProperties.ChapterCountsAgree` | src/books.rs:11-26 | Every chapter count is at least 1 and the same in English and Finnish. |
| `BooksProperties.EnglishKeysPerBook` | src/books.rs:28-50 | Every book has two different English keys. |
| `BooksProperties.EnglishKeysPerBookOfMoses` | src/books.rs:29-44 | Every book of Moses has two different English keys. |
| `BooksProperties.FinnishKeysPerBook` | src/books.rs:51-78 | Every book has two different Finnish keys. |
| `BooksProperties.FinnishKeysPerBookOfMoses` | src/books.rs:52-71 | Every book of Moses has two different Finnish keys. |
| `BooksProperties.EnglishKeysArePlain` | src/books.rs:28-50 | Every English key is lower-case ASCII letters. |
| `BooksProperties.FinnishKeysAreLowercase` | src/books.rs:51-78 | Every Finnish key is lower-case letters, the digits 1 to 5, spaces and dots. |
| `BooksProperties.EnglishKeysReachable` | src/books.rs:28-50 | Every English key is its own sanitisation, so a lookup can reach it. |
| `BooksProperties.DottedKeysUnreachable` | src/books.rs:55-76 | No sanitised string equals a Finnish key with a dot. |
| `BooksProperties.EnglishDisplayKeys` | src/books.rs:30-49 | Step towards `EnglishReadable`: the seven lower-cased English display names are keys of their books in the English table. |
| `BooksProperties.GenesisSanitizes` | src/books.rs:11-30 | "Genesis" is one word sanitising to "genesis". |
| `BooksProperties.ExodusSanitizes` | src/books.rs:12-34 | "Exodus" is one word sanitising to "exodus". |
| `BooksProperties.LeviticusSanitizes` | src/books.rs:13-36 | "Leviticus" is one word sanitising to "leviticus". |
| `BooksProperties.NumbersSanitizes` | src/books.rs:14-40 | "Numbers" is one word sanitising to "numbers". |
| `BooksProperties.DeuteronomySanitizes` | src/books.rs:15-43 | "Deuteronomy" is one word sanitising to "deuteronomy". |
| `BooksProperties.GenesisReadableInEnglish` | src/books.rs:11-30 | Genesis renders readably in English. |
| `BooksProperties.ExodusReadableInEnglish` | src/books.rs:12-34 | Exodus renders readably in English. |
| `BooksProperties.LeviticusReadableInEnglish` | src/books.rs:13-36 | Leviticus renders readably in English. |
| `BooksProperties.NumbersReadableInEnglish` | src/books.rs:14-40 | Numbers renders readably in English. |
| `BooksProperties.DeuteronomyReadableInEnglish` | src/books.rs:15-43 | Deuteronomy renders readably in English. |
| `BooksProperties.MatthewReadableInEnglish` | src/books.rs:16-46 | Matthew renders readably in English. |
| `BooksProperties.JohnReadableInEnglish` | src/books.rs:17-49 | John renders readably in English. |
| `BooksProperties.MosesFinnishSanitizes` | src/books.rs:20-69 | "n. Moos." sanitises to "n moos": both dots go and the space stays. |
| `BooksProperties.EnglishReadable` | src/books.rs:10-50 | Every English display name sanitises to a key of the English table that maps back to its own book, so it reads back. |
| `BooksProperties.FinnishMosesKey` | src/books.rs:19-78 | Each Finnish display name of a book of Moses ("1. Moos.") sanitises to a key of the Finnish table ("1 moos") that maps back to its own book. |
| `BooksProperties.EnglishRoundTrip` | src/books.rs:10-50 | In English, rendering a valid reference and parsing it back gives the reference. |
| `BooksProperties.FinnishGospelReadable` | src/books.rs:25-77 | "Matt." and "Joh." read back as their books in Finnish. |
| `BooksProperties.FinnishGospelRoundTrip` | src/books.rs:25-77 | In Finnish, a valid reference to a gospel reads back. |
| `BooksProperties.FinnishPentateuchNeverReadsBack` | src/books.rs:20-24 | In Finnish, no rendered reference to a book of Moses reads back, because its abbreviation has a space. |
| `BooksProperties.FinnishConvertsToEnglish` | src/books.rs:10-78 | Whatever the Finnish parser accepts renders in English to text the English parser reads back unchanged. |
| `ReferenceParser.ErrorMessage` | src/lib.rs:32-44 | Every message is a non-empty sentence: a capital first, a full stop last. |
| `ReferenceParser.ErrorMessagesDiffer` | src/lib.rs:32-44 | Different codes have different messages. |
| `ReferenceParser.NextDigit` | src/lib.rs:59-74 | The book-name loop stops at the first digit at or after its start, or at the end of input. |
| `ReferenceParser.DigitRunEnd` | src/lib.rs:81-88 | A number loop stops at the end of its run of digits. |
| `ReferenceParser.TrimSpacesEnd` | src/lib.rs:61-69 | Trimming a book name's end stops after its last non-space and drops only spaces. |
| `ReferenceParser.Scan` | src/lib.rs:56-169 | From any point of the scan, a range it returns never ends below its start. |
| `ReferenceParser.ScanDigits` | src/lib.rs:76-165 | A digit after a book name reads, in order of precedence, the end verse, the verse or the chapter still missing. A range it returns never ends below its start. |
| `ReferenceParser.ScanBook` | src/lib.rs:58-75 | A range returned after a book name never ends below its start. |
| `ReferenceParser.ScanEndNumber` | src/lib.rs:78-106 | After `-` only a range is returned, with the given book, chapter and first verse, and an end at least the first verse. |
| `ReferenceParser.ScanNumber` | src/lib.rs:107-136 | A range returned after the verse number never ends below its start. |
| `ReferenceParser.ScanChapter` | src/lib.rs:137-165 | A range returned after the chapter never ends below its start. |
| `ReferenceParser.Parse` | src/lib.rs:50-170 | A range `parse_reference` returns never ends below its start. |
| `ReferenceParser.ParseReference` | src/lib.rs:50-170 | The imperative scan, with the source's nested loops and labelled `continue`, returns exactly what `Parse` specifies. |
| `ReferenceParserProperties.NextDigitAt` | src/lib.rs:59-74 | The book-name loop stops at the first digit. |
| `ReferenceParserProperties.NoNextDigit` | src/lib.rs:59-75 | With no digit ahead, the book-name loop runs to the end. |
| `ReferenceParserProperties.DigitRunEndAt` | src/lib.rs:81-88 | A number loop stops where the digits stop. |
| `ReferenceParserProperties.TrimSpacesEndAt` | src/lib.rs:61-69 | Trimming stops after the last non-space. |
| `ReferenceParserProperties.DigitsAt` | src/lib.rs:139-157 | A digit run at a position is what a number loop collects there. |
| `ReferenceParserProperties.BookCut` | src/lib.rs:58-70 | The name cut at a letter starts with a letter, holds no digit, does not end with a space, and is a slice of the input. |
| `ReferenceParserProperties.ScanWellFormed` | src/lib.rs:56-169 | From any consistent state, every result is well formed. A verse has a chapter other than 0. A range has a chapter other than 0 and a first verse from 1 up to its end. |
| `ReferenceParserProperties.NumberWellFormed` | src/lib.rs:107-136 | A result after a chapter is well formed. |
| `ReferenceParserProperties.ChapterWellFormed` | src/lib.rs:137-165 | A result after a book name is well formed. |
| `ReferenceParserProperties.ScanSlice` | src/lib.rs:56-169 | The book name of every result is a slice of the input. |
| `ReferenceParserProperties.NumberSlice` | src/lib.rs:107-136 | The book name stays a slice of the input while reading a verse. |
| `ReferenceParserProperties.ChapterSlice` | src/lib.rs:137-165 | The book name stays a slice of the input while reading a chapter. |
| `ReferenceParserProperties.ParseWellFormed` | src/lib.rs:50-170 | Every successful `parse_reference` result is well formed, and its book name is a slice of the input. |
| `ReferenceParserProperties.BookStep` | src/lib.rs:58-70 | At a book name, the scan continues at the following digit with that name. |
| `ReferenceParserProperties.ChapterAlone` | src/lib.rs:137-164 | A chapter run not followed by `:` gives a chapter, or `InvalidChapterFormat` when it does not fit a byte. |
| `ReferenceParserProperties.ChapterThenColon` | src/lib.rs:139-153 | A chapter run followed by `:` sets the chapter and scanning goes on after the colon. |
| `ReferenceParserProperties.VerseAlone` | src/lib.rs:109-135 | A verse run not followed by `-` gives a verse, or `InvalidChapterFormat` when it does not fit a byte. |
| `ReferenceParserProperties.VerseThenDash` | src/lib.rs:109-121 | A verse run followed by `-` sets the first verse and scanning goes on after the dash. |
| `ReferenceParserProperties.RangeEnd` | src/lib.rs:78-105 | An end run gives the range, `InvalidRangeBetweenVerseNumbers` when it is below the first verse, or `InvalidVerseNumberFormat` when it does not fit a byte. |
| `ReferenceParserProperties.BookAt` | src/lib.rs:58-70 | A book name followed by a space and a digit ends where the digit starts. |
| `ReferenceParserProperties.ScanBookAt` | src/lib.rs:58-70 | A book name followed by a space and a digit is cut out without the space. |
| `ReferenceParserProperties.ScanBookThenDigits` | src/lib.rs:50-70 | Input starting with a book name, a space and a digit continues at the digit with that name. |
| `ReferenceParserProperties.ScanChapterAt` | src/lib.rs:137-164 | A chapter ending the input or followed by anything but a digit or `:` gives that chapter, or `InvalidChapterFormat` above 255. |
| `ReferenceParserProperties.ScanChapterColon` | src/lib.rs:145-153 | A chapter followed by `:` is stored and scanning goes on after the colon. |
| `ReferenceParserProperties.ScanVerseAt` | src/lib.rs:107-135 | A verse ending the input or followed by anything but a digit or `-` gives that verse, or `InvalidChapterFormat` above 255. |
| `ReferenceParserProperties.ScanVerseDash` | src/lib.rs:115-121 | A verse followed by `-` is stored and scanning goes on after the dash. |
| `ReferenceParserProperties.ScanEndAt` | src/lib.rs:78-105 | The end of a range gives the range or the error code for that end. |
| `ReferenceParserProperties.Parts` | src/lib.rs:50-170 | Proof step for the chapter and verse forms: where the book, chapter and verse stand in "Book C" and "Book C:V". |
| `ReferenceParserProperties.RangeParts` | src/lib.rs:50-170 | Proof step for the range form: where the parts of "Book C:V-E" stand. |
| `ReferenceParserProperties.ParsesChapterForm` | src/lib.rs:137-164 | "Book C" parses to chapter C of Book, or `InvalidChapterFormat` when C does not fit a byte. |
| `ReferenceParserProperties.ParsesVerseForm` | src/lib.rs:107-153 | "Book C:V" with C from 1 to 255 parses to verse V, or `InvalidChapterFormat` when V does not fit a byte. |
| `ReferenceParserProperties.ScanVerseTail` | src/lib.rs:107-153 | From the chapter of "Book C:V" on, the same outcome. |
| `ReferenceParserProperties.ScanVerseAfterColon` | src/lib.rs:107-135 | From the verse of "Book C:V" on, the same outcome. |
| `ReferenceParserProperties.ParsesRangeForm` | src/lib.rs:78-153 | "Book C:V-E" with C and V from 1 to 255 parses to the range. It gives `InvalidVerseNumberFormat` when E does not fit a byte, and `InvalidRangeBetweenVerseNumbers` when E is below V. |
| `ReferenceParserProperties.ScanRangeTail` | src/lib.rs:78-153 | From the chapter of "Book C:V-E" on, the same outcome. |
| `ReferenceParserProperties.ScanRangeFromVerse` | src/lib.rs:78-121 | From the first verse of "Book C:V-E" on, the same outcome. |
| `ReferenceParserEdgeCases.SkipNonLetters` | src/lib.rs:56-58 | Before a book name, every non-letter is skipped, digits included. |
| `ReferenceParserEdgeCases.NoLetterUnknown` | src/lib.rs:56-169 | Input without a letter gives `UnknownError`. |
| `ReferenceParserEdgeCases.FirstLetterNeverEnds` | src/lib.rs:58-75 | When no digit follows the first letter, the result is `BookNameNeverEnds`. |
| `ReferenceParserEdgeCases.NeverEndsAtEndlessLetter` | src/lib.rs:58-75 | `BookNameNeverEnds` is returned only when some letter has no digit anywhere after it. |
| `ReferenceParserEdgeCases.ScanNeverEnds` | src/lib.rs:56-169 | From any point, `BookNameNeverEnds` implies a letter ahead with no digit after it. |
| `ReferenceParserEdgeCases.NumberNeverEnds` | src/lib.rs:107-136 | The same, from a verse number. |
| `ReferenceParserEdgeCases.ChapterNeverEnds` | src/lib.rs:137-165 | The same, from a chapter. |
| `ReferenceParserEdgeCases.ChapterTailParts` | src/lib.rs:137-165 | Proof step for the lemmas on a chapter followed by other text: where the parts of "Book C" followed by that text stand. |
| `ReferenceParserEdgeCases.VerseTailParts` | src/lib.rs:107-136 | Proof step for the lemmas on a verse followed by other text: where the parts of "Book C:V" followed by that text stand. |
| `ReferenceParserEdgeCases.ScanChapterOverflow` | src/lib.rs:150-162 | A chapter above 255 is `InvalidChapterFormat`, whatever follows. |
| `ReferenceParserEdgeCases.ScanVerseOverflow` | src/lib.rs:118-130 | A verse above 255 is `InvalidVerseNumberFormat` before `-` and `InvalidChapterFormat` otherwise. |
| `ReferenceParserEdgeCases.ChapterNone` | src/lib.rs:150-162 | A chapter run that `parse::<u8>` refuses is `InvalidChapterFormat`. |
| `ReferenceParserEdgeCases.VerseNone` | src/lib.rs:118-130 | A verse run that `parse::<u8>` refuses gives the error code of its branch. |
| `ReferenceParserEdgeCases.ChapterOverflow` | src/lib.rs:150-162 | "Book C" with C of 256 or more is `InvalidChapterFormat`, whatever non-digit follows. |
| `ReferenceParserEdgeCases.VerseOverflow` | src/lib.rs:118-130 | "Book C:V" with V of 256 or more is `InvalidVerseNumberFormat` before a dash and `InvalidChapterFormat` otherwise. |
| `ReferenceParserEdgeCases.VerseOverflowTail` | src/lib.rs:107-136 | From the chapter of that input on, the same outcome. |
| `ReferenceParserEdgeCases.ZeroChapterForgotten` | src/lib.rs:108-153 | "Book 0:C" reads C as the chapter, because a stored chapter 0 counts as no chapter. |
| `ReferenceParserEdgeCases.ZeroChapterTail` | src/lib.rs:108-164 | From the zero chapter on, the same outcome. |
| `ReferenceParserEdgeCases.ZeroVerseForgotten` | src/lib.rs:78-135 | "Book C:0-V" reads V as a single verse, because a stored first verse 0 counts as none. |
| `ReferenceParserEdgeCases.ZeroVerseTail` | src/lib.rs:78-135 | From the zero verse on, the same outcome. |
| `ReferenceParserEdgeCases.ChapterColonAtEnd` | src/lib.rs:145-169 | "Book C:" with nothing after the colon runs out of input: `UnknownError`. |
| `ReferenceRendering.ReferenceText` | src/lib.rs:6-22 | The canonical text of a result starts with its book name and a space. |
| `ReferenceRendering.RenderParses` | src/lib.rs:50-170 | Every well-formed result is what `parse_reference` makes of its canonical text. |
| `ReferenceRendering.CanonicalForm` | src/lib.rs:50-170 | Whatever the parser accepts, it accepts in canonical form with the same result. |
| `ReferenceRendering.ReferenceTextInjective` | src/lib.rs:6-22 | Different well-formed results have different canonical texts. |
| `ReferenceParserExamples.JohnIsBookName` | src/lib.rs:180 | "John" is a name the scanner can cut. |
| `ReferenceParserExamples.RangeBackwards` | src/lib.rs:176-185 | "John 3:2-1" is `InvalidRangeBetweenVerseNumbers`. |
| `ReferenceParserExamples.ChapterOneWordBook` | src/lib.rs:186-196 | "John 3" is chapter 3 of "John". |
| `ReferenceParserExamples.ChapterTwoWordBook` | src/lib.rs:197-216 | "1 John 3" and "1 John 15" are chapters 3 and 15 of "John". |
| `ReferenceParserExamples.LeadingNumberSkipped` | src/lib.rs:199-208 | "1 John " followed by digits is that chapter of "John". |
| `ReferenceParserExamples.OneVerse` | src/lib.rs:217-238 | "John 3:1" and "John 3:16" are verses 1 and 16 of chapter 3. |
| `ReferenceParserExamples.ManyVerses` | src/lib.rs:239-251 | "John 3:1-2" is verses 1 to 2 of chapter 3. |

## Left out

- Unicode: `char::is_alphabetic` and `to_lowercase` are modelled on ASCII only, so a non-ASCII letter is treated as a non-letter. White space follows Unicode's White_Space set.
- The mix of character and byte indices in `src/lib.rs` is not modelled: strings are sequences of characters. The two agree only on ASCII input.
- `HashMap` and `lazy_static`: the tables are Dafny `map` constants, and the lookups are parameterised by the table set so that both versions plug in.
- `BookId` has the seven books of `src/books.rs`. With the two-book tables of `src/bible.rs`, the five books of Moses are simply not in any table. There they render as "undefined", a case `src/bible.rs` itself cannot reach.
- The seven-book tables of `src/books.rs` are modelled and proved about, but the strict parser over them is not part of any source test.
- `Locale` has only its one English member. `ErrorMessage` takes it and ignores it, as the source's single arm does.
- `src/convert.rs` and `src/bible_ref_parse.rs` are command-line entry points: argument handling, file input, printing and process exit. They call `TextId::find_by_string`, `replace_reference_matches_in` and `parse_references`, which no file of the repository defines. They are not part of this model.
- `src/main.rs` parses "Joh. 1" in the Finnish text and prints it through the accessors. The printing itself is left out; the text it prints is stated by `MainPrintsJohnOne` and, for any reference, by `AccessorsRender`.
- The regular-expression free-text scanner and replacer, and the verse-content locator over a tagged document, are not part of this model: no source for them is present.
- `scripts/deploy_local_release.py` runs the build and copies files, and is not part of this model.
- ReferenceParserProperties.ParseWellFormed: states that the book name is a slice of the input with the shape the scanner cuts. It does not state, for every input, which run of letters becomes the name: that is not always the first run, since a run the scan abandons is forgotten. Where the name starts is proved only for text before a book name made of non-letters (`SkipNonLetters`, `ScanBookAt`).
- Bible.ReferenceToString: its own contract states only the shape of the rendering. What it renders is stated by `RendersDisplay`, `RendersUndefined` and `AccessorsRender`.
- Bible.Sanitize: its own contract states only what a sanitised string cannot hold. What it computes is stated by `SanitizeWithoutDots`, `SanitizeAtDot` and `SanitizeFixedPoints`.
