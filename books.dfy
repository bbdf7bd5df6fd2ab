/** The seven-book registry tables of src/books.rs: the five books of Moses
    and the two gospels, in the English (LSB) and Finnish (1933/38) texts.
    They have the shape of `Bible.Tables`, so every lookup and both parsers
    of module Bible run on them unchanged. */
module Books {
  import opened Text
  import opened Bible

  /** `BOOK_INFO_FOR_EN_LSB`: display name and chapter count per book. */
  const BookInfoForEnLsb: BookHashMap := map[
      Genesis := BookInfo("Genesis", 50),
      Exodus := BookInfo("Exodus", 40),
      Leviticus := BookInfo("Leviticus", 27),
      Numbers := BookInfo("Numbers", 36),
      Deuteronomy := BookInfo("Deuteronomy", 34),
      Matthew := BookInfo("Matthew", 28),
      John := BookInfo("John", 21)]

  /** `BOOK_INFO_FOR_FI_R1933_38`: the Finnish display abbreviations. */
  const BookInfoForFiR1933_38: BookHashMap := map[
      Genesis := BookInfo("1. Moos.", 50),
      Exodus := BookInfo("2. Moos.", 40),
      Leviticus := BookInfo("3. Moos.", 27),
      Numbers := BookInfo("4. Moos.", 36),
      Deuteronomy := BookInfo("5. Moos.", 34),
      Matthew := BookInfo("Matt.", 28),
      John := BookInfo("Joh.", 21)]

  /** `BOOK_ABBREVIATIONS_TO_IDS_EN`: sanitised English abbreviations. */
  const BookAbbreviationsToIdsEn: map<string, BookId> := map[
      "gen" := Genesis, "genesis" := Genesis, "gn" := Genesis,
      "ex" := Exodus, "exo" := Exodus, "exodus" := Exodus,
      "lev" := Leviticus, "leviticus" := Leviticus, "lv" := Leviticus,
      "nm" := Numbers, "num" := Numbers, "numbers" := Numbers,
      "de" := Deuteronomy, "deu" := Deuteronomy, "deuteronomy" := Deuteronomy, "dt" := Deuteronomy,
      "matt" := Matthew, "matthew" := Matthew, "mt" := Matthew,
      "jh" := John, "john" := John]

  /** `BOOK_ABBREVIATIONS_TO_IDS_FI`: sanitised Finnish abbreviations. */
  const BookAbbreviationsToIdsFi: map<string, BookId> := map[
      "1mo" := Genesis, "1 moos" := Genesis, "1 mooses" := Genesis, "1. moos." := Genesis,
      "2mo" := Exodus, "2 moos" := Exodus, "2 mooses" := Exodus, "2. moos." := Exodus,
      "3mo" := Leviticus, "3 moos" := Leviticus, "3 mooses" := Leviticus, "3. moos." := Leviticus,
      "4mo" := Numbers, "4 moos" := Numbers, "4 mooses" := Numbers, "4. moos." := Numbers,
      "5mo" := Deuteronomy, "5 moos" := Deuteronomy, "5 mooses" := Deuteronomy, "5. moos." := Deuteronomy,
      "matt" := Matthew, "matt." := Matthew, "matteus" := Matthew,
      "joh" := John, "joh." := John, "johannes" := John]

  const BooksTables := Tables(BookInfoForEnLsb, BookInfoForFiR1933_38, BookAbbreviationsToIdsEn, BookAbbreviationsToIdsFi)
}
