/** Characters, strings and numerals as the Rust standard library treats them
    for the parts of the reference parsers that rely on it: `char::is_alphabetic`
    and `char::is_digit(10)` (ASCII only), `str::trim`, `str::split` on a
    one-character pattern, `str::replace(".", "")`, `str::to_lowercase`
    (ASCII only), `<u8 as FromStr>::from_str` and the decimal `Display` of a `u8`. */
module Text {

  /** An unsigned 8-bit integer, the type of every chapter and verse number. */
  newtype u8 = x: int | 0 <= x < 256

  datatype Option<+T> = None | Some(value: T)

  // ---------------------------------------------------------------------------
  // Characters

  predicate IsDigit(c: char) {
    '0' <= c <= '9'
  }

  /** `char::is_alphabetic` restricted to ASCII letters. */
  predicate IsAlphabetic(c: char) {
    'a' <= c <= 'z' || 'A' <= c <= 'Z'
  }

  predicate IsUppercase(c: char) {
    'A' <= c <= 'Z'
  }

  /** `char::is_whitespace`: the Unicode White_Space property. */
  predicate IsWhitespace(c: char) {
    var n := c as int;
    (0x09 <= n <= 0x0D) || n == 0x20 || n == 0x85 || n == 0xA0 || n == 0x1680
    || (0x2000 <= n <= 0x200A) || n == 0x2028 || n == 0x2029 || n == 0x202F
    || n == 0x205F || n == 0x3000
  }

  /** The three character classes are disjoint: a letter is neither a digit
      nor whitespace, and no digit is whitespace. Space, tab, line feed and
      carriage return are whitespace. */
  lemma CharacterClasses(c: char)
    ensures IsAlphabetic(c) ==> !IsDigit(c) && !IsWhitespace(c)
    ensures IsWhitespace(c) ==> !IsDigit(c)
    ensures c == ' ' || c == '\t' || c == '\n' || c == '\r' ==> IsWhitespace(c)
  {
  }

  /** `char::to_lowercase` restricted to ASCII: upper-case letters map to their
      lower-case partner, every other character is left alone. */
  function ToLowercase(c: char): (r: char)
    ensures !IsUppercase(r)
    ensures IsAlphabetic(c) <==> IsAlphabetic(r)
    ensures !IsUppercase(c) ==> r == c
    ensures IsUppercase(c) ==> r as int == c as int + 32
  {
    if IsUppercase(c) then (c as int + 32) as char else c
  }

  predicate NoUppercase(s: string) {
    forall c | c in s :: !IsUppercase(c)
  }

  predicate AllDigits(s: string) {
    forall i :: 0 <= i < |s| ==> IsDigit(s[i])
  }

  /** The number of occurrences of `c` in `s`. */
  function Occurrences(s: string, c: char): (n: nat)
    ensures n <= |s|
    ensures n == 0 <==> c !in s
  {
    if s == [] then 0 else (if s[0] == c then 1 else 0) + Occurrences(s[1..], c)
  }

  /** Occurrences add up over a concatenation. */
  lemma {:induction false} OccurrencesAppend(s: string, t: string, c: char)
    ensures Occurrences(s + t, c) == Occurrences(s, c) + Occurrences(t, c)
  {
    if s == [] {
      assert s + t == t;
    } else {
      assert (s + t)[0] == s[0];
      assert (s + t)[1..] == s[1..] + t;
      OccurrencesAppend(s[1..], t, c);
    }
  }

  /** A separator inside the first part makes two with the one after it. */
  lemma SeparatorTwice(a: string, t: string, c: char)
    requires c in a
    ensures Occurrences(a + [c] + t, c) >= 2
  {
    OccurrencesAppend(a, [c], c);
    OccurrencesAppend(a + [c], t, c);
  }

  // ---------------------------------------------------------------------------
  // str::to_lowercase and str::replace(c, "")

  /** `str::to_lowercase` on ASCII text: character by character. */
  function Lowercase(s: string): (r: string)
    ensures |r| == |s|
    ensures NoUppercase(r)
    ensures forall x :: x in r && !IsAlphabetic(x) ==> x in s
    ensures forall i :: 0 <= i < |s| ==> r[i] == ToLowercase(s[i])
  {
    var r := seq(|s|, i requires 0 <= i < |s| => ToLowercase(s[i]));
    assert forall x :: x in r && !IsAlphabetic(x) ==> x in s by {
      forall x | x in r && !IsAlphabetic(x) ensures x in s {
        var i :| 0 <= i < |r| && r[i] == x;
        assert s[i] == x;
      }
    }
    r
  }

  lemma LowercaseKeepsLowercase(s: string)
    requires NoUppercase(s)
    ensures Lowercase(s) == s
  {
  }

  /** `s` with every occurrence of `c` deleted and the other characters kept
      in order. */
  function Remove(s: string, c: char): (r: string)
    ensures |r| <= |s|
  {
    if s == [] then []
    else if s[|s| - 1] == c then Remove(s[..|s| - 1], c)
    else Remove(s[..|s| - 1], c) + [s[|s| - 1]]
  }

  /** Removal leaves no `c` behind and invents no character. */
  lemma {:induction false} RemoveFacts(s: string, c: char)
    ensures c !in Remove(s, c)
    ensures forall x :: x in Remove(s, c) ==> x in s
  {
    if s != [] {
      RemoveFacts(s[..|s| - 1], c);
    }
  }

  /** Removal works piece by piece over a concatenation. */
  lemma {:induction false} RemoveAppend(s: string, t: string, c: char)
    ensures Remove(s + t, c) == Remove(s, c) + Remove(t, c)
  {
    if t != [] {
      var u := s + t;
      assert u[..|u| - 1] == s + t[..|t| - 1];
      assert u[|u| - 1] == t[|t| - 1];
      RemoveAppend(s, t[..|t| - 1], c);
    } else {
      assert s + t == s;
    }
  }

  /** Removal of the character at `i` splits the work around it. */
  lemma RemoveAt(s: string, i: nat, c: char)
    requires i < |s| && s[i] == c
    ensures Remove(s, c) == Remove(s[..i], c) + Remove(s[i + 1..], c)
  {
    assert s == s[..i] + ([c] + s[i + 1..]);
    RemoveAppend(s[..i], [c] + s[i + 1..], c);
    RemoveAppend([c], s[i + 1..], c);
    assert Remove([c], c) == [];
  }

  lemma {:induction false} RemoveAbsent(s: string, c: char)
    requires c !in s
    ensures Remove(s, c) == s
  {
    if s != [] {
      RemoveAbsent(s[..|s| - 1], c);
      assert s[..|s| - 1] + [s[|s| - 1]] == s;
    }
  }

  // ---------------------------------------------------------------------------
  // str::trim

  /** The index of the first character that is not whitespace (|s| if none). */
  function LeadingWhitespace(s: string): (k: nat)
    ensures k <= |s|
    ensures forall i :: 0 <= i < k ==> IsWhitespace(s[i])
    ensures k < |s| ==> !IsWhitespace(s[k])
  {
    if s == [] || !IsWhitespace(s[0]) then 0 else 1 + LeadingWhitespace(s[1..])
  }

  /** The end of `s` once its trailing whitespace is dropped. */
  function TrailingWhitespaceStart(s: string): (k: nat)
    ensures k <= |s|
    ensures forall i :: k <= i < |s| ==> IsWhitespace(s[i])
    ensures 0 < k ==> !IsWhitespace(s[k - 1])
  {
    if s == [] || !IsWhitespace(s[|s| - 1]) then |s|
    else TrailingWhitespaceStart(s[..|s| - 1])
  }

  /** `str::trim`: `s` without leading and trailing whitespace. */
  function Trim(s: string): (r: string)
    ensures r == [] || (!IsWhitespace(r[0]) && !IsWhitespace(r[|r| - 1]))
    ensures (s == [] || (!IsWhitespace(s[0]) && !IsWhitespace(s[|s| - 1]))) ==> r == s
    ensures |r| <= |s|
    ensures LeadingWhitespace(s) == |s| ==> r == []
    ensures LeadingWhitespace(s) < |s| ==>
      LeadingWhitespace(s) < TrailingWhitespaceStart(s) &&
      r == s[LeadingWhitespace(s)..TrailingWhitespaceStart(s)]
  {
    var t := s[LeadingWhitespace(s)..];
    t[..TrailingWhitespaceStart(t)]
  }

  /** A leading space goes when the rest is already trimmed. */
  lemma TrimLeadingSpace(s: string)
    requires s != [] && !IsWhitespace(s[0]) && !IsWhitespace(s[|s| - 1])
    ensures Trim(" " + s) == s
  {
    var t := " " + s;
    assert LeadingWhitespace(t) == 1 by {
      assert t[1..] == s;
    }
    assert t[1..] == s;
  }

  // ---------------------------------------------------------------------------
  // str::split on a one-character pattern, and its inverse

  /** `s.split(c)`: the maximal pieces of `s` between occurrences of `c`, in
      order, empty pieces included (so there is always at least one). */
  function Split(s: string, c: char): (parts: seq<string>)
    ensures |parts| >= 1
    ensures forall p :: p in parts ==> c !in p
  {
    if s == [] then [[]]
    else
      var rest := Split(s[1..], c);
      if s[0] == c then [[]] + rest
      else [[s[0]] + rest[0]] + rest[1..]
  }

  /** The pieces `parts` glued back together with `c` between neighbours. */
  function Join(parts: seq<string>, c: char): string
    requires |parts| >= 1
  {
    if |parts| == 1 then parts[0] else parts[0] + [c] + Join(parts[1..], c)
  }

  /** There is one piece more than there are separators. */
  lemma {:induction false} SplitCount(s: string, c: char)
    ensures |Split(s, c)| == Occurrences(s, c) + 1
  {
    if s != [] {
      var rest := Split(s[1..], c);
      SplitCount(s[1..], c);
      assert Occurrences(s, c) == (if s[0] == c then 1 else 0) + Occurrences(s[1..], c);
      if s[0] != c {
        assert |[[s[0]] + rest[0]] + rest[1..]| == |rest|;
      }
    }
  }

  /** Joining the pieces gives the string back. */
  lemma {:induction false} JoinSplit(s: string, c: char)
    ensures Join(Split(s, c), c) == s
  {
    if s != [] {
      var rest := Split(s[1..], c);
      JoinSplit(s[1..], c);
      if s[0] == c {
        assert Split(s, c)[1..] == rest;
      } else {
        var parts := Split(s, c);
        assert parts[1..] == rest[1..];
        if |rest| == 1 {
          assert Join(parts, c) == [s[0]] + rest[0];
        } else {
          assert Join(parts, c) == [s[0]] + rest[0] + [c] + Join(rest[1..], c);
        }
      }
    }
  }

  /** Splitting undoes joining when no piece contains the separator. */
  lemma {:induction false} SplitJoin(parts: seq<string>, c: char)
    requires |parts| >= 1
    requires forall p :: p in parts ==> c !in p
    ensures Split(Join(parts, c), c) == parts
  {
    if |parts| == 1 {
      SplitWithout(parts[0], c);
    } else {
      var tail := Join(parts[1..], c);
      SplitJoin(parts[1..], c);
      SplitPrefix(parts[0], tail, c);
    }
  }

  lemma {:induction false} SplitWithout(s: string, c: char)
    requires c !in s
    ensures Split(s, c) == [s]
  {
    if s != [] {
      SplitWithout(s[1..], c);
      assert [s[0]] + s[1..] == s;
    }
  }

  /** A separator-free prefix followed by the separator becomes one piece. */
  lemma {:induction false} SplitPrefix(p: string, t: string, c: char)
    requires c !in p
    ensures Split(p + [c] + t, c) == [p] + Split(t, c)
  {
    var s := p + [c] + t;
    if p == [] {
      assert s[0] == c && s[1..] == t;
    } else {
      assert s[0] == p[0] != c;
      assert s[1..] == p[1..] + [c] + t;
      SplitPrefix(p[1..], t, c);
      var rest := Split(s[1..], c);
      assert rest == [p[1..]] + Split(t, c);
      assert Split(s, c) == [[p[0]] + rest[0]] + rest[1..];
      assert [p[0]] + p[1..] == p;
    }
  }

  // ---------------------------------------------------------------------------
  // Numerals: `<u8 as FromStr>::from_str` and the decimal Display of a u8

  function DigitValue(c: char): (d: nat)
    requires IsDigit(c)
    ensures d < 10
  {
    c as int - '0' as int
  }

  function DigitChar(d: nat): (c: char)
    requires d < 10
    ensures IsDigit(c) && DigitValue(c) == d
  {
    ('0' as int + d) as char
  }

  /** The value of a decimal numeral, most significant digit first. */
  function DecimalValue(s: string): nat
    requires AllDigits(s)
  {
    if s == [] then 0 else DecimalValue(s[..|s| - 1]) * 10 + DigitValue(s[|s| - 1])
  }

  /** A numeral is worth zero exactly when all its digits are `0`. */
  lemma {:induction false} DecimalValueZero(s: string)
    requires AllDigits(s)
    ensures DecimalValue(s) == 0 <==> forall i :: 0 <= i < |s| ==> s[i] == '0'
  {
    if s != [] {
      var p := s[..|s| - 1];
      DecimalValueZero(p);
      assert forall i :: 0 <= i < |p| ==> p[i] == s[i];
    }
  }

  /** `str::parse::<u8>`: an optional `+` followed by at least one decimal digit,
      whose value must fit in a byte; anything else is an error (None). */
  function ParseU8(s: string): (r: Option<u8>)
    ensures r.Some? ==> |s| > 0 && (IsDigit(s[0]) || s[0] == '+')
    ensures AllDigits(s) && |s| > 0 ==>
      r == if DecimalValue(s) < 256 then Some(DecimalValue(s) as u8) else None
  {
    var digits := if |s| > 0 && s[0] == '+' then s[1..] else s;
    if |digits| > 0 && AllDigits(digits) && DecimalValue(digits) < 256
    then Some(DecimalValue(digits) as u8)
    else None
  }

  /** The decimal `Display` of a number: no sign, no leading zeros. */
  function Decimal(n: nat): (s: string)
    ensures |s| >= 1 && AllDigits(s)
    ensures DecimalValue(s) == n
    ensures |s| > 1 ==> s[0] != '0'
  {
    if n < 10 then [DigitChar(n)]
    else
      var s := Decimal(n / 10) + [DigitChar(n % 10)];
      assert s[..|s| - 1] == Decimal(n / 10);
      s
  }

  /** Parsing the rendering of a byte gives the byte back. */
  lemma DecimalParses(n: u8)
    ensures ParseU8(Decimal(n as nat)) == Some(n)
  {
  }

  lemma DecimalHasNo(n: nat, c: char)
    requires !IsDigit(c)
    ensures c !in Decimal(n)
  {
  }
}
