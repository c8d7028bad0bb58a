/** The string operations of Python that the reports rely on, restricted to
    ASCII where Python's own definitions depend on the Unicode tables:
    `str.lower`, `in` on strings, `str.replace`, `str.join`, `str(int)`,
    `str.title`, and the "cut and add an ellipsis" label rule. */
module Text {
  import opened Seqs

  // ---- case ----

  predicate IsUpper(c: char) { 'A' <= c <= 'Z' }
  predicate IsLower(c: char) { 'a' <= c <= 'z' }
  /** Python's "cased" characters, restricted to ASCII letters. */
  predicate IsLetter(c: char) { IsUpper(c) || IsLower(c) }

  function LowerChar(c: char): char { if IsUpper(c) then (c as int + 32) as char else c }
  function UpperChar(c: char): char { if IsLower(c) then (c as int - 32) as char else c }

  /** `s.lower()` */
  function Lower(s: string): (r: string)
    ensures |r| == |s|
    ensures forall i :: 0 <= i < |s| ==> r[i] == LowerChar(s[i])
  {
    seq(|s|, i requires 0 <= i < |s| => LowerChar(s[i]))
  }

  /** Lowering twice is lowering once. */
  lemma LowerIdempotent(s: string)
    ensures Lower(Lower(s)) == Lower(s)
  {
    assert forall i :: 0 <= i < |s| ==> Lower(Lower(s))[i] == Lower(s)[i];
  }

  /** Two strings that differ only in the case of their letters lower to the same string. */
  lemma LowerIgnoresCase(s: string, t: string)
    requires |s| == |t|
    requires forall i :: 0 <= i < |s| ==> LowerChar(s[i]) == LowerChar(t[i])
    ensures Lower(s) == Lower(t)
  {
    assert forall i :: 0 <= i < |s| ==> Lower(s)[i] == Lower(t)[i];
  }

  function TitleFrom(s: string, afterLetter: bool): (r: string)
    ensures |r| == |s|
  {
    if s == [] then []
    else
      var c := s[0];
      [if !IsLetter(c) then c else if afterLetter then LowerChar(c) else UpperChar(c)]
        + TitleFrom(s[1..], IsLetter(c))
  }

  /** `s.title()`: a letter is upper-cased when it starts a word (no letter
      just before it) and lower-cased otherwise; other characters are kept. */
  function TitleCase(s: string): (r: string)
    ensures |r| == |s|
  {
    TitleFrom(s, false)
  }

  /** The character-by-character meaning of `TitleCase`. */
  lemma {:induction false} TitleCaseAt(s: string, i: nat)
    requires i < |s|
    ensures TitleCase(s)[i]
         == if !IsLetter(s[i]) then s[i]
            else if i > 0 && IsLetter(s[i - 1]) then LowerChar(s[i])
            else UpperChar(s[i])
  {
    TitleFromAt(s, false, i);
  }

  lemma {:induction false} TitleFromAt(s: string, afterLetter: bool, i: nat)
    requires i < |s|
    ensures TitleFrom(s, afterLetter)[i]
         == if !IsLetter(s[i]) then s[i]
            else if (if i > 0 then IsLetter(s[i - 1]) else afterLetter) then LowerChar(s[i])
            else UpperChar(s[i])
  {
    if i > 0 {
      TitleFromAt(s[1..], IsLetter(s[0]), i - 1);
    }
  }

  /** Title-casing only changes case: lowering the result gives the lowered input. */
  lemma TitleCaseKeepsLetters(s: string)
    ensures Lower(TitleCase(s)) == Lower(s)
  {
    forall i | 0 <= i < |s| ensures Lower(TitleCase(s))[i] == Lower(s)[i] {
      TitleCaseAt(s, i);
    }
  }

  /** Title-casing a title-cased string changes nothing. */
  lemma TitleCaseIdempotent(s: string)
    ensures TitleCase(TitleCase(s)) == TitleCase(s)
  {
    var t := TitleCase(s);
    forall i | 0 <= i < |s| ensures TitleCase(t)[i] == t[i] {
      TitleCaseAt(t, i);
      TitleCaseAt(s, i);
      if i > 0 { TitleCaseAt(s, i - 1); }
    }
  }

  // ---- substrings ----

  predicate OccursAt(text: string, pat: string, i: int) {
    0 <= i && i + |pat| <= |text| && text[i..i + |pat|] == pat
  }

  /** Python's `pat in text`. */
  predicate Contains(text: string, pat: string) {
    exists i :: 0 <= i <= |text| && OccursAt(text, pat, i)
  }

  /** A non-empty pattern never occurs in the empty string. */
  lemma EmptyContainsNothing(pat: string)
    requires pat != []
    ensures !Contains("", pat)
  {
  }

  /** `s.replace(pat, rep)`: every non-overlapping occurrence, scanning left to right. */
  function ReplaceAll(s: string, pat: string, rep: string): string
    requires pat != []
    decreases |s|
  {
    if |s| < |pat| then s
    else if s[..|pat|] == pat then rep + ReplaceAll(s[|pat|..], pat, rep)
    else [s[0]] + ReplaceAll(s[1..], pat, rep)
  }

  /** Replacing a pattern that does not occur changes nothing. */
  lemma {:induction false} ReplaceAbsent(s: string, pat: string, rep: string)
    requires pat != []
    requires !Contains(s, pat)
    ensures ReplaceAll(s, pat, rep) == s
    decreases |s|
  {
    if |s| >= |pat| {
      assert !OccursAt(s, pat, 0);
      assert s[..|pat|] != pat;
      forall i | 0 <= i <= |s[1..]| ensures !OccursAt(s[1..], pat, i) {
        assert !OccursAt(s, pat, i + 1);
      }
      ReplaceAbsent(s[1..], pat, rep);
    }
  }

  /** Replacing one character by another is a character-by-character map. */
  lemma {:induction false} ReplaceCharAt(s: string, c: char, d: char)
    ensures |ReplaceAll(s, [c], [d])| == |s|
    ensures forall i :: 0 <= i < |s| ==> ReplaceAll(s, [c], [d])[i] == (if s[i] == c then d else s[i])
  {
    if s != [] {
      ReplaceCharAt(s[1..], c, d);
      assert s[..1] == [s[0]];
    }
  }

  /** Removing a pattern never lengthens a string. */
  lemma {:induction false} RemoveShortens(s: string, pat: string)
    requires pat != []
    ensures |ReplaceAll(s, pat, "")| <= |s|
    decreases |s|
  {
    if |s| >= |pat| {
      if s[..|pat|] == pat { RemoveShortens(s[|pat|..], pat); }
      else { RemoveShortens(s[1..], pat); }
    }
  }

  /** When `pat` is found nowhere before the end of `base + pat`, removing
      every `pat` from `base + pat` gives back `base`. */
  lemma {:induction false} RemoveTrailing(base: string, pat: string)
    requires pat != []
    requires forall i :: 0 <= i < |base| ==> !OccursAt(base + pat, pat, i)
    ensures ReplaceAll(base + pat, pat, "") == base
    decreases |base|
  {
    var s := base + pat;
    if base == [] {
      assert s[..|pat|] == pat && s[|pat|..] == [];
    } else {
      assert !OccursAt(s, pat, 0);
      assert s[..|pat|] != pat;
      var b := base[1..];
      assert s[1..] == b + pat;
      forall i | 0 <= i < |b| ensures !OccursAt(b + pat, pat, i) {
        assert !OccursAt(s, pat, i + 1);
      }
      RemoveTrailing(b, pat);
    }
  }

  // ---- joining ----

  /** `sep.join(parts)` */
  function Join(parts: seq<string>, sep: string): string {
    if |parts| == 0 then []
    else if |parts| == 1 then parts[0]
    else Join(parts[..|parts| - 1], sep) + sep + parts[|parts| - 1]
  }

  function Length(s: string): int { |s| }

  /** The joined string is exactly as long as the parts and the separators between them. */
  lemma {:induction false} JoinLength(parts: seq<string>, sep: string)
    ensures |Join(parts, sep)|
         == SumOf(parts, Length) + (if |parts| == 0 then 0 else (|parts| - 1) * |sep|)
  {
    if |parts| == 1 {
      assert SumOf(parts, Length) == SumOf(parts[..0], Length) + |parts[0]|;
    } else if |parts| > 1 {
      JoinLength(parts[..|parts| - 1], sep);
    }
  }

  // ---- decimal numbers ----

  predicate IsDigit(c: char) { '0' <= c <= '9' }
  predicate AllDigits(s: string) { forall i :: 0 <= i < |s| ==> IsDigit(s[i]) }

  function DigitChar(d: int): char
    requires 0 <= d < 10
  {
    ('0' as int + d) as char
  }

  /** The decimal digits of `n`, without leading zeros (Python's `str(n)` for n >= 0). */
  function NatDigits(n: nat): (r: string)
    ensures |r| >= 1 && AllDigits(r)
  {
    if n < 10 then [DigitChar(n)] else NatDigits(n / 10) + [DigitChar(n % 10)]
  }

  /** The number a string of decimal digits denotes. */
  function DigitsValue(s: string): nat
    requires AllDigits(s)
  {
    if s == [] then 0 else DigitsValue(s[..|s| - 1]) * 10 + (s[|s| - 1] as int - '0' as int)
  }

  /** Reading the digits back gives the number, and there is no leading zero. */
  lemma {:induction false} NatDigitsRoundTrip(n: nat)
    ensures DigitsValue(NatDigits(n)) == n
    ensures NatDigits(n)[0] == '0' <==> n == 0
  {
    if n >= 10 {
      NatDigitsRoundTrip(n / 10);
      var d := NatDigits(n / 10);
      assert (d + [DigitChar(n % 10)])[..|d|] == d;
    }
  }

  /** `str(n)` for an integer. */
  function IntToString(n: int): string {
    if n < 0 then "-" + NatDigits(-n) else NatDigits(n)
  }

  // ---- labels ----

  /** `s[:budget] + "..." if len(s) > budget else s` */
  function Ellipsize(s: string, budget: nat): (r: string)
  {
    if |s| > budget then s[..budget] + "..." else s
  }

  /** A long label is cut to `budget` characters of its start plus an
      ellipsis; a short one is kept. */
  lemma EllipsizeShape(s: string, budget: nat)
    ensures |s| <= budget ==> Ellipsize(s, budget) == s
    ensures |s| > budget ==> (|Ellipsize(s, budget)| == budget + 3
                              && Ellipsize(s, budget)[..budget] == s[..budget]
                              && Ellipsize(s, budget)[budget..] == "...")
    ensures |Ellipsize(s, budget)| <= budget + 3
  {
  }

  const PublicLibrary := " Public Library"
  const LibrarySystem := " Library System"

  /** `name.replace(" Public Library", "").replace(" Library System", "")`,
      the label rule shared by the inset maps and the copies scatter chart. */
  function StripLibrarySuffixes(name: string): string {
    ReplaceAll(ReplaceAll(name, PublicLibrary, ""), LibrarySystem, "")
  }

  /** A name that contains neither suffix is its own label, and stripping never lengthens a name. */
  lemma StripLibrarySuffixesFacts(name: string)
    ensures !Contains(name, PublicLibrary) && !Contains(name, LibrarySystem)
            ==> StripLibrarySuffixes(name) == name
    ensures |StripLibrarySuffixes(name)| <= |name|
  {
    RemoveShortens(name, PublicLibrary);
    RemoveShortens(ReplaceAll(name, PublicLibrary, ""), LibrarySystem);
    if !Contains(name, PublicLibrary) && !Contains(name, LibrarySystem) {
      ReplaceAbsent(name, PublicLibrary, "");
      ReplaceAbsent(name, LibrarySystem, "");
    }
  }

  /** "<base> Public Library" is labelled "<base>" when the suffix is found only
      at its end and `base` contains no " Library System". */
  lemma StripPublicLibrary(base: string)
    requires forall i :: 0 <= i < |base| ==> !OccursAt(base + PublicLibrary, PublicLibrary, i)
    requires !Contains(base, LibrarySystem)
    ensures StripLibrarySuffixes(base + PublicLibrary) == base
  {
    RemoveTrailing(base, PublicLibrary);
    ReplaceAbsent(base, LibrarySystem, "");
  }

  /** "<base> Library System" is labelled "<base>" when it contains no
      " Public Library" and the suffix is found only at its end. */
  lemma StripLibrarySystem(base: string)
    requires !Contains(base + LibrarySystem, PublicLibrary)
    requires forall i :: 0 <= i < |base| ==> !OccursAt(base + LibrarySystem, LibrarySystem, i)
    ensures StripLibrarySuffixes(base + LibrarySystem) == base
  {
    ReplaceAbsent(base + LibrarySystem, PublicLibrary, "");
    RemoveTrailing(base, LibrarySystem);
  }
}
