/** The data shaping of the LaTeX report step: the keyword theme classifier,
    the template filters, and the aggregation that builds the template context
    (metadata enrichment, holdings tiers, found percentage, metro subsets). */
module RenderLatex {
  import opened Seqs
  import opened StableSort
  import opened Text

  // ======================= Thematic categorization =======================

  /** A book as the report sees it; `None` stands for a missing JSON key. */
  datatype Book = Book(title: Option<string>, systemCount: Option<int>)

  /** One category of the keyword table with its lowercase keyword fragments. */
  datatype Theme = Theme(name: string, keywords: seq<string>)

  const ThemeKeywords: seq<Theme> := [
    Theme("Gender Identity & Transgender", [
      "transgender", "trans ", "trans-", "gender identity", "nonbinary",
      "non-binary", "genderqueer", "gender queer", "gender creative",
      "cisgender", "assigned male", "assigned female", "gender spectrum",
      "gender fluid", "they/them"]),
    Theme("LGBTQ+ Content", [
      "gay", "lesbian", "queer", "bisexual", "lgbtq", "same-sex",
      "two moms", "two dads", "two brides", "pride parade", "homosexual",
      "coming out", "drag queen"]),
    Theme("Sexuality & Sex Education", [
      "sex education", "sex is a", "sexuality", "sexual identity",
      "sexual orientation", "bodies, feelings", "puberty",
      "s.e.x.", "sex, puberty"]),
    Theme("Abortion & Reproductive Politics", [
      "abortion", "roe v. wade", "reproductive right", "pro-choice",
      "pro-life", "planned parenthood"]),
    Theme("Critical Race Theory & Racial Activism", [
      "black lives matter", "blm", "critical race", "antiracist",
      "anti-racist", "white fragility", "white privilege",
      "systemic racism", "white supremacy"])
  ]

  /** The table is a dictionary: its category names are distinct. */
  predicate DistinctNames(table: seq<Theme>) {
    forall i, j :: 0 <= i < j < |table| ==> table[i].name != table[j].name
  }

  predicate NonEmptyKeywords(table: seq<Theme>) {
    forall j, k :: 0 <= j < |table| && 0 <= k < |table[j].keywords| ==> table[j].keywords[k] != []
  }

  function ThemeNames(table: seq<Theme>): set<string> {
    set j | 0 <= j < |table| :: table[j].name
  }

  /** The fixed keyword table has distinct category names and no empty keyword. */
  lemma ThemeKeywordsWellFormed()
    ensures DistinctNames(ThemeKeywords) && NonEmptyKeywords(ThemeKeywords)
  {
  }

  /** `book.get("title", "")` */
  function TitleText(b: Book): string { b.title.GetOr("") }

  /** `any(kw in text for kw in kws)` */
  predicate MatchesTheme(text: string, th: Theme) {
    exists k :: 0 <= k < |th.keywords| && Contains(text, th.keywords[k])
  }

  /** The categories whose keywords occur in the lowercased title. */
  function Categories(table: seq<Theme>, title: string): set<string> {
    set j | 0 <= j < |table| && MatchesTheme(Lower(title), table[j]) :: table[j].name
  }

  /** `categorize_book`: loops over the table, adding each matching category. */
  method CategorizeBook(table: seq<Theme>, book: Book) returns (cats: set<string>)
    ensures cats == Categories(table, TitleText(book))
    ensures cats <= ThemeNames(table)
  {
    var text := Lower(TitleText(book));
    cats := {};
    var i := 0;
    while i < |table|
      invariant 0 <= i <= |table|
      invariant cats == set j | 0 <= j < i && MatchesTheme(text, table[j]) :: table[j].name
    {
      if MatchesTheme(text, table[i]) {
        cats := cats + {table[i].name};
      }
      i := i + 1;
    }
  }

  /** With distinct names, a category is assigned exactly when one of its own keywords matches. */
  lemma CategoryIff(table: seq<Theme>, j: nat, title: string)
    requires DistinctNames(table) && j < |table|
    ensures table[j].name in Categories(table, title) <==> MatchesTheme(Lower(title), table[j])
  {
    if table[j].name in Categories(table, title) {
      var j' :| 0 <= j' < |table| && MatchesTheme(Lower(title), table[j']) && table[j'].name == table[j].name;
      assert j' == j;
    }
  }

  /** Case never matters: titles that differ only in letter case get the same
      categories, and a title gets the categories of its lowercased form. */
  lemma CategoriesIgnoreCase(table: seq<Theme>, t1: string, t2: string)
    requires |t1| == |t2|
    requires forall i :: 0 <= i < |t1| ==> LowerChar(t1[i]) == LowerChar(t2[i])
    ensures Categories(table, t1) == Categories(table, t2)
    ensures Categories(table, t1) == Categories(table, Lower(t1))
  {
    LowerIgnoresCase(t1, t2);
    LowerIdempotent(t1);
  }

  /** An empty or missing title matches no category, since no keyword is empty. */
  lemma EmptyTitleNoCategories(table: seq<Theme>, b: Book)
    requires NonEmptyKeywords(table)
    requires b.title.None? || b.title == Some("")
    ensures Categories(table, TitleText(b)) == {}
  {
    assert TitleText(b) == "";
    forall j | 0 <= j < |table| ensures !MatchesTheme(Lower(""), table[j]) {
      forall k | 0 <= k < |table[j].keywords| ensures !Contains("", table[j].keywords[k]) {
        EmptyContainsNothing(table[j].keywords[k]);
      }
    }
  }

  /** What `build_theme_stats` records for one category. */
  datatype ThemeStat = ThemeStat(count: nat, examples: seq<string>, topSystemCounts: seq<int>, totalHoldings: int)

  /** `b.get("systemCount", 0)` */
  function SystemCountOf(b: Book): int { b.systemCount.GetOr(0) }
  function CountKey(b: Book): real { SystemCountOf(b) as real }

  predicate InTheme(th: Theme, b: Book) { MatchesTheme(Lower(TitleText(b)), th) }
  function InThemeP(th: Theme): Book -> bool { b => InTheme(th, b) }

  function Titles(bs: seq<Book>): (r: seq<string>)
    ensures |r| == |bs| && forall i :: 0 <= i < |bs| ==> r[i] == TitleText(bs[i])
  {
    seq(|bs|, i requires 0 <= i < |bs| => TitleText(bs[i]))
  }

  function Counts(bs: seq<Book>): (r: seq<int>)
    ensures |r| == |bs| && forall i :: 0 <= i < |bs| ==> r[i] == SystemCountOf(bs[i])
  {
    seq(|bs|, i requires 0 <= i < |bs| => SystemCountOf(bs[i]))
  }

  /** The matching books, most widely held first (stable). */
  function RankedMatches(th: Theme, books: seq<Book>): seq<Book> {
    SortDesc(Filter(books, InThemeP(th)), CountKey)
  }

  /** The statistics of one category over a list of books. */
  function ThemeStatOf(th: Theme, books: seq<Book>): ThemeStat {
    var ranked := RankedMatches(th, books);
    var top := Take(ranked, 5);
    ThemeStat(|ranked|, Titles(top), Counts(top), SumOf(ranked, SystemCountOf))
  }

  /** The inner loop of `build_theme_stats`: the books the categorizer puts in
      category `t`, in input order. */
  method MatchingBooks(table: seq<Theme>, t: nat, books: seq<Book>) returns (matching: seq<Book>)
    requires DistinctNames(table) && t < |table|
    ensures matching == Filter(books, InThemeP(table[t]))
  {
    matching := [];
    var i := 0;
    while i < |books|
      invariant 0 <= i <= |books|
      invariant matching == Filter(books[..i], InThemeP(table[t]))
    {
      var cats := CategorizeBook(table, books[i]);
      CategoryIff(table, t, TitleText(books[i]));
      if table[t].name in cats {
        matching := matching + [books[i]];
      }
      assert books[..i + 1][..i] == books[..i];
      i := i + 1;
    }
    assert books[..|books|] == books;
  }

  /** `build_theme_stats`: for each category, collect the matching books by
      calling the categorizer, sort them, and record the statistics. */
  method BuildThemeStats(table: seq<Theme>, books: seq<Book>) returns (data: map<string, ThemeStat>)
    requires DistinctNames(table)
    ensures data.Keys == ThemeNames(table)
    ensures forall j :: 0 <= j < |table| ==> data[table[j].name] == ThemeStatOf(table[j], books)
  {
    data := map[];
    var t := 0;
    while t < |table|
      invariant 0 <= t <= |table|
      invariant data.Keys == set j | 0 <= j < t :: table[j].name
      invariant forall j :: 0 <= j < t ==> data[table[j].name] == ThemeStatOf(table[j], books)
    {
      var matching := MatchingBooks(table, t, books);
      matching := SortDesc(matching, CountKey);
      var top := Take(matching, 5);
      var stat := ThemeStat(|matching|, Titles(top), Counts(top), SumOf(matching, SystemCountOf));
      assert stat == ThemeStatOf(table[t], books);
      data := data[table[t].name := stat];
      t := t + 1;
    }
  }

  /** The statistics of a category: `count` is the number of matching books,
      `examples` and `top_system_counts` are parallel, hold min(count, 5)
      entries and have non-increasing counts, and `total_holdings` is the sum of
      the counts of all matching books, in input order. */
  lemma ThemeStatShape(th: Theme, books: seq<Book>)
    ensures var st := ThemeStatOf(th, books);
      && st.count == |Filter(books, InThemeP(th))|
      && |st.examples| == |st.topSystemCounts| == Min(st.count, 5)
      && (forall i, j :: 0 <= i < j < |st.topSystemCounts| ==> st.topSystemCounts[i] >= st.topSystemCounts[j])
      && st.totalHoldings == SumOf(Filter(books, InThemeP(th)), SystemCountOf)
  {
    var matching := Filter(books, InThemeP(th));
    var ranked := RankedMatches(th, books);
    SortDescSorted(matching, CountKey);
    SortDescSum(matching, CountKey, SystemCountOf);
    var st := ThemeStatOf(th, books);
    forall i, j | 0 <= i < j < |st.topSystemCounts|
      ensures st.topSystemCounts[i] >= st.topSystemCounts[j]
    {
      assert CountKey(ranked[i]) >= CountKey(ranked[j]);
    }
  }

  /** The examples are the most widely held matching books: each has a count at
      least that of every matching book left out, and among books with equal
      counts the examples are the earliest ones in input order. */
  lemma ThemeExamplesAreTop(th: Theme, books: seq<Book>, k: real)
    ensures var ranked := RankedMatches(th, books);
      && (forall i, j :: 0 <= i < |Take(ranked, 5)| <= j < |ranked| ==>
            SystemCountOf(ranked[i]) >= SystemCountOf(ranked[j]))
      && var w := WithKey(Take(ranked, 5), CountKey, k);
         |w| <= |WithKey(Filter(books, InThemeP(th)), CountKey, k)|
         && w == WithKey(Filter(books, InThemeP(th)), CountKey, k)[..|w|]
  {
    var matching := Filter(books, InThemeP(th));
    var ranked := RankedMatches(th, books);
    SortDescSorted(matching, CountKey);
    SortDescStable(matching, CountKey, k);
    TopOfSorted(ranked, CountKey, 5, k);
    forall i, j | 0 <= i < |Take(ranked, 5)| <= j < |ranked|
      ensures SystemCountOf(ranked[i]) >= SystemCountOf(ranked[j])
    {
      assert CountKey(Take(ranked, 5)[i]) >= CountKey(ranked[j]);
    }
  }

  /** `b["title"]` in the example list never meets a book without a title:
      with no empty keyword, such a book matches no category. */
  lemma MatchedBooksHaveTitles(th: Theme, books: seq<Book>)
    requires forall k :: 0 <= k < |th.keywords| ==> th.keywords[k] != []
    ensures forall b :: b in RankedMatches(th, books) ==> b.title.Some?
  {
    var matching := Filter(books, InThemeP(th));
    SortDescPermutes(matching, CountKey);
    forall b | b in RankedMatches(th, books) ensures b.title.Some? {
      assert b in multiset(matching);
      FilterMember(books, InThemeP(th), b);
      if b.title.None? {
        assert InTheme(th, b);
        var k :| 0 <= k < |th.keywords| && Contains(Lower(""), th.keywords[k]);
        EmptyContainsNothing(th.keywords[k]);
      }
    }
  }

  // ============================ Template filters ============================

  predicate IsLatexSpecial(c: char) { c in "&%$#_{}~^\\" }

  const TildeEscape := "\\textasciitilde{}"
  const CircumflexEscape := "\\textasciicircum{}"
  const BackslashEscape := "\\textbackslash{}"

  /** `LATEX_ESCAPE_MAP`, with every other character standing for itself. */
  function EscapeChar(c: char): string {
    match c
    case '~' => TildeEscape
    case '^' => CircumflexEscape
    case '\\' => BackslashEscape
    case _ => if c in "&%$#_{}" then ['\\', c] else [c]
  }

  function EscapeText(s: string): string {
    if s == [] then [] else EscapeChar(s[0]) + EscapeText(s[1..])
  }

  /** `latex_escape`: `None` and `""` give `""`; otherwise every special
      character is replaced by its escape sequence, in one left-to-right pass. */
  function LatexEscape(text: Option<string>): (r: string)
    ensures text.None? || text == Some("") ==> r == ""
  {
    match text
    case None => ""
    case Some(s) => EscapeText(s)
  }

  /** Text without special characters passes through unchanged. */
  lemma {:induction false} EscapePlainText(s: string)
    requires forall i :: 0 <= i < |s| ==> !IsLatexSpecial(s[i])
    ensures EscapeText(s) == s
  {
    if s != [] {
      EscapePlainText(s[1..]);
    }
  }

  lemma {:induction false} EscapeConcat(s: string, t: string)
    ensures EscapeText(s + t) == EscapeText(s) + EscapeText(t)
  {
    if s != [] {
      EscapeConcat(s[1..], t);
      assert (s + t)[0] == s[0] && (s + t)[1..] == s[1..] + t;
      assert EscapeText(s + t) == EscapeChar(s[0]) + EscapeText(s[1..] + t);
      assert EscapeText(s) == EscapeChar(s[0]) + EscapeText(s[1..]);
    } else {
      assert s + t == t;
    }
  }

  predicate StartsWith(s: string, p: string) { |p| <= |s| && s[..|p|] == p }

  /** Reads escaped text back: the inverse of `EscapeText`. */
  function Unescape(s: string): string
    decreases |s|
  {
    if s == [] then []
    else if StartsWith(s, TildeEscape) then ['~'] + Unescape(s[|TildeEscape|..])
    else if StartsWith(s, CircumflexEscape) then ['^'] + Unescape(s[|CircumflexEscape|..])
    else if StartsWith(s, BackslashEscape) then ['\\'] + Unescape(s[|BackslashEscape|..])
    else if |s| >= 2 && s[0] == '\\' && s[1] in "&%$#_{}" then [s[1]] + Unescape(s[2..])
    else [s[0]] + Unescape(s[1..])
  }

  lemma NotStartsWith(s: string, p: string, i: nat)
    requires i < |p| && i < |s| && s[i] != p[i]
    ensures !StartsWith(s, p)
  {
    if |p| <= |s| {
      assert s[..|p|][i] == s[i];
    }
  }

  lemma UnescapeTilde(t: string)
    ensures Unescape(TildeEscape + t) == ['~'] + Unescape(t)
  {
    var s := TildeEscape + t;
    assert s[..|TildeEscape|] == TildeEscape;
    assert s[|TildeEscape|..] == t;
  }

  lemma UnescapeCircumflex(t: string)
    ensures Unescape(CircumflexEscape + t) == ['^'] + Unescape(t)
  {
    var s := CircumflexEscape + t;
    NotStartsWith(s, TildeEscape, 10);
    assert s[..|CircumflexEscape|] == CircumflexEscape;
    assert s[|CircumflexEscape|..] == t;
  }

  lemma UnescapeBackslash(t: string)
    ensures Unescape(BackslashEscape + t) == ['\\'] + Unescape(t)
  {
    var s := BackslashEscape + t;
    NotStartsWith(s, TildeEscape, 5);
    NotStartsWith(s, CircumflexEscape, 5);
    assert s[..|BackslashEscape|] == BackslashEscape;
    assert s[|BackslashEscape|..] == t;
  }

  lemma UnescapeSimple(c: char, t: string)
    requires c in "&%$#_{}"
    ensures Unescape(['\\', c] + t) == [c] + Unescape(t)
  {
    var s := ['\\', c] + t;
    NotStartsWith(s, TildeEscape, 1);
    NotStartsWith(s, CircumflexEscape, 1);
    NotStartsWith(s, BackslashEscape, 1);
    assert s[2..] == t;
  }

  lemma UnescapePlain(c: char, t: string)
    requires !IsLatexSpecial(c)
    ensures Unescape([c] + t) == [c] + Unescape(t)
  {
    var s := [c] + t;
    NotStartsWith(s, TildeEscape, 0);
    NotStartsWith(s, CircumflexEscape, 0);
    NotStartsWith(s, BackslashEscape, 0);
    assert s[1..] == t;
  }

  lemma UnescapeChar(c: char, t: string)
    ensures Unescape(EscapeChar(c) + t) == [c] + Unescape(t)
  {
    if c == '~' {
      UnescapeTilde(t);
    } else if c == '^' {
      UnescapeCircumflex(t);
    } else if c == '\\' {
      UnescapeBackslash(t);
    } else if c in "&%$#_{}" {
      UnescapeSimple(c, t);
    } else {
      UnescapePlain(c, t);
    }
  }

  /** Escaping loses nothing: unescaping the result gives the text back. */
  lemma {:induction false} EscapeRoundTrip(s: string)
    ensures Unescape(EscapeText(s)) == s
  {
    if s != [] {
      EscapeRoundTrip(s[1..]);
      UnescapeChar(s[0], EscapeText(s[1..]));
    }
  }

  /** `truncate_text`: `None` and `""` give `""`, a text of at most `maxLen`
      characters is kept, a longer one becomes `text[:maxLen-3] + "..."`
      (Python's slice, so a negative bound counts from the end). */
  function TruncateText(text: Option<string>, maxLen: int): string {
    match text
    case None => ""
    case Some(s) =>
      if s == [] then ""
      else if |s| <= maxLen then s
      else PrefixTo(s, maxLen - 3) + "..."
  }

  /** A short text is unchanged; a long one becomes a prefix of itself followed
      by "...", exactly `maxLen` characters long when `maxLen >= 3`. */
  lemma TruncateTextShape(text: Option<string>, maxLen: int)
    ensures text.None? || text == Some("") ==> TruncateText(text, maxLen) == ""
    ensures text.Some? && |text.value| <= maxLen ==> TruncateText(text, maxLen) == text.value
    ensures text.Some? && text.value != [] && |text.value| > maxLen ==>
      var r := TruncateText(text, maxLen);
      && |r| >= 3 && r[|r| - 3..] == "..."
      && r[..|r| - 3] == text.value[..|r| - 3]
      && (maxLen >= 3 ==> |r| == maxLen)
  {
    if text.Some? && text.value != [] && |text.value| > maxLen {
      var p := PrefixTo(text.value, maxLen - 3);
      var r := p + "...";
      assert TruncateText(text, maxLen) == r;
      assert r[..|r| - 3] == p && r[|r| - 3..] == "...";
    }
  }

  /** An author field: missing, a plain string, or a list of names. */
  datatype Authors = NoAuthors | AuthorText(text: string) | AuthorList(names: seq<string>)

  /** `join_authors` */
  function JoinAuthors(a: Authors): string {
    match a
    case NoAuthors => ""
    case AuthorText(s) => s
    case AuthorList(ns) =>
      if |ns| == 0 then ""
      else if |ns| == 1 then ns[0]
      else if |ns| == 2 then ns[0] + " and " + ns[1]
      else ns[0] + " et al."
  }

  /** The shapes `join_authors` produces, and that a list's result always
      starts with its first author and depends on no name after the second. */
  lemma JoinAuthorsCases(a: Authors)
    ensures a.NoAuthors? || a == AuthorText("") || a == AuthorList([]) ==> JoinAuthors(a) == ""
    ensures a.AuthorText? ==> JoinAuthors(a) == a.text
    ensures a.AuthorList? && |a.names| == 1 ==> JoinAuthors(a) == a.names[0]
    ensures a.AuthorList? && |a.names| == 2 ==> JoinAuthors(a) == a.names[0] + " and " + a.names[1]
    ensures a.AuthorList? && |a.names| >= 3 ==> JoinAuthors(a) == a.names[0] + " et al."
    ensures a.AuthorList? && |a.names| >= 1 ==>
      var r := JoinAuthors(a);
      |a.names[0]| <= |r| && r[..|a.names[0]|] == a.names[0]
    ensures a.AuthorList? && |a.names| >= 3 ==>
      JoinAuthors(a) == JoinAuthors(AuthorList(a.names[..1] + ["", ""]))
  {
  }

  const VendorNames: map<string, string> := map[
    "sirsi_dynix" := "SirsiDynix",
    "innovative_sierra" := "Sierra",
    "polaris" := "Polaris",
    "evergreen" := "Evergreen",
    "koha" := "Koha",
    "bibliocommons" := "BiblioCommons",
    "carl_x" := "CARL.X",
    "apollo" := "Apollo/Biblionix",
    "atriuum" := "Atriuum",
    "tlc" := "TLC",
    "aspen_discovery" := "Aspen Discovery",
    "spydus" := "Spydus",
    "iii_vega" := "III Vega",
    "unknown" := "Unknown"
  ]

  /** `vendor_pretty` */
  function VendorPretty(vendor: string): string {
    if vendor in VendorNames then VendorNames[vendor] else vendor
  }

  /** A known vendor gets its display name, any other identifier is shown as is,
      and the "unknown" default that enrichment assigns reads "Unknown". */
  lemma VendorPrettyFacts(vendor: string)
    ensures vendor in VendorNames ==> VendorPretty(vendor) == VendorNames[vendor]
    ensures vendor !in VendorNames ==> VendorPretty(vendor) == vendor
    ensures VendorPretty("unknown") == "Unknown" && VendorPretty("apollo") == "Apollo/Biblionix"
  {
  }

  predicate IsNotComma(c: char) { c != ',' }

  /** Digits in groups of three from the right, separated by commas. */
  function GroupThousands(d: string): (r: string)
    decreases |d|
  {
    if |d| <= 3 then d else GroupThousands(d[..|d| - 3]) + "," + d[|d| - 3..]
  }

  /** `format_number` on an integer: `f"{n:,}"`. */
  function FormatNumber(n: int): string {
    (if n < 0 then "-" else "") + GroupThousands(NatDigits(if n < 0 then -n else n))
  }

  /** Removing the commas of a grouped digit string gives the digits back. */
  lemma {:induction false} GroupThousandsDigits(d: string)
    requires AllDigits(d)
    ensures Filter(GroupThousands(d), IsNotComma) == d
    decreases |d|
  {
    if |d| <= 3 {
      FilterAllKept(d);
    } else {
      var hi, lo := d[..|d| - 3], d[|d| - 3..];
      assert AllDigits(hi) && AllDigits(lo);
      GroupThousandsDigits(hi);
      FilterAllKept(lo);
      DropComma(GroupThousands(hi), hi, lo);
      assert hi + lo == d;
    }
  }

  /** One grouping step: the comma between the groups is dropped. */
  lemma DropComma(g: string, hi: string, lo: string)
    requires Filter(g, IsNotComma) == hi && Filter(lo, IsNotComma) == lo
    ensures Filter(g + "," + lo, IsNotComma) == hi + lo
  {
    assert (g + ",")[..|g|] == g;
    assert Filter(g + ",", IsNotComma) == hi;
    FilterConcat(g + ",", lo, IsNotComma);
  }

  lemma {:induction false} FilterAllKept(d: string)
    requires AllDigits(d)
    ensures Filter(d, IsNotComma) == d
  {
    if d != [] {
      FilterAllKept(d[..|d| - 1]);
    }
  }

  /** Commas sit exactly at the positions 4, 8, 12, ... from the right end. */
  lemma {:induction false} GroupThousandsCommas(d: string)
    requires AllDigits(d) && |d| >= 1
    ensures var r := GroupThousands(d);
      && |r| == |d| + (|d| - 1) / 3
      && forall i :: 0 <= i < |r| ==> (r[i] == ',' <==> (|r| - i) % 4 == 0)
    decreases |d|
  {
    var r := GroupThousands(d);
    if |d| > 3 {
      var hi := d[..|d| - 3];
      GroupThousandsCommas(hi);
      var g := GroupThousands(hi);
      assert r == g + "," + d[|d| - 3..];
      forall i | 0 <= i < |r| ensures (r[i] == ',' <==> (|r| - i) % 4 == 0) {
        if i < |g| {
          assert r[i] == g[i];
          assert (|r| - i) % 4 == (|g| - i) % 4;
        } else if i > |g| {
          assert r[i] == d[|d| - 3 + (i - |g| - 1)];
        }
      }
    }
  }

  /** Reading back the digits of `format_number` gives the absolute value. */
  lemma FormatNumberRoundTrip(n: nat)
    ensures AllDigits(Filter(FormatNumber(n), IsNotComma))
    ensures DigitsValue(Filter(FormatNumber(n), IsNotComma)) == n
  {
    assert FormatNumber(n) == GroupThousands(NatDigits(n));
    GroupThousandsDigits(NatDigits(n));
    NatDigitsRoundTrip(n);
  }

  // ========================= Template context =========================

  /** One record of the system metadata; `None` is a missing key. */
  datatype SystemMeta = SystemMeta(id: string, city: Option<string>, region: Option<string>, vendor: Option<string>)

  datatype HeldBook = HeldBook(title: string)

  /** One entry of the per-system holdings; `books` may be missing. */
  datatype HoldingsEntry = HoldingsEntry(books: Option<seq<HeldBook>>)

  /** The fields the enrichment loop writes into a system's record. */
  datatype Enrichment =
    | NotEnriched
    | Enriched(city: Option<string>, region: string, vendor: string, books: seq<HeldBook>, topTitles: string)

  /** One entry of the ranked system list. */
  datatype SystemRow = SystemRow(
    systemId: string, systemName: string,
    booksHeld: int, totalCopies: int, totalAvailable: int,
    info: Enrichment)

  /** `{m["id"]: m for m in metadata}` */
  function MetaMap(ms: seq<SystemMeta>): map<string, SystemMeta> {
    if ms == [] then map[] else MetaMap(ms[..|ms| - 1])[ms[|ms| - 1].id := ms[|ms| - 1]]
  }

  /** An id is in the lookup iff some record has it, and then it maps to the
      LAST record with that id (a later duplicate overwrites an earlier one). */
  lemma {:induction false} MetaMapLastWins(ms: seq<SystemMeta>, id: string)
    ensures id in MetaMap(ms) <==> exists i :: 0 <= i < |ms| && ms[i].id == id
    ensures id in MetaMap(ms) ==>
      exists i :: 0 <= i < |ms| && ms[i].id == id && MetaMap(ms)[id] == ms[i]
                  && forall j :: i < j < |ms| ==> ms[j].id != id
  {
    if ms != [] {
      var init := ms[..|ms| - 1];
      MetaMapLastWins(init, id);
      if ms[|ms| - 1].id != id && id in MetaMap(init) {
        var i :| 0 <= i < |init| && init[i].id == id && MetaMap(init)[id] == init[i]
                 && forall j :: i < j < |init| ==> init[j].id != id;
        assert ms[i] == init[i];
      }
      if ms[|ms| - 1].id != id && exists i :: 0 <= i < |ms| && ms[i].id == id {
        var i :| 0 <= i < |ms| && ms[i].id == id;
        assert init[i].id == id;
      }
    }
  }

  /** `"; ".join(b["title"][:30] for b in books[:3])` */
  function TopTitles(books: seq<HeldBook>): string {
    Join(ClippedTitles(Take(books, 3)), "; ")
  }

  function ClippedTitles(bs: seq<HeldBook>): (r: seq<string>)
    ensures |r| == |bs| && forall i :: 0 <= i < |bs| ==> r[i] == Take(bs[i].title, 30)
  {
    seq(|bs|, i requires 0 <= i < |bs| => Take(bs[i].title, 30))
  }

  /** The preview is empty without books, is the clipped title for one book,
      and is never longer than three 30-character titles and two separators. */
  lemma TopTitlesBound(books: seq<HeldBook>)
    ensures books == [] ==> TopTitles(books) == ""
    ensures |books| == 1 ==> TopTitles(books) == Take(books[0].title, 30)
    ensures |TopTitles(books)| <= 3 * 30 + 2 * 2
  {
    var parts := ClippedTitles(Take(books, 3));
    JoinLength(parts, "; ");
    SumBound(parts);
  }

  lemma {:induction false} SumBound(parts: seq<string>)
    requires forall i :: 0 <= i < |parts| ==> |parts[i]| <= 30
    ensures SumOf(parts, Length) <= 30 * |parts|
  {
    if parts != [] {
      SumBound(parts[..|parts| - 1]);
    }
  }

  /** The enrichment of one system: metadata fields with their defaults, its
      held books (empty when missing) and the title preview. */
  function EnrichmentFor(sid: string, metaMap: map<string, SystemMeta>, holdings: map<string, HoldingsEntry>): Enrichment {
    var books := if sid in holdings then holdings[sid].books.GetOr([]) else [];
    if sid in metaMap then
      var m := metaMap[sid];
      Enriched(m.city, m.region.GetOr(""), m.vendor.GetOr("unknown"), books, TopTitles(books))
    else
      Enriched(None, "", "unknown", books, TopTitles(books))
  }

  /** Enrichment reads the last metadata record with the system's id; without
      one the system gets no city, region "" and vendor "unknown". */
  lemma EnrichmentDefaults(ms: seq<SystemMeta>, sid: string, holdings: map<string, HoldingsEntry>)
    ensures var e := EnrichmentFor(sid, MetaMap(ms), holdings);
      && ((forall i :: 0 <= i < |ms| ==> ms[i].id != sid) ==>
            (e.city.None? && e.region == "" && e.vendor == "unknown"))
      && (forall i :: 0 <= i < |ms| && ms[i].id == sid && (forall j :: i < j < |ms| ==> ms[j].id != sid) ==>
            (e.city == ms[i].city && e.region == ms[i].region.GetOr("") && e.vendor == ms[i].vendor.GetOr("unknown")))
      && (sid !in holdings ==> e.books == [] && e.topTitles == "")
  {
    MetaMapLastWins(ms, sid);
    if sid in MetaMap(ms) {
      var i :| 0 <= i < |ms| && ms[i].id == sid && MetaMap(ms)[sid] == ms[i]
               && forall j :: i < j < |ms| ==> ms[j].id != sid;
      forall i' | 0 <= i' < |ms| && ms[i'].id == sid && (forall j :: i' < j < |ms| ==> ms[j].id != sid)
        ensures i' == i
      {
      }
    }
    TopTitlesBound([]);
  }

  /** The enrichment loop of `build_context`: writes the enrichment into each
      system's record in place, leaving every other field as it was. */
  method EnrichSystems(systems: array<SystemRow>, metaMap: map<string, SystemMeta>, holdings: map<string, HoldingsEntry>)
    modifies systems
    ensures forall i :: 0 <= i < systems.Length ==>
      systems[i] == old(systems[i]).(info := EnrichmentFor(old(systems[i]).systemId, metaMap, holdings))
  {
    var i := 0;
    while i < systems.Length
      invariant 0 <= i <= systems.Length
      invariant forall k :: 0 <= k < i ==>
        systems[k] == old(systems[k]).(info := EnrichmentFor(old(systems[k]).systemId, metaMap, holdings))
      invariant forall k :: i <= k < systems.Length ==> systems[k] == old(systems[k])
    {
      var s := systems[i];
      systems[i] := s.(info := EnrichmentFor(s.systemId, metaMap, holdings));
      i := i + 1;
    }
  }

  // ---- tiers ----

  predicate InTier1(s: SystemRow) { s.booksHeld >= 20 }
  predicate InTier2(s: SystemRow) { 5 <= s.booksHeld < 20 }
  predicate InTier3(s: SystemRow) { 1 <= s.booksHeld < 5 }
  predicate HoldsAny(s: SystemRow) { s.booksHeld >= 1 }

  function Tier1(ss: seq<SystemRow>): seq<SystemRow> { Filter(ss, InTier1) }
  function Tier2(ss: seq<SystemRow>): seq<SystemRow> { Filter(ss, InTier2) }
  function Tier3(ss: seq<SystemRow>): seq<SystemRow> { Filter(ss, InTier3) }

  /** A system is in a tier iff it is listed and its holdings fall in that
      tier's range; the tiers are pairwise disjoint, every system holding at
      least one book is in exactly one, and one holding none is in none. */
  lemma TierMembership(ss: seq<SystemRow>, s: SystemRow)
    ensures s in Tier1(ss) <==> s in ss && s.booksHeld >= 20
    ensures s in Tier2(ss) <==> s in ss && 5 <= s.booksHeld < 20
    ensures s in Tier3(ss) <==> s in ss && 1 <= s.booksHeld < 5
    ensures !(s in Tier1(ss) && s in Tier2(ss)) && !(s in Tier1(ss) && s in Tier3(ss))
         && !(s in Tier2(ss) && s in Tier3(ss))
    ensures s in ss && s.booksHeld >= 1 ==> s in Tier1(ss) || s in Tier2(ss) || s in Tier3(ss)
    ensures s.booksHeld <= 0 ==> s !in Tier1(ss) && s !in Tier2(ss) && s !in Tier3(ss)
  {
    FilterMember(ss, InTier1, s);
    FilterMember(ss, InTier2, s);
    FilterMember(ss, InTier3, s);
  }

  /** The three tiers together hold exactly the systems with at least one book. */
  lemma {:induction false} TierSizes(ss: seq<SystemRow>)
    ensures |Tier1(ss)| + |Tier2(ss)| + |Tier3(ss)| == |Filter(ss, HoldsAny)|
  {
    if ss != [] {
      TierSizes(ss[..|ss| - 1]);
    }
  }

  function Row(name: string, books: int): SystemRow {
    SystemRow(name, name, books, 0, 0, NotEnriched)
  }

  /** The boundary scenario: 30, 10 and 1 books land in tiers 1, 2 and 3, and
      exactly 20, 5 and 1 belong to the higher tier. */
  lemma TierExample()
    ensures var ss := [Row("A", 30), Row("B", 10), Row("C", 1)];
      Tier1(ss) == [Row("A", 30)] && Tier2(ss) == [Row("B", 10)] && Tier3(ss) == [Row("C", 1)]
    ensures InTier1(Row("X", 20)) && InTier2(Row("X", 5)) && InTier3(Row("X", 1))
         && !InTier2(Row("X", 20)) && !InTier3(Row("X", 5)) && !InTier3(Row("X", 0))
  {
    var a, b, c := Row("A", 30), Row("B", 10), Row("C", 1);
    var ss := [a, b, c];
    assert ss[..2] == [a, b] && [a, b][..1] == [a] && [a][..0] == [];
    assert Filter([a], InTier1) == [a] && Filter([a], InTier2) == [] && Filter([a], InTier3) == [];
    assert Filter([a, b], InTier1) == [a] && Filter([a, b], InTier2) == [b] && Filter([a, b], InTier3) == [];
  }

  // ---- found percentage ----

  datatype Stats = Stats(booksScanned: int, booksFound: int, booksNotFound: int)

  /** The integer 0 of the zero guard, or a percentage in tenths (15.0 is 150). */
  datatype Percent = IntZero | Tenths(tenths: int)

  /** `found_pct`: 0 without dividing when nothing was scanned, otherwise the
      percentage found rounded to the nearest tenth. */
  function FoundPct(stats: Stats): (r: Percent)
    ensures r == IntZero <==> stats.booksScanned <= 0
    ensures r.Tenths? ==> (2 * (r.tenths * stats.booksScanned - 1000 * stats.booksFound) <= stats.booksScanned
                       && 2 * (1000 * stats.booksFound - r.tenths * stats.booksScanned) <= stats.booksScanned)
    ensures r.Tenths? && (1000 * stats.booksFound) % stats.booksScanned == 0 ==>
      r.tenths * stats.booksScanned == 1000 * stats.booksFound
  {
    if stats.booksScanned > 0 then
      RoundedQuotientNearest(1000 * stats.booksFound, stats.booksScanned);
      Tenths(RoundedQuotient(1000 * stats.booksFound, stats.booksScanned))
    else IntZero
  }

  /** `x / s` rounded to the nearest integer, halves rounded up. */
  function RoundedQuotient(x: int, s: int): int
    requires s > 0
  {
    (x + s / 2) / s
  }

  /** The rounded quotient is within half a unit of the exact one, and exact
      when `s` divides `x`. */
  lemma RoundedQuotientNearest(x: int, s: int)
    requires s > 0
    ensures var t := RoundedQuotient(x, s);
      2 * (t * s - x) <= s && 2 * (x - t * s) <= s && (x % s == 0 ==> t * s == x)
  {
    var h := s / 2;
    var t := (x + h) / s;
    var rem := (x + h) % s;
    assert x + h == t * s + rem && 0 <= rem < s;
    assert 2 * h <= s && s <= 2 * h + 1;
    if x % s == 0 {
      var q := x / s;
      assert x == q * s;
      assert x + h == q * s + h && 0 <= h < s;
      QuotientUnique(x + h, s, q, h, t, rem);
    }
  }

  lemma QuotientUnique(n: int, s: int, q1: int, r1: int, q2: int, r2: int)
    requires s > 0 && n == q1 * s + r1 && n == q2 * s + r2
    requires 0 <= r1 < s && 0 <= r2 < s
    ensures q1 == q2
  {
    if q1 < q2 {
      MulAtLeast(q2 - q1, s);
      assert false;
    } else if q2 < q1 {
      MulAtLeast(q1 - q2, s);
      assert false;
    }
  }

  lemma MulAtLeast(a: int, s: int)
    requires a >= 1 && s > 0
    ensures a * s >= s
  {
    assert a * s == (a - 1) * s + s;
  }

  /** 150 found of 1000 scanned is 15.0; nothing scanned is the integer 0; the
      tie 1 of 16 (6.25) rounds up to 6.3. */
  lemma FoundPctExamples()
    ensures FoundPct(Stats(1000, 150, 850)) == Tenths(150)
    ensures FoundPct(Stats(0, 0, 0)) == IntZero
    ensures FoundPct(Stats(16, 1, 15)) == Tenths(63)
  {
  }

  // ---- metro subsets ----

  const DfwRegions: seq<string> := [
    "Dallas County", "Tarrant County", "Collin County",
    "Denton County", "Ellis County", "Johnson County",
    "Rockwall County", "Kaufman County", "Wise County"]
  const HoustonRegions: seq<string> := [
    "Harris County", "Fort Bend County", "Montgomery County",
    "Galveston County", "Brazoria County"]
  const AustinRegions: seq<string> := ["Travis County", "Williamson County", "Hays County"]
  const SanAntonioRegions: seq<string> := ["Bexar County"]

  /** `s.get("region", "")` */
  function RegionOf(s: SystemRow): string {
    if s.info.Enriched? then s.info.region else ""
  }

  function InRegions(regions: seq<string>): SystemRow -> bool {
    s => RegionOf(s) in regions
  }

  function MetroSystems(ss: seq<SystemRow>, regions: seq<string>): seq<SystemRow> {
    Filter(ss, InRegions(regions))
  }

  function BooksHeldOf(s: SystemRow): int { s.booksHeld }
  function TotalCopiesOf(s: SystemRow): int { s.totalCopies }

  /** A system is in a metro subset iff it is listed and its region is one of
      the metro's; the four metro lists share no region, so the subsets are disjoint. */
  lemma MetroMembership(ss: seq<SystemRow>, s: SystemRow)
    ensures s in MetroSystems(ss, DfwRegions) <==> s in ss && RegionOf(s) in DfwRegions
    ensures s in MetroSystems(ss, HoustonRegions) <==> s in ss && RegionOf(s) in HoustonRegions
    ensures s in MetroSystems(ss, AustinRegions) <==> s in ss && RegionOf(s) in AustinRegions
    ensures s in MetroSystems(ss, SanAntonioRegions) <==> s in ss && RegionOf(s) in SanAntonioRegions
    ensures MetroCount(s) <= 1
  {
    FilterMember(ss, InRegions(DfwRegions), s);
    FilterMember(ss, InRegions(HoustonRegions), s);
    FilterMember(ss, InRegions(AustinRegions), s);
    FilterMember(ss, InRegions(SanAntonioRegions), s);
    MetroRegionsDisjoint(RegionOf(s));
  }

  /** In how many of the four metro lists a system's region appears. */
  function MetroCount(s: SystemRow): int {
    (if RegionOf(s) in DfwRegions then 1 else 0) + (if RegionOf(s) in HoustonRegions then 1 else 0)
      + (if RegionOf(s) in AustinRegions then 1 else 0) + (if RegionOf(s) in SanAntonioRegions then 1 else 0)
  }

  lemma MetroRegionsDisjoint(r: string)
    ensures (if r in DfwRegions then 1 else 0) + (if r in HoustonRegions then 1 else 0)
          + (if r in AustinRegions then 1 else 0) + (if r in SanAntonioRegions then 1 else 0) <= 1
  {
  }

  function MetroBooks(ss: seq<SystemRow>, regions: seq<string>): int {
    SumOf(MetroSystems(ss, regions), BooksHeldOf)
  }

  lemma MetroBooksStep(init: seq<SystemRow>, last: SystemRow, regions: seq<string>)
    ensures MetroBooks(init + [last], regions)
         == MetroBooks(init, regions) + (if RegionOf(last) in regions then last.booksHeld else 0)
  {
    var ss := init + [last];
    assert ss[..|ss| - 1] == init;
    var p := InRegions(regions);
    var tail := if p(last) then [last] else [];
    assert MetroSystems(ss, regions) == MetroSystems(init, regions) + tail;
    SumConcat(MetroSystems(init, regions), tail, BooksHeldOf);
    if p(last) {
      assert [last][..0] == [];
    }
  }

  /** With no negative holdings, the four metro totals together never exceed
      the holdings of all systems, since no system is counted twice. */
  lemma {:induction false} MetroBooksBound(ss: seq<SystemRow>)
    requires forall i :: 0 <= i < |ss| ==> ss[i].booksHeld >= 0
    ensures MetroBooks(ss, DfwRegions) + MetroBooks(ss, HoustonRegions)
          + MetroBooks(ss, AustinRegions) + MetroBooks(ss, SanAntonioRegions)
         <= SumOf(ss, BooksHeldOf)
  {
    if ss != [] {
      var init, last := ss[..|ss| - 1], ss[|ss| - 1];
      MetroBooksBound(init);
      MetroRegionsDisjoint(RegionOf(last));
      MetroBooksStep(init, last, DfwRegions);
      MetroBooksStep(init, last, HoustonRegions);
      MetroBooksStep(init, last, AustinRegions);
      MetroBooksStep(init, last, SanAntonioRegions);
      assert ss == init + [last];
    }
  }

  // ---- the context ----

  /** The values `build_context` hands to the templates that this model covers. */
  datatype Context = Context(
    foundPct: Percent,
    topBook: Option<Book>, topSystem: Option<SystemRow>,
    topSystems: seq<SystemRow>,
    tier1: seq<SystemRow>, tier2: seq<SystemRow>, tier3: seq<SystemRow>,
    themes: map<string, ThemeStat>,
    totalCopies: int,
    dfwSystems: seq<SystemRow>, houstonSystems: seq<SystemRow>,
    austinSystems: seq<SystemRow>, saSystems: seq<SystemRow>,
    dfwBooks: int, houstonBooks: int, austinBooks: int, saBooks: int,
    top5Copies: int)

  /** `{**b, "systemCount": 0}` for each not-found book. */
  function ZeroCounts(bs: seq<Book>): (r: seq<Book>)
    ensures |r| == |bs| && forall i :: 0 <= i < |bs| ==> r[i] == bs[i].(systemCount := Some(0))
  {
    seq(|bs|, i requires 0 <= i < |bs| => bs[i].(systemCount := Some(0)))
  }

  function FirstOf<T>(s: seq<T>): Option<T> { if s == [] then None else Some(s[0]) }

  /** `build_context`, after loading: enriches the ranked systems in place and
      assembles the template values from the enriched list. */
  method BuildContext(stats: Stats, topBooks: seq<Book>, topSystems: array<SystemRow>,
                      holdings: map<string, HoldingsEntry>, notFound: seq<Book>,
                      metadata: seq<SystemMeta>) returns (ctx: Context)
    modifies topSystems
    ensures forall i :: 0 <= i < topSystems.Length ==>
      topSystems[i] == old(topSystems[i]).(info := EnrichmentFor(old(topSystems[i]).systemId, MetaMap(metadata), holdings))
    ensures ctx.topSystems == topSystems[..]
    ensures ctx.foundPct == FoundPct(stats)
    ensures ctx.topBook == FirstOf(topBooks) && ctx.topSystem == FirstOf(topSystems[..])
    ensures ctx.tier1 == Tier1(topSystems[..]) && ctx.tier2 == Tier2(topSystems[..]) && ctx.tier3 == Tier3(topSystems[..])
    ensures ctx.themes.Keys == ThemeNames(ThemeKeywords)
    ensures forall j :: 0 <= j < |ThemeKeywords| ==>
      ctx.themes[ThemeKeywords[j].name] == ThemeStatOf(ThemeKeywords[j], topBooks + ZeroCounts(notFound))
    ensures ctx.totalCopies == SumOf(topSystems[..], TotalCopiesOf)
    ensures ctx.dfwSystems == MetroSystems(topSystems[..], DfwRegions)
         && ctx.houstonSystems == MetroSystems(topSystems[..], HoustonRegions)
         && ctx.austinSystems == MetroSystems(topSystems[..], AustinRegions)
         && ctx.saSystems == MetroSystems(topSystems[..], SanAntonioRegions)
    ensures ctx.dfwBooks == MetroBooks(topSystems[..], DfwRegions)
         && ctx.houstonBooks == MetroBooks(topSystems[..], HoustonRegions)
         && ctx.austinBooks == MetroBooks(topSystems[..], AustinRegions)
         && ctx.saBooks == MetroBooks(topSystems[..], SanAntonioRegions)
    ensures ctx.top5Copies == SumOf(Take(topSystems[..], 5), TotalCopiesOf)
  {
    var metaMap := MetaMap(metadata);
    EnrichSystems(topSystems, metaMap, holdings);
    var ss := topSystems[..];
    ThemeKeywordsWellFormed();
    var themes := BuildThemeStats(ThemeKeywords, topBooks + ZeroCounts(notFound));
    ctx := Context(
      FoundPct(stats),
      FirstOf(topBooks), FirstOf(ss),
      ss,
      Tier1(ss), Tier2(ss), Tier3(ss),
      themes,
      SumOf(ss, TotalCopiesOf),
      MetroSystems(ss, DfwRegions), MetroSystems(ss, HoustonRegions),
      MetroSystems(ss, AustinRegions), MetroSystems(ss, SanAntonioRegions),
      MetroBooks(ss, DfwRegions), MetroBooks(ss, HoustonRegions),
      MetroBooks(ss, AustinRegions), MetroBooks(ss, SanAntonioRegions),
      SumOf(Take(ss, 5), TotalCopiesOf));
  }
}
