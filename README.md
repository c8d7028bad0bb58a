# Library holdings report: data shaping, modelled in Dafny

The report pipeline turns JSON data about books held by Texas library systems
into a LaTeX report with maps and charts. This project models the data shaping
that the three report scripts do before anything is drawn or rendered, and
proves what that shaping promises:

- `render_latex.py` (module `RenderLatex`): the keyword theme classifier and its
  per-theme statistics, the template filters (LaTeX escaping, truncation,
  author joining, vendor names, thousands separators), and the template
  context that `build_context` assembles. This covers metadata enrichment
  done in place on the ranked systems, the title preview, the holdings tiers,
  the zero-guarded found percentage, and the four metro subsets with their sums.
- `generate_maps.py` (module `GenerateMaps`): county geometry flattened to
  rings, per-county holdings totals, the county-name property search, the
  two-step "`<name> County`, then bare name" lookup and the fill, the holdings
  partitions, the inclusive inset bounding boxes and their labels, and the
  availability filter.
- `generate_charts.py` (module `GenerateCharts`): the reversed top-25 bar
  lists with their label budgets, histogram bin edges, the vendor tally with
  its sort, labels and colours, the two-stage availability ranking, the
  found/not-found slices, and the top-5 scatter annotations.

Shared building blocks:

- `Seqs`: the optional value standing for a missing JSON key, order-preserving
  filters, sums, Python's prefix slice and `max`.
- `StableSort`: Python's stable sort by a key. Both `reverse=True` and a
  negated key become `SortDesc`. Keys are exact reals, so ratio keys compare
  exactly.
- `Text`: the Python string operations used: `lower`, `in`, `replace`,
  `join`, `str(int)`, `title`, and label cutting.

Loops in the source are methods with loop invariants, proved against
specification functions. The exceptions are the two label loops (the inset
annotations and the scatter annotations). Their only effect is drawing, and
each is modelled as the function that lists its labels (`InsetLabels`,
`ScatterLabels`). Python's in-place `list.reverse()` is a method on an
`array`. The enrichment loop writes into an `array` of system records.

## Model

| member | source | states |
|---|---|---|
| RenderLatex.ThemeKeywordsWellFormed | src/scripts/report/render_latex.py:39-65 | the keyword table has distinct category names and no empty keyword |
| RenderLatex.Categories | src/scripts/report/render_latex.py:68-75 | the categories of `categorize_book`; CategoryIff, CategoriesIgnoreCase and EmptyTitleNoCategories state what it means, and CategorizeBook computes it |
| RenderLatex.CategorizeBook | src/scripts/report/render_latex.py:68-75 | the loop's set is exactly the categories whose keywords occur in the lowercased title (a missing title read as ""), and only table categories |
| RenderLatex.CategoryIff | src/scripts/report/render_latex.py:68-75 | a category is in the result iff one of its own keywords is a substring of the lowercased title |
| RenderLatex.CategoriesIgnoreCase | src/scripts/report/render_latex.py:70 | titles differing only in letter case get the same categories, the same as their lowercased form |
| RenderLatex.EmptyTitleNoCategories | src/scripts/report/render_latex.py:70-75 | a missing or empty title gets no category |
| RenderLatex.MatchingBooks | src/scripts/report/render_latex.py:83-85 | the inner loop collects, in input order, exactly the books the classifier puts in the category |
| RenderLatex.BuildThemeStats | src/scripts/report/render_latex.py:78-93 | keys are exactly the table's categories; each value is the statistics of that category's stably sorted matches |
| RenderLatex.ThemeStatOf | src/scripts/report/render_latex.py:86-92 | one theme's entry of `build_theme_stats`; ThemeStatShape and ThemeExamplesAreTop state its meaning |
| RenderLatex.ThemeStatShape | src/scripts/report/render_latex.py:86-91 | count is the number of matching books; examples and top counts are parallel, hold min(count, 5) entries, and the counts never increase; total holdings sums every match's count, 0 when missing |
| RenderLatex.ThemeExamplesAreTop | src/scripts/report/render_latex.py:86-90 | each example holds at least the count of every match left out, and among equal counts the examples are the earliest in input order |
| RenderLatex.MatchedBooksHaveTitles | src/scripts/report/render_latex.py:89 | every matched book has a title, so `b["title"]` never fails |
| RenderLatex.EscapeText | src/scripts/report/render_latex.py:104 | the substitution of `latex_escape`; EscapePlainText, EscapeConcat and EscapeRoundTrip state its meaning |
| RenderLatex.LatexEscape | src/scripts/report/render_latex.py:99-102 | None and "" give "" |
| RenderLatex.EscapePlainText | src/scripts/report/render_latex.py:99-104 | text without the ten special characters is unchanged |
| RenderLatex.EscapeConcat | src/scripts/report/render_latex.py:104 | escaping works character by character: escaping a concatenation concatenates the escapes |
| RenderLatex.UnescapeChar | src/scripts/report/render_latex.py:24-35 | each entry of the escape map, and each plain character, reads back as the character it replaced |
| RenderLatex.EscapeRoundTrip | src/scripts/report/render_latex.py:99-104 | unescaping the escaped text gives the text back, so the replacement loses nothing and keeps order |
| RenderLatex.TruncateText | src/scripts/report/render_latex.py:107-114 | `truncate_text`; TruncateTextShape states its meaning |
| RenderLatex.TruncateTextShape | src/scripts/report/render_latex.py:107-114 | "" for empty input; unchanged at most max_len long; otherwise a prefix plus "...", exactly max_len long when max_len >= 3 |
| RenderLatex.JoinAuthors | src/scripts/report/render_latex.py:117-127 | `join_authors`; JoinAuthorsCases states its meaning |
| RenderLatex.JoinAuthorsCases | src/scripts/report/render_latex.py:117-127 | "" for no authors, a string as is, one name, "A and B", "A et al." for three or more without regard to later names |
| RenderLatex.VendorPretty | src/scripts/report/render_latex.py:130-148 | `vendor_pretty`; VendorPrettyFacts states its meaning |
| RenderLatex.VendorPrettyFacts | src/scripts/report/render_latex.py:130-148 | known identifiers map to their display names, others pass through, "unknown" becomes "Unknown" |
| RenderLatex.FormatNumber | src/scripts/report/render_latex.py:151-156 | `format_number` on an integer; GroupThousandsDigits, GroupThousandsCommas and FormatNumberRoundTrip state its meaning |
| RenderLatex.GroupThousandsDigits | src/scripts/report/render_latex.py:154 | removing the commas of a grouped digit string gives the digits back |
| RenderLatex.GroupThousandsCommas | src/scripts/report/render_latex.py:154 | commas sit exactly every fourth position from the right, (digits-1)/3 of them |
| RenderLatex.FormatNumberRoundTrip | src/scripts/report/render_latex.py:151-156 | the formatted number's digits read back to the number |
| RenderLatex.MetaMap | src/scripts/report/render_latex.py:174 | `meta_map`; MetaMapLastWins states its meaning |
| RenderLatex.MetaMapLastWins | src/scripts/report/render_latex.py:174 | an id is a key iff some record has it, and it maps to the last record with that id |
| RenderLatex.EnrichmentFor | src/scripts/report/render_latex.py:178-189 | the fields the enrichment loop sets for one system; EnrichmentDefaults states its meaning, and EnrichSystems applies it in place |
| RenderLatex.EnrichmentDefaults | src/scripts/report/render_latex.py:178-189 | missing metadata gives no city, region "" and vendor "unknown"; otherwise the fields of the last matching record; missing holdings give no books and an empty preview |
| RenderLatex.TopTitles | src/scripts/report/render_latex.py:187-189 | the `topTitles` preview; TopTitlesBound and Text.JoinLength state its meaning |
| RenderLatex.TopTitlesBound | src/scripts/report/render_latex.py:187-189 | the preview is empty without books, one clipped title for one book, and at most 94 characters |
| RenderLatex.EnrichSystems | src/scripts/report/render_latex.py:177-189 | every system record gets its enrichment in place; its other fields stay as they were |
| RenderLatex.Tier1 | src/scripts/report/render_latex.py:192 | `tier1`; TierMembership, TierSizes and TierExample state its meaning |
| RenderLatex.Tier2 | src/scripts/report/render_latex.py:193 | `tier2`; TierMembership, TierSizes and TierExample state its meaning |
| RenderLatex.Tier3 | src/scripts/report/render_latex.py:194 | `tier3`; TierMembership, TierSizes and TierExample state its meaning |
| RenderLatex.TierMembership | src/scripts/report/render_latex.py:192-194 | a system is in a tier iff it is listed and its holdings are in that tier's range; tiers are pairwise disjoint; holding a book puts a system in one tier, holding none in no tier |
| RenderLatex.TierSizes | src/scripts/report/render_latex.py:192-194 | the tiers together hold as many systems as hold at least one book |
| RenderLatex.TierExample | src/scripts/report/render_latex.py:192-194 | 30, 10 and 1 books land in tiers 1, 2 and 3; 20, 5 and 1 are the lower bounds |
| RenderLatex.FoundPct | src/scripts/report/render_latex.py:196-200 | 0 exactly when nothing was scanned (no division); otherwise within half a tenth of 100·found/scanned, and exact when the tenths divide evenly |
| RenderLatex.FoundPctExamples | src/scripts/report/render_latex.py:196-200 | 150 of 1000 gives 15.0; nothing scanned gives 0; the tie 1 of 16 gives 6.3 |
| RenderLatex.MetroSystems | src/scripts/report/render_latex.py:212-238 | the four metro lists; MetroMembership states their meaning |
| RenderLatex.MetroBooks | src/scripts/report/render_latex.py:258-261 | the four metro sums; MetroBooksBound states their meaning |
| RenderLatex.MetroMembership | src/scripts/report/render_latex.py:212-238 | a system is in a metro subset iff it is listed and its region is in that metro's fixed list; no region is in two lists |
| RenderLatex.MetroBooksBound | src/scripts/report/render_latex.py:212-261 | with no negative holdings, the four metro totals together never exceed the total held |
| RenderLatex.BuildContext | src/scripts/report/render_latex.py:164-263 | enriches the systems in place; the context holds the found percentage, first book and first enriched system, tiers, themes over the books plus zero-count not-found books, total copies, metro subsets and sums, and the top-5 copies |
| GenerateMaps.Polygons | src/scripts/report/generate_maps.py:151-155 | a Polygon gives itself, a MultiPolygon its parts, anything else nothing |
| GenerateMaps.RingsOfCases | src/scripts/report/generate_maps.py:48-54 | a Polygon gives exactly its exterior; a MultiPolygon gives one exterior per part, in order; other geometry gives none |
| GenerateMaps.FlattenRings | src/scripts/report/generate_maps.py:43-55 | the rings of `county_patches`; FlattenRingsCount and ChoroplethRings state its meaning, and CountyPatches computes it |
| GenerateMaps.FlattenRingsCount | src/scripts/report/generate_maps.py:43-55 | flattening yields one ring per polygon of every feature |
| GenerateMaps.CountyPatches | src/scripts/report/generate_maps.py:43-55 | the appending loop produces the features' rings, feature by feature |
| GenerateMaps.OverviewPartition | src/scripts/report/generate_maps.py:79-81 | with holdings iff enabled, located and booksHeld > 0; hollow iff enabled, located and booksHeld == 0; never both |
| GenerateMaps.PartitionSizes | src/scripts/report/generate_maps.py:80-81 | with no negative holdings, the two partitions together hold every library once |
| GenerateMaps.RegionTotal | src/scripts/report/generate_maps.py:121-125 | one county's total in `county_books`; RegionTotalPositive and CountyBooks state its meaning |
| GenerateMaps.RegionTotalPositive | src/scripts/report/generate_maps.py:121-125 | a region's total is never negative, and positive iff an enabled library holding a book lies in it |
| GenerateMaps.CountyBooks | src/scripts/report/generate_maps.py:121-125 | a region is a key iff an enabled library with holdings lies in it; its value is the region's total, always positive |
| GenerateMaps.FirstPresentSpec | src/scripts/report/generate_maps.py:136-140 | no key present gives no name; otherwise the name is the value of the earliest key present, a null value included, whatever the later keys hold |
| GenerateMaps.CountyName | src/scripts/report/generate_maps.py:136-140 | the search loop stops at the first of NAME, NAMELSAD, name present in the properties, even when its value is null (missing properties read as empty) |
| GenerateMaps.CountyLookup | src/scripts/report/generate_maps.py:143-147 | the two-step total lookup; CountyLookupFacts and CountyLookupExample state its meaning |
| GenerateMaps.CountyLookupFacts | src/scripts/report/generate_maps.py:143-147 | over positive totals: 0 for a missing or empty name; the suffixed key wins, the bare name is the fallback; 0 iff neither is present |
| GenerateMaps.CountyLookupExample | src/scripts/report/generate_maps.py:142-147 | "Travis" finds "Travis County" through the suffix, "Travis County" through the fallback, "Hays" nothing |
| GenerateMaps.FillFor | src/scripts/report/generate_maps.py:149 | the fill is the "#f0f0f0" grey iff the value is not positive |
| GenerateMaps.FeatureFill | src/scripts/report/generate_maps.py:136-149 | a county's fill; FeatureFillNoData and NullNameIsGrey state its meaning |
| GenerateMaps.NullNameIsGrey | src/scripts/report/generate_maps.py:136-149 | a null NAME stops the search before NAMELSAD, so the county is grey although its NAMELSAD would find a total |
| GenerateMaps.FeatureFillNoData | src/scripts/report/generate_maps.py:136-149 | with the county totals, a county is grey iff it has no name or neither lookup key is present |
| GenerateMaps.ChoroplethRings | src/scripts/report/generate_maps.py:151-161 | the choropleth draws exactly the base layer's rings, in the same order |
| GenerateMaps.ChoroplethSpec | src/scripts/report/generate_maps.py:133-161 | the choropleth's patches; ChoroplethRings states its meaning, and ChoroplethPatches computes it |
| GenerateMaps.PaintPolygons | src/scripts/report/generate_maps.py:157-161 | the polygon loop gives one patch per polygon exterior, in order, all with the county's fill |
| GenerateMaps.ChoroplethPatches | src/scripts/report/generate_maps.py:133-161 | the feature loop appends each polygon's exterior with the feature's fill |
| GenerateMaps.InBounds | src/scripts/report/generate_maps.py:206-211 | the inset's `in_bounds`; InBoundsMembership and InBoundsCorner state its meaning |
| GenerateMaps.InBoundsMembership | src/scripts/report/generate_maps.py:206-215 | a library is plotted iff enabled, located and inside the box with both ends inclusive; its partitions are the holdings split restricted to the box |
| GenerateMaps.InBoundsCorner | src/scripts/report/generate_maps.py:206-211 | an enabled library exactly at a corner of the Dallas or the Houston box is inside; a disabled one, or one north of the Houston box, is not |
| GenerateMaps.ShownMembership | src/scripts/report/generate_maps.py:225-237 | a library is labelled iff it is plotted with holdings and holds at least the threshold |
| GenerateMaps.Shown | src/scripts/report/generate_maps.py:230-237 | the labelled libraries of an inset; ShownMembership and HoustonLabelThreshold state its meaning |
| GenerateMaps.MakeLabels | src/scripts/report/generate_maps.py:238-240 | one annotation per library: its stripped name at its location |
| GenerateMaps.InsetLabels | src/scripts/report/generate_maps.py:230-239 | one label per labelled library, in order, each its name with both suffixes removed |
| GenerateMaps.HoustonLabelThreshold | src/scripts/report/generate_maps.py:297-300 | in the Houston inset, drawn with threshold 15, a plotted library with 15 books is labelled and one with 14 is not |
| GenerateMaps.LabelExample | src/scripts/report/generate_maps.py:239 | "Harris County Public Library" is labelled "Harris County" |
| GenerateMaps.WithCopies | src/scripts/report/generate_maps.py:261-264 | `with_copies`; WithCopiesFacts states its meaning |
| GenerateMaps.WithCopiesFacts | src/scripts/report/generate_maps.py:261-269 | a library is included iff enabled, located and with copies, so its rate is defined, within [0, 1] when available <= total |
| GenerateCharts.ReversedTwice | src/scripts/report/generate_charts.py:67 | reversing twice gives the list back |
| GenerateCharts.Reversed | src/scripts/report/generate_charts.py:67 | `list.reverse()` on values: position i holds the element len-1-i; ReversedTwice states that it is its own inverse |
| GenerateCharts.ReverseInPlace | src/scripts/report/generate_charts.py:66-67 | the array ends up as the reverse of its old contents |
| GenerateCharts.ReversedTop | src/scripts/report/generate_charts.py:66-67 | min(n, len) entries, position i holding input entry len-1-i |
| GenerateCharts.TopSystemsBar | src/scripts/report/generate_charts.py:66-75 | min(25, n) bars; bar i is the system ranked n-1-i with its holdings and its name cut to 40 plus "..." when longer |
| GenerateCharts.TopBooksBar | src/scripts/report/generate_charts.py:95-101 | min(25, n) bars; bar i is the book ranked n-1-i with its count and its title cut to 45 plus "..." when longer |
| GenerateCharts.TopBarsShape | src/scripts/report/generate_charts.py:66-75 | with 25 systems bar 0 is rank 24 and bar 24 rank 0; system labels are at most 43 characters; a long title becomes 48 with its first 45 kept |
| GenerateCharts.BinEdges | src/scripts/report/generate_charts.py:125 | `np.arange(0, max + w, w)`; BinEdgesRange states its meaning |
| GenerateCharts.BinEdgesRange | src/scripts/report/generate_charts.py:143-145 | edges start at 0, exist iff max + w > 0, the last is >= max and < max + w, and max > 0 gives at least one bin |
| GenerateCharts.SystemBins | src/scripts/report/generate_charts.py:124-125 | no bins (max raises) exactly for an empty list |
| GenerateCharts.BookBins | src/scripts/report/generate_charts.py:143-145 | chart 4's bins; BinsCoverValues states its meaning |
| GenerateCharts.BinsCoverValues | src/scripts/report/generate_charts.py:124-145 | every non-negative value lies between the first and last edge; chart 4 with no books uses max 1, giving edges 0 and 5 |
| GenerateCharts.EnabledVendors | src/scripts/report/generate_charts.py:160-162 | the vendors of the enabled systems, in input order |
| GenerateCharts.Tally | src/scripts/report/generate_charts.py:162 | the `Counter`; TallyCounts, TallyOrder and TallySum state its meaning |
| GenerateCharts.TallyCounts | src/scripts/report/generate_charts.py:162 | one entry per distinct vendor, a vendor is present iff it occurs, and each count is its number of occurrences |
| GenerateCharts.TallyOrder | src/scripts/report/generate_charts.py:162 | entries are in the order of their vendors' first occurrences |
| GenerateCharts.TallySum | src/scripts/report/generate_charts.py:162 | the counts add up to the number of values |
| GenerateCharts.SortedVendors | src/scripts/report/generate_charts.py:164 | `sorted_vendors`; VendorChartFacts states its meaning |
| GenerateCharts.VendorBreakdown | src/scripts/report/generate_charts.py:164-173 | one label, size and colour per sorted vendor, in order |
| GenerateCharts.VendorChartFacts | src/scripts/report/generate_charts.py:160-164 | sizes sum to the number of enabled systems; counts never increase; the slices rearrange the tally; equal counts keep first-seen order |
| GenerateCharts.PrettyVendor | src/scripts/report/generate_charts.py:170 | `vendor.replace("_", " ").title()`; VendorLabelShape, Text.ReplaceCharAt and Text.TitleCaseAt state its meaning |
| GenerateCharts.VendorLabel | src/scripts/report/generate_charts.py:171 | a slice label; VendorLabelShape states its meaning |
| GenerateCharts.VendorLabelShape | src/scripts/report/generate_charts.py:170-171 | a label is the prettified vendor (same length, no underscore, title-cased, equal to the spaced identifier up to case) followed by " (count)" |
| GenerateCharts.VendorColor | src/scripts/report/generate_charts.py:173 | a slice colour; VendorColorFacts states its meaning |
| GenerateCharts.VendorColorFacts | src/scripts/report/generate_charts.py:34-45 | vendors outside the palette get "#bdc3c7" |
| GenerateCharts.AvailabilityBars | src/scripts/report/generate_charts.py:198-209 | the rate loop plus both sorts give the ranked systems' 40-character names and rates |
| GenerateCharts.AvailabilityOrderFacts | src/scripts/report/generate_charts.py:203-204 | min(25, systems with copies) bars with non-decreasing rates, a rearrangement of the top 25 by holdings |
| GenerateCharts.AvailabilityMembers | src/scripts/report/generate_charts.py:198-200 | every bar is a listed system with copies, showing available over total copies |
| GenerateCharts.TopByBooks | src/scripts/report/generate_charts.py:203 | the 25 systems with copies that hold the most books; TopByBooksFacts states its meaning |
| GenerateCharts.AvailabilityOrder | src/scripts/report/generate_charts.py:203-204 | the bars of chart 6; AvailabilityOrderFacts and AvailabilityMembers state its meaning |
| GenerateCharts.TopByBooksFacts | src/scripts/report/generate_charts.py:203 | the kept systems hold at least as many books as every system with copies left out |
| GenerateCharts.FoundSlices | src/scripts/report/generate_charts.py:234-235 | chart 7's sizes and labels; FoundSlicesLabels states their meaning |
| GenerateCharts.FoundSlicesLabels | src/scripts/report/generate_charts.py:234-235 | each slice label carries its count in decimal, readable back |
| GenerateCharts.TopByCopies | src/scripts/report/generate_charts.py:268 | the five systems with the most copies; ScatterTop and ScatterStable state its meaning |
| GenerateCharts.ScatterLabels | src/scripts/report/generate_charts.py:269-270 | one annotation per top system, with both suffixes removed and cut to 25 characters; ScatterTop bounds their length |
| GenerateCharts.ScatterTop | src/scripts/report/generate_charts.py:268-270 | min(5, n) systems labelled, drawn from the input, with at least the copies of every system left out; labels are at most 25 characters |
| GenerateCharts.ScatterStable | src/scripts/report/generate_charts.py:268 | among systems with equal copies the labelled ones are the earliest in input order |
| Text.TitleCaseAt | src/scripts/report/generate_charts.py:170 | a letter is upper-cased at the start of a word and lower-cased after a letter; other characters are kept |
| Text.TitleCase | src/scripts/report/generate_charts.py:170 | `str.title()` on ASCII; TitleCaseAt, TitleCaseKeepsLetters and TitleCaseIdempotent state its meaning |
| Text.Lower | src/scripts/report/render_latex.py:70 | `str.lower()` on ASCII: the length is kept and each character is lowered |
| Text.ReplaceCharAt | src/scripts/report/generate_charts.py:170 | replacing one character by another maps each position independently and keeps the length |
| Text.ReplaceAll | src/scripts/report/generate_maps.py:239 | `str.replace`; ReplaceCharAt, ReplaceAbsent, RemoveShortens and RemoveTrailing state its meaning |
| Text.StripLibrarySuffixesFacts | src/scripts/report/generate_maps.py:239 | a name with neither suffix is its own label; stripping never lengthens a name |
| Text.StripPublicLibrary | src/scripts/report/generate_maps.py:239 | "<base> Public Library" is labelled "<base>" when that suffix occurs only at the end and "Library System" nowhere in the base |
| Text.StripLibrarySystem | src/scripts/report/generate_charts.py:270 | "<base> Library System" is labelled "<base>" when that suffix occurs only at the end and "Public Library" nowhere |
| Text.StripLibrarySuffixes | src/scripts/report/generate_maps.py:239 | the two replaces of a label; StripLibrarySuffixesFacts, StripPublicLibrary and StripLibrarySystem state its meaning |
| Text.EllipsizeShape | src/scripts/report/generate_charts.py:75 | a short label is kept; a long one is cut to the budget plus "...", budget + 3 long |
| Text.Ellipsize | src/scripts/report/generate_charts.py:75 | `n[:40] + "..." if len(n) > 40 else n`; EllipsizeShape states its meaning |
| Text.JoinLength | src/scripts/report/render_latex.py:187-189 | the joined string is as long as the parts plus the separators between them |
| Text.NatDigitsRoundTrip | src/scripts/report/render_latex.py:154 | the decimal digits read back to the number, with no leading zero |
| StableSort.SortDescSorted | src/scripts/report/render_latex.py:86 | the sort puts larger keys first |
| StableSort.SortDescPermutes | src/scripts/report/render_latex.py:86 | the sort is a permutation of its input |
| StableSort.SortDescStable | src/scripts/report/render_latex.py:86 | elements with equal keys keep their input order |
| StableSort.SortDescSum | src/scripts/report/render_latex.py:91 | sorting does not change a sum over the elements |
| StableSort.TopOfSorted | src/scripts/report/generate_charts.py:268 | the first n of a sorted list have keys at least those left out and are the earliest of each key |
| StableSort.SortDesc | src/scripts/report/render_latex.py:86 | `sort(key=..., reverse=True)` and `sorted(key=-...)`; SortDescSorted, SortDescPermutes, SortDescStable and SortDescSum state its meaning |

## Left out

- Drawing is not modelled. This covers every matplotlib call (figures, axes, scatter, pie, bars, colour bars, `tight_layout`, `savefig`), colour-map evaluation, `Normalize` and its maxima, marker sizes, axis limits, and the value text on bars (`str(val)`, `f"{val:.0%}"`). Its behaviour belongs to a library this model does not see.
- The `np.histogram` counting behind charts 3 and 4 is not modelled; only the bin edges are.
- Shapely is not modelled. `shape()` and coordinate extraction are replaced by the `Geometry` datatype, and interior rings are carried but, as in the source, never drawn.
- I/O and rendering are not modelled: JSON loading, directory creation, file copies, `print` logging, the Jinja2 environment and template rendering, the `date.today()` report date, `main` and `style_ax`. Their inputs are parameters of the model.
- The context fields `stats`, `top_books`, `not_found` and `report_date` pass through unchanged and are not part of the `Context` datatype. An empty `top_system` / `top_book` (`{}` in the source) is `None`.
- A JSON `null` in a book or system record is treated like a missing key. County feature properties keep `null` values (see `GenerateMaps.FirstPresent`). The model reads these records as follows:
  - an explicit `null` title crashes `lower()` in the source; the model reads it as `""`;
  - a `null` region produces no metro match; the model reads it as `""`, with the same result;
  - a `null` vendor is shown as `None` in the report; the model shows `"unknown"`;
  - in chart 5, a `null` vendor makes `vendor.replace` raise `AttributeError` (generate_charts.py:170); the model has no such error.
- `GenerateMaps.PropsOf`: a feature whose `"properties"` is `null` makes `key in None` raise `TypeError` (generate_maps.py:138). The model reads it like missing properties, as an empty map.
- `GenerateMaps.Library`: latitude and longitude are one optional point. A record with a latitude but no longitude (a `TypeError` in the source) is not modelled.
- `RenderLatex.FoundPct`: rounds the exact ratio to the nearest tenth, halves up. Python's `round` works on the float quotient. It rounds ties that are exact in binary to even: 1 found of 16 scanned is 6.25, which Python rounds to 6.2 where the model gives 6.3 (`RenderLatex.FoundPctExamples`). Other near-ties it rounds by their binary value. The contract's bounds hold for both roundings; the float behaviour is left out.
- `Text.Lower`, `Text.TitleCase`: ASCII letters only. Python's Unicode case tables are not modelled.
- `RenderLatex.FormatNumber`: integers only. The `str(value)` fallback for values that `int()` rejects, and `int()` of non-integer values, are not modelled.
- `RenderLatex.LatexEscape`, `RenderLatex.TruncateText`: take optional strings. `str()` of other values and the falsiness of non-string values such as `0` are not modelled.
- `matching.sort(...)` and `top.sort(...)` sort lists in place. They are modelled as the functional stable sort `StableSort.SortDesc`, not as an in-place array algorithm. Nothing else holds a reference to those lists, so the order is all that is observable.
- Chart 6 writes `availRate` into the loaded dictionaries. The model builds new `RatedSystem` records in the same loop instead; the dictionaries are not used afterwards.
- `collections.Counter` is the function `GenerateCharts.Tally` (counting in first-seen order), not a library call.
- Rates are exact rationals rather than floats, so sorting by rate has no float rounding.
