/** The data preparation of the eight analytics charts: the reversed top-25
    bar lists with their label budgets, the histogram bin edges, the vendor
    tally with its labels and colours, the availability ranking, the
    found/not-found slices and the top-5 scatter annotations. Drawing is not
    modelled. */
module GenerateCharts {
  import opened Seqs
  import opened StableSort
  import opened Text

  // ============================== Records ==============================

  /** One entry of the ranked system list, as the charts read it. */
  datatype ChartSystem = ChartSystem(systemName: string, booksHeld: int, totalCopies: int, totalAvailable: int)

  /** One entry of the ranked book list. */
  datatype ChartBook = ChartBook(title: string, systemCount: int)

  /** One record of the system metadata, as the vendor chart reads it. */
  datatype VendorRecord = VendorRecord(enabled: bool, vendor: string)

  // ======================= Charts 1 and 2: top 25 =======================

  /** `s[::-1]` */
  function Reversed<T>(s: seq<T>): (r: seq<T>)
    ensures |r| == |s| && forall i :: 0 <= i < |s| ==> r[i] == s[|s| - 1 - i]
  {
    seq(|s|, i requires 0 <= i < |s| => s[|s| - 1 - i])
  }

  /** Reversing twice gives the list back. */
  lemma ReversedTwice<T>(s: seq<T>)
    ensures Reversed(Reversed(s)) == s
  {
  }

  /** `list.reverse()`: swaps the two halves element by element, in place. */
  method ReverseInPlace<T>(a: array<T>)
    modifies a
    ensures a[..] == Reversed(old(a[..]))
  {
    var n := a.Length;
    var i := 0;
    while i < n / 2
      invariant 0 <= i <= n / 2
      invariant forall k :: 0 <= k < i ==> a[k] == old(a[n - 1 - k]) && a[n - 1 - k] == old(a[k])
      invariant forall k :: i <= k < n - i ==> a[k] == old(a[k])
    {
      a[i], a[n - 1 - i] := a[n - 1 - i], a[i];
      i := i + 1;
    }
  }

  /** `xs[:n]` followed by `xs.reverse()`: the first `n` entries, last first. */
  method ReversedTop<T>(s: seq<T>, n: nat) returns (r: seq<T>)
    ensures |r| == Min(n, |s|)
    ensures forall i :: 0 <= i < |r| ==> r[i] == s[|r| - 1 - i]
  {
    var top := Take(s, n);
    var a := new T[|top|](i requires 0 <= i < |top| => top[i]);
    assert a[..] == top;
    ReverseInPlace(a);
    r := a[..];
  }

  function SystemLabel(s: ChartSystem): string { Ellipsize(s.systemName, 40) }
  function BookLabel(b: ChartBook): string { Ellipsize(b.title, 45) }

  /** Chart 1: the 25 systems holding the most books, bottom-to-top, with
      names over 40 characters cut to 40 plus "...". Position `i` holds the
      system ranked `n - 1 - i`; the bar length is its holdings. */
  method TopSystemsBar(systems: seq<ChartSystem>) returns (names: seq<string>, books: seq<int>)
    ensures |names| == |books| == Min(25, |systems|)
    ensures forall i :: 0 <= i < |names| ==>
      names[i] == SystemLabel(systems[|names| - 1 - i]) && books[i] == systems[|names| - 1 - i].booksHeld
  {
    var rev := ReversedTop(systems, 25);
    names := seq(|rev|, i requires 0 <= i < |rev| => SystemLabel(rev[i]));
    books := seq(|rev|, i requires 0 <= i < |rev| => rev[i].booksHeld);
  }

  /** Chart 2: the 25 most widely held books, bottom-to-top, with titles over
      45 characters cut to 45 plus "...". */
  method TopBooksBar(bs: seq<ChartBook>) returns (titles: seq<string>, counts: seq<int>)
    ensures |titles| == |counts| == Min(25, |bs|)
    ensures forall i :: 0 <= i < |titles| ==>
      titles[i] == BookLabel(bs[|titles| - 1 - i]) && counts[i] == bs[|titles| - 1 - i].systemCount
  {
    var rev := ReversedTop(bs, 25);
    titles := seq(|rev|, i requires 0 <= i < |rev| => BookLabel(rev[i]));
    counts := seq(|rev|, i requires 0 <= i < |rev| => rev[i].systemCount);
  }

  /** With 25 or more systems, bar 0 is the 25th-ranked system and bar 24 the
      first; a label is at most 43 characters, and a long title is 48. */
  lemma TopBarsShape(systems: seq<ChartSystem>, b: ChartBook)
    ensures |systems| >= 25 ==> (Reversed(Take(systems, 25))[0] == systems[24]
                              && Reversed(Take(systems, 25))[24] == systems[0])
    ensures forall i :: 0 <= i < |systems| ==> |SystemLabel(systems[i])| <= 43
    ensures |b.title| > 45 ==> |BookLabel(b)| == 48 && BookLabel(b)[..45] == b.title[..45]
    ensures |b.title| <= 45 ==> BookLabel(b) == b.title
  {
    forall i | 0 <= i < |systems| ensures |SystemLabel(systems[i])| <= 43 {
      EllipsizeShape(systems[i].systemName, 40);
    }
    EllipsizeShape(b.title, 45);
  }

  // ===================== Charts 3 and 4: histogram bins =====================

  /** The number of values `np.arange(0, max + w, w)` produces. */
  function BinCount(max: int, w: int): nat
    requires w > 0
  {
    if max + w > 0 then (max + w + w - 1) / w else 0
  }

  /** `np.arange(0, max + w, w)`: 0, w, 2w, ... while below `max + w`. */
  function BinEdges(max: int, w: int): (r: seq<int>)
    requires w > 0
    ensures |r| == BinCount(max, w) && forall i :: 0 <= i < |r| ==> r[i] == i * w
  {
    seq(BinCount(max, w), i requires 0 <= i < BinCount(max, w) => i * w)
  }

  /** The edges start at 0 and stop at the last multiple of `w` below
      `max + w`, which is at least `max`; for `max > 0` there is at least one bin. */
  lemma BinEdgesRange(max: int, w: int)
    requires w > 0
    ensures var r := BinEdges(max, w);
      && (|r| > 0 <==> max + w > 0)
      && (|r| > 0 ==> r[0] == 0 && max <= r[|r| - 1] < max + w)
      && (max > 0 ==> |r| >= 2)
  {
    var stop := max + w;
    if stop > 0 {
      var n := BinCount(max, w);
      var rm := (stop + w - 1) % w;
      assert stop + w - 1 == n * w + rm && 0 <= rm < w;
      assert (n - 1) * w == n * w - w;
      if n == 0 {
        assert false;
      }
      if max > 0 && n - 1 <= 0 {
        assert false;
      }
    }
  }

  /** Chart 3: bins of width 10 up to the largest holdings; `max` of an empty
      list raises, which is `None` here. */
  function SystemBins(systems: seq<ChartSystem>): (r: Option<seq<int>>)
    ensures r.None? <==> systems == []
  {
    if systems == [] then None else Some(BinEdges(MaxOf(BooksHeldList(systems)), 10))
  }

  function BooksHeldList(systems: seq<ChartSystem>): (r: seq<int>)
    ensures |r| == |systems| && forall i :: 0 <= i < |systems| ==> r[i] == systems[i].booksHeld
  {
    seq(|systems|, i requires 0 <= i < |systems| => systems[i].booksHeld)
  }

  function SystemCountList(bs: seq<ChartBook>): (r: seq<int>)
    ensures |r| == |bs| && forall i :: 0 <= i < |bs| ==> r[i] == bs[i].systemCount
  {
    seq(|bs|, i requires 0 <= i < |bs| => bs[i].systemCount)
  }

  /** Chart 4: bins of width 5 up to the largest system count, or up to 1 for
      an empty list. */
  function BookBins(bs: seq<ChartBook>): seq<int> {
    BinEdges(if bs == [] then 1 else MaxOf(SystemCountList(bs)), 5)
  }

  /** Every non-negative value of a chart lies between the first and the last edge. */
  lemma BinsCoverValues(systems: seq<ChartSystem>, bs: seq<ChartBook>)
    ensures SystemBins(systems).Some? && (forall i :: 0 <= i < |systems| ==> systems[i].booksHeld >= 0) ==>
      var r := SystemBins(systems).value;
      |r| > 0 && forall i :: 0 <= i < |systems| ==> r[0] <= systems[i].booksHeld <= r[|r| - 1]
    ensures (forall i :: 0 <= i < |bs| ==> bs[i].systemCount >= 0) ==>
      var r := BookBins(bs);
      |r| > 0 && forall i :: 0 <= i < |bs| ==> r[0] <= bs[i].systemCount <= r[|r| - 1]
    ensures BookBins([]) == [0, 5]
  {
    if systems != [] {
      BinEdgesRange(MaxOf(BooksHeldList(systems)), 10);
      assert MaxOf(BooksHeldList(systems)) >= BooksHeldList(systems)[0];
    }
    var m := if bs == [] then 1 else MaxOf(SystemCountList(bs));
    BinEdgesRange(m, 5);
    if bs != [] {
      assert m >= SystemCountList(bs)[0];
    }
    assert BinCount(1, 5) == 2;
  }

  // ======================== Chart 5: vendor tally ========================

  datatype VendorCount = VendorCount(vendor: string, count: nat)

  function VendorsOf(t: seq<VendorCount>): (r: seq<string>)
    ensures |r| == |t| && forall i :: 0 <= i < |t| ==> r[i] == t[i].vendor
  {
    seq(|t|, i requires 0 <= i < |t| => t[i].vendor)
  }

  /** The first position of `x` in `s`. */
  function IndexIn<T(==)>(s: seq<T>, x: T): (i: nat)
    requires x in s
    ensures i < |s| && s[i] == x && forall k :: 0 <= k < i ==> s[k] != x
  {
    if s[0] == x then 0 else 1 + IndexIn(s[1..], x)
  }

  /** `Counter.update` with one element: counts it, a new key going last. */
  function Bump(t: seq<VendorCount>, v: string): seq<VendorCount> {
    if v in VendorsOf(t) then
      var i := IndexIn(VendorsOf(t), v);
      t[i := t[i].(count := t[i].count + 1)]
    else t + [VendorCount(v, 1)]
  }

  /** `Counter(vs).items()`: each distinct value with its count, in first-seen order. */
  function Tally(vs: seq<string>): seq<VendorCount> {
    if vs == [] then [] else Bump(Tally(vs[..|vs| - 1]), vs[|vs| - 1])
  }

  predicate DistinctVendors(t: seq<VendorCount>) {
    forall i, j :: 0 <= i < j < |t| ==> t[i].vendor != t[j].vendor
  }

  /** The tally has one entry per distinct value, and each entry counts the
      occurrences of its value. */
  lemma {:induction false} TallyCounts(vs: seq<string>)
    ensures var t := Tally(vs);
      && DistinctVendors(t)
      && (forall v :: v in VendorsOf(t) <==> v in vs)
      && (forall i :: 0 <= i < |t| ==> t[i].count == multiset(vs)[t[i].vendor])
  {
    if vs != [] {
      var init, v := vs[..|vs| - 1], vs[|vs| - 1];
      TallyCounts(init);
      assert vs == init + [v];
      var t := Tally(init);
      if v in VendorsOf(t) {
        var k := IndexIn(VendorsOf(t), v);
        assert VendorsOf(Bump(t, v)) == VendorsOf(t);
      } else {
        assert VendorsOf(Bump(t, v)) == VendorsOf(t) + [v];
        assert multiset(init)[v] == 0;
      }
    }
  }

  /** Adding one value keeps the vendors of the existing entries in place and
      appends a new vendor at the end. */
  lemma BumpVendors(t: seq<VendorCount>, v: string)
    ensures v in VendorsOf(t) ==> VendorsOf(Bump(t, v)) == VendorsOf(t)
    ensures v !in VendorsOf(t) ==> VendorsOf(Bump(t, v)) == VendorsOf(t) + [v]
  {
  }

  /** Entries are ordered by the first occurrence of their value. */
  lemma {:induction false} TallyOrder(vs: seq<string>)
    ensures var t := Tally(vs);
      forall i, j :: 0 <= i < j < |t| ==>
        t[i].vendor in vs && t[j].vendor in vs && IndexIn(vs, t[i].vendor) < IndexIn(vs, t[j].vendor)
  {
    if vs != [] {
      var init, v := vs[..|vs| - 1], vs[|vs| - 1];
      assert vs == init + [v];
      TallyOrder(init);
      TallyCounts(init);
      var t := Tally(init);
      var names := VendorsOf(t);
      var names' := VendorsOf(Tally(vs));
      BumpVendors(t, v);
      forall x | x in init ensures x in vs && IndexIn(vs, x) == IndexIn(init, x) {
        IndexPrefix(init, v, x);
      }
      if v !in names {
        IndexLast(init, v);
      }
      forall i, j | 0 <= i < j < |names'|
        ensures names'[i] in vs && names'[j] in vs && IndexIn(vs, names'[i]) < IndexIn(vs, names'[j])
      {
        assert names[i] == t[i].vendor && names[i] in init;
        if j < |names| {
          assert names[j] == t[j].vendor && names[j] in init;
        }
      }
    }
  }

  lemma IndexPrefix<T>(s: seq<T>, y: T, x: T)
    requires x in s
    ensures x in s + [y] && IndexIn(s + [y], x) == IndexIn(s, x)
  {
    var i := IndexIn(s, x);
    assert (s + [y])[i] == x;
  }

  lemma IndexLast<T>(s: seq<T>, y: T)
    requires y !in s
    ensures y in s + [y] && IndexIn(s + [y], y) == |s|
  {
    assert (s + [y])[|s|] == y;
  }

  function CountOf(c: VendorCount): int { c.count }

  lemma {:induction false} SumUpdate<T>(s: seq<T>, i: nat, x: T, f: T -> int)
    requires i < |s|
    ensures SumOf(s[i := x], f) == SumOf(s, f) - f(s[i]) + f(x)
  {
    var n := |s| - 1;
    if i < n {
      SumUpdate(s[..n], i, x, f);
      assert s[i := x][..n] == s[..n][i := x];
    } else {
      assert s[i := x][..n] == s[..n];
    }
  }

  /** The counts add up to the number of values counted. */
  lemma {:induction false} TallySum(vs: seq<string>)
    ensures SumOf(Tally(vs), CountOf) == |vs|
  {
    if vs != [] {
      var init, v := vs[..|vs| - 1], vs[|vs| - 1];
      TallySum(init);
      var t := Tally(init);
      if v in VendorsOf(t) {
        var i := IndexIn(VendorsOf(t), v);
        SumUpdate(t, i, t[i].(count := t[i].count + 1), CountOf);
      } else {
        assert (t + [VendorCount(v, 1)])[..|t|] == t;
      }
    }
  }

  predicate Enabled(r: VendorRecord) { r.enabled }

  /** `s["vendor"] for s in enabled`: the vendors of the enabled systems, in input order. */
  function EnabledVendors(metadata: seq<VendorRecord>): (r: seq<string>)
    ensures var en := Filter(metadata, Enabled);
      |r| == |en| && forall i :: 0 <= i < |en| ==> r[i] == en[i].vendor
  {
    var en := Filter(metadata, Enabled);
    seq(|en|, i requires 0 <= i < |en| => en[i].vendor)
  }

  function CountKey(c: VendorCount): real { c.count as real }

  /** `sorted(vendor_counts.items(), key=lambda x: -x[1])` */
  function SortedVendors(metadata: seq<VendorRecord>): seq<VendorCount> {
    SortDesc(Tally(EnabledVendors(metadata)), CountKey)
  }

  const DefaultVendorColor := "#bdc3c7"

  const VendorColors: map<string, string> := map[
    "apollo" := "#e74c3c",
    "sirsi_dynix" := "#3498db",
    "aspen_discovery" := "#2ecc71",
    "atriuum" := "#9b59b6",
    "tlc" := "#f39c12",
    "bibliocommons" := "#1abc9c",
    "polaris" := "#e67e22",
    "koha" := "#34495e",
    "spydus" := "#95a5a6",
    "unknown" := "#bdc3c7"
  ]

  /** `VENDOR_COLORS.get(vendor, "#bdc3c7")` */
  function VendorColor(vendor: string): string {
    if vendor in VendorColors then VendorColors[vendor] else DefaultVendorColor
  }

  /** `vendor.replace("_", " ").title()` */
  function PrettyVendor(vendor: string): string {
    TitleCase(ReplaceAll(vendor, "_", " "))
  }

  /** `f"{pretty} ({count})"` */
  function VendorLabel(c: VendorCount): string {
    PrettyVendor(c.vendor) + " (" + IntToString(c.count) + ")"
  }

  /** Chart 5's loop: one label, size and colour per vendor, most common first. */
  method VendorBreakdown(metadata: seq<VendorRecord>) returns (labels: seq<string>, sizes: seq<int>, colors: seq<string>)
    ensures var sv := SortedVendors(metadata);
      && |labels| == |sv| && |sizes| == |sv| && |colors| == |sv|
      && forall i :: 0 <= i < |sv| ==>
           labels[i] == VendorLabel(sv[i]) && sizes[i] == sv[i].count && colors[i] == VendorColor(sv[i].vendor)
  {
    var sortedVendors := SortedVendors(metadata);
    labels, sizes, colors := [], [], [];
    var i := 0;
    while i < |sortedVendors|
      invariant 0 <= i <= |sortedVendors|
      invariant |labels| == i && |sizes| == i && |colors| == i
      invariant forall k :: 0 <= k < i ==>
        labels[k] == VendorLabel(sortedVendors[k]) && sizes[k] == sortedVendors[k].count
        && colors[k] == VendorColor(sortedVendors[k].vendor)
    {
      var vc := sortedVendors[i];
      labels := labels + [VendorLabel(vc)];
      sizes := sizes + [vc.count];
      colors := colors + [VendorColor(vc.vendor)];
      i := i + 1;
    }
  }

  /** The slices: the sizes sum to the number of enabled systems, counts never
      increase along the chart, each vendor appears once with the number of
      enabled systems using it, and vendors with equal counts keep the order
      of the tally, which is first-seen order. */
  lemma VendorChartFacts(metadata: seq<VendorRecord>, k: real)
    ensures var sv := SortedVendors(metadata);
      && SumOf(sv, CountOf) == |Filter(metadata, Enabled)|
      && SortedDesc(sv, CountKey)
      && multiset(sv) == multiset(Tally(EnabledVendors(metadata)))
      && WithKey(sv, CountKey, k) == WithKey(Tally(EnabledVendors(metadata)), CountKey, k)
      && forall v :: v in VendorsOf(Tally(EnabledVendors(metadata))) <==> v in EnabledVendors(metadata)
  {
    var t := Tally(EnabledVendors(metadata));
    TallySum(EnabledVendors(metadata));
    TallyCounts(EnabledVendors(metadata));
    SortDescSum(t, CountKey, CountOf);
    SortDescSorted(t, CountKey);
    SortDescPermutes(t, CountKey);
    SortDescStable(t, CountKey, k);
  }

  /** A label is the prettified vendor, the same length as the identifier,
      with no underscore left, title-cased, differing from the identifier only
      in case and spaces, followed by " (count)". */
  lemma VendorLabelShape(c: VendorCount)
    ensures var p := PrettyVendor(c.vendor);
      && VendorLabel(c) == p + " (" + NatDigits(c.count) + ")"
      && |p| == |c.vendor|
      && (forall i :: 0 <= i < |p| ==> p[i] != '_')
      && TitleCase(p) == p
      && Lower(p) == Lower(ReplaceAll(c.vendor, "_", " "))
  {
    var v := c.vendor;
    var spaced := ReplaceAll(v, "_", " ");
    ReplaceCharAt(v, '_', ' ');
    var p := TitleCase(spaced);
    forall i | 0 <= i < |p| ensures p[i] != '_' {
      TitleCaseAt(spaced, i);
    }
    TitleCaseIdempotent(spaced);
    TitleCaseKeepsLetters(spaced);
  }

  /** The default colour covers every vendor outside the palette. */
  lemma VendorColorFacts(vendor: string)
    ensures vendor !in VendorColors ==> VendorColor(vendor) == DefaultVendorColor
    ensures VendorColor("unknown") == DefaultVendorColor
    ensures VendorColor("sirsi_dynix") == "#3498db"
  {
  }

  // ===================== Chart 6: availability ranking =====================

  /** A system with the `availRate` field added. */
  datatype RatedSystem = RatedSystem(system: ChartSystem, availRate: real)

  predicate HasCopies(s: ChartSystem) { s.totalCopies > 0 }

  function Rate(s: ChartSystem): real
    requires s.totalCopies > 0
  {
    s.totalAvailable as real / s.totalCopies as real
  }

  function BooksKey(r: RatedSystem): real { r.system.booksHeld as real }
  /** Ascending by rate is descending by the negated rate. */
  function RateDownKey(r: RatedSystem): real { -r.availRate }

  function Rated(ws: seq<ChartSystem>): (r: seq<RatedSystem>)
    requires forall i :: 0 <= i < |ws| ==> ws[i].totalCopies > 0
    ensures |r| == |ws| && forall i :: 0 <= i < |ws| ==> r[i] == RatedSystem(ws[i], Rate(ws[i]))
  {
    seq(|ws|, i requires 0 <= i < |ws| => RatedSystem(ws[i], Rate(ws[i])))
  }

  /** The systems with copies, with their rates, in input order. */
  function WithRates(systems: seq<ChartSystem>): seq<RatedSystem> {
    Rated(Filter(systems, HasCopies))
  }

  /** `sorted(with_copies, key=lambda s: -s["booksHeld"])[:25]` */
  function TopByBooks(systems: seq<ChartSystem>): seq<RatedSystem> {
    Take(SortDesc(WithRates(systems), BooksKey), 25)
  }

  /** `top.sort(key=lambda s: s["availRate"])` */
  function AvailabilityOrder(systems: seq<ChartSystem>): seq<RatedSystem> {
    SortDesc(TopByBooks(systems), RateDownKey)
  }

  /** Chart 6: adds the rate to each system with copies, then ranks. */
  method AvailabilityBars(systems: seq<ChartSystem>) returns (names: seq<string>, rates: seq<real>)
    ensures var top := AvailabilityOrder(systems);
      && |names| == |top| && |rates| == |top|
      && forall i :: 0 <= i < |top| ==> names[i] == Take(top[i].system.systemName, 40) && rates[i] == top[i].availRate
  {
    var withCopies := Filter(systems, HasCopies);
    var rated: seq<RatedSystem> := [];
    var i := 0;
    while i < |withCopies|
      invariant 0 <= i <= |withCopies|
      invariant rated == Rated(withCopies[..i])
    {
      var s := withCopies[i];
      rated := rated + [RatedSystem(s, s.totalAvailable as real / s.totalCopies as real)];
      i := i + 1;
    }
    assert withCopies[..|withCopies|] == withCopies;
    var top := Take(SortDesc(rated, BooksKey), 25);
    top := SortDesc(top, RateDownKey);
    names := seq(|top|, k requires 0 <= k < |top| => Take(top[k].system.systemName, 40));
    rates := seq(|top|, k requires 0 <= k < |top| => top[k].availRate);
  }

  /** The chart shows min(25, systems with copies) bars with non-decreasing
      rates, and they are a rearrangement of the top 25 by holdings. */
  lemma AvailabilityOrderFacts(systems: seq<ChartSystem>)
    ensures var top := AvailabilityOrder(systems);
      && |top| == Min(25, |Filter(systems, HasCopies)|)
      && (forall i, j :: 0 <= i < j < |top| ==> top[i].availRate <= top[j].availRate)
      && multiset(top) == multiset(TopByBooks(systems))
  {
    var tb := TopByBooks(systems);
    var top := AvailabilityOrder(systems);
    SortDescSorted(tb, RateDownKey);
    SortDescPermutes(tb, RateDownKey);
    forall i, j | 0 <= i < j < |top| ensures top[i].availRate <= top[j].availRate {
      assert RateDownKey(top[i]) >= RateDownKey(top[j]);
    }
  }

  /** Every bar is a listed system with copies, showing its available over
      total copies. */
  lemma AvailabilityMembers(systems: seq<ChartSystem>)
    ensures var top := AvailabilityOrder(systems);
      forall i :: 0 <= i < |top| ==>
        top[i].system in systems && top[i].system.totalCopies > 0 && top[i].availRate == Rate(top[i].system)
  {
    var ws := Filter(systems, HasCopies);
    var rs := WithRates(systems);
    var tb := TopByBooks(systems);
    var top := AvailabilityOrder(systems);
    AvailabilityOrderFacts(systems);
    TopIsSubMultiset(rs, BooksKey, 25);
    forall i | 0 <= i < |top|
      ensures top[i].system in systems && top[i].system.totalCopies > 0 && top[i].availRate == Rate(top[i].system)
    {
      assert top[i] in multiset(tb);
      assert top[i] in rs;
      var k :| 0 <= k < |rs| && rs[k] == top[i];
      assert ws[k] in systems;
    }
  }

  /** The 25 systems kept hold at least as many books as every system with
      copies that is left out. */
  lemma TopByBooksFacts(systems: seq<ChartSystem>)
    ensures var bs := SortDesc(WithRates(systems), BooksKey);
      forall i, j :: 0 <= i < |TopByBooks(systems)| <= j < |bs| ==>
        TopByBooks(systems)[i].system.booksHeld >= bs[j].system.booksHeld
  {
    var bs := SortDesc(WithRates(systems), BooksKey);
    var tb := TopByBooks(systems);
    SortDescSorted(WithRates(systems), BooksKey);
    TopOfSorted(bs, BooksKey, 25, 0.0);
    forall i, j | 0 <= i < |tb| <= j < |bs| ensures tb[i].system.booksHeld >= bs[j].system.booksHeld {
      assert BooksKey(tb[i]) >= BooksKey(bs[j]);
    }
  }

  // ===================== Chart 7: found and not found =====================

  /** The two slices of chart 7 with their labels. */
  function FoundSlices(booksFound: int, booksNotFound: int): (r: (seq<int>, seq<string>))
    ensures r.0 == [booksFound, booksNotFound] && |r.1| == 2
  {
    ([booksFound, booksNotFound],
     ["Found (" + IntToString(booksFound) + ")", "Not found (" + IntToString(booksNotFound) + ")"])
  }

  /** Each label carries its slice's count in decimal, readable back. */
  lemma FoundSlicesLabels(booksFound: nat, booksNotFound: nat)
    ensures var labels := FoundSlices(booksFound, booksNotFound).1;
      && labels[0] == "Found (" + NatDigits(booksFound) + ")"
      && labels[1] == "Not found (" + NatDigits(booksNotFound) + ")"
      && DigitsValue(NatDigits(booksFound)) == booksFound
      && DigitsValue(NatDigits(booksNotFound)) == booksNotFound
  {
    NatDigitsRoundTrip(booksFound);
    NatDigitsRoundTrip(booksNotFound);
  }

  // ===================== Chart 8: scatter annotations =====================

  function CopiesKey(s: ChartSystem): real { s.totalCopies as real }

  /** `sorted(systems, key=lambda s: -s["totalCopies"])[:5]` */
  function TopByCopies(systems: seq<ChartSystem>): seq<ChartSystem> {
    Take(SortDesc(systems, CopiesKey), 5)
  }

  /** The annotation: both suffixes removed, then cut to 25 characters. */
  function ScatterLabel(s: ChartSystem): string {
    Take(StripLibrarySuffixes(s.systemName), 25)
  }

  function ScatterLabels(systems: seq<ChartSystem>): (r: seq<string>)
    ensures |r| == |TopByCopies(systems)|
    ensures forall i :: 0 <= i < |r| ==> r[i] == ScatterLabel(TopByCopies(systems)[i])
  {
    var top := TopByCopies(systems);
    seq(|top|, i requires 0 <= i < |top| => ScatterLabel(top[i]))
  }

  /** Exactly min(5, n) systems are labelled, drawn from the input: they
      have at least as many copies as every system left out, and every label
      has at most 25 characters. */
  lemma ScatterTop(systems: seq<ChartSystem>)
    ensures var top := TopByCopies(systems);
      && |top| == Min(5, |systems|)
      && multiset(top) <= multiset(systems)
      && forall i, j :: 0 <= i < |top| <= j < |SortDesc(systems, CopiesKey)| ==>
           top[i].totalCopies >= SortDesc(systems, CopiesKey)[j].totalCopies
    ensures forall i :: 0 <= i < |ScatterLabels(systems)| ==> |ScatterLabels(systems)[i]| <= 25
  {
    var sorted := SortDesc(systems, CopiesKey);
    var top := TopByCopies(systems);
    SortDescSorted(systems, CopiesKey);
    TopIsSubMultiset(systems, CopiesKey, 5);
    TopOfSorted(sorted, CopiesKey, 5, 0.0);
    forall i, j | 0 <= i < |top| <= j < |sorted| ensures top[i].totalCopies >= sorted[j].totalCopies {
      assert CopiesKey(top[i]) >= CopiesKey(sorted[j]);
    }
  }

  /** Among systems with equal copies, the labelled ones are the earliest in input order. */
  lemma ScatterStable(systems: seq<ChartSystem>, k: real)
    ensures var w := WithKey(TopByCopies(systems), CopiesKey, k);
      |w| <= |WithKey(systems, CopiesKey, k)| && w == WithKey(systems, CopiesKey, k)[..|w|]
  {
    SortDescSorted(systems, CopiesKey);
    SortDescStable(systems, CopiesKey, k);
    TopOfSorted(SortDesc(systems, CopiesKey), CopiesKey, 5, k);
  }
}
