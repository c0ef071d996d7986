/**
 * The profile page: the four statistics cards, the per-month chart of the
 * last six months that have entries, and the list of recent entries.
 *
 * `new Date()` (the viewer's today) is a parameter, and timestamps are taken
 * already decoded into UTC calendar fields, as in the `Stamps` module.
 */
module Profile {
  import opened Text
  import opened Seqs
  import opened Stamps
  import opened DiaryStore

  // ---------------------------------------------------------------------------
  // Word counts and averages
  // ---------------------------------------------------------------------------

  /** `s.split(' ').length`: runs of spaces are not collapsed and "" counts as one word. */
  function WordCount(s: string): (n: nat)
    ensures n >= 1
  {
    |Split(s, ' ')|
  }

  /** A text has one word more than it has space characters. */
  lemma WordCountIsSpacesPlusOne(s: string)
    ensures WordCount(s) == CountOf(s, ' ') + 1
  {
    SplitLength(s, ' ');
  }

  /** The `reduce` that adds up the word counts of a list of texts. */
  function WordTotal(texts: seq<string>): (total: nat)
    ensures total >= |texts|
  {
    if texts == [] then 0
    else WordTotal(texts[..|texts| - 1]) + WordCount(texts[|texts| - 1])
  }

  function OriginalTexts(diaries: seq<Diary>): (texts: seq<string>)
    ensures |texts| == |diaries|
  {
    seq(|diaries|, i requires 0 <= i < |diaries| => diaries[i].originalContent)
  }

  function EnhancedTexts(diaries: seq<Diary>): (texts: seq<string>)
    ensures |texts| == |diaries|
  {
    seq(|diaries|, i requires 0 <= i < |diaries| => diaries[i].aiContent)
  }

  /**
   * `Math.round(n / d)` for whole numbers: the nearest integer to `n / d`,
   * halves rounded up.
   */
  function RoundHalfUp(n: nat, d: nat): (r: nat)
    requires d > 0
    ensures 2 * d * r <= 2 * n + d < 2 * d * r + 2 * d
  {
    (2 * n + d) / (2 * d)
  }

  /** Only one whole number is within half of `n / d` (halves going up). */
  lemma RoundHalfUpUnique(n: nat, d: nat, r: int)
    requires d > 0
    requires 2 * d * r <= 2 * n + d < 2 * d * r + 2 * d
    ensures r == RoundHalfUp(n, d)
  {
    var q := RoundHalfUp(n, d);
    MultiplyMonotone(2 * d, r + 1, q);
    MultiplyMonotone(2 * d, q + 1, r);
    assert 2 * d * (r + 1) == 2 * d * r + 2 * d;
    assert 2 * d * (q + 1) == 2 * d * q + 2 * d;
  }

  lemma MultiplyMonotone(k: nat, a: int, b: int)
    ensures a <= b ==> k * a <= k * b
  {
    assert k * b - k * a == k * (b - a);
  }

  /** The average shown on a card: 0 without entries, else the rounded mean. */
  function Average(total: nat, count: nat): (avg: nat)
    ensures count == 0 ==> avg == 0
    ensures count > 0 ==> 2 * count * avg <= 2 * total + count < 2 * count * avg + 2 * count
  {
    if count > 0 then RoundHalfUp(total, count) else 0
  }

  // ---------------------------------------------------------------------------
  // Statistics cards
  // ---------------------------------------------------------------------------

  datatype Stats = Stats(
    totalDiaries: nat,
    thisMonthDiaries: nat,
    averageWordsOriginal: nat,
    averageWordsEnhanced: nat)

  const InitialStats := Stats(0, 0, 0, 0)

  /** `new Date(now.getFullYear(), now.getMonth(), 1)`: midnight of the first of the month. */
  function ThisMonthStart(today: CivilDate): Stamp {
    Stamp(CivilDate(today.year, today.month, 1), 0)
  }

  function CreatedSince(start: Stamp): Diary -> bool {
    (x: Diary) => AtOrBefore(start, x.createdAt)
  }

  /** The entries counted on the "this month" card. */
  function ThisMonthEntries(diaries: seq<Diary>, today: CivilDate): (r: seq<Diary>)
    ensures |r| <= |diaries|
    ensures forall x :: x in r <==> x in diaries && AtOrBefore(ThisMonthStart(today), x.createdAt)
    ensures forall x :: (multiset(r)[x]
      == if AtOrBefore(ThisMonthStart(today), x.createdAt) then multiset(diaries)[x] else 0)
  {
    FilterCounts(diaries, CreatedSince(ThisMonthStart(today)));
    Filter(diaries, CreatedSince(ThisMonthStart(today)))
  }

  /** The statistics computed from the loaded entries. */
  function ComputeStats(diaries: seq<Diary>, today: CivilDate): (st: Stats)
    ensures st.totalDiaries == |diaries|
    ensures st.thisMonthDiaries == |ThisMonthEntries(diaries, today)| <= st.totalDiaries
    ensures st.averageWordsOriginal == Average(WordTotal(OriginalTexts(diaries)), |diaries|)
    ensures st.averageWordsEnhanced == Average(WordTotal(EnhancedTexts(diaries)), |diaries|)
    ensures |diaries| > 0 ==> st.averageWordsOriginal >= 1 && st.averageWordsEnhanced >= 1
  {
    AverageAtLeastOne(WordTotal(OriginalTexts(diaries)), |diaries|);
    AverageAtLeastOne(WordTotal(EnhancedTexts(diaries)), |diaries|);
    Stats(
      |diaries|,
      |ThisMonthEntries(diaries, today)|,
      Average(WordTotal(OriginalTexts(diaries)), |diaries|),
      Average(WordTotal(EnhancedTexts(diaries)), |diaries|))
  }

  /** Every entry has at least one word, so a non-empty list averages at least one. */
  lemma AverageAtLeastOne(total: nat, count: nat)
    requires total >= count
    ensures count > 0 ==> Average(total, count) >= 1
  {
    if count > 0 {
      assert 2 * count * Average(total, count) > count;
    }
  }

  /**
   * The "this month" card counts every entry dated on or after the first of
   * the current month, entries dated later than today included.
   */
  lemma ThisMonthIncludesFuture(diaries: seq<Diary>, today: CivilDate, x: Diary)
    requires x in diaries
    requires DateBefore(today, x.createdAt.date)
    requires today.day >= 1
    ensures x in ThisMonthEntries(diaries, today)
  {
  }

  /** When nothing is older than the first of the month, the card counts every entry. */
  lemma ThisMonthCountsAll(diaries: seq<Diary>, today: CivilDate)
    requires forall i :: 0 <= i < |diaries| ==> AtOrBefore(ThisMonthStart(today), diaries[i].createdAt)
    ensures ComputeStats(diaries, today).thisMonthDiaries == |diaries|
  {
    FilterAll(diaries, CreatedSince(ThisMonthStart(today)));
  }

  /** When everything is older than the first of the month, the card shows 0. */
  lemma ThisMonthCountsNone(diaries: seq<Diary>, today: CivilDate)
    requires forall i :: 0 <= i < |diaries| ==> Before(diaries[i].createdAt, ThisMonthStart(today))
    ensures ComputeStats(diaries, today).thisMonthDiaries == 0
  {
    FilterNone(diaries, CreatedSince(ThisMonthStart(today)));
  }

  // ---------------------------------------------------------------------------
  // Recent entries
  // ---------------------------------------------------------------------------

  /** `diaries.slice(0, 5)`. */
  function Recent(diaries: seq<Diary>): (r: seq<Diary>)
    ensures |r| == if |diaries| < 5 then |diaries| else 5
    ensures r == diaries[..|r|]
  {
    if |diaries| < 5 then diaries else diaries[..5]
  }

  /** On the newest-first list, the recent entries are the five newest. */
  lemma RecentAreNewest(diaries: seq<Diary>)
    requires SortedByCreated(diaries, false)
    ensures forall i, j :: 0 <= i < |Recent(diaries)| <= j < |diaries| ==>
      AtOrBefore(diaries[j].createdAt, Recent(diaries)[i].createdAt)
  {
    var r := Recent(diaries);
    forall i, j | 0 <= i < |r| <= j < |diaries|
      ensures AtOrBefore(diaries[j].createdAt, r[i].createdAt)
    {
      assert r[i] == diaries[i];
      assert CreatedOrder(false)(diaries[i], diaries[j]);
    }
  }

  // ---------------------------------------------------------------------------
  // Month labels: `${getFullYear()}-${String(getMonth() + 1).padStart(2, '0')}`
  // ---------------------------------------------------------------------------

  function Digit(k: int): char
    requires 0 <= k < 10
  {
    ('0' as int + k) as char
  }

  /** `String(n)` for a whole number: its decimal digits, without leading zeros. */
  function NatString(n: nat): (s: string)
    ensures |s| >= 1
  {
    if n < 10 then [Digit(n)] else NatString(n / 10) + [Digit(n % 10)]
  }

  /** `String(i)` for an integer. */
  function IntString(i: int): string {
    if i < 0 then "-" + NatString(-i) else NatString(i)
  }

  /** `s.padStart(2, '0')`. */
  function PadStart2(s: string): (r: string)
    ensures |r| == if |s| < 2 then 2 else |s|
    ensures r[|r| - |s|..] == s
    ensures forall i :: 0 <= i < |r| - |s| ==> r[i] == '0'
  {
    if |s| >= 2 then s else if |s| == 1 then "0" + s else "00"
  }

  function MonthLabel(t: Stamp): string {
    IntString(t.date.year) + "-" + PadStart2(IntString(t.date.month))
  }

  function Pow10(w: nat): (p: nat)
    ensures p >= 1
  {
    if w == 0 then 1 else 10 * Pow10(w - 1)
  }

  /** The last `w` decimal digits of `n`, zeros in front. */
  function Fixed(n: nat, w: nat): (s: string)
    ensures |s| == w
  {
    if w == 0 then [] else Fixed(n / 10, w - 1) + [Digit(n % 10)]
  }

  /** A number with exactly `w` digits is written as its `w` fixed digits. */
  lemma {:induction false} NatStringFixed(n: nat, w: nat)
    requires w >= 1 && n < Pow10(w)
    requires w == 1 || Pow10(w - 1) <= n
    ensures NatString(n) == Fixed(n, w)
  {
    if w > 1 {
      NatStringFixed(n / 10, w - 1);
    }
  }

  /** On numbers of one width, string order of fixed digits is numeric order. */
  lemma {:induction false} FixedOrder(n: nat, m: nat, w: nat)
    requires n < Pow10(w) && m < Pow10(w)
    ensures StrLe(Fixed(n, w), Fixed(m, w)) <==> n <= m
    decreases w
  {
    if w > 0 {
      var pn, pm := Fixed(n / 10, w - 1), Fixed(m / 10, w - 1);
      FixedOrder(n / 10, m / 10, w - 1);
      FixedOrder(m / 10, n / 10, w - 1);
      if n / 10 != m / 10 {
        StrLePrefixDecides(pn, pm, [Digit(n % 10)], [Digit(m % 10)]);
      } else {
        StrLeCommonPrefix(pn, [Digit(n % 10)], [Digit(m % 10)]);
        assert StrLe([Digit(n % 10)], [Digit(m % 10)]) <==> n % 10 <= m % 10;
      }
    }
  }

  /** A date whose year has four digits, in a month from 1 to 12. */
  predicate FourDigitYear(t: Stamp) {
    1000 <= t.date.year <= 9999 && 1 <= t.date.month <= 12
  }

  lemma YearDigits(y: int)
    requires 1000 <= y <= 9999
    ensures IntString(y) == Fixed(y, 4)
  {
    NatStringFixed(y, 4);
  }

  lemma MonthDigits(m: int)
    requires 1 <= m <= 12
    ensures PadStart2(IntString(m)) == Fixed(m, 2)
  {
    if m < 10 {
      assert IntString(m) == [Digit(m)];
      assert Fixed(m, 2) == Fixed(0, 1) + [Digit(m)];
      assert Fixed(0, 1) == [Digit(0)];
    } else {
      NatStringFixed(m, 2);
    }
  }

  lemma LabelFixed(t: Stamp)
    requires FourDigitYear(t)
    ensures MonthLabel(t) == Fixed(t.date.year, 4) + ("-" + Fixed(t.date.month, 2))
  {
    YearDigits(t.date.year);
    MonthDigits(t.date.month);
    var y, m := IntString(t.date.year), PadStart2(IntString(t.date.month));
    assert y + "-" + m == y + ("-" + m);
  }

  /** `a` falls in an earlier calendar month than `b`. */
  predicate MonthBefore(a: Stamp, b: Stamp) {
    a.date.year < b.date.year || (a.date.year == b.date.year && a.date.month < b.date.month)
  }

  predicate SameMonth(a: Stamp, b: Stamp) {
    a.date.year == b.date.year && a.date.month == b.date.month
  }

  /** Labels spelled with fixed digits compare like (year, month) pairs. */
  lemma FixedLabelOrder(y1: nat, m1: nat, y2: nat, m2: nat)
    requires y1 < 10000 && y2 < 10000 && m1 < 100 && m2 < 100
    ensures Fixed(y1, 4) + ("-" + Fixed(m1, 2)) == Fixed(y2, 4) + ("-" + Fixed(m2, 2)) <==> y1 == y2 && m1 == m2
    ensures StrLe(Fixed(y1, 4) + ("-" + Fixed(m1, 2)), Fixed(y2, 4) + ("-" + Fixed(m2, 2)))
      <==> y1 < y2 || (y1 == y2 && m1 <= m2)
  {
    var ya, yb := Fixed(y1, 4), Fixed(y2, 4);
    var ma, mb := Fixed(m1, 2), Fixed(m2, 2);
    FixedOrder(y1, y2, 4);
    FixedOrder(y2, y1, 4);
    FixedOrder(m1, m2, 2);
    FixedOrder(m2, m1, 2);
    if y1 != y2 {
      StrLePrefixDecides(ya, yb, "-" + ma, "-" + mb);
      StrLePrefixDecides(yb, ya, "-" + mb, "-" + ma);
    } else {
      assert ya + ("-" + ma) == (ya + "-") + ma && ya + ("-" + mb) == (ya + "-") + mb;
      StrLeCommonPrefix(ya + "-", ma, mb);
      StrLeCommonPrefix(ya + "-", mb, ma);
      if ma == mb {
        StrLeAntisymmetric(ma, mb);
      }
    }
  }

  /**
   * For four-digit years the labels are seven characters long, name the month
   * exactly, and sort as strings in calendar order.
   */
  lemma LabelOrder(a: Stamp, b: Stamp)
    requires FourDigitYear(a) && FourDigitYear(b)
    ensures |MonthLabel(a)| == 7
    ensures MonthLabel(a) == MonthLabel(b) <==> SameMonth(a, b)
    ensures StrLe(MonthLabel(a), MonthLabel(b)) <==> MonthBefore(a, b) || SameMonth(a, b)
  {
    LabelFixed(a);
    LabelFixed(b);
    FixedLabelOrder(a.date.year, a.date.month, b.date.year, b.date.month);
  }

  // ---------------------------------------------------------------------------
  // The monthly chart
  // ---------------------------------------------------------------------------

  /** One `[month, count]` pair of `Object.entries(monthlyCount)`. */
  datatype MonthCount = MonthCount(month: string, count: nat)

  /** The chart key of one entry: the label of the month it was created in. */
  function EntryMonth(x: Diary): string {
    MonthLabel(x.createdAt)
  }

  /** The key of each entry, in list order. */
  function KeysOf<K>(diaries: seq<Diary>, keyOf: Diary -> K): (labels: seq<K>)
    ensures |labels| == |diaries|
  {
    if diaries == [] then [] else KeysOf(diaries[..|diaries| - 1], keyOf) + [keyOf(diaries[|diaries| - 1])]
  }

  lemma KeysOfSnoc<K>(diaries: seq<Diary>, keyOf: Diary -> K, i: int)
    requires 0 <= i < |diaries|
    ensures KeysOf(diaries[..i + 1], keyOf) == KeysOf(diaries[..i], keyOf) + [keyOf(diaries[i])]
  {
    assert diaries[..i + 1][..i] == diaries[..i];
  }

  lemma {:induction false} KeysOfAt<K>(diaries: seq<Diary>, keyOf: Diary -> K)
    ensures forall i :: 0 <= i < |diaries| ==> KeysOf(diaries, keyOf)[i] == keyOf(diaries[i])
  {
    if diaries != [] {
      KeysOfAt(diaries[..|diaries| - 1], keyOf);
    }
  }

  /** The month label of each entry, in list order. */
  function Labels(diaries: seq<Diary>): (labels: seq<string>)
    ensures |labels| == |diaries|
  {
    KeysOf(diaries, EntryMonth)
  }

  /**
   * The counts the `forEach` builds up over `keys`, one step per key:
   * `monthlyCount[key] = (monthlyCount[key] || 0) + 1`.
   */
  function Tally<K>(keys: seq<K>): map<K, nat> {
    if keys == [] then map[]
    else
      var counts, key := Tally(keys[..|keys| - 1]), keys[|keys| - 1];
      counts[key := (if key in counts then counts[key] else 0) + 1]
  }

  lemma TallySnoc<K>(keys: seq<K>, key: K)
    ensures Tally(keys + [key]) == Tally(keys)[key := (if key in Tally(keys) then Tally(keys)[key] else 0) + 1]
  {
    assert (keys + [key])[..|keys|] == keys;
  }

  /** The tally has an entry for exactly the keys that occur, and counts their occurrences. */
  lemma {:induction false} TallyCounts<K>(keys: seq<K>)
    ensures forall k :: k in Tally(keys) <==> k in keys
    ensures forall k :: k in Tally(keys) ==> Tally(keys)[k] == multiset(keys)[k]
  {
    if keys != [] {
      var init, key := keys[..|keys| - 1], keys[|keys| - 1];
      assert keys == init + [key];
      TallyCounts(init);
      assert multiset(keys) == multiset(init) + multiset{key};
    }
  }

  /**
   * The `forEach` that fills `monthlyCount`, keying each entry by `keyOf`. A
   * JavaScript object is a map plus the order in which its keys were first
   * set, which `Object.entries` follows; `keys` carries that order.
   */
  method CountByKey<K(==, !new)>(diaries: seq<Diary>, keyOf: Diary -> K) returns (counts: map<K, nat>, keys: seq<K>)
    ensures counts == Tally(KeysOf(diaries, keyOf))
    ensures keys == Dedup(KeysOf(diaries, keyOf))
  {
    counts, keys := map[], [];
    ghost var seen: seq<K> := [];
    var i := 0;
    while i < |diaries|
      invariant 0 <= i <= |diaries|
      invariant seen == KeysOf(diaries[..i], keyOf)
      invariant counts == Tally(seen)
      invariant keys == Dedup(seen)
    {
      var key := keyOf(diaries[i]);
      TallyCounts(seen);
      DedupSnoc(seen, key);
      TallySnoc(seen, key);
      KeysOfSnoc(diaries, keyOf, i);
      if key !in counts {
        keys := keys + [key];
      }
      counts := counts[key := (if key in counts then counts[key] else 0) + 1];
      seen := seen + [key];
      i := i + 1;
    }
    assert diaries[..i] == diaries;
  }

  /** The `[month, count]` pairs for the given keys, counting in `labels`. */
  function EntriesOf(keys: seq<string>, labels: seq<string>): (entries: seq<MonthCount>)
    ensures |entries| == |keys|
  {
    seq(|keys|, i requires 0 <= i < |keys| => MonthCount(keys[i], multiset(labels)[keys[i]]))
  }

  /** `Object.entries(monthlyCount)` as a function of the entries. */
  function MonthEntries(diaries: seq<Diary>): (entries: seq<MonthCount>)
    ensures |entries| == |Dedup(Labels(diaries))|
  {
    EntriesOf(Dedup(Labels(diaries)), Labels(diaries))
  }

  /** The sum of the counts of a list of pairs. */
  function CountSum(entries: seq<MonthCount>): nat {
    if entries == [] then 0 else CountSum(entries[..|entries| - 1]) + entries[|entries| - 1].count
  }

  /** One more label adds one to the sum of its key's count, and nothing to the others. */
  lemma {:induction false} CountSumSnoc(keys: seq<string>, labels: seq<string>, x: string)
    requires Distinct(keys)
    ensures CountSum(EntriesOf(keys, labels + [x])) == CountSum(EntriesOf(keys, labels)) + (if x in keys then 1 else 0)
  {
    if keys != [] {
      var init := keys[..|keys| - 1];
      assert EntriesOf(keys, labels + [x])[..|init|] == EntriesOf(init, labels + [x]);
      assert EntriesOf(keys, labels)[..|init|] == EntriesOf(init, labels);
      assert multiset(labels + [x]) == multiset(labels) + multiset{x};
      assert x in keys <==> x in init || x == keys[|keys| - 1];
      CountSumSnoc(init, labels, x);
    }
  }

  /** Counting each distinct label's occurrences accounts for every label once. */
  lemma {:induction false} DistinctCountsCoverAll(labels: seq<string>)
    ensures CountSum(EntriesOf(Dedup(labels), labels)) == |labels|
  {
    if labels != [] {
      var init, x := labels[..|labels| - 1], labels[|labels| - 1];
      assert labels == init + [x];
      DistinctCountsCoverAll(init);
      DedupSnoc(init, x);
      CountSumSnoc(Dedup(init), init, x);
      if x !in init {
        var keys := Dedup(init) + [x];
        assert EntriesOf(keys, labels)[..|keys| - 1] == EntriesOf(Dedup(init), labels);
        assert multiset(labels)[x] == 1 by {
          assert multiset(labels) == multiset(init) + multiset{x};
        }
      }
    }
  }

  /** The monthly counts add up to the number of entries. */
  lemma MonthCountsSumToTotal(diaries: seq<Diary>)
    ensures CountSum(MonthEntries(diaries)) == |diaries|
  {
    DistinctCountsCoverAll(Labels(diaries));
  }

  /** What the default `sort()` compares: `[month, count]` converted to "month,count". */
  function EntryString(e: MonthCount): string {
    e.month + "," + NatString(e.count)
  }

  function EntryOrder(): (MonthCount, MonthCount) -> bool {
    (a: MonthCount, b: MonthCount) => StrLe(EntryString(a), EntryString(b))
  }

  lemma EntryOrderIsTotalPreorder()
    ensures TotalPreorder(EntryOrder())
  {
    forall a: MonthCount, b: MonthCount ensures EntryOrder()(a, b) || EntryOrder()(b, a) {
      StrLeTotal(EntryString(a), EntryString(b));
    }
    forall a: MonthCount, b: MonthCount, c: MonthCount
      | EntryOrder()(a, b) && EntryOrder()(b, c)
      ensures EntryOrder()(a, c)
    {
      StrLeTransitive(EntryString(a), EntryString(b), EntryString(c));
    }
  }

  function Months(data: seq<MonthCount>): set<string> {
    set e | e in data :: e.month
  }

  /** `getMonthlyData()`: the entries sorted by their string form, then the last six of them. */
  function MonthlyData(diaries: seq<Diary>): seq<MonthCount> {
    EntryOrderIsTotalPreorder();
    TakeLast(SortBy(MonthEntries(diaries), EntryOrder()), 6)
  }

  /**
   * The chart has six bars, or one per month when there are fewer months;
   * each shown month is a month of some entry with its number of entries, and
   * no month is shown twice.
   */
  lemma MonthlyDataContents(diaries: seq<Diary>)
    ensures |MonthlyData(diaries)| == if |Dedup(Labels(diaries))| < 6 then |Dedup(Labels(diaries))| else 6
    ensures forall e :: e in MonthlyData(diaries) ==>
      e.month in Labels(diaries) && e.count == multiset(Labels(diaries))[e.month]
    ensures forall i, j :: 0 <= i < j < |MonthlyData(diaries)| ==> MonthlyData(diaries)[i].month != MonthlyData(diaries)[j].month
  {
    var entries := MonthEntries(diaries);
    EntryOrderIsTotalPreorder();
    var sorted := SortBy(entries, EntryOrder());
    MonthEntriesSound(diaries);
    TakeLastOfSorted(entries, sorted, EntryOrder(), 6);
    var data := TakeLast(sorted, 6);
    assert data == MonthlyData(diaries);
    forall i, j | 0 <= i < j < |data| ensures data[i].month != data[j].month {
      assert data[i] in entries && data[j] in entries;
    }
  }

  /** The bars are in sort order, and every pair left off sorts before the first one shown. */
  lemma MonthlyDataOrder(diaries: seq<Diary>)
    ensures SortedBy(MonthlyData(diaries), EntryOrder())
    ensures forall e :: e in MonthEntries(diaries) && e !in MonthlyData(diaries) ==> EntryOrder()(e, MonthlyData(diaries)[0])
  {
    var entries := MonthEntries(diaries);
    EntryOrderIsTotalPreorder();
    var sorted := SortBy(entries, EntryOrder());
    TakeLastOfSorted(entries, sorted, EntryOrder(), 6);
    assert TakeLast(sorted, 6) == MonthlyData(diaries);
  }

  /** The entries are distinct and pair each month label with its number of entries. */
  lemma MonthEntriesSound(diaries: seq<Diary>)
    ensures Distinct(MonthEntries(diaries))
    ensures forall e :: e in MonthEntries(diaries) ==> e.month in Labels(diaries) && e.count == multiset(Labels(diaries))[e.month]
  {
    var labels := Labels(diaries);
    var keys := Dedup(labels);
    var entries := MonthEntries(diaries);
    assert forall i :: 0 <= i < |entries| ==> entries[i] == MonthCount(keys[i], multiset(labels)[keys[i]]);
    forall i, j | 0 <= i < j < |entries| ensures entries[i] != entries[j] {
      assert keys[i] != keys[j];
    }
    forall e | e in entries ensures e.month in labels && e.count == multiset(labels)[e.month] {
      var k :| 0 <= k < |entries| && entries[k] == e;
      assert keys[k] in keys;
    }
  }

  /** The month of every entry has its pair among the entries. */
  lemma EntryOfDiary(diaries: seq<Diary>, x: Diary)
    requires x in diaries
    ensures MonthLabel(x.createdAt) in Labels(diaries)
    ensures MonthCount(MonthLabel(x.createdAt), multiset(Labels(diaries))[MonthLabel(x.createdAt)]) in MonthEntries(diaries)
  {
    var labels, l := Labels(diaries), MonthLabel(x.createdAt);
    KeysOfAt(diaries, EntryMonth);
    var i :| 0 <= i < |diaries| && diaries[i] == x;
    assert labels[i] == l;
    var keys := Dedup(labels);
    assert l in keys;
    var k :| 0 <= k < |keys| && keys[k] == l;
    assert MonthEntries(diaries)[k] == MonthCount(l, multiset(labels)[l]);
  }

  /** A pair left off the chart may precede every pair shown. */
  lemma OmittedSortsFirst(diaries: seq<Diary>, e: MonthCount, j: int)
    requires e in MonthEntries(diaries) && e !in MonthlyData(diaries)
    requires 0 <= j < |MonthlyData(diaries)|
    ensures EntryOrder()(e, MonthlyData(diaries)[j])
  {
    var data := MonthlyData(diaries);
    MonthlyDataOrder(diaries);
    EntryOrderIsTotalPreorder();
    if j > 0 {
      assert EntryOrder()(e, data[0]) && EntryOrder()(data[0], data[j]);
    }
  }

  /** Entries whose months are shown at positions `i < j` fall in months in that order. */
  predicate ShownInCalendarOrder(diaries: seq<Diary>, data: seq<MonthCount>) {
    forall i, j, x, y ::
      0 <= i < j < |data| && x in diaries && y in diaries
      && MonthLabel(x.createdAt) == data[i].month && MonthLabel(y.createdAt) == data[j].month
      ==> MonthBefore(x.createdAt, y.createdAt)
  }

  /** An entry whose month is not shown is in an earlier month than any entry whose month is. */
  predicate OmittedAreEarlier(diaries: seq<Diary>, data: seq<MonthCount>) {
    forall x, y ::
      x in diaries && y in diaries
      && MonthLabel(x.createdAt) !in Months(data) && MonthLabel(y.createdAt) in Months(data)
      ==> MonthBefore(x.createdAt, y.createdAt)
  }

  /** For four-digit years the chart lists its months oldest first. */
  lemma ChartInCalendarOrder(diaries: seq<Diary>)
    requires forall x :: x in diaries ==> FourDigitYear(x.createdAt)
    ensures ShownInCalendarOrder(diaries, MonthlyData(diaries))
  {
    var data := MonthlyData(diaries);
    MonthlyDataContents(diaries);
    MonthlyDataOrder(diaries);
    EntryOrderIsTotalPreorder();
    forall i, j, x, y | 0 <= i < j < |data| && x in diaries && y in diaries
      && MonthLabel(x.createdAt) == data[i].month && MonthLabel(y.createdAt) == data[j].month
      ensures MonthBefore(x.createdAt, y.createdAt)
    {
      ShownInOrder(x.createdAt, y.createdAt, data[i], data[j]);
    }
  }

  /**
   * For four-digit years the chart shows the latest months that have entries:
   * a month left off is earlier than every month shown.
   */
  lemma ChartOmitsEarlierMonths(diaries: seq<Diary>)
    requires forall x :: x in diaries ==> FourDigitYear(x.createdAt)
    ensures OmittedAreEarlier(diaries, MonthlyData(diaries))
  {
    var data := MonthlyData(diaries);
    forall x, y | x in diaries && y in diaries
      && MonthLabel(x.createdAt) !in Months(data) && MonthLabel(y.createdAt) in Months(data)
      ensures MonthBefore(x.createdAt, y.createdAt)
    {
      var lx := MonthLabel(x.createdAt);
      var ex := MonthCount(lx, multiset(Labels(diaries))[lx]);
      EntryOfDiary(diaries, x);
      var j :| 0 <= j < |data| && data[j].month == MonthLabel(y.createdAt);
      OmittedSortsFirst(diaries, ex, j);
      ShownInOrder(x.createdAt, y.createdAt, ex, data[j]);
    }
  }

  /** Two chart entries of different four-digit months compare like their months. */
  lemma ShownInOrder(a: Stamp, b: Stamp, ea: MonthCount, eb: MonthCount)
    requires FourDigitYear(a) && FourDigitYear(b)
    requires ea.month == MonthLabel(a) && eb.month == MonthLabel(b) && ea.month != eb.month
    requires EntryOrder()(ea, eb)
    ensures MonthBefore(a, b)
  {
    LabelOrder(a, b);
    LabelOrder(b, a);
    assert EntryString(ea) == ea.month + ("," + NatString(ea.count));
    assert EntryString(eb) == eb.month + ("," + NatString(eb.count));
    StrLePrefixDecides(ea.month, eb.month, "," + NatString(ea.count), "," + NatString(eb.count));
  }

  /** The chart as the page computes it: count per month, then `MonthlyData`. */
  method GetMonthlyData(diaries: seq<Diary>) returns (data: seq<MonthCount>)
    ensures data == MonthlyData(diaries)
  {
    var counts, keys := CountByKey(diaries, EntryMonth);
    TallyCounts(Labels(diaries));
    var entries := seq(|keys|, i requires 0 <= i < |keys| => MonthCount(keys[i], counts[keys[i]]));
    assert entries == MonthEntries(diaries);
    EntryOrderIsTotalPreorder();
    data := TakeLast(SortBy(entries, EntryOrder()), 6);
  }

  // ---------------------------------------------------------------------------
  // The page state
  // ---------------------------------------------------------------------------

  /** The profile page's state: the loaded entries, the cards and the loading flag. */
  class ProfileView {
    var diaries: seq<Diary>
    var stats: Stats
    var isLoading: bool

    constructor ()
      ensures diaries == [] && stats == InitialStats && isLoading
    {
      diaries := [];
      stats := InitialStats;
      isLoading := true;
    }

    /**
     * Loads every entry newest first and recomputes the cards; a failed query
     * leaves the entries and the cards as they were. Either way loading ends.
     */
    method LoadDiaries(table: DiaryTable, today: CivilDate, fails: bool)
      modifies this
      ensures !isLoading
      ensures fails ==> diaries == old(diaries) && stats == old(stats)
      ensures !fails ==> diaries == SortByCreated(table.rows, false) && stats == ComputeStats(diaries, today)
    {
      if !fails {
        diaries := SortByCreated(table.rows, false);
        stats := ComputeStats(diaries, today);
      }
      isLoading := false;
    }
  }

  /** After a successful load the cards and the recent list describe the whole table. */
  lemma LoadedViewDescribesTable(rows: seq<Diary>, today: CivilDate)
    ensures ComputeStats(SortByCreated(rows, false), today).totalDiaries == |rows|
    ensures multiset(Recent(SortByCreated(rows, false))) <= multiset(rows)
    ensures forall i, j :: 0 <= i < |Recent(SortByCreated(rows, false))| <= j < |rows| ==>
      AtOrBefore(SortByCreated(rows, false)[j].createdAt, Recent(SortByCreated(rows, false))[i].createdAt)
  {
    var s := SortByCreated(rows, false);
    assert |s| == |rows| by {
      assert |multiset(s)| == |multiset(rows)|;
    }
    RecentAreNewest(s);
    assert s == Recent(s) + s[|Recent(s)|..];
  }
}
