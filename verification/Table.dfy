/**
 * The market-assets table: a search over the ticker symbols, a sort by symbol
 * in either direction, and pages of ten rows, driven by three pieces of UI
 * state (search term, current page, sort direction).
 *
 * The derived list is a pipeline of pure functions (filter, then sort, then
 * slice); the UI state is the class `TableView`, whose methods are the event
 * handlers of the component.
 */
module Table {

  import opened Text

  /** One row of the 24-hour ticker snapshot; decimal values travel as strings. */
  datatype Ticker = Ticker(
    symbol: string,
    lastPrice: string,
    openPrice: string,
    highPrice: string,
    lowPrice: string,
    priceChangePercent: string,
    quoteVolume: string,
    count: int)

  datatype SortDirection = Asc | Desc

  function Flip(d: SortDirection): SortDirection
  {
    if d == Asc then Desc else Asc
  }

  const ItemsPerPage: nat := 10

  function Min(a: int, b: int): int { if a <= b then a else b }
  function Max(a: int, b: int): int { if a >= b then a else b }

  // ===========================================================================
  // Filtering: case-insensitive substring search over the symbol

  predicate Matches(item: Ticker, term: string)
  {
    Includes(Lower(item.symbol), Lower(term))
  }

  /** `data.filter(...)`: the matching items, in their original order. */
  function Filter(data: seq<Ticker>, term: string): (r: seq<Ticker>)
    ensures |r| <= |data|
    ensures forall i :: 0 <= i < |r| ==> Matches(r[i], term)
  {
    if data == [] then []
    else (if Matches(data[0], term) then [data[0]] else []) + Filter(data[1..], term)
  }

  /**
   * The filter keeps exactly the matching items: each matching item as often
   * as it occurs in the input, every other item never.
   */
  lemma {:induction false} FilterCount(data: seq<Ticker>, term: string, x: Ticker)
    ensures multiset(Filter(data, term))[x] == if Matches(x, term) then multiset(data)[x] else 0
  {
    if data != [] {
      FilterCount(data[1..], term, x);
      assert data == [data[0]] + data[1..];
    }
  }

  /** An item is in the filtered list exactly when it is in the input and matches. */
  lemma FilterMembership(data: seq<Ticker>, term: string, x: Ticker)
    ensures x in Filter(data, term) <==> x in data && Matches(x, term)
  {
    FilterCount(data, term, x);
    assert x in Filter(data, term) <==> x in multiset(Filter(data, term));
    assert x in data <==> x in multiset(data);
  }

  /** A list whose items all match passes through the filter unchanged. */
  lemma {:induction false} FilterKeepsAllMatching(data: seq<Ticker>, term: string)
    requires forall i :: 0 <= i < |data| ==> Matches(data[i], term)
    ensures Filter(data, term) == data
  {
    if data != [] {
      FilterKeepsAllMatching(data[1..], term);
      assert data == [data[0]] + data[1..];
    }
  }

  /** Filtering twice with the same term is filtering once. */
  lemma FilterIdempotent(data: seq<Ticker>, term: string)
    ensures Filter(Filter(data, term), term) == Filter(data, term)
  {
    var f := Filter(data, term);
    forall i | 0 <= i < |f| ensures Matches(f[i], term) {
      FilterMembership(data, term, f[i]);
    }
    FilterKeepsAllMatching(f, term);
  }

  /** The empty search term keeps every item, in order. */
  lemma FilterEmptyTerm(data: seq<Ticker>)
    ensures Filter(data, "") == data
  {
    forall i | 0 <= i < |data| ensures Matches(data[i], "") {
      IncludesEmpty(Lower(data[i].symbol));
    }
    FilterKeepsAllMatching(data, "");
  }

  /** The search is case-insensitive in the term: "btc" and "BTC" select the same items. */
  lemma MatchesIgnoresTermCase(item: Ticker, term: string)
    ensures Matches(item, Lower(term)) == Matches(item, term)
  {
    LowerIdempotent(term);
  }

  // ===========================================================================
  // Sorting by symbol

  /**
   * The comparator handed to `sort`: `a.symbol.localeCompare(b.symbol)` when
   * ascending, the arguments swapped when descending.
   */
  function Cmp(dir: SortDirection, a: Ticker, b: Ticker): (r: int)
    ensures -1 <= r <= 1
    ensures r == 0 <==> a.symbol == b.symbol
  {
    match dir
    case Asc => Compare(a.symbol, b.symbol)
    case Desc => Compare(b.symbol, a.symbol)
  }

  lemma CmpAntisymmetric(dir: SortDirection, a: Ticker, b: Ticker)
    ensures Cmp(dir, a, b) == -Cmp(dir, b, a)
  {
    CompareAntisymmetric(a.symbol, b.symbol);
  }

  lemma CmpTransitive(dir: SortDirection, a: Ticker, b: Ticker, c: Ticker)
    requires Cmp(dir, a, b) <= 0 && Cmp(dir, b, c) <= 0
    ensures Cmp(dir, a, c) <= 0
  {
    match dir
    case Asc => CompareTransitive(a.symbol, b.symbol, c.symbol);
    case Desc => CompareTransitive(c.symbol, b.symbol, a.symbol);
  }

  /** Every earlier item compares no greater than every later one. */
  ghost predicate Sorted(s: seq<Ticker>, dir: SortDirection)
  {
    forall i, j :: 0 <= i < j < |s| ==> Cmp(dir, s[i], s[j]) <= 0
  }

  /** Places `x` before the first item it does not sort after (so before equal items). */
  function Insert(x: Ticker, s: seq<Ticker>, dir: SortDirection): (r: seq<Ticker>)
    ensures |r| == |s| + 1
  {
    if s == [] || Cmp(dir, x, s[0]) <= 0 then [x] + s
    else [s[0]] + Insert(x, s[1..], dir)
  }

  /**
   * `Array.prototype.sort` with the comparator `Cmp(dir, _, _)`: a stable sort,
   * here an insertion sort in which an item goes before the equal items that
   * followed it in the input.
   */
  function SortBy(s: seq<Ticker>, dir: SortDirection): (r: seq<Ticker>)
    ensures |r| == |s|
  {
    if s == [] then [] else Insert(s[0], SortBy(s[1..], dir), dir)
  }

  lemma {:induction false} InsertPermutation(x: Ticker, s: seq<Ticker>, dir: SortDirection)
    ensures multiset(Insert(x, s, dir)) == multiset(s) + multiset{x}
  {
    if s != [] && Cmp(dir, x, s[0]) > 0 {
      InsertPermutation(x, s[1..], dir);
      assert s == [s[0]] + s[1..];
    }
  }

  /** Putting an item that sorts no later than every item in front of a sorted list keeps it sorted. */
  lemma ConsSorted(y: Ticker, r: seq<Ticker>, dir: SortDirection)
    requires Sorted(r, dir)
    requires forall k :: 0 <= k < |r| ==> Cmp(dir, y, r[k]) <= 0
    ensures Sorted([y] + r, dir)
  {
    var c := [y] + r;
    forall i, j | 0 <= i < j < |c| ensures Cmp(dir, c[i], c[j]) <= 0 {
      if i > 0 { assert c[i] == r[i - 1] && c[j] == r[j - 1]; }
      else { assert c[j] == r[j - 1]; }
    }
  }

  /** When `x` goes past the head of a sorted list, the head sorts no later than anything after it. */
  lemma HeadBoundsInsert(x: Ticker, s: seq<Ticker>, dir: SortDirection)
    requires Sorted(s, dir) && s != [] && Cmp(dir, x, s[0]) > 0
    ensures forall k :: 0 <= k < |Insert(x, s[1..], dir)| ==> Cmp(dir, s[0], Insert(x, s[1..], dir)[k]) <= 0
  {
    var rest := Insert(x, s[1..], dir);
    InsertPermutation(x, s[1..], dir);
    forall k | 0 <= k < |rest| ensures Cmp(dir, s[0], rest[k]) <= 0 {
      assert rest[k] in multiset(rest);
      if rest[k] == x {
        CmpAntisymmetric(dir, x, s[0]);
      } else {
        assert rest[k] in multiset(s[1..]);
        var m :| 0 <= m < |s[1..]| && s[1..][m] == rest[k];
        assert s[m + 1] == rest[k];
      }
    }
  }

  lemma {:induction false} InsertSorted(x: Ticker, s: seq<Ticker>, dir: SortDirection)
    requires Sorted(s, dir)
    ensures Sorted(Insert(x, s, dir), dir)
  {
    if s == [] {
    } else if Cmp(dir, x, s[0]) <= 0 {
      forall j | 0 <= j < |s| ensures Cmp(dir, x, s[j]) <= 0 {
        if j > 0 { CmpTransitive(dir, x, s[0], s[j]); }
      }
      ConsSorted(x, s, dir);
    } else {
      InsertSorted(x, s[1..], dir);
      HeadBoundsInsert(x, s, dir);
      ConsSorted(s[0], Insert(x, s[1..], dir), dir);
    }
  }

  /** The items whose symbol is `k`, in their order in `s`. */
  function KeepSymbol(s: seq<Ticker>, k: string): seq<Ticker>
  {
    if s == [] then []
    else (if s[0].symbol == k then [s[0]] else []) + KeepSymbol(s[1..], k)
  }

  /**
   * `Insert` only moves `x` past items with another symbol, so among the
   * items of one symbol it puts `x` first.
   */
  lemma {:induction false} InsertKeepsSymbolOrder(x: Ticker, s: seq<Ticker>, dir: SortDirection, k: string)
    ensures KeepSymbol(Insert(x, s, dir), k) ==
              (if x.symbol == k then [x] else []) + KeepSymbol(s, k)
  {
    if s == [] || Cmp(dir, x, s[0]) <= 0 {
      KeepSymbolCons(x, s, k);
    } else {
      var rest := Insert(x, s[1..], dir);
      InsertKeepsSymbolOrder(x, s[1..], dir, k);
      KeepSymbolCons(s[0], rest, k);
      KeepSymbolCons(s[0], s[1..], k);
      assert s == [s[0]] + s[1..];
      assert x.symbol != s[0].symbol;
    }
  }

  lemma KeepSymbolCons(y: Ticker, s: seq<Ticker>, k: string)
    ensures KeepSymbol([y] + s, k) == (if y.symbol == k then [y] else []) + KeepSymbol(s, k)
  {
    assert ([y] + s)[1..] == s;
  }

  /**
   * The sort is stable: items with the same symbol, which the comparator
   * ranks equal, keep the order they had in the input.
   */
  lemma {:induction false} SortStable(s: seq<Ticker>, dir: SortDirection, k: string)
    ensures KeepSymbol(SortBy(s, dir), k) == KeepSymbol(s, k)
  {
    if s != [] {
      SortStable(s[1..], dir, k);
      InsertKeepsSymbolOrder(s[0], SortBy(s[1..], dir), dir, k);
    }
  }

  /** The sorted list is a permutation of its input. */
  lemma {:induction false} SortPermutation(s: seq<Ticker>, dir: SortDirection)
    ensures multiset(SortBy(s, dir)) == multiset(s)
  {
    if s != [] {
      SortPermutation(s[1..], dir);
      InsertPermutation(s[0], SortBy(s[1..], dir), dir);
      assert s == [s[0]] + s[1..];
    }
  }

  /** The sorted list is ordered by the comparator. */
  lemma {:induction false} SortSorted(s: seq<Ticker>, dir: SortDirection)
    ensures Sorted(SortBy(s, dir), dir)
  {
    if s != [] {
      SortSorted(s[1..], dir);
      InsertSorted(s[0], SortBy(s[1..], dir), dir);
    }
  }

  /**
   * What `Sorted` means for the symbols: ascending never puts a symbol after
   * a lexicographically smaller one, descending never before one.
   */
  lemma SortedOrder(s: seq<Ticker>, dir: SortDirection, i: int, j: int)
    requires Sorted(s, dir) && 0 <= i < j < |s|
    ensures dir == Asc ==> !LexLess(s[j].symbol, s[i].symbol)
    ensures dir == Desc ==> !LexLess(s[i].symbol, s[j].symbol)
  {
    CompareIsLexicographic(s[j].symbol, s[i].symbol);
    CompareIsLexicographic(s[i].symbol, s[j].symbol);
    CompareAntisymmetric(s[i].symbol, s[j].symbol);
  }

  // ---------------------------------------------------------------------------
  // Tickers of one snapshot have distinct symbols; then the sorted order is unique

  ghost predicate DistinctSymbols(s: seq<Ticker>)
  {
    forall i, j :: 0 <= i < j < |s| ==> s[i].symbol != s[j].symbol
  }

  lemma TwoPositionsCount(s: seq<Ticker>, i: int, j: int)
    requires 0 <= i < j < |s| && s[i] == s[j]
    ensures multiset(s)[s[i]] >= 2
  {
    assert s == s[..j] + s[j..];
    assert s[i] in s[..j];
    assert s[j] in s[j..];
    assert multiset(s) == multiset(s[..j]) + multiset(s[j..]);
  }

  lemma SecondPosition(s: seq<Ticker>, p: int) returns (q: int)
    requires 0 <= p < |s| && multiset(s)[s[p]] >= 2
    ensures 0 <= q < |s| && q != p && s[q] == s[p]
  {
    var rest := s[..p] + s[p + 1..];
    assert s == s[..p] + [s[p]] + s[p + 1..];
    assert multiset(s) == multiset(rest) + multiset{s[p]};
    assert s[p] in multiset(rest);
    var k :| 0 <= k < |rest| && rest[k] == s[p];
    q := if k < p then k else k + 1;
  }

  /** Distinct symbols survive any permutation. */
  lemma DistinctSymbolsPermutation(a: seq<Ticker>, b: seq<Ticker>)
    requires DistinctSymbols(a) && multiset(a) == multiset(b)
    ensures DistinctSymbols(b)
  {
    forall i, j | 0 <= i < j < |b| ensures b[i].symbol != b[j].symbol {
      if b[i].symbol == b[j].symbol {
        assert b[i] in multiset(a) && b[j] in multiset(a);
        var p :| 0 <= p < |a| && a[p] == b[i];
        var q :| 0 <= q < |a| && a[q] == b[j];
        assert p == q;
        TwoPositionsCount(b, i, j);
        var p' := SecondPosition(a, p);
        assert false;
      }
    }
  }

  /** The filter keeps distinct symbols distinct. */
  lemma {:induction false} FilterDistinct(data: seq<Ticker>, term: string)
    requires DistinctSymbols(data)
    ensures DistinctSymbols(Filter(data, term))
  {
    if data != [] {
      FilterDistinct(data[1..], term);
      var rest := Filter(data[1..], term);
      forall k | 0 <= k < |rest| ensures rest[k].symbol != data[0].symbol {
        FilterMembership(data[1..], term, rest[k]);
        var m :| 0 <= m < |data[1..]| && data[1..][m] == rest[k];
        assert data[m + 1] == rest[k];
      }
    }
  }

  /** Two lists sorted the same way with the same items start with the same item. */
  lemma SortedHeadsAgree(a: seq<Ticker>, b: seq<Ticker>, dir: SortDirection)
    requires Sorted(a, dir) && Sorted(b, dir) && DistinctSymbols(a)
    requires multiset(a) == multiset(b) && a != []
    ensures b != [] && a[0] == b[0]
  {
    assert a[0] in multiset(b);
    assert b[0] in multiset(a);
    var k :| 0 <= k < |b| && b[k] == a[0];
    var m :| 0 <= m < |a| && a[m] == b[0];
    if m != 0 {
      var before := Cmp(dir, a[0], a[m]);
      assert before <= 0;
      if k != 0 { assert Cmp(dir, b[0], b[k]) <= 0; }
      CmpAntisymmetric(dir, a[0], a[m]);
      assert false;
    }
  }

  /**
   * When symbols are distinct, two lists that are sorted the same way and
   * hold the same items are equal: the result of the sort does not depend
   * on the algorithm the engine uses.
   */
  lemma {:induction false} SortedPermutationUnique(a: seq<Ticker>, b: seq<Ticker>, dir: SortDirection)
    requires Sorted(a, dir) && Sorted(b, dir) && DistinctSymbols(a)
    requires multiset(a) == multiset(b)
    ensures a == b
  {
    if a == [] {
      assert |b| == |multiset(b)| == 0;
    } else {
      SortedHeadsAgree(a, b, dir);
      TailFacts(a, dir);
      TailFacts(b, dir);
      SortedPermutationUnique(a[1..], b[1..], dir);
      assert a == [a[0]] + a[1..] && b == [b[0]] + b[1..];
    }
  }

  /** Dropping the head of a list keeps it sorted and its symbols distinct, and removes one copy of the head. */
  lemma TailFacts(s: seq<Ticker>, dir: SortDirection)
    requires s != []
    ensures Sorted(s, dir) ==> Sorted(s[1..], dir)
    ensures DistinctSymbols(s) ==> DistinctSymbols(s[1..])
    ensures multiset(s[1..]) == multiset(s) - multiset{s[0]}
  {
    assert s == [s[0]] + s[1..];
    if Sorted(s, dir) {
      forall i, j | 0 <= i < j < |s[1..]| ensures Cmp(dir, s[1..][i], s[1..][j]) <= 0 {
        assert s[1..][i] == s[i + 1] && s[1..][j] == s[j + 1];
      }
    }
    if DistinctSymbols(s) {
      forall i, j | 0 <= i < j < |s[1..]| ensures s[1..][i].symbol != s[1..][j].symbol {
        assert s[1..][i] == s[i + 1] && s[1..][j] == s[j + 1];
      }
    }
  }

  // ===========================================================================
  // The derived list: filter, then sort

  /** `filteredData` of the component. */
  function FilteredData(data: seq<Ticker>, term: string, dir: SortDirection): (r: seq<Ticker>)
    ensures |r| <= |data|
  {
    SortBy(Filter(data, term), dir)
  }

  /**
   * The derived list holds each matching item of `data` as often as `data`
   * does and nothing else, ordered by symbol in the chosen direction.
   */
  lemma FilteredDataCorrect(data: seq<Ticker>, term: string, dir: SortDirection, x: Ticker)
    ensures multiset(FilteredData(data, term, dir)) == multiset(Filter(data, term))
    ensures multiset(FilteredData(data, term, dir))[x] == if Matches(x, term) then multiset(data)[x] else 0
    ensures Sorted(FilteredData(data, term, dir), dir)
    ensures KeepSymbol(FilteredData(data, term, dir), x.symbol) == KeepSymbol(Filter(data, term), x.symbol)
  {
    SortPermutation(Filter(data, term), dir);
    SortSorted(Filter(data, term), dir);
    FilterCount(data, term, x);
    SortStable(Filter(data, term), dir, x.symbol);
  }

  function Reverse(s: seq<Ticker>): seq<Ticker>
  {
    if s == [] then [] else Reverse(s[1..]) + [s[0]]
  }

  lemma {:induction false} ReverseAt(s: seq<Ticker>)
    ensures |Reverse(s)| == |s|
    ensures forall k :: 0 <= k < |s| ==> Reverse(s)[k] == s[|s| - 1 - k]
    ensures multiset(Reverse(s)) == multiset(s)
  {
    if s != [] {
      ReverseAt(s[1..]);
      assert s == [s[0]] + s[1..];
    }
  }

  /**
   * With distinct symbols, the descending list is the ascending list read
   * backwards: toggling the sort reverses the table.
   */
  lemma ToggleReverses(data: seq<Ticker>, term: string)
    requires DistinctSymbols(data)
    ensures FilteredData(data, term, Desc) == Reverse(FilteredData(data, term, Asc))
  {
    var f := Filter(data, term);
    var up := FilteredData(data, term, Asc);
    var down := FilteredData(data, term, Desc);
    FilterDistinct(data, term);
    SortPermutation(f, Asc);
    SortPermutation(f, Desc);
    SortSorted(f, Asc);
    SortSorted(f, Desc);
    ReverseAt(up);
    var r := Reverse(up);
    forall i, j | 0 <= i < j < |r| ensures Cmp(Desc, r[i], r[j]) <= 0 {
      assert Cmp(Asc, up[|up| - 1 - j], up[|up| - 1 - i]) <= 0;
    }
    DistinctSymbolsPermutation(f, down);
    SortedPermutationUnique(down, r, Desc);
  }

  /** Searching "btc" in [BTCUSDT, ETHUSDT] leaves one row. */
  lemma SearchExample(btc: Ticker, eth: Ticker)
    requires btc.symbol == "BTCUSDT" && eth.symbol == "ETHUSDT"
    ensures FilteredData([btc, eth], "btc", Asc) == [btc]
  {
    BtcMatches(btc);
    EthDoesNotMatch(eth);
    assert [btc, eth][1..] == [eth] && [eth][1..] == [];
    assert Filter([eth], "btc") == [];
    assert Filter([btc, eth], "btc") == [btc];
    assert [btc][1..] == [];
    assert SortBy([btc], Asc) == Insert(btc, [], Asc) == [btc];
  }

  /** "btc" matches BTCUSDT: the lower-cased symbol starts with it. */
  lemma BtcMatches(btc: Ticker)
    requires btc.symbol == "BTCUSDT"
    ensures Matches(btc, "btc")
  {
    var b := Lower(btc.symbol);
    var t := Lower("btc");
    assert t == "btc";
    assert b[0] == 'b' && b[1] == 't' && b[2] == 'c';
    assert IsPrefix(t, b);
  }

  /** "btc" does not match ETHUSDT: its lower-cased symbol has no 'b'. */
  lemma EthDoesNotMatch(eth: Ticker)
    requires eth.symbol == "ETHUSDT"
    ensures !Matches(eth, "btc")
  {
    var e := Lower(eth.symbol);
    var t := Lower("btc");
    assert t[0] == 'b';
    assert forall i :: 0 <= i < |e| ==> e[i] != 'b';
    IncludesIff(e, t);
    if i :| OccursAt(e, t, i) {
      assert false;
    }
  }

  /** With no search term, flipping the sort turns [BTCUSDT, ETHUSDT] into [ETHUSDT, BTCUSDT]. */
  lemma ToggleExample(btc: Ticker, eth: Ticker)
    requires btc.symbol == "BTCUSDT" && eth.symbol == "ETHUSDT"
    ensures FilteredData([btc, eth], "", Asc) == [btc, eth]
    ensures FilteredData([btc, eth], "", Desc) == [eth, btc]
  {
    FilterEmptyTerm([btc, eth]);
    assert Compare(btc.symbol, eth.symbol) == -1;
    assert Compare(eth.symbol, btc.symbol) == 1;
    assert [btc, eth][1..] == [eth] && [eth][1..] == [];
    assert Insert(eth, [], Asc) == [eth] && Insert(eth, [], Desc) == [eth];
    assert SortBy([eth], Asc) == [eth];
    assert SortBy([eth], Desc) == Insert(eth, SortBy([], Desc), Desc) == [eth];
    assert Cmp(Desc, btc, eth) == 1;
    assert Insert(btc, [eth], Desc) == [eth] + Insert(btc, [eth][1..], Desc);
    assert Insert(btc, [], Desc) == [btc];
  }

  // ===========================================================================
  // Pagination

  /** `Math.ceil(n / itemsPerPage)`. */
  function TotalPages(n: nat): (pages: nat)
    ensures pages * ItemsPerPage >= n
    ensures pages == 0 || (pages - 1) * ItemsPerPage < n
  {
    (n + ItemsPerPage - 1) / ItemsPerPage
  }

  /** An index argument of `slice`: negative counts from the end, then clipped to `[0, len]`. */
  function SliceIndex(i: int, len: nat): (r: nat)
    ensures r <= len
  {
    if i < 0 then Max(len + i, 0) else Min(i, len)
  }

  /** `s.slice(start, end)`. */
  function Slice(s: seq<Ticker>, start: int, end: int): (r: seq<Ticker>)
    ensures |r| <= |s|
    ensures 0 <= start <= end <= |s| ==> r == s[start..end]
    ensures 0 <= end <= start ==> r == []
  {
    var a := SliceIndex(start, |s|);
    var b := SliceIndex(end, |s|);
    if a < b then s[a..b] else []
  }

  function StartIndex(page: int): int { (page - 1) * ItemsPerPage }
  function EndIndex(page: int): int { StartIndex(page) + ItemsPerPage }

  /** `currentData`: the rows of one page. */
  function Page(s: seq<Ticker>, page: int): (rows: seq<Ticker>)
    ensures |rows| <= ItemsPerPage
  {
    Slice(s, StartIndex(page), EndIndex(page))
  }

  /** A page from 1 on is the run of at most ten items starting at its start index. */
  lemma PageIsWindow(s: seq<Ticker>, page: int)
    requires page >= 1
    ensures Page(s, page) == s[Min(StartIndex(page), |s|)..Min(EndIndex(page), |s|)]
    ensures |Page(s, page)| <= ItemsPerPage
  {
  }

  /** Pages 1 to `TotalPages` are exactly the pages that have rows. */
  lemma PageNonEmptyIff(s: seq<Ticker>, page: int)
    requires page >= 1
    ensures |Page(s, page)| > 0 <==> page <= TotalPages(|s|)
  {
    PageIsWindow(s, page);
  }

  /** Pages 1 to `k`, one after the other. */
  function PagesUpTo(s: seq<Ticker>, k: nat): seq<Ticker>
  {
    if k == 0 then [] else PagesUpTo(s, k - 1) + Page(s, k)
  }

  lemma {:induction false} PagesUpToPrefix(s: seq<Ticker>, k: nat)
    ensures PagesUpTo(s, k) == s[..Min(k * ItemsPerPage, |s|)]
  {
    if k > 0 {
      PagesUpToPrefix(s, k - 1);
      PageIsWindow(s, k);
      var a := Min((k - 1) * ItemsPerPage, |s|);
      var b := Min(k * ItemsPerPage, |s|);
      assert s[..a] + s[a..b] == s[..b];
    }
  }

  /** Pages 1 to `TotalPages`, concatenated, give back the whole list: every item once, in order. */
  lemma PagesCoverList(s: seq<Ticker>)
    ensures PagesUpTo(s, TotalPages(|s|)) == s
  {
    PagesUpToPrefix(s, TotalPages(|s|));
  }

  /** The footer label "first-last of n assets". */
  function RangeLabel(page: int, n: nat): (bounds: (int, int))
    ensures bounds.1 <= n
    ensures bounds.1 - bounds.0 < ItemsPerPage
  {
    (StartIndex(page) + 1, Min(EndIndex(page), n))
  }

  /**
   * On a page that has rows, the label gives the 1-based positions of its
   * first and last row in the derived list.
   */
  lemma RangeLabelDescribesPage(s: seq<Ticker>, page: int)
    requires 1 <= page <= TotalPages(|s|)
    ensures 1 <= RangeLabel(page, |s|).0 <= RangeLabel(page, |s|).1 <= |s|
    ensures Page(s, page) == s[RangeLabel(page, |s|).0 - 1..RangeLabel(page, |s|).1]
  {
    PageIsWindow(s, page);
  }

  /** What the table body shows: the "No crypto found" row, or the current page. */
  datatype TableBody = NoResults | Rows(rows: seq<Ticker>)

  function Body(filtered: seq<Ticker>, page: int): (body: TableBody)
    ensures body.NoResults? <==> filtered == []
    ensures page >= 1 && body.Rows? ==> |body.rows| <= ItemsPerPage
    ensures 1 <= page <= TotalPages(|filtered|) ==> body.Rows? && body.rows != []
  {
    if |filtered| == 0 then NoResults
    else
      PageIsWindow(filtered, Max(page, 1));
      Rows(Page(filtered, page))
  }

  // ---------------------------------------------------------------------------
  // Page moves (the state updaters of the Previous and Next buttons)

  /** `prev => Math.max(1, prev - 1)`. */
  function PreviousPage(prev: int): (page: int)
    ensures 1 <= page
    ensures prev - 1 <= page
    ensures prev >= 1 ==> page <= prev
  {
    Max(1, prev - 1)
  }

  /** `prev => Math.min(totalPages, prev + 1)`. */
  function NextPage(prev: int, totalPages: nat): (page: int)
    ensures page <= totalPages && page <= prev + 1
    ensures prev < totalPages ==> page == prev + 1
  {
    Min(totalPages, prev + 1)
  }

  /**
   * From a page in range, Previous stays in range and steps back one unless
   * already at page 1; Next, when its button is enabled, steps forward one
   * and stays in range.
   */
  lemma PageMovesStayInRange(page: int, totalPages: nat)
    requires 1 <= page <= Max(1, totalPages)
    ensures 1 <= PreviousPage(page) <= Max(1, totalPages)
    ensures PreviousPage(page) == if page > 1 then page - 1 else 1
    ensures page != totalPages && totalPages > 0 ==>
              NextPage(page, totalPages) == page + 1 <= totalPages
  {
  }

  /** Without its `disabled` guard, Next on an empty list would move to page 0. */
  lemma UnguardedNextOnEmptyList()
    ensures NextPage(1, TotalPages(0)) == 0
  {
  }

  // ===========================================================================
  // The component's state

  class TableView {
    /** The ticker snapshot passed in; the component never changes it. */
    const data: seq<Ticker>
    var searchTerm: string
    var currentPage: int
    var sortDirection: SortDirection

    function Filtered(): seq<Ticker>
      reads this
    {
      FilteredData(data, searchTerm, sortDirection)
    }

    function Pages(): nat
      reads this
    {
      TotalPages(|Filtered()|)
    }

    function CurrentData(): seq<Ticker>
      reads this
    {
      Page(Filtered(), currentPage)
    }

    predicate PreviousDisabled()
      reads this
    {
      currentPage == 1 || |Filtered()| == 0
    }

    predicate NextDisabled()
      reads this
    {
      currentPage == Pages() || |Filtered()| == 0
    }

    /** The current page is a real page, or page 1 of an empty list. */
    ghost predicate Valid()
      reads this
    {
      1 <= currentPage <= Max(1, Pages())
    }

    constructor (data: seq<Ticker>)
      ensures this.data == data
      ensures searchTerm == "" && currentPage == 1 && sortDirection == Asc
      ensures Valid()
      ensures Filtered() == SortBy(data, Asc)
    {
      this.data := data;
      searchTerm := "";
      currentPage := 1;
      sortDirection := Asc;
      FilterEmptyTerm(data);
    }

    /** The sort button: flip the direction and go back to page 1. */
    method HandleSort()
      modifies this
      ensures sortDirection == Flip(old(sortDirection))
      ensures currentPage == 1 && searchTerm == old(searchTerm)
      ensures Valid()
    {
      sortDirection := Flip(sortDirection);
      currentPage := 1;
    }

    /** The search box's `onChange`: take the new term and go back to page 1. */
    method OnSearchChange(value: string)
      modifies this
      ensures searchTerm == value
      ensures currentPage == 1 && sortDirection == old(sortDirection)
      ensures Valid()
    {
      searchTerm := value;
      currentPage := 1;
    }

    /** The Previous button; a disabled button does not fire. */
    method ClickPrevious()
      requires Valid()
      modifies this
      ensures searchTerm == old(searchTerm) && sortDirection == old(sortDirection)
      ensures Filtered() == old(Filtered())
      ensures currentPage == if old(PreviousDisabled()) then old(currentPage) else PreviousPage(old(currentPage))
      ensures !old(PreviousDisabled()) ==> currentPage == old(currentPage) - 1
      ensures Valid()
    {
      if !PreviousDisabled() {
        currentPage := PreviousPage(currentPage);
      }
    }

    /** The Next button; a disabled button does not fire. */
    method ClickNext()
      requires Valid()
      modifies this
      ensures searchTerm == old(searchTerm) && sortDirection == old(sortDirection)
      ensures Filtered() == old(Filtered())
      ensures currentPage == if old(NextDisabled()) then old(currentPage) else NextPage(old(currentPage), old(Pages()))
      ensures !old(NextDisabled()) ==> currentPage == old(currentPage) + 1
      ensures Valid()
      ensures Filtered() != [] ==> CurrentData() != []
    {
      if !NextDisabled() {
        currentPage := NextPage(currentPage, Pages());
      }
      PageNonEmptyIff(Filtered(), currentPage);
    }
  }
}
