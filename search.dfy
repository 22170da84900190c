/** Constituency search: the local substring match (at most eight results,
    in index order) and the keyboard cursor over the current results
    (moveActiveResult, getActiveResult). */
module Search {
  import opened JsValues

  /** MAX_SEARCH_RESULTS. */
  const MAX_SEARCH_RESULTS: nat := 8

  /** A search-index entry: the name, the code and the lower-cased
      "name code" text that queries are matched against. */
  datatype Entry = Entry(name: string, code: string, searchKey: string)

  /** `q` occurs in `s` starting at position `i`. */
  predicate OccursAt(s: string, q: string, i: int) {
    0 <= i <= |s| - |q| && s[i..i + |q|] == q
  }

  /** `s.includes(q)`. */
  predicate Includes(s: string, q: string) {
    exists i :: 0 <= i <= |s| - |q| && OccursAt(s, q, i)
  }

  /** The entries whose search key includes the query, in index order. */
  function FilterMatches(index: seq<Entry>, query: string): (r: seq<Entry>)
    ensures |r| <= |index|
    ensures forall k :: 0 <= k < |r| ==> Includes(r[k].searchKey, query) && r[k] in index
    ensures forall e :: e in index && Includes(e.searchKey, query) ==> e in r
  {
    if index == [] then []
    else
      var rest := FilterMatches(index[1..], query);
      assert forall e :: e in index ==> e == index[0] || e in index[1..];
      if Includes(index[0].searchKey, query) then [index[0]] + rest else rest
  }

  /** Filtering distributes over concatenation: results keep the order of
      the index. */
  lemma {:induction false} FilterAppend(a: seq<Entry>, b: seq<Entry>, query: string)
    ensures FilterMatches(a + b, query) == FilterMatches(a, query) + FilterMatches(b, query)
  {
    if a == [] {
      assert a + b == b;
    } else {
      assert (a + b)[0] == a[0];
      assert (a + b)[1..] == a[1..] + b;
      FilterAppend(a[1..], b, query);
    }
  }

  /** `index.filter(e => e.searchKey.includes(query)).slice(0, MAX_SEARCH_RESULTS)`. */
  function LocalMatches(index: seq<Entry>, query: string): (r: seq<Entry>)
    ensures |r| <= MAX_SEARCH_RESULTS
    ensures forall k :: 0 <= k < |r| ==> Includes(r[k].searchKey, query) && r[k] in index
    ensures |r| == if |FilterMatches(index, query)| <= MAX_SEARCH_RESULTS then |FilterMatches(index, query)| else MAX_SEARCH_RESULTS
    ensures r == FilterMatches(index, query)[..|r|]
    ensures |FilterMatches(index, query)| <= MAX_SEARCH_RESULTS ==>
      forall e :: e in index && Includes(e.searchKey, query) ==> e in r
  {
    var all := FilterMatches(index, query);
    if |all| <= MAX_SEARCH_RESULTS then all else all[..MAX_SEARCH_RESULTS]
  }

  /** Matching more of the index never loses earlier results: the results
      for a prefix of the index are a prefix of those for the whole index. */
  lemma LocalMatchesPrefix(a: seq<Entry>, b: seq<Entry>, query: string)
    ensures var small := LocalMatches(a, query);
      var large := LocalMatches(a + b, query);
      |small| <= |large| && large[..|small|] == small
  {
    FilterAppend(a, b, query);
  }

  /** The query a search term is matched with: trimmed and lower-cased. */
  function Query(term: string): string {
    ToLowerAscii(Trim(term))
  }

  /** The search results list and its keyboard cursor (currentSearchMatches
      and activeResultIndex). */
  class SearchCursor {
    var matches: seq<Entry>
    /** -1 when no result is highlighted. */
    var activeIndex: int

    ghost predicate Valid()
      reads this
    {
      -1 <= activeIndex < |matches|
    }

    constructor ()
      ensures Valid() && matches == [] && activeIndex == -1
    {
      matches := [];
      activeIndex := -1;
    }

    /** updateSearchResults for the constituency datasets: the cursor
        resets and the results become the local matches of the query, or
        nothing for a blank query. */
    method UpdateSearchResults(term: string, index: seq<Entry>)
      modifies this
      ensures Valid() && activeIndex == -1
      ensures matches == if Query(term) == [] then [] else LocalMatches(index, Query(term))
    {
      var query := Query(term);
      activeIndex := -1;
      if query == [] {
        matches := [];
        return;
      }
      matches := LocalMatches(index, query);
    }

    /** clearSearchResults: no results and no highlight. */
    method ClearSearchResults()
      modifies this
      ensures Valid() && matches == [] && activeIndex == -1
    {
      matches := [];
      activeIndex := -1;
    }

    /** moveActiveResult: nothing happens without results; from no highlight
        a step forward highlights the first result and a step back the last;
        otherwise the highlight moves cyclically. */
    method MoveActiveResult(delta: int)
      modifies this`activeIndex
      ensures activeIndex == NextIndex(old(activeIndex), delta, |matches|)
      ensures old(Valid()) && (delta == 1 || delta == -1) ==> Valid()
    {
      if |matches| == 0 {
        return;
      }
      if activeIndex == -1 {
        activeIndex := if delta > 0 then 0 else |matches| - 1;
      } else {
        activeIndex := JsRemainder(activeIndex + delta + |matches|, |matches|);
      }
    }

    /** getActiveResult: the highlighted result, else the first one, else
        nothing. */
    function ActiveResult(): (r: Option<Entry>)
      reads this
      ensures r.Some? <==> |matches| > 0
      ensures r.Some? ==> r.value in matches
      ensures 0 <= activeIndex < |matches| ==> r == Some(matches[activeIndex])
      ensures !(0 <= activeIndex < |matches|) && |matches| > 0 ==> r == Some(matches[0])
    {
      if 0 <= activeIndex < |matches| then Some(matches[activeIndex])
      else if |matches| > 0 then Some(matches[0])
      else None
    }
  }

  /** JavaScript's `%` for a positive divisor: the sign follows the dividend. */
  function JsRemainder(a: int, n: int): (r: int)
    requires n > 0
    ensures a >= 0 ==> 0 <= r < n
    ensures a < 0 ==> -n < r <= 0
    ensures (a - r) % n == 0
  {
    if a >= 0 then
      assert a - a % n == (a / n) * n;
      MultipleRemainder(a / n, n);
      a % n
    else
      assert a + (-a) % n == (-((-a) / n)) * n;
      MultipleRemainder(-((-a) / n), n);
      -((-a) % n)
  }

  /** A multiple of n leaves no remainder. */
  lemma MultipleRemainder(q: int, n: int)
    requires n > 0
    ensures (q * n) % n == 0
  {
    var x := q * n;
    var d := q - x / n;
    assert x == (x / n) * n + x % n;
    assert d * n == x % n;
  }

  /** The new cursor position after moveActiveResult(delta) over n results. */
  function NextIndex(i: int, delta: int, n: nat): int {
    if n == 0 then i
    else if i == -1 then (if delta > 0 then 0 else n - 1)
    else JsRemainder(i + delta + n, n)
  }

  /** Adding one or two multiples of n does not change a remainder below n. */
  lemma ModOfSmall(a: int, n: int)
    requires 0 <= a < n
    ensures a % n == a && (a + n) % n == a && (a + 2 * n) % n == a
  {
    assert a + n == 1 * n + a;
    assert a + 2 * n == 2 * n + a;
  }

  /** A step down moves to the next result, from the last back to the first. */
  lemma StepDown(i: int, n: nat)
    requires 0 <= i < n
    ensures NextIndex(i, 1, n) == if i + 1 < n then i + 1 else 0
  {
    if i + 1 < n {
      ModOfSmall(i + 1, n);
    } else {
      ModOfSmall(0, n);
    }
  }

  /** A step up moves to the previous result, from the first round to the last. */
  lemma StepUp(i: int, n: nat)
    requires 0 <= i < n
    ensures NextIndex(i, -1, n) == if i > 0 then i - 1 else n - 1
  {
    if i > 0 {
      ModOfSmall(i - 1, n);
    } else {
      ModOfSmall(n - 1, n);
    }
  }

  /** A step down then a step up returns to the highlighted result. */
  lemma DownThenUp(i: int, n: nat)
    requires 0 <= i < n
    ensures NextIndex(NextIndex(i, 1, n), -1, n) == i
  {
    StepDown(i, n);
    StepUp(NextIndex(i, 1, n), n);
  }

  /** A step up then a step down returns to the highlighted result. */
  lemma UpThenDown(i: int, n: nat)
    requires 0 <= i < n
    ensures NextIndex(NextIndex(i, -1, n), 1, n) == i
  {
    StepUp(i, n);
    StepDown(NextIndex(i, -1, n), n);
  }

  /** The cursor after k steps down from result i. */
  function StepsFrom(i: int, n: nat, k: nat): int {
    if k == 0 then i else NextIndex(StepsFrom(i, n, k - 1), 1, n)
  }

  /** Up to n steps down from result i land on result i + k, wrapping past
      the last result once. */
  lemma {:induction false} StepsDown(i: int, n: nat, k: nat)
    requires 0 <= i < n && k <= n
    ensures StepsFrom(i, n, k) == if i + k < n then i + k else i + k - n
  {
    if k > 0 {
      StepsDown(i, n, k - 1);
      StepDown(StepsFrom(i, n, k - 1), n);
    }
  }

  /** n steps down cycle back to the same result. */
  lemma FullCycle(i: int, n: nat)
    requires 0 <= i < n
    ensures StepsFrom(i, n, n) == i
  {
    StepsDown(i, n, n);
  }
}
