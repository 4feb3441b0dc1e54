/**
  One response page: `process_mse_response` and `has_more_pages`.

  The entries of `Locations.entries` are processed in array order; an
  element that is not an object is skipped. A later entry with the same key
  replaces an earlier one in the tree.
 */
module Locations {
  import opened Wrappers
  import opened Json
  import opened MacAddress
  import opened Classifier

  /** The `Locations.entries` array of a decoded body, or no entries when the
      root, `Locations` or `entries` is missing or `entries` is not an array. */
  function Entries(root: Option<Value>): seq<Value> {
    match Member(Member(root, "Locations"), "entries")
    case Some(Array(items)) => items
    case _ => []
  }

  /** One iteration of the `for` loop: only objects reach `process_mse_entry`. */
  function Step(g: Generation, item: Value): Generation {
    if item.Object? then ProcessEntry(g, item) else g
  }

  /** The `for` loop of `process_mse_response`, front to back. */
  function ProcessItems(g: Generation, items: seq<Value>): Generation
    decreases |items|
  {
    if |items| == 0 then g else ProcessItems(Step(g, items[0]), items[1..])
  }

  /** `process_mse_response` on an already-decoded body (`None` when the
      body could not be decoded). */
  function ProcessResponse(g: Generation, root: Option<Value>): (r: Generation)
    ensures root.None? ==> r == g
    ensures Localized(r.stats) == Localized(g.stats) + IndexedCount(Entries(root))
  {
    ProcessItemsCounts(g, Entries(root));
    ProcessItems(g, Entries(root))
  }

  /** `has_more_pages`: `Locations.nextResourceURI` is present. A body that
      could not be decoded has no more pages. */
  function HasMorePages(root: Option<Value>): (r: bool)
    ensures r ==> root.Some? && root.value.Object?
    ensures r <==> Member(Member(root, "Locations"), "nextResourceURI").Some?
  {
    match Member(root, "Locations")
    case None => false
    case Some(locations) => Member(Some(locations), "nextResourceURI").Some?
  }

  // ---------------------------------------------------------------------
  // Reference: what a run of entries leaves behind
  // ---------------------------------------------------------------------

  /** The classification of an item the loop would index, if it would. */
  function Indexed(item: Value): Option<Classified> {
    if item.Object? then Classify(item) else None
  }

  /** How many of `items` get indexed. */
  function IndexedCount(items: seq<Value>): (n: nat)
    ensures n <= |items|
  {
    if |items| == 0 then 0
    else IndexedCount(items[..|items| - 1]) + (if Indexed(items[|items| - 1]).Some? then 1 else 0)
  }

  /** The position of the last item in `items` indexed under key `k`. */
  function Latest(items: seq<Value>, k: Key): Option<Position> {
    if |items| == 0 then None
    else
      var c := Indexed(items[|items| - 1]);
      if c.Some? && c.value.key == k then Some(c.value.position) else Latest(items[..|items| - 1], k)
  }

  lemma {:induction false} ProcessItemsAppend(g: Generation, a: seq<Value>, b: seq<Value>)
    ensures ProcessItems(g, a + b) == ProcessItems(ProcessItems(g, a), b)
    decreases |a|
  {
    if |a| > 0 {
      assert (a + b)[0] == a[0] && (a + b)[1..] == a[1..] + b;
      ProcessItemsAppend(Step(g, a[0]), a[1..], b);
    } else {
      assert a + b == b;
    }
  }

  lemma ProcessItemsLast(g: Generation, items: seq<Value>)
    requires |items| > 0
    ensures ProcessItems(g, items) == Step(ProcessItems(g, items[..|items| - 1]), items[|items| - 1])
  {
    var init, last := items[..|items| - 1], items[|items| - 1];
    assert items == init + [last];
    ProcessItemsAppend(g, init, [last]);
  }

  /** After the loop, a key is in the tree exactly when some item was
      indexed under it or it was there before, and it maps to the last such
      item's position: later entries win. */
  lemma {:induction false} ProcessItemsIndex(g: Generation, items: seq<Value>, k: Key)
    ensures var r := ProcessItems(g, items);
      (k in r.index <==> Latest(items, k).Some? || k in g.index) &&
      (k in r.index ==> r.index[k] == if Latest(items, k).Some? then Latest(items, k).value else g.index[k])
  {
    if |items| > 0 {
      var init := items[..|items| - 1];
      ProcessItemsLast(g, items);
      ProcessItemsIndex(g, init, k);
    }
  }

  /** The localisation counters grow by the number of indexed items, and
      tracking counters never outgrow them. */
  lemma {:induction false} ProcessItemsCounts(g: Generation, items: seq<Value>)
    ensures Localized(ProcessItems(g, items).stats) == Localized(g.stats) + IndexedCount(items)
    ensures TrackedTotal(g.stats) <= Localized(g.stats) ==>
      TrackedTotal(ProcessItems(g, items).stats) <= Localized(ProcessItems(g, items).stats)
  {
    if |items| > 0 {
      var init := items[..|items| - 1];
      ProcessItemsLast(g, items);
      ProcessItemsCounts(g, init);
    }
  }

  /** In a concatenation, the later part's entry for a key wins. */
  lemma {:induction false} LatestAppend(a: seq<Value>, b: seq<Value>, k: Key)
    ensures Latest(a + b, k) == if Latest(b, k).Some? then Latest(b, k) else Latest(a, k)
  {
    if |b| > 0 {
      assert (a + b)[..|a + b| - 1] == a + b[..|b| - 1];
      assert (a + b)[|a + b| - 1] == b[|b| - 1];
      LatestAppend(a, b[..|b| - 1], k);
    } else {
      assert a + b == a;
    }
  }

  lemma {:induction false} IndexedCountAppend(a: seq<Value>, b: seq<Value>)
    ensures IndexedCount(a + b) == IndexedCount(a) + IndexedCount(b)
  {
    if |b| > 0 {
      assert (a + b)[..|a + b| - 1] == a + b[..|b| - 1];
      assert (a + b)[|a + b| - 1] == b[|b| - 1];
      IndexedCountAppend(a, b[..|b| - 1]);
    } else {
      assert a + b == a;
    }
  }

  // ---------------------------------------------------------------------
  // Several pages into the same tree
  // ---------------------------------------------------------------------

  /** Every entry of the given bodies, page by page. */
  function AllEntries(roots: seq<Option<Value>>): seq<Value>
  {
    if |roots| == 0 then [] else AllEntries(roots[..|roots| - 1]) + Entries(roots[|roots| - 1])
  }

  /** Processing the given bodies one after the other. */
  function ProcessResponses(g: Generation, roots: seq<Option<Value>>): Generation
  {
    if |roots| == 0 then g else ProcessResponse(ProcessResponses(g, roots[..|roots| - 1]), roots[|roots| - 1])
  }

  /** Processing pages one by one is processing all their entries in page order. */
  lemma {:induction false} ProcessResponsesFlatten(g: Generation, roots: seq<Option<Value>>)
    ensures ProcessResponses(g, roots) == ProcessItems(g, AllEntries(roots))
  {
    if |roots| > 0 {
      var init := roots[..|roots| - 1];
      ProcessResponsesFlatten(g, init);
      ProcessItemsAppend(g, AllEntries(init), Entries(roots[|roots| - 1]));
    }
  }
}
