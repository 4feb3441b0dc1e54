/**
  The handle and its refresh cycle: `rb_mse_update_macs_pos`,
  `rb_mse_set_stats_cb`, `rb_mse_get_stats`, `rb_mse_isempty` and
  `rb_mse_req_for_mac` / `rb_mse_req_for_mac_i`.

  A refresh cycle is one state transition. It builds a new tree from zeroed
  counters with the untracked pass and then the tracked pass, on one shared
  oracle of transfers, and publishes tree and counters together, calling the
  stats callback with the published counters when one is set. The lock, the
  update thread and the arenas are not modelled; a published tree is one
  whose arena (`memctx`) is non-`NULL`.
 */
module MseApi {
  import opened Wrappers
  import opened Json
  import opened MacAddress
  import opened Classifier
  import opened Locations
  import opened Pagination
  import opened RequestUrl

  /** A `stats_cb_fn` pointer, by identity. */
  type CallbackId = nat

  /** The `void *` the callback is handed back, by identity. */
  type Opaque = nat

  /** `struct rb_mse_api`, without the transfer machinery: the stored
      service address, the published tree (`None` until the first publish),
      the published counters, and the callback with its opaque pointer. */
  datatype Api = Api(
    mseUrl: Option<string>,
    index: Option<map<Key, Position>>,
    stats: Stats,
    statsCb: Option<CallbackId>,
    statsOpaque: Opaque)

  /** `rb_mse_api_new` once `curl_easy_init` succeeded: the handle is
      zero-filled, and the address is stored when `strdup` succeeds
      (`copied`). */
  function NewApi(addr: string, copied: bool): Api {
    Api(if copied then Some(addr) else None, None, ZeroStats, None, 0)
  }

  /** `rb_mse_set_stats_cb`: both fields are replaced, nothing else. */
  function SetStatsCb(api: Api, cb: Option<CallbackId>, userData: Opaque): (r: Api)
    ensures r.statsCb == cb && r.statsOpaque == userData
    ensures r.mseUrl == api.mseUrl && r.index == api.index && r.stats == api.stats
  {
    api.(statsCb := cb, statsOpaque := userData)
  }

  // ---------------------------------------------------------------------
  // Publish and the refresh cycle
  // ---------------------------------------------------------------------

  /** One call of the stats callback: which callback, the counters it is
      shown, and its opaque pointer. */
  datatype Notice = Notice(cb: CallbackId, stats: Stats, userData: Opaque)

  /** The state after a publish, and the callback call it made, if any. */
  datatype Published = Published(api: Api, notice: Option<Notice>)

  /** The critical section of `rb_mse_update_macs_pos`: tree and counters
      are replaced together, and the callback, when set, is shown exactly
      the counters just published. */
  function Publish(api: Api, gen: Generation): (r: Published)
    ensures r.api.index == Some(gen.index) && r.api.stats == gen.stats
    ensures r.api.mseUrl == api.mseUrl && r.api.statsCb == api.statsCb && r.api.statsOpaque == api.statsOpaque
    ensures r.notice.Some? <==> api.statsCb.Some?
    ensures r.notice.Some? ==> r.notice.value == Notice(api.statsCb.value, r.api.stats, api.statsOpaque)
  {
    var next := api.(index := Some(gen.index), stats := gen.stats);
    match api.statsCb
    case None => Published(next, None)
    case Some(cb) => Published(next, Some(Notice(cb, next.stats, api.statsOpaque)))
  }

  /** The transfers the tracked pass sees: those the untracked pass left. */
  function TrackedFetches(fetches: seq<Fetch>): seq<Fetch> {
    fetches[PassLength(fetches)..]
  }

  /** A refresh cycle over the oracle `fetches`, declaratively: the
      untracked pass from an empty tree and zeroed counters, then the
      tracked pass into the same tree on the remaining transfers, then the
      publish. When the oracle runs out before both passes reached their
      last page, the C loop would still be running, and nothing is
      published. So a cycle publishes exactly when an address is stored
      and the oracle holds two terminal transfers: the untracked
      partition's last page and then the tracked one's. Without an
      address every transfer fails and no cycle ever publishes. */
  function RefreshCycle(api: Api, fetches: seq<Fetch>): (r: Option<Published>)
    ensures r.Some? <==>
      api.mseUrl.Some? && exists i, j :: 0 <= i < j < |fetches| && Terminal(fetches[i]) && Terminal(fetches[j])
    ensures r.Some? ==> r.value.api.mseUrl == api.mseUrl && r.value.api.index.Some?
  {
    var performed := Performed(api.mseUrl, fetches);
    TwoTerminals(performed);
    var untracked := RunPass(EmptyGeneration, performed);
    if !untracked.finished then None
    else
      var tracked := RunPass(untracked.gen, TrackedFetches(performed));
      if !tracked.finished then None
      else Some(Publish(api, tracked.gen))
  }

  /** `rb_mse_update_macs_pos`: the two calls of
      `get_and_process_mse_response0`, sharing the oracle, and the publish.
      It also returns the URLs set before each transfer: the untracked
      partition's pages, then the tracked partition's. */
  method UpdateMacsPos(api: Api, fetches: seq<Fetch>)
      returns (r: Option<Published>, requests: seq<Result<string, CurlCode>>)
    ensures r == RefreshCycle(api, fetches)
    ensures var performed := Performed(api.mseUrl, fetches);
      var untracked := RunPass(EmptyGeneration, performed);
      requests == Requests(api.mseUrl, false, untracked.pages) +
        (if untracked.finished then Requests(api.mseUrl, true, RunPass(untracked.gen, TrackedFetches(performed)).pages) else [])
  {
    var untracked, first, used := GetAndProcessPages(api.mseUrl, false, EmptyGeneration, fetches);
    requests := first;
    if !untracked.finished {
      r := None;
    } else {
      var tracked, second, _ := GetAndProcessPages(api.mseUrl, true, untracked.gen, fetches[used..]);
      requests := requests + second;
      if tracked.finished {
        r := Some(Publish(api, tracked.gen));
      } else {
        r := None;
      }
    }
  }

  // ---------------------------------------------------------------------
  // Query side
  // ---------------------------------------------------------------------

  /** `rb_mse_get_stats`: the counters last published (zero before any). */
  function CurrentStats(api: Api): Stats {
    api.stats
  }

  /** `rb_mse_isempty`: true while no tree was published (`memctx` is
      `NULL`); afterwards true exactly when the arena has no outstanding
      allocation. The arena's allocation count is not modelled and is
      passed in as `outstanding`. */
  function IsEmpty(api: Api, outstanding: nat): (r: bool)
    ensures api.index.None? ==> r
    ensures api.index.Some? ==> (r <==> outstanding == 0)
  {
    if api.index.Some? then outstanding == 0 else true
  }

  /** `rb_mse_req_for_mac_i`: the position stored under `mac` in the
      published tree, or `NULL` when no tree was published or the key is
      not in it. The tree's search succeeds at a node whose key compares
      equal to `mac`, and returns that node's position. */
  function ReqForMacI(api: Api, mac: Key): (r: Option<Position>)
    ensures r.Some? <==> api.index.Some? && exists k :: k in api.index.value && Compare(k, mac) == 0
    ensures r.Some? ==> exists k :: k in api.index.value && Compare(k, mac) == 0 && r.value == api.index.value[k]
  {
    match api.index
    case None => None
    case Some(idx) => if mac in idx then Some(idx[mac]) else None
  }

  /** `rb_mse_req_for_mac`: the lookup by the text of the address. */
  function ReqForMac(api: Api, mac: string): Option<Position> {
    ReqForMacI(api, MacFromStr(mac))
  }

  // ---------------------------------------------------------------------
  // Properties of the cycle
  // ---------------------------------------------------------------------

  /** Every entry a pass processes, page by page. */
  function PassEntries(fetches: seq<Fetch>): seq<Value> {
    AllEntries(Roots(fetches[..PassLength(fetches)]))
  }

  /** A pass leaves the tree and counters that processing its entries one
      after the other would. */
  lemma RunPassItems(g: Generation, fetches: seq<Fetch>)
    ensures RunPass(g, fetches).gen == ProcessItems(g, PassEntries(fetches))
  {
    ProcessResponsesFlatten(g, Roots(fetches[..PassLength(fetches)]));
  }

  /** The tree and counters a published cycle leaves: those of processing
      the untracked entries and then the tracked ones, from nothing. The
      previous tree and counters play no part. */
  lemma CycleGeneration(api: Api, fetches: seq<Fetch>)
    ensures RefreshCycle(api, fetches).Some? ==>
      var u, t := PassEntries(fetches), PassEntries(TrackedFetches(fetches));
      var g := ProcessItems(EmptyGeneration, u + t);
      RefreshCycle(api, fetches).value.api.index == Some(g.index) &&
      RefreshCycle(api, fetches).value.api.stats == g.stats
  {
    if RefreshCycle(api, fetches).Some? {
      var u, t := PassEntries(fetches), PassEntries(TrackedFetches(fetches));
      var untracked := RunPass(EmptyGeneration, fetches);
      RunPassItems(EmptyGeneration, fetches);
      RunPassItems(untracked.gen, TrackedFetches(fetches));
      ProcessItemsAppend(EmptyGeneration, u, t);
    }
  }

  /** After a cycle, looking a key up finds the last tracked entry with that
      key when there is one, and otherwise the last untracked one: the
      tracked pass, which runs second, wins. A key neither pass indexed is
      not found, whatever was published before. */
  lemma TrackedWins(api: Api, fetches: seq<Fetch>, k: Key)
    ensures RefreshCycle(api, fetches).Some? ==>
      var u, t := PassEntries(fetches), PassEntries(TrackedFetches(fetches));
      ReqForMacI(RefreshCycle(api, fetches).value.api, k) ==
        if Latest(t, k).Some? then Latest(t, k) else Latest(u, k)
  {
    if RefreshCycle(api, fetches).Some? {
      var u, t := PassEntries(fetches), PassEntries(TrackedFetches(fetches));
      CycleGeneration(api, fetches);
      ProcessItemsIndex(EmptyGeneration, u + t, k);
      LatestAppend(u, t, k);
    }
  }

  /** After a cycle, the four localisation counters add up to the number of
      entries indexed by both passes together, and the two tracking
      counters never add up to more. */
  lemma CycleCounts(api: Api, fetches: seq<Fetch>)
    ensures RefreshCycle(api, fetches).Some? ==>
      var u, t := PassEntries(fetches), PassEntries(TrackedFetches(fetches));
      var s := CurrentStats(RefreshCycle(api, fetches).value.api);
      Localized(s) == IndexedCount(u) + IndexedCount(t) && TrackedTotal(s) <= Localized(s)
  {
    if RefreshCycle(api, fetches).Some? {
      var u, t := PassEntries(fetches), PassEntries(TrackedFetches(fetches));
      CycleGeneration(api, fetches);
      ProcessItemsCounts(EmptyGeneration, u + t);
      IndexedCountAppend(u, t);
    }
  }

  /** The callback registered last is called by the next published cycle,
      with its own opaque pointer and the counters that cycle published. */
  lemma CallbackSeesPublishedStats(api: Api, cb: CallbackId, userData: Opaque, fetches: seq<Fetch>)
    ensures var c := RefreshCycle(SetStatsCb(api, Some(cb), userData), fetches);
      c.Some? ==> c.value.notice == Some(Notice(cb, CurrentStats(c.value.api), userData))
  {
  }

  /** A new handle has published nothing: it is empty whatever the arena
      holds, every lookup fails, and its counters are zero. */
  lemma NewApiIsEmpty(addr: string, copied: bool, outstanding: nat, k: Key)
    ensures IsEmpty(NewApi(addr, copied), outstanding)
    ensures ReqForMacI(NewApi(addr, copied), k).None?
    ensures CurrentStats(NewApi(addr, copied)) == ZeroStats
  {
  }

  /** Looking up the canonical text of a key finds what looking up the key
      finds. */
  lemma ReqForMacFormatted(api: Api, k: Key)
    requires k < MacSpan
    ensures ReqForMac(api, FormatMac(k)) == ReqForMacI(api, k)
  {
    FormatMacRoundTrip(k);
  }
}
