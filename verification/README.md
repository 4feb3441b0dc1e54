# rb_mse_api — a Dafny model of the location data path

`rb_mse_api` keeps a local, periodically refreshed copy of the client
locations a Cisco MSE (Mobility Services Engine) reports. Each refresh
cycle asks the service for the untracked clients and then the tracked
clients. Each partition arrives page by page as JSON. Every entry that
names a MAC address and carries a map or a geographic position goes into
a tree keyed by the 64-bit integer form of the MAC address. The cycle
also counts how each entry was localised. At the end it publishes the new
tree and counters together and calls a statistics callback. Readers look
positions up by MAC address, as text or as a key.

This project models that path in `rb_mse_api.c`, module by module:

- `wrappers.dfy` (`Wrappers`): `Option` and `Result`.
- `json.dfy` (`Json`): an already-decoded JSON document. A `json_t *`
  is an `Option<Value>`, with `None` for `NULL`. Member lookup is
  `json_object_get`.
- `mac_address.dfy` (`MacAddress`):
  - `mac_from_str` with glibc's `%lx` scanning and wrapping 64-bit shifts;
  - the comparator `mse_positions_cmp`;
  - a printer of keys as `aa:bb:cc:dd:ee:ff`, used to state the round trip.
- `hierarchy.dfy` (`Hierarchy`): `strtok_r` on `>` and the
  zone/build/floor split. A reference definition gives the non-empty
  `>`-separated fields.
- `request_url.dfy` (`RequestUrl`): the URL `rb_mse_set_curl_url` formats,
  with a parser that reads it back.
- `classifier.dfy` (`Classifier`):
  - `extract_mac_address`, `process_map_info`, `process_geo_coordinate`
    and `process_mse_entry`;
  - the four localisation buckets and two tracking counters.
- `locations.dfy` (`Locations`): `process_mse_response`, `has_more_pages`,
  and reference definitions of "last entry with this key wins" and "number
  of indexed entries".
- `pagination.dfy` (`Pagination`):
  - the page loop `get_and_process_mse_response0`, as a method with loop
    invariants;
  - its declarative counterpart `RunPass`.

  The transfers are an oracle: a finite sequence of outcomes of successive
  `curl_easy_perform` calls, each a transport error or a decoded body.
- `mse_api.dfy` (`MseApi`):
  - `rb_mse_update_macs_pos`, as one state transition;
  - `rb_mse_set_stats_cb`, `rb_mse_get_stats`, `rb_mse_isempty` and
    `rb_mse_req_for_mac` / `rb_mse_req_for_mac_i`.

Behaviours of the code worth knowing, all of which the model keeps:

- A transport error makes the loop ask for the same page again, with no
  limit (`rb_mse_api.c:480-483`). It does not end the partition. A pass
  that has not reached its last page when the oracle runs out is
  "unfinished", and such a cycle publishes nothing.
- A `macAddress` member that is not a string does not drop the entry. The
  return value of `extract_mac_address` is ignored, so the entry is indexed
  under key 0 (`rb_mse_api.c:330`).
- `currently_tracked` is a 0/1 field that starts at 0, not a tri-state. A
  missing or non-boolean `currentlyTracked` leaves it 0 and touches no
  counter (`rb_mse_api.c:326`, `rb_mse_api.c:347-362`).
- `rb_mse_isempty` does not count entries. It tests the arena's count of
  outstanding allocations (`rb_mse_api.c:652`).
- A body that cannot be decoded gives a `NULL` root. That root yields no
  entries and no next page, so the pass ends (`rb_mse_api.c:380-381`,
  `rb_mse_api.c:450-457`).
- When no service address is stored (its `strdup` failed),
  `rb_mse_set_curl_url` fails on every call and the loop ignores that
  (`rb_mse_api.c:467`). No URL is ever set, so every transfer fails with
  libcurl's "No URL set" error and the untracked pass never ends.

## Model

| member | source | states |
|---|---|---|
| MacAddress.MacFromStr | rb_mse_api.c:41-46 | definition of `mac_from_str` (scan six `%lx` fields, fold with wrapping `(acc << 8) + field`); its properties are the four rows below |
| MacAddress.UnconvertedFieldsStayZero | rb_mse_api.c:41-46 | every field from the first failed `%lx` conversion on keeps its initial 0 |
| MacAddress.MacFromStrOfOctets | rb_mse_api.c:41-46 | when the six scanned fields are octets, the key is `o0*2^40 + ... + o5` and is below 2^48 (no wrap-around) |
| MacAddress.MacFromStrIsOctetValue | rb_mse_api.c:41-46 | the wrapping shift-and-add fold of octet fields equals their big-endian value, below 2^48 |
| MacAddress.MacKeyInjective | rb_mse_api.c:41-46 | for well-formed addresses, equal keys exactly when the octet tuples are equal |
| MacAddress.FormatMacRoundTrip | rb_mse_api.c:41-46 | scanning the canonical text of any 48-bit key gives the key back |
| MacAddress.Compare | rb_mse_api.c:77-88 | the comparator answers 0 exactly on equal keys, 1 exactly when the second key is greater, -1 exactly when it is smaller |
| MacAddress.CompareIsTotalOrder | rb_mse_api.c:77-88 | the comparator only answers -1, 0 or 1, and is antisymmetric and transitive |
| MacAddress.CompareOrdersOctets | rb_mse_api.c:77-88 | on well-formed addresses the tree order is the lexicographic order of the octets, and "compares equal" means "same octets" |
| Hierarchy.StrTok | rb_mse_api.c:265-269 | a `strtok_r` token is never empty and holds no `>`; each call consumes input |
| Hierarchy.StrTokTokens | rb_mse_api.c:265-269 | `strtok_r` hands out the first non-empty `>`-separated field and leaves exactly the others |
| Hierarchy.SplitHierarchy | rb_mse_api.c:264-269 | build is set only when zone is, floor only when build is; each level is a non-empty token without `>` |
| Hierarchy.SplitHierarchyTokens | rb_mse_api.c:261-270 | zone, build and floor are the first, second and third non-empty fields; later fields are ignored, missing ones stay `NULL` |
| RequestUrl.RequestUrl | rb_mse_api.c:426-448 | the URL is built exactly when an address is stored; otherwise the error is `CURLE_BAD_FUNCTION_ARGUMENT` |
| RequestUrl.DecimalRoundTrip | rb_mse_api.c:431-432 | the `%d` digits of a page number read back as that number |
| RequestUrl.RequestUrlRoundTrip | rb_mse_api.c:431-432 | the URL of a page parses back to its partition flag and page number |
| RequestUrl.RequestUrlInjective | rb_mse_api.c:431-432 | two requests share a URL only when they ask for the same partition and page |
| Classifier.BucketOf | rb_mse_api.c:338-345 | the bucket has a map exactly when the map lookup succeeded and a position exactly when the geo lookup did, so the four buckets are exclusive and cover all cases |
| Classifier.ProcessMapInfo | rb_mse_api.c:252-289 | success exactly when MapInfo is an object with a string `mapHierarchyString`, even if the copy fails; the levels are the first three tokens when copied, all `NULL` otherwise |
| Classifier.ProcessGeoCoordinate | rb_mse_api.c:291-312 | valid exactly when the member is present, of any type; the unit is kept exactly when it is a string member of an object |
| Classifier.KeyOf | rb_mse_api.c:235-249 | definition of the key `extract_mac_address` leaves in the zero-filled node: `mac_from_str` of a string, 0 otherwise; stated by the `Classify` row |
| Classifier.Classify | rb_mse_api.c:314-373 | skipped exactly when `macAddress` is missing or both MapInfo and GeoCoordinate are; key, bucket and tracking flag follow the members; the stored zone/build/floor and geo unit are those `process_map_info` and `process_geo_coordinate` compute |
| Classifier.Tally | rb_mse_api.c:336-362 | one more in the entry's bucket and in no other; a boolean `currentlyTracked` bumps its own counter, anything else neither |
| Classifier.ProcessEntry | rb_mse_api.c:314-373 | a skipped entry changes nothing; otherwise the key maps to the new position, one bucket grows by one, and tracked counts never exceed localised counts |
| Locations.Entries | rb_mse_api.c:383-389 | definition: the `Locations.entries` array, or nothing when the root, `Locations` or `entries` is missing or `entries` is not an array |
| Locations.ProcessItems | rb_mse_api.c:391-403 | definition of the `for` loop over the entries, non-objects skipped; stated by the `ProcessItemsIndex` and `ProcessItemsCounts` rows |
| Locations.ProcessResponse | rb_mse_api.c:375-424 | an undecodable body changes nothing; the localisation counters grow by the number of the body's entries that get indexed |
| Locations.HasMorePages | rb_mse_api.c:450-458 | there are more pages exactly when `Locations.nextResourceURI` is present; an undecodable body has none |
| Locations.ProcessItemsIndex | rb_mse_api.c:391-398 | after the entries loop a key is in the tree exactly when some entry was indexed under it (or it was there before), with the last such entry's position |
| Locations.ProcessItemsCounts | rb_mse_api.c:391-398 | the localisation counters grow by the number of indexed entries, and the tracked total never overtakes them |
| Locations.ProcessResponsesFlatten | rb_mse_api.c:465-478 | processing pages one by one into one tree is processing all their entries in page order |
| Pagination.RunPass | rb_mse_api.c:460-485 | a finished pass ended at a successful transfer whose body has no next page (or could not be decoded), and every earlier successful body had one; an unfinished pass met no such transfer |
| Pagination.Performed | rb_mse_api.c:467-468 | definition of the outcomes the transfers have: the oracle's, or libcurl's `CURLE_URL_MALFORMAT` for every transfer when no URL was ever set (assumed); its consequence that no transfer then ends the pass is stated here and used by the `GetAndProcessPages` and `RefreshCycle` rows |
| Pagination.GetAndProcessPages | rb_mse_api.c:460-485 | the `while (more_pages)` loop computes the declarative pass: same tree, counters and pages, and the URLs set are those of the pages asked for; without an address every transfer fails and the pass never finishes |
| Pagination.TwoTerminals | rb_mse_api.c:465-485 | a pass and a second pass on the transfers it left both finish exactly when the transfers hold two terminal ones |
| Pagination.PagesInOrder | rb_mse_api.c:462-483 | the first transfer asks for page 0; the page advances by one after a successful transfer and not after a transport error |
| Pagination.UndecodableBodyEndsPass | rb_mse_api.c:375-381 | a body that cannot be decoded ends the pass right there and leaves the tree and counters as the earlier pages left them |
| MseApi.NewApi | rb_mse_api.c:605-643 | definition of a new handle: address stored when its copy succeeds, no tree, zero counters, no callback; stated by the `NewApiIsEmpty` row |
| MseApi.SetStatsCb | rb_mse_api.c:678-682 | callback and opaque pointer are replaced; tree, counters and address are untouched |
| MseApi.Publish | rb_mse_api.c:558-565 | tree and counters are replaced together; the callback is called exactly when set, with the counters just published |
| MseApi.RefreshCycle | rb_mse_api.c:543-573 | a cycle publishes exactly when an address is stored and the transfers hold two terminal ones (each partition's last page); it keeps the address |
| MseApi.UpdateMacsPos | rb_mse_api.c:543-556 | the two loop calls and the publish compute the declarative cycle; the URLs set are the untracked pages, then the tracked pages |
| MseApi.CycleGeneration | rb_mse_api.c:550-556 | the published tree and counters are those of processing the untracked entries then the tracked ones from nothing; the previous state plays no part |
| MseApi.TrackedWins | rb_mse_api.c:554-556 | after a cycle a lookup finds the last tracked entry with that key, else the last untracked one, else nothing |
| MseApi.CycleCounts | rb_mse_api.c:550-556 | published localisation counters sum to the entries both passes indexed; the tracked total never exceeds them |
| MseApi.CallbackSeesPublishedStats | rb_mse_api.c:562-564 | the callback registered last is called by the next published cycle with its opaque pointer and the published counters |
| MseApi.CurrentStats | rb_mse_api.c:692-699 | definition of `rb_mse_get_stats`: the counters last published; stated by the `CycleCounts` and `NewApiIsEmpty` rows |
| MseApi.IsEmpty | rb_mse_api.c:650-653 | empty whenever no tree was published; afterwards empty exactly when the arena holds nothing |
| MseApi.NewApiIsEmpty | rb_mse_api.c:650-653 | a new handle is empty, finds nothing and has all six counters zero |
| MseApi.ReqForMacI | rb_mse_api.c:661-676 | found exactly when a tree was published and holds a key comparing equal to the one asked for; the result is that node's position |
| MseApi.ReqForMac | rb_mse_api.c:656-659 | definition of `rb_mse_req_for_mac`: the lookup of `mac_from_str` of the text; stated by the `ReqForMacFormatted` row |
| MseApi.ReqForMacFormatted | rb_mse_api.c:656-659 | looking up the canonical text of a 48-bit key finds what looking up the key finds |

## Left out

- The libcurl plumbing: option setup, the write callback, the response
  buffer, credentials, and global init and cleanup. These are foreign I/O.
  The transfer is an oracle of outcomes, each a transport error or an
  already-decoded body.
- Jansson parsing itself. A body arrives decoded, and `None` stands for a
  parse failure.
- The update thread, the sleep between cycles, the read-write lock and the
  teardown in `rb_mse_api_destroy`. These exist for concurrency; a cycle
  is one atomic transition.
- `rd_memctx` arenas, AVL node memory and the node magic tag. The tree is a
  `map` from key to position.
- Allocation failures, with two exceptions: the `strdup` of the hierarchy
  string (`copied` in `ProcessMapInfo`) and of the service address
  (`copied` in `NewApi`). `Classify` always passes `copied` as true, so
  within a refresh cycle the hierarchy copy never fails; only
  `ProcessMapInfo` on its own states the failing case. The failures of `rd_tsprintf`
  (`CURLE_OUT_OF_MEMORY`), of the unit copy and of the node allocations
  are not modelled.
- Latitude and longitude (`json_real_value`). These are floating point;
  only `geo_valid` and the unit are kept.
- `stdout_stats_cb`, `rb_mse_addr`, the debug logging, and `examples.c`.
  These are output and a demo. `rb_mse_api.h` holds declarations only.
- The bytes a failed transfer may leave in the response buffer, which the
  next transfer appends to. Each oracle entry is the decoded body the
  transfer produced.
- MseApi.IsEmpty: the arena's outstanding-allocation count is not
  modelled. It is a parameter, so only "empty before the first publish" is
  a real claim.
- Classifier.Tally: the `int` counters are unbounded naturals, so their
  overflow after 2^31 entries is not modelled.
- Pagination.Performed: that `curl_easy_perform` fails with
  `CURLE_URL_MALFORMAT` when no URL was ever set on the handle is libcurl's
  behaviour. libcurl is not part of this model, so the outcome is assumed
  rather than derived.
- Pagination.GetAndProcessPages: the page number is an unbounded natural,
  so the `int` overflow of `current_page` is not modelled. The loop runs
  at most as many times as the oracle has outcomes, so a cycle that never
  reaches its last page is "unfinished" rather than non-terminating.
- MseApi.RefreshCycle: the callback's own behaviour is not modelled. The
  model records which callback is called, with which counters and which
  opaque pointer.
