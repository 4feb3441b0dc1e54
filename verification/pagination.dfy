/**
  One partition's page loop: `get_and_process_mse_response0`.

  The transfer itself is an oracle: the sequence of outcomes the successive
  `curl_easy_perform` calls would have, each a transport error or a
  transferred body (already decoded, `None` when it could not be decoded).
  The loop asks for page 0, 1, 2, ... and only moves to the next page after
  a successful transfer; a transport error asks for the same page again.
  It stops after the first transferred body without
  `Locations.nextResourceURI`, which includes a body that could not be
  decoded. When the oracle runs out first, the pass has not finished.

  When no service address is stored, `rb_mse_set_curl_url` fails and its
  result is ignored: no URL was ever set on the handle, so every
  `curl_easy_perform` fails with libcurl's "No URL set" error, whatever
  the oracle holds, and the loop never ends.
 */
module Pagination {
  import opened Wrappers
  import opened Json
  import opened Classifier
  import opened Locations
  import opened RequestUrl

  /** A `CURLcode` other than `CURLE_OK`. */
  type ErrorCode = c: nat | c > 0 witness 1

  /** The outcome of one `curl_easy_perform`: a failure with its code, or
      `CURLE_OK` with the body it transferred. */
  datatype Fetch = TransportError(code: ErrorCode) | Transferred(root: Option<Value>)

  /** A transfer after which the loop stops. */
  predicate Terminal(f: Fetch) {
    f.Transferred? && !HasMorePages(f.root)
  }

  predicate NoTerminal(fs: seq<Fetch>) {
    forall j :: 0 <= j < |fs| ==> !Terminal(fs[j])
  }

  /** The position of the first terminal transfer, if any. */
  function FirstTerminal(fs: seq<Fetch>): (r: Option<nat>)
    ensures r.Some? ==> r.value < |fs| && Terminal(fs[r.value]) && NoTerminal(fs[..r.value])
    ensures r.None? <==> NoTerminal(fs)
  {
    if |fs| == 0 then None
    else if Terminal(fs[0]) then Some(0)
    else
      var r := FirstTerminal(fs[1..]);
      assert forall j :: 0 < j < |fs| ==> fs[j] == fs[1..][j - 1];
      match r
      case None => None
      case Some(i) =>
        var p, q := fs[..i + 1], fs[1..][..i];
        assert NoTerminal(p) by {
          forall j | 0 < j < |p|
            ensures p[j] == q[j - 1]
          {
          }
        }
        Some(i + 1)
  }

  /** How many of the transfers succeeded. */
  function SuccessCount(fs: seq<Fetch>): (n: nat)
    ensures n <= |fs|
  {
    if |fs| == 0 then 0
    else SuccessCount(fs[..|fs| - 1]) + (if fs[|fs| - 1].Transferred? then 1 else 0)
  }

  /** The bodies of the successful transfers, in order. */
  function Roots(fs: seq<Fetch>): (rs: seq<Option<Value>>)
    ensures |rs| == SuccessCount(fs)
  {
    if |fs| == 0 then []
    else
      var last := fs[|fs| - 1];
      Roots(fs[..|fs| - 1]) + (if last.Transferred? then [last.root] else [])
  }

  /** The page number each transfer asks for: the number of successful
      transfers before it. */
  function PagesRequested(fs: seq<Fetch>): (ps: seq<nat>)
    ensures |ps| == |fs|
  {
    if |fs| == 0 then [] else PagesRequested(fs[..|fs| - 1]) + [SuccessCount(fs[..|fs| - 1])]
  }

  /** The URL set before each transfer. */
  function Requests(addr: Option<string>, tracked: bool, pages: seq<nat>): (us: seq<Result<string, CurlCode>>)
    ensures |us| == |pages|
  {
    seq(|pages|, i requires 0 <= i < |pages| => RequestUrl.RequestUrl(addr, tracked, pages[i]))
  }

  /** What a pass leaves behind: the tree and counters, the page asked for
      by each transfer it performed, and whether it stopped by itself. */
  datatype PassOutcome = PassOutcome(gen: Generation, pages: seq<nat>, finished: bool)

  /** How many transfers a pass performs: every transfer up to the first
      terminal one, or all of them when there is none. */
  function PassLength(fetches: seq<Fetch>): (n: nat)
    ensures n <= |fetches|
  {
    match FirstTerminal(fetches)
    case Some(i) => i + 1
    case None => |fetches|
  }

  /** The pass over the oracle `fetches`, declaratively: it performs the
      first `PassLength(fetches)` transfers and processes the bodies of the
      successful ones in order. */
  function RunPass(g: Generation, fetches: seq<Fetch>): (r: PassOutcome)
    ensures |r.pages| == PassLength(fetches) <= |fetches|
    ensures r.finished ==> 0 < |r.pages| && Terminal(fetches[|r.pages| - 1]) && NoTerminal(fetches[..|r.pages| - 1])
    ensures !r.finished ==> NoTerminal(fetches)
  {
    var used := fetches[..PassLength(fetches)];
    PassOutcome(ProcessResponses(g, Roots(used)), PagesRequested(used), FirstTerminal(fetches).Some?)
  }

  /** `CURLE_URL_MALFORMAT`, which `curl_easy_perform` returns when no URL
      was ever set on the handle. */
  const NoUrlSet: ErrorCode := 3

  /** The outcomes the transfers actually have: those of the oracle when a
      URL can be set, and "No URL set" for every one of them otherwise. */
  function Performed(addr: Option<string>, fetches: seq<Fetch>): (ps: seq<Fetch>)
    ensures |ps| == |fetches|
    ensures addr.Some? ==> ps == fetches
    ensures addr.None? ==> forall i :: 0 <= i < |ps| ==> ps[i] == TransportError(NoUrlSet)
    ensures addr.None? ==> NoTerminal(ps)
  {
    if addr.Some? then fetches else seq(|fetches|, i => TransportError(NoUrlSet))
  }

  /** `get_and_process_mse_response0` over the oracle `fetches`: the same
      `while (more_pages)` loop, which performs at most `|fetches|`
      transfers. A transfer made after `rb_mse_set_curl_url` failed has
      no URL and fails. It returns the outcome, the URLs it set, and the
      number of transfers it performed. */
  method GetAndProcessPages(addr: Option<string>, tracked: bool, g: Generation, fetches: seq<Fetch>)
      returns (out: PassOutcome, requests: seq<Result<string, CurlCode>>, used: nat)
    ensures out == RunPass(g, Performed(addr, fetches))
    ensures used == |out.pages| <= |fetches|
    ensures requests == Requests(addr, tracked, out.pages)
    ensures addr.None? ==> !out.finished
  {
    var performed := Performed(addr, fetches);
    var morePages := true;
    var currentPage: nat := 0;
    var gen := g;
    var pages: seq<nat> := [];
    requests := [];
    used := 0;
    while morePages && used < |fetches|
      invariant used <= |fetches|
      invariant currentPage == SuccessCount(performed[..used])
      invariant gen == ProcessResponses(g, Roots(performed[..used]))
      invariant pages == PagesRequested(performed[..used])
      invariant requests == Requests(addr, tracked, pages)
      invariant morePages ==> NoTerminal(performed[..used])
      invariant !morePages ==> used > 0 && FirstTerminal(performed) == Some(used - 1)
      decreases |fetches| - used
    {
      var url := RequestUrl.RequestUrl(addr, tracked, currentPage);
      RequestsSnoc(addr, tracked, pages, currentPage);
      requests := requests + [url];
      pages := pages + [currentPage];
      var f := if url.Failure? then TransportError(NoUrlSet) else fetches[used];
      PerformedAt(addr, tracked, currentPage, fetches, used);
      PrefixStep(g, performed, used);
      used := used + 1;
      match f
      case Transferred(root) =>
        gen := ProcessResponse(gen, root);
        morePages := HasMorePages(root);
        currentPage := currentPage + 1;
        if !morePages {
          FirstTerminalAt(performed, used - 1);
        }
      case TransportError(_) =>
    }
    out := PassOutcome(gen, pages, !morePages);
    if morePages {
      assert performed[..used] == performed;
    }
  }

  /** The transfer the loop makes is the one `Performed` says it has. */
  lemma PerformedAt(addr: Option<string>, tracked: bool, page: nat, fetches: seq<Fetch>, i: nat)
    requires i < |fetches|
    ensures (if RequestUrl.RequestUrl(addr, tracked, page).Failure? then TransportError(NoUrlSet) else fetches[i]) ==
      Performed(addr, fetches)[i]
  {
  }

  lemma RequestsSnoc(addr: Option<string>, tracked: bool, pages: seq<nat>, p: nat)
    ensures Requests(addr, tracked, pages + [p]) == Requests(addr, tracked, pages) + [RequestUrl.RequestUrl(addr, tracked, p)]
  {
  }

  /** What one more transfer adds to the prefix the loop has performed. */
  lemma PrefixStep(g: Generation, fs: seq<Fetch>, i: nat)
    requires i < |fs|
    ensures var prev, next := fs[..i], fs[..i + 1];
      SuccessCount(next) == SuccessCount(prev) + (if fs[i].Transferred? then 1 else 0) &&
      PagesRequested(next) == PagesRequested(prev) + [SuccessCount(prev)] &&
      ProcessResponses(g, Roots(next)) ==
        (if fs[i].Transferred? then ProcessResponse(ProcessResponses(g, Roots(prev)), fs[i].root)
         else ProcessResponses(g, Roots(prev))) &&
      (NoTerminal(prev) && !Terminal(fs[i]) ==> NoTerminal(next))
  {
    var prev, next := fs[..i], fs[..i + 1];
    assert next[..i] == prev && next[i] == fs[i];
    RootsStep(g, next);
    NoTerminalStep(next);
  }

  lemma NoTerminalStep(fs: seq<Fetch>)
    requires |fs| > 0
    ensures NoTerminal(fs[..|fs| - 1]) && !Terminal(fs[|fs| - 1]) ==> NoTerminal(fs)
  {
    var prev := fs[..|fs| - 1];
    assert forall j :: 0 <= j < |prev| ==> prev[j] == fs[j];
  }

  lemma RootsStep(g: Generation, fs: seq<Fetch>)
    requires |fs| > 0
    ensures var prev, last := fs[..|fs| - 1], fs[|fs| - 1];
      ProcessResponses(g, Roots(fs)) ==
        (if last.Transferred? then ProcessResponse(ProcessResponses(g, Roots(prev)), last.root)
         else ProcessResponses(g, Roots(prev)))
  {
    var prev, last := fs[..|fs| - 1], fs[|fs| - 1];
    if last.Transferred? {
      var rs := Roots(prev) + [last.root];
      assert rs[..|rs| - 1] == Roots(prev);
    } else {
      assert Roots(fs) == Roots(prev);
    }
  }

  /** A terminal transfer preceded by no other is the first one. */
  lemma FirstTerminalAt(fs: seq<Fetch>, i: nat)
    requires i < |fs| && Terminal(fs[i]) && NoTerminal(fs[..i])
    ensures FirstTerminal(fs) == Some(i)
  {
  }

  // ---------------------------------------------------------------------
  // Properties of a pass
  // ---------------------------------------------------------------------

  /** Pages are asked for in order from 0: the first transfer asks for page
      0, and the page advances by one after a successful transfer and stays
      the same after a transport error. */
  lemma {:induction false} PagesInOrder(fs: seq<Fetch>)
    ensures |fs| > 0 ==> PagesRequested(fs)[0] == 0
    ensures forall j :: 0 <= j < |fs| - 1 ==>
      PagesRequested(fs)[j + 1] == PagesRequested(fs)[j] + (if fs[j].Transferred? then 1 else 0)
  {
    if |fs| > 0 {
      var init := fs[..|fs| - 1];
      PagesInOrder(init);
      assert forall j :: 0 <= j < |init| ==> PagesRequested(fs)[j] == PagesRequested(init)[j];
      if |fs| > 1 {
        var k := |fs| - 2;
        assert init[..k + 1] == init;
        assert init[..k] == fs[..k] && init[k] == fs[k];
      }
    }
  }

  /** A pass and a second pass on the transfers the first one left both
      finish exactly when the oracle holds two terminal transfers. */
  lemma TwoTerminals(fs: seq<Fetch>)
    ensures (exists i, j :: 0 <= i < j < |fs| && Terminal(fs[i]) && Terminal(fs[j])) <==>
      FirstTerminal(fs).Some? && FirstTerminal(fs[PassLength(fs)..]).Some?
  {
    if FirstTerminal(fs).Some? && FirstTerminal(fs[PassLength(fs)..]).Some? {
      BothPassesFinish(fs);
    }
    if exists i, j :: 0 <= i < j < |fs| && Terminal(fs[i]) && Terminal(fs[j]) {
      var i, j :| 0 <= i < j < |fs| && Terminal(fs[i]) && Terminal(fs[j]);
      SecondTerminalLeft(fs, i, j);
    }
  }

  /** The two first terminal transfers of the two passes are two terminal
      transfers of the oracle. */
  lemma BothPassesFinish(fs: seq<Fetch>)
    requires FirstTerminal(fs).Some? && FirstTerminal(fs[PassLength(fs)..]).Some?
    ensures exists i, j :: 0 <= i < j < |fs| && Terminal(fs[i]) && Terminal(fs[j])
  {
    var rest := fs[PassLength(fs)..];
    var a, b := FirstTerminal(fs).value, FirstTerminal(rest).value;
    assert rest[b] == fs[a + 1 + b];
  }

  /** A terminal transfer after another one is left to the second pass. */
  lemma SecondTerminalLeft(fs: seq<Fetch>, i: nat, j: nat)
    requires i < j < |fs| && Terminal(fs[i]) && Terminal(fs[j])
    ensures FirstTerminal(fs).Some? && FirstTerminal(fs[PassLength(fs)..]).Some?
  {
    var a := FirstTerminal(fs).value;
    assert a <= i by {
      assert forall k :: 0 <= k < a ==> fs[..a][k] == fs[k];
    }
    var rest := fs[a + 1..];
    assert rest[j - a - 1] == fs[j];
  }

  /** A body that cannot be decoded ends the pass and adds no entry. */
  lemma UndecodableBodyEndsPass(g: Generation, fetches: seq<Fetch>, i: nat)
    requires i < |fetches| && fetches[i] == Transferred(None) && NoTerminal(fetches[..i])
    ensures RunPass(g, fetches).finished && |RunPass(g, fetches).pages| == i + 1
    ensures RunPass(g, fetches).gen == ProcessResponses(g, Roots(fetches[..i]))
  {
    FirstTerminalAt(fetches, i);
    RootsStep(g, fetches[..i + 1]);
    assert fetches[..i + 1][..i] == fetches[..i];
  }
}
