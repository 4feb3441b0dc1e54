/**
  Splitting `mapHierarchyString` into zone, build and floor, as
  `process_map_info` does with three `strtok_r(..., ">", ...)` calls.

  `strtok_r` never returns an empty token: it first skips every leading
  delimiter, so `"A>>B"` yields `A` then `B`, and a string made only of
  delimiters yields nothing. Jansson refuses a `\u0000` inside a string by
  default, so the C string the calls see is the whole JSON string.
 */
module Hierarchy {
  import opened Wrappers

  const Delimiter: char := '>'

  // ---------------------------------------------------------------------
  // strtok_r
  // ---------------------------------------------------------------------

  /** The text after the leading delimiters. */
  function SkipDelimiters(s: string): string
  {
    if |s| > 0 && s[0] == Delimiter then SkipDelimiters(s[1..]) else s
  }

  /** Length of the leading run of non-delimiters. */
  function TokenLength(s: string): (n: nat)
    ensures n <= |s|
  {
    if |s| > 0 && s[0] != Delimiter then 1 + TokenLength(s[1..]) else 0
  }

  /** One `strtok_r` call: the token it returns (`None` for `NULL`) and the
      text the saved pointer resumes from. */
  datatype TokStep = TokStep(token: Option<string>, rest: string)

  /** `strtok_r(s, ">", &save)`: skip delimiters; at the end of the string
      return `NULL`; otherwise cut the token at the next delimiter and resume
      just past it (or at the end of the string when there is none). */
  function StrTok(s: string): (r: TokStep)
    ensures r.token.Some? ==> |r.token.value| > 0 && Delimiter !in r.token.value
    ensures |r.rest| < |s| || (r.token.None? && r.rest == [])
  {
    var t := SkipDelimiters(s);
    SkipDelimitersShrinks(s);
    if |t| == 0 then TokStep(None, [])
    else
      var n := TokenLength(t);
      TokenLengthRun(t);
      if n == |t| then TokStep(Some(t), [])
      else TokStep(Some(t[..n]), t[n + 1..])
  }

  lemma {:induction false} SkipDelimitersShrinks(s: string)
    ensures |SkipDelimiters(s)| <= |s|
    ensures |SkipDelimiters(s)| > 0 ==> SkipDelimiters(s)[0] != Delimiter
  {
    if |s| > 0 && s[0] == Delimiter {
      SkipDelimitersShrinks(s[1..]);
    }
  }

  lemma {:induction false} TokenLengthRun(s: string)
    ensures Delimiter !in s[..TokenLength(s)]
    ensures TokenLength(s) < |s| ==> s[TokenLength(s)] == Delimiter
  {
    if |s| > 0 && s[0] != Delimiter {
      TokenLengthRun(s[1..]);
      assert s[..TokenLength(s)] == [s[0]] + s[1..][..TokenLength(s[1..])];
    }
  }

  /** The zone, build and floor a hierarchy string names (each `NULL` when missing). */
  datatype Levels = Levels(zone: Option<string>, build: Option<string>, floor: Option<string>)

  const NoLevels := Levels(None, None, None)

  /** The three guarded `strtok_r` calls of `process_map_info`: build is only
      looked for once a zone was found, and floor only once a build was. */
  function SplitHierarchy(s: string): (l: Levels)
    ensures l.build.Some? ==> l.zone.Some?
    ensures l.floor.Some? ==> l.build.Some?
    ensures forall x :: x in [l.zone, l.build, l.floor] && x.Some? ==> |x.value| > 0 && Delimiter !in x.value
  {
    var first := StrTok(s);
    if first.token.None? then NoLevels
    else
      var second := StrTok(first.rest);
      if second.token.None? then Levels(first.token, None, None)
      else Levels(first.token, second.token, StrTok(second.rest).token)
  }

  // ---------------------------------------------------------------------
  // Reference: the non-empty `>`-separated fields
  // ---------------------------------------------------------------------

  /** Every `>`-separated field of `s`, empty ones included. */
  function Fields(s: string): (fs: seq<string>)
    ensures |fs| >= 1
  {
    if |s| == 0 then [[]]
    else
      var fs := Fields(s[1..]);
      if s[0] == Delimiter then [[]] + fs else [[s[0]] + fs[0]] + fs[1..]
  }

  function NonEmpty(fs: seq<string>): seq<string>
  {
    if |fs| == 0 then []
    else if |fs[0]| == 0 then NonEmpty(fs[1..])
    else [fs[0]] + NonEmpty(fs[1..])
  }

  /** The tokens `strtok_r` would hand out one after another. */
  function Tokens(s: string): seq<string>
  {
    NonEmpty(Fields(s))
  }

  /** The `i`-th token, or `None` when there are not that many. */
  function TokenAt(ts: seq<string>, i: nat): Option<string>
  {
    if i < |ts| then Some(ts[i]) else None
  }

  lemma {:induction false} TokensSkipDelimiters(s: string)
    ensures Tokens(SkipDelimiters(s)) == Tokens(s)
  {
    if |s| > 0 && s[0] == Delimiter {
      TokensSkipDelimiters(s[1..]);
      assert Fields(s) == [[]] + Fields(s[1..]);
    }
  }

  /** A text that starts with `n` non-delimiters: its first field is exactly
      those characters, and the remaining fields are those after the delimiter. */
  lemma {:induction false} FieldsOfToken(t: string)
    ensures var n := TokenLength(t);
      Fields(t)[0] == t[..n] &&
      (n < |t| ==> Fields(t)[1..] == Fields(t[n + 1..])) &&
      (n == |t| ==> |Fields(t)| == 1)
  {
    if |t| > 0 {
      var fs := Fields(t[1..]);
      if t[0] == Delimiter {
        assert t[1..] == t[0 + 1..];
      } else {
        FieldsOfToken(t[1..]);
        assert t[..TokenLength(t)] == [t[0]] + t[1..][..TokenLength(t[1..])];
        if TokenLength(t) < |t| {
          assert t[TokenLength(t) + 1..] == t[1..][TokenLength(t[1..]) + 1..];
        }
      }
    }
  }

  /** The tokens of a text that starts with a non-delimiter: its leading run,
      then the tokens after the delimiter that ends the run. */
  lemma TokensOfRun(t: string)
    requires |t| > 0 && t[0] != Delimiter
    ensures var n := TokenLength(t);
      Tokens(t) == [t[..n]] + (if n < |t| then Tokens(t[n + 1..]) else [])
  {
    var n := TokenLength(t);
    var fs := Fields(t);
    FieldsOfToken(t);
    assert |fs[0]| == n > 0;
    NonEmptyCons(fs);
    if n < |t| {
      assert NonEmpty(fs[1..]) == Tokens(t[n + 1..]);
    } else {
      assert fs[1..] == [];
    }
  }

  lemma NonEmptyCons(fs: seq<string>)
    requires |fs| > 0 && |fs[0]| > 0
    ensures NonEmpty(fs) == [fs[0]] + NonEmpty(fs[1..])
  {
  }

  /** `strtok_r` hands out the first token and leaves exactly the others. */
  lemma StrTokTokens(s: string)
    ensures StrTok(s).token.None? <==> |Tokens(s)| == 0
    ensures StrTok(s).token.Some? ==>
      Tokens(s) == [StrTok(s).token.value] + Tokens(StrTok(s).rest)
    ensures StrTok(s).token.None? ==> Tokens(StrTok(s).rest) == []
  {
    var t := SkipDelimiters(s);
    TokensSkipDelimiters(s);
    SkipDelimitersShrinks(s);
    if |t| > 0 {
      TokensOfRun(t);
      if TokenLength(t) == |t| {
        assert t[..TokenLength(t)] == t;
      }
    }
  }

  /** Zone, build and floor are the first, second and third tokens; any
      later token is ignored, and a missing one leaves its level `NULL`. */
  lemma SplitHierarchyTokens(s: string)
    ensures var ts := Tokens(s);
      SplitHierarchy(s) == Levels(TokenAt(ts, 0), TokenAt(ts, 1), TokenAt(ts, 2))
  {
    var first := StrTok(s);
    StrTokTokens(s);
    if first.token.Some? {
      var second := StrTok(first.rest);
      StrTokTokens(first.rest);
      if second.token.Some? {
        StrTokTokens(second.rest);
      }
    }
  }
}
