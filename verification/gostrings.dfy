/** The two functions of Go's strings package the coordinator relies on. */
module GoStrings {

  /** `sub` occurs in `s` starting at index `j`. */
  predicate OccursAt(s: string, sub: string, j: int) {
    0 <= j && j + |sub| <= |s| && s[j..j + |sub|] == sub
  }

  /** `strings.LastIndex(s, sub)`: where the last occurrence of `sub` starts, or -1. */
  function LastIndex(s: string, sub: string): (r: int)
    ensures r == -1 || OccursAt(s, sub, r)
    ensures forall j :: OccursAt(s, sub, j) ==> j <= r
  {
    LastIndexAtOrBefore(s, sub, |s| - |sub|)
  }

  /** The last occurrence of `sub` in `s` starting no later than `k`, or -1. */
  function LastIndexAtOrBefore(s: string, sub: string, k: int): (r: int)
    ensures r == -1 || (OccursAt(s, sub, r) && r <= k)
    ensures forall j :: r < j <= k ==> !OccursAt(s, sub, j)
    decreases k + 1
  {
    if k < 0 then -1
    else if OccursAt(s, sub, k) then k
    else LastIndexAtOrBefore(s, sub, k - 1)
  }

  /** The tokens joined back with `-` between them (`strings.Join(tokens, "-")`). */
  function JoinDash(tokens: seq<string>): string
    requires 1 <= |tokens|
  {
    if |tokens| == 1 then tokens[0]
    else JoinDash(tokens[..|tokens| - 1]) + "-" + tokens[|tokens| - 1]
  }

  /** `strings.Split(s, "-")`: the dash-free pieces between the dashes of `s`. */
  function SplitDash(s: string): (tokens: seq<string>)
    ensures 1 <= |tokens|
    ensures forall i :: 0 <= i < |tokens| ==> '-' !in tokens[i]
    decreases |s|
  {
    if |s| == 0 then [""]
    else
      var init := SplitDash(s[..|s| - 1]);
      var c := s[|s| - 1];
      if c == '-' then init + [""]
      else init[..|init| - 1] + [init[|init| - 1] + [c]]
  }

  /** Extending the last token by `c` extends the joined string by `c`. */
  lemma JoinDashExtendLast(tokens: seq<string>, c: char)
    requires 1 <= |tokens|
    ensures JoinDash(tokens[..|tokens| - 1] + [tokens[|tokens| - 1] + [c]]) == JoinDash(tokens) + [c]
  {
    var t := tokens[..|tokens| - 1] + [tokens[|tokens| - 1] + [c]];
    if |tokens| > 1 {
      assert t[..|t| - 1] == tokens[..|tokens| - 1];
      assert JoinDash(t) == JoinDash(tokens[..|tokens| - 1]) + "-" + (tokens[|tokens| - 1] + [c]);
    }
  }

  /** Splitting and joining again gives back the string. */
  lemma {:induction false} SplitJoinRoundTrip(s: string)
    ensures JoinDash(SplitDash(s)) == s
    decreases |s|
  {
    if |s| > 0 {
      var init := SplitDash(s[..|s| - 1]);
      var c := s[|s| - 1];
      SplitJoinRoundTrip(s[..|s| - 1]);
      if c == '-' {
        assert (init + [""])[..|init|] == init;
      } else {
        JoinDashExtendLast(init, c);
      }
      assert s == s[..|s| - 1] + [c];
    }
  }

  /** The last token of `strings.Split(s, "-")`. */
  function LastDashToken(s: string): string {
    var tokens := SplitDash(s);
    tokens[|tokens| - 1]
  }

  /**
    The last token is the text after the last dash: a dash-free tail of `s`
    that is either all of `s` or preceded by a dash.
  */
  lemma {:induction false} LastDashTokenIsTail(s: string)
    ensures '-' !in LastDashToken(s)
    ensures |LastDashToken(s)| <= |s|
    ensures s[|s| - |LastDashToken(s)|..] == LastDashToken(s)
    ensures |LastDashToken(s)| == |s| || s[|s| - |LastDashToken(s)| - 1] == '-'
    decreases |s|
  {
    if |s| > 0 {
      var p := s[..|s| - 1];
      LastDashTokenIsTail(p);
      var t := LastDashToken(p);
      if s[|s| - 1] != '-' {
        assert LastDashToken(s) == t + [s[|s| - 1]];
        assert s[|s| - |t| - 1..] == p[|p| - |t|..] + [s[|s| - 1]];
      }
    }
  }

  /** A one-character string occurs exactly where that character stands. */
  lemma OccursAtSingle(s: string, c: char, j: int)
    ensures OccursAt(s, [c], j) <==> 0 <= j < |s| && s[j] == c
  {
    if 0 <= j < |s| {
      assert s[j..j + 1] == [s[j]];
    }
  }

  /** A string whose dashes all lie before `k`, and which has one just before `k` when `k > 0`, last has a dash at `k - 1`. */
  lemma LastDashBefore(s: string, k: int)
    requires 0 <= k <= |s| && (k == 0 || s[k - 1] == '-')
    requires forall m :: k <= m < |s| ==> s[m] != '-'
    ensures LastIndex(s, "-") == k - 1
  {
    var i := LastIndex(s, "-");
    if i >= 0 {
      OccursAtSingle(s, '-', i);
    }
    if k > 0 {
      OccursAtSingle(s, '-', k - 1);
    }
  }

  /** The same fact stated with `LastIndex`: the token starts right after the last dash, if any. */
  lemma LastDashTokenAfterLastIndex(s: string)
    ensures LastIndex(s, "-") == -1 ==> LastDashToken(s) == s
    ensures LastIndex(s, "-") >= 0 ==> LastDashToken(s) == s[LastIndex(s, "-") + 1..]
  {
    LastDashTokenIsTail(s);
    var t := LastDashToken(s);
    var k := |s| - |t|;
    forall m | k <= m < |s|
      ensures s[m] != '-'
    {
      assert s[m] == t[m - k];
    }
    LastDashBefore(s, k);
    if k == 0 {
      assert s[0..] == s;
    }
  }

}
