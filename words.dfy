/**
  Word splitting as done by `preg_split('/\s+/', text, -1, PREG_SPLIT_NO_EMPTY)`
  in the reading-time estimator: the text is cut at every run of whitespace and
  the empty pieces are dropped, so the pieces are the maximal runs of
  non-whitespace characters. The pattern carries no `u` modifier, so `\s` is
  the ASCII whitespace class.
 */
module Words {

  /** The characters `\s` matches without the `u` modifier:
      space, tab, line feed, vertical tab, form feed and carriage return. */
  predicate IsSpace(c: char)
    ensures IsSpace(c) ==> c as int <= 0x20
  {
    c == ' ' || c == '\t' || c == '\n' || c as int == 0x0B || c as int == 0x0C || c == '\r'
  }

  /** A piece of the split: non-empty and free of whitespace. */
  predicate IsWord(t: string) {
    |t| > 0 && forall k :: 0 <= k < |t| ==> !IsSpace(t[k])
  }

  predicate AllSpace(s: string) {
    forall k :: 0 <= k < |s| ==> IsSpace(s[k])
  }

  /** The end of the run of non-whitespace characters that begins at `i`. */
  function RunEnd(s: string, i: nat): (j: nat)
    requires i <= |s|
    ensures i <= j <= |s|
    ensures forall k :: i <= k < j ==> !IsSpace(s[k])
    ensures j == |s| || IsSpace(s[j])
    decreases |s| - i
  {
    if i == |s| || IsSpace(s[i]) then i else RunEnd(s, i + 1)
  }

  /** The pieces of `s[i..]`, from left to right. */
  function TokensFrom(s: string, i: nat): (ts: seq<string>)
    requires i <= |s|
    ensures forall n :: 0 <= n < |ts| ==> IsWord(ts[n])
    decreases |s| - i
  {
    if i == |s| then []
    else if IsSpace(s[i]) then TokensFrom(s, i + 1)
    else
      var j := RunEnd(s, i);
      [s[i..j]] + TokensFrom(s, j)
  }

  // ---------------------------------------------------------------------------
  // Reference definitions: where the maximal runs start, and what they contain.
  // ---------------------------------------------------------------------------

  /** A maximal run of non-whitespace characters starts at index `k`. */
  predicate StartsRun(s: string, k: nat)
    requires k < |s|
  {
    !IsSpace(s[k]) && (k == 0 || IsSpace(s[k - 1]))
  }

  /** The indices in `[i, |s|)` at which a maximal run starts: all of them,
      and no others, in increasing order. */
  function RunStartsFrom(s: string, i: nat): (r: seq<nat>)
    requires i <= |s|
    ensures forall n :: 0 <= n < |r| ==> i <= r[n] < |s| && StartsRun(s, r[n])
    ensures forall k :: i <= k < |s| && StartsRun(s, k) ==> k in r
    ensures forall n, m :: 0 <= n < m < |r| ==> r[n] < r[m]
    decreases |s| - i
  {
    if i == |s| then []
    else if StartsRun(s, i) then [i] + RunStartsFrom(s, i + 1)
    else RunStartsFrom(s, i + 1)
  }

  /** The number of maximal runs of non-whitespace characters in `s`. */
  function RunCount(s: string): nat {
    |RunStartsFrom(s, 0)|
  }

  /** The non-whitespace characters of `s[i..]`, in order. */
  function NonSpaceFrom(s: string, i: nat): string
    requires i <= |s|
    decreases |s| - i
  {
    if i == |s| then []
    else (if IsSpace(s[i]) then [] else [s[i]]) + NonSpaceFrom(s, i + 1)
  }

  function Concat(ts: seq<string>): string {
    if ts == [] then [] else ts[0] + Concat(ts[1..])
  }

  // ---------------------------------------------------------------------------
  // The pieces are the maximal runs.
  // ---------------------------------------------------------------------------

  /** Inside a run no further run starts. */
  lemma {:induction false} NoRunStartsInsideRun(s: string, i: nat)
    requires i < |s| && !IsSpace(s[i])
    ensures RunStartsFrom(s, i + 1) == RunStartsFrom(s, RunEnd(s, i))
    decreases |s| - i
  {
    if i + 1 < |s| && !IsSpace(s[i + 1]) {
      NoRunStartsInsideRun(s, i + 1);
    }
  }

  /** From any position outside a run, the `n`-th piece is the maximal run
      that starts at the `n`-th run start. */
  lemma {:induction false} TokensFromAreRuns(s: string, i: nat)
    requires i <= |s|
    requires i == 0 || i == |s| || IsSpace(s[i - 1]) || IsSpace(s[i])
    ensures |TokensFrom(s, i)| == |RunStartsFrom(s, i)|
    ensures forall n :: 0 <= n < |TokensFrom(s, i)| ==>
      TokensFrom(s, i)[n] == s[RunStartsFrom(s, i)[n]..RunEnd(s, RunStartsFrom(s, i)[n])]
    decreases |s| - i
  {
    if i == |s| {
    } else if IsSpace(s[i]) {
      TokensFromAreRuns(s, i + 1);
    } else {
      var j := RunEnd(s, i);
      NoRunStartsInsideRun(s, i);
      TokensFromAreRuns(s, j);
      var ts, starts := TokensFrom(s, j), RunStartsFrom(s, j);
      assert TokensFrom(s, i) == [s[i..j]] + ts;
      assert RunStartsFrom(s, i) == [i] + starts;
      forall n | 0 <= n < |TokensFrom(s, i)|
        ensures TokensFrom(s, i)[n] == s[RunStartsFrom(s, i)[n]..RunEnd(s, RunStartsFrom(s, i)[n])]
      {
        if n > 0 {
          assert TokensFrom(s, i)[n] == ts[n - 1];
          assert RunStartsFrom(s, i)[n] == starts[n - 1];
        }
      }
    }
  }

  // ---------------------------------------------------------------------------
  // The split keeps every non-whitespace character, in order.
  // ---------------------------------------------------------------------------

  lemma {:induction false} NonSpaceOfRun(s: string, i: nat)
    requires i <= |s|
    ensures NonSpaceFrom(s, i) == s[i..RunEnd(s, i)] + NonSpaceFrom(s, RunEnd(s, i))
    decreases |s| - i
  {
    if i < |s| && !IsSpace(s[i]) {
      var j := RunEnd(s, i);
      assert j == RunEnd(s, i + 1);
      NonSpaceOfRun(s, i + 1);
      var rest := NonSpaceFrom(s, j);
      calc {
        NonSpaceFrom(s, i);
        [s[i]] + NonSpaceFrom(s, i + 1);
        [s[i]] + (s[i + 1..j] + rest);
        { assert [s[i]] + s[i + 1..j] == s[i..j]; }
        s[i..j] + rest;
      }
    }
  }

  lemma {:induction false} TokensFromKeepNonSpace(s: string, i: nat)
    requires i <= |s|
    ensures Concat(TokensFrom(s, i)) == NonSpaceFrom(s, i)
    decreases |s| - i
  {
    if i == |s| {
    } else if IsSpace(s[i]) {
      TokensFromKeepNonSpace(s, i + 1);
    } else {
      var j := RunEnd(s, i);
      var ts := TokensFrom(s, j);
      TokensFromKeepNonSpace(s, j);
      NonSpaceOfRun(s, i);
      assert ([s[i..j]] + ts)[1..] == ts;
    }
  }

  // ---------------------------------------------------------------------------
  // No words exactly when the text is empty or whitespace only.
  // ---------------------------------------------------------------------------

  lemma {:induction false} TokensFromEmptyIffSpace(s: string, i: nat)
    requires i <= |s|
    ensures TokensFrom(s, i) == [] <==> forall k :: i <= k < |s| ==> IsSpace(s[k])
    decreases |s| - i
  {
    if i < |s| && IsSpace(s[i]) {
      TokensFromEmptyIffSpace(s, i + 1);
    }
  }

  // ---------------------------------------------------------------------------
  // The split and the word count
  // ---------------------------------------------------------------------------

  /** `preg_split('/\s+/', s, -1, PREG_SPLIT_NO_EMPTY)`: the maximal runs of
      non-whitespace characters of `s`, one piece per run start, in order;
      each is non-empty and free of whitespace, and joined together they give
      back every non-whitespace character of `s` in order. */
  function Split(s: string): (ws: seq<string>)
    ensures |ws| == |RunStartsFrom(s, 0)|
    ensures forall n :: 0 <= n < |ws| ==>
      ws[n] == s[RunStartsFrom(s, 0)[n]..RunEnd(s, RunStartsFrom(s, 0)[n])]
    ensures forall n :: 0 <= n < |ws| ==> IsWord(ws[n])
    ensures Concat(ws) == NonSpaceFrom(s, 0)
  {
    TokensFromAreRuns(s, 0);
    TokensFromKeepNonSpace(s, 0);
    TokensFrom(s, 0)
  }

  /** `count(preg_split(...))`: the number of maximal runs of non-whitespace
      characters, which is zero exactly when `s` is empty or whitespace only. */
  function WordCount(s: string): (n: nat)
    ensures n == RunCount(s)
    ensures n == 0 <==> AllSpace(s)
  {
    TokensFromEmptyIffSpace(s, 0);
    |Split(s)|
  }
}
