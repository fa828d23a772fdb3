/**
 * Splitting a line into tokens the way successive `strtok` calls do: runs of
 * delimiter characters separate tokens, and a token is a maximal run of
 * non-delimiters. The scan position plays the part of `strtok`'s saved
 * pointer; the k-th call of a scan returns the k-th token, or NULL once they
 * are used up.
 */
module Tokens {
  import opened Wrappers

  /** No character of `w` is a delimiter. */
  predicate Free(w: string, d: set<char>) {
    forall i | 0 <= i < |w| :: w[i] !in d
  }

  /** The end of the run of non-delimiters that starts at position `i`. */
  function WordEnd(s: string, d: set<char>, i: nat): (j: nat)
    requires i <= |s|
    ensures i <= j <= |s|
    ensures forall k | i <= k < j :: s[k] !in d
    ensures j < |s| ==> s[j] in d
    decreases |s| - i
  {
    if i == |s| || s[i] in d then i else WordEnd(s, d, i + 1)
  }

  /** The tokens of `s` from position `i` on. */
  function SplitFrom(s: string, d: set<char>, i: nat): (r: seq<string>)
    requires i <= |s|
    ensures forall k | 0 <= k < |r| :: r[k] != [] && Free(r[k], d)
    decreases |s| - i
  {
    if i == |s| then []
    else if s[i] in d then SplitFrom(s, d, i + 1)
    else
      var j := WordEnd(s, d, i);
      [s[i..j]] + SplitFrom(s, d, j)
  }

  /** The tokens of `s`, in order. */
  function Split(s: string, d: set<char>): (r: seq<string>)
    ensures forall k | 0 <= k < |r| :: r[k] != [] && Free(r[k], d)
  {
    SplitFrom(s, d, 0)
  }

  /** The `k`-th token, or None (the NULL `strtok` returns) when there are fewer. */
  function Nth(ts: seq<string>, k: nat): (r: Option<string>)
    ensures r.Some? <==> k < |ts|
    ensures r.Some? ==> r.value == ts[k]
  {
    if k < |ts| then Some(ts[k]) else None
  }

  /** All the tokens glued back together. */
  function Concat(ws: seq<string>): string {
    if ws == [] then [] else ws[0] + Concat(ws[1..])
  }

  /** `s` with every delimiter removed. */
  function Strip(s: string, d: set<char>): string {
    if s == [] then [] else (if s[0] in d then [] else [s[0]]) + Strip(s[1..], d)
  }

  /** Words joined by single blanks, as a line of text. */
  function Join(ws: seq<string>): string {
    if ws == [] then []
    else if |ws| == 1 then ws[0]
    else ws[0] + " " + Join(ws[1..])
  }

  lemma {:induction false} StripAppend(a: string, b: string, d: set<char>)
    ensures Strip(a + b, d) == Strip(a, d) + Strip(b, d)
  {
    if a == [] {
      assert a + b == b;
    } else {
      assert (a + b)[0] == a[0] && (a + b)[1..] == a[1..] + b;
      StripAppend(a[1..], b, d);
    }
  }

  lemma {:induction false} StripFree(w: string, d: set<char>)
    requires Free(w, d)
    ensures Strip(w, d) == w
  {
    if w != [] {
      StripFree(w[1..], d);
    }
  }

  lemma {:induction false} SplitFromKeepsText(s: string, d: set<char>, i: nat)
    requires i <= |s|
    ensures Concat(SplitFrom(s, d, i)) == Strip(s[i..], d)
    decreases |s| - i
  {
    if i == |s| {
    } else if s[i] in d {
      SplitFromKeepsText(s, d, i + 1);
      assert s[i..][1..] == s[i + 1..];
    } else {
      var j := WordEnd(s, d, i);
      var ts := SplitFrom(s, d, i);
      assert ts[0] == s[i..j] && ts[1..] == SplitFrom(s, d, j);
      SplitFromKeepsText(s, d, j);
      assert s[i..] == s[i..j] + s[j..];
      StripAppend(s[i..j], s[j..], d);
      StripFree(s[i..j], d);
    }
  }

  /** Splitting loses exactly the delimiters: no other character is dropped, added or moved. */
  lemma SplitKeepsText(s: string, d: set<char>)
    ensures Concat(Split(s, d)) == Strip(s, d)
  {
    SplitFromKeepsText(s, d, 0);
    assert s[0..] == s;
  }

  lemma {:induction false} WordEndShift(p: string, q: string, d: set<char>, i: nat)
    requires i <= |q|
    ensures WordEnd(p + q, d, |p| + i) == |p| + WordEnd(q, d, i)
    decreases |q| - i
  {
    if i < |q| && q[i] !in d {
      WordEndShift(p, q, d, i + 1);
    }
  }

  /** Scanning `p + q` from inside `q` sees only `q`. */
  lemma {:induction false} SplitFromShift(p: string, q: string, d: set<char>, i: nat)
    requires i <= |q|
    ensures SplitFrom(p + q, d, |p| + i) == SplitFrom(q, d, i)
    decreases |q| - i
  {
    if i < |q| {
      if q[i] in d {
        SplitFromShift(p, q, d, i + 1);
      } else {
        var j := WordEnd(q, d, i);
        WordEndShift(p, q, d, i);
        assert (p + q)[|p| + i..|p| + j] == q[i..j];
        SplitFromShift(p, q, d, j);
      }
    }
  }

  lemma {:induction false} WordEndOfFree(w: string, t: string, d: set<char>, i: nat)
    requires Free(w, d) && i <= |w|
    requires t == [] || t[0] in d
    ensures WordEnd(w + t, d, i) == |w|
    decreases |w| - i
  {
    if i < |w| {
      WordEndOfFree(w, t, d, i + 1);
    }
  }

  /** A delimiter-free word followed by a delimiter (or the end) is the next token. */
  lemma SplitAfterWord(w: string, t: string, d: set<char>)
    requires w != [] && Free(w, d)
    requires t == [] || t[0] in d
    ensures Split(w + t, d) == [w] + Split(t, d)
  {
    WordEndOfFree(w, t, d, 0);
    assert (w + t)[0..|w|] == w;
    SplitFromShift(w, t, d, 0);
  }

  /** A leading delimiter is skipped. */
  lemma SplitAfterDelimiter(c: char, u: string, d: set<char>)
    requires c in d
    ensures Split([c] + u, d) == Split(u, d)
  {
    SplitFromShift([c], u, d, 0);
  }

  lemma SplitJoinStep(ws: seq<string>, t: string, d: set<char>)
    requires ' ' in d && |ws| > 1 && ws[0] != [] && Free(ws[0], d)
    ensures Split(Join(ws) + t, d) == [ws[0]] + Split(Join(ws[1..]) + t, d)
  {
    var w, u := ws[0], Join(ws[1..]) + t;
    assert Join(ws) + t == w + (" " + u);
    SplitAfterWord(w, " " + u, d);
    SplitAfterDelimiter(' ', u, d);
  }

  /**
   * Non-empty delimiter-free words joined by blanks, followed by text that
   * starts with a delimiter, split into those words and then the tokens of
   * the text.
   */
  lemma {:induction false} SplitJoinThen(ws: seq<string>, t: string, d: set<char>)
    requires ' ' in d
    requires forall i | 0 <= i < |ws| :: ws[i] != [] && Free(ws[i], d)
    requires t == [] || t[0] in d
    ensures Split(Join(ws) + t, d) == ws + Split(t, d)
  {
    if ws == [] {
      assert Join(ws) + t == t;
    } else if |ws| == 1 {
      SplitAfterWord(ws[0], t, d);
    } else {
      SplitJoinStep(ws, t, d);
      SplitJoinThen(ws[1..], t, d);
      assert ws == [ws[0]] + ws[1..];
    }
  }

  lemma {:induction false} SplitFromSkips(s: string, d: set<char>, i: nat, k: nat)
    requires i <= k < |s|
    requires forall j | i <= j < k :: s[j] in d
    ensures SplitFrom(s, d, i) == SplitFrom(s, d, k)
    decreases k - i
  {
    if i < k {
      SplitFromSkips(s, d, i + 1, k);
    }
  }

  /** The first token starts at the first character that is not a delimiter. */
  lemma SplitHead(s: string, d: set<char>, k: nat)
    requires k < |s| && s[k] !in d
    requires forall j | 0 <= j < k :: s[j] in d
    ensures Split(s, d) != [] && Split(s, d)[0][0] == s[k]
  {
    SplitFromSkips(s, d, 0, k);
  }

  /** Non-empty delimiter-free words joined by blanks split back into the same words. */
  lemma SplitJoin(ws: seq<string>, d: set<char>)
    requires ' ' in d
    requires forall i | 0 <= i < |ws| :: ws[i] != [] && Free(ws[i], d)
    ensures Split(Join(ws), d) == ws
  {
    SplitJoinThen(ws, [], d);
    assert Join(ws) + [] == Join(ws);
  }
}
