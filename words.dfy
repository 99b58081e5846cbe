/**
 * The comparison-operator rewrite of the list-query middleware: every whole
 * word `gt`, `gte`, `lt`, `lte` or `in` gets a `$` written in front of it, so
 * that `{"price":{"lte":"10"}}` becomes `{"price":{"$lte":"10"}}`.
 *
 * The source does this with the global regular expression
 * `\b(gt|gte|lt|lte|in)\b`. `Rewrite` below walks the text run by run; the
 * predicate `MatchAt` states, index by index, where that regular expression
 * matches, and the lemmas tie the two together.
 */
module Words {

  /** A character of the class `\w`: `[A-Za-z0-9_]`. */
  predicate IsWordChar(c: char) {
    'a' <= c <= 'z' || 'A' <= c <= 'Z' || '0' <= c <= '9' || c == '_'
  }

  /** One of the five comparison words of the pattern's alternation: `gt`, `gte`, `lt`, `lte`, `in`. */
  predicate IsOperator(w: string) {
    || (|w| == 2 && w[0] == 'g' && w[1] == 't')
    || (|w| == 3 && w[0] == 'g' && w[1] == 't' && w[2] == 'e')
    || (|w| == 2 && w[0] == 'l' && w[1] == 't')
    || (|w| == 3 && w[0] == 'l' && w[1] == 't' && w[2] == 'e')
    || (|w| == 2 && w[0] == 'i' && w[1] == 'n')
  }

  /** The length of the run of word characters at the front of `s`. */
  function RunLength(s: string): (n: nat)
    ensures n <= |s|
    ensures forall i :: 0 <= i < n ==> IsWordChar(s[i])
    ensures n == |s| || !IsWordChar(s[n])
  {
    if s == [] || !IsWordChar(s[0]) then 0 else 1 + RunLength(s[1..])
  }

  /** `s` starts with a maximal word run that is one of the comparison words. */
  predicate StartsWithOperator(s: string) {
    s != [] && IsWordChar(s[0]) && IsOperator(s[..RunLength(s)])
  }

  /**
   * The rewrite: non-word characters are copied, each maximal run of word
   * characters is copied, with a `$` in front when the run is a comparison word.
   */
  function Rewrite(s: string): string
    decreases |s|
  {
    if s == [] then []
    else if !IsWordChar(s[0]) then [s[0]] + Rewrite(s[1..])
    else
      var n := RunLength(s);
      (if IsOperator(s[..n]) then "$" + s[..n] else s[..n]) + Rewrite(s[n..])
  }

  /** Undoes `Rewrite`: drops the `$` in front of each comparison word. */
  function Restore(r: string): string
    decreases |r|
  {
    if r == [] then []
    else if r[0] == '$' && StartsWithOperator(r[1..]) then
      var n := RunLength(r[1..]);
      r[1..1 + n] + Restore(r[1 + n..])
    else if !IsWordChar(r[0]) then [r[0]] + Restore(r[1..])
    else
      var n := RunLength(r);
      r[..n] + Restore(r[n..])
  }

  // ---------------------------------------------------------------------------
  // Where the regular expression matches

  /** The two-letter alternative `ab` matches at index `i` and is followed by a word boundary. */
  predicate Word2At(s: string, i: nat, a: char, b: char) {
    && i + 2 <= |s| && s[i] == a && s[i + 1] == b
    && (i + 2 == |s| || !IsWordChar(s[i + 2]))
  }

  /** The three-letter alternative `abc` matches at index `i` and is followed by a word boundary. */
  predicate Word3At(s: string, i: nat, a: char, b: char, c: char) {
    && i + 3 <= |s| && s[i] == a && s[i + 1] == b && s[i + 2] == c
    && (i + 3 == |s| || !IsWordChar(s[i + 3]))
  }

  /** `\b(gt|gte|lt|lte|in)\b` matches at index `i` of `s`. */
  predicate MatchAt(s: string, i: nat) {
    && i < |s|
    && (i == 0 || !IsWordChar(s[i - 1]))
    && (Word2At(s, i, 'g', 't') || Word3At(s, i, 'g', 't', 'e') || Word2At(s, i, 'l', 't')
        || Word3At(s, i, 'l', 't', 'e') || Word2At(s, i, 'i', 'n'))
  }

  /**
   * Reference rewrite of `s[i..]` in the context of the whole `s`: copy each
   * character, writing a `$` first wherever the pattern matches.
   */
  function MarkedFrom(s: string, i: nat): string
    requires i <= |s|
    decreases |s| - i
  {
    if i == |s| then [] else (if MatchAt(s, i) then ['$', s[i]] else [s[i]]) + MarkedFrom(s, i + 1)
  }

  /** The number of indexes at or after `i` where the pattern matches. */
  function MatchesFrom(s: string, i: nat): nat
    requires i <= |s|
    decreases |s| - i
  {
    if i == |s| then 0 else (if MatchAt(s, i) then 1 else 0) + MatchesFrom(s, i + 1)
  }

  /** The number of matches of the pattern in `s`. */
  function MatchCount(s: string): nat {
    MatchesFrom(s, 0)
  }

  // ---------------------------------------------------------------------------
  // Lemmas: one step of each walk

  /** Every character of `w` is a word character. */
  predicate AllWord(w: string) {
    forall i :: 0 <= i < |w| ==> IsWordChar(w[i])
  }

  /** `y` is empty or starts with a non-word character: a word run before it ends there. */
  predicate Boundary(y: string) {
    y == [] || !IsWordChar(y[0])
  }

  /** Appending text at a boundary leaves the length of a run alone. */
  lemma {:induction false} RunLengthOfRun(w: string, y: string)
    requires AllWord(w) && Boundary(y)
    ensures RunLength(w + y) == |w|
  {
    if w != [] {
      assert (w + y)[1..] == w[1..] + y;
      RunLengthOfRun(w[1..], y);
    } else {
      assert w + y == y;
    }
  }

  /** `s` splits into its leading run and what follows, which starts at a boundary. */
  lemma SplitRun(s: string)
    ensures AllWord(s[..RunLength(s)]) && Boundary(s[RunLength(s)..])
    ensures s == s[..RunLength(s)] + s[RunLength(s)..]
  {
  }

  /** `Rewrite` on a whole word run followed by a boundary. */
  lemma RewriteRun(w: string, y: string)
    requires w != [] && AllWord(w) && Boundary(y)
    ensures Rewrite(w + y) == (if IsOperator(w) then "$" + w else w) + Rewrite(y)
  {
    RunLengthOfRun(w, y);
    assert (w + y)[..|w|] == w && (w + y)[|w|..] == y;
  }

  /** `Rewrite` keeps a boundary at the front. */
  lemma RewriteKeepsBoundary(y: string)
    requires Boundary(y)
    ensures Boundary(Rewrite(y))
  {
  }

  /** The output of `Rewrite` never starts with a bare comparison word. */
  lemma RewriteStartsWithNoOperator(x: string)
    ensures !StartsWithOperator(Rewrite(x))
  {
    if x != [] && IsWordChar(x[0]) {
      var n := RunLength(x);
      var w, y := x[..n], x[n..];
      SplitRun(x);
      RewriteRun(w, y);
      if !IsOperator(w) {
        RewriteKeepsBoundary(y);
        RunLengthOfRun(w, Rewrite(y));
        assert (w + Rewrite(y))[..n] == w;
      }
    }
  }

  /** `Restore` copies a non-word character that is not a `$` before a comparison word. */
  lemma RestoreChar(c: char, y: string)
    requires !IsWordChar(c) && !StartsWithOperator(y)
    ensures Restore([c] + y) == [c] + Restore(y)
  {
    assert ([c] + y)[1..] == y;
  }

  /** `Restore` drops the `$` in front of a comparison word. */
  lemma RestoreOperator(w: string, y: string)
    requires IsOperator(w) && Boundary(y)
    ensures Restore("$" + w + y) == w + Restore(y)
  {
    var r := "$" + w + y;
    assert r[1..] == w + y;
    RunLengthOfRun(w, y);
    assert (w + y)[..|w|] == w;
    assert r[1..1 + |w|] == w && r[1 + |w|..] == y;
  }

  /** `Restore` copies a word run that is not a comparison word. */
  lemma RestorePlainRun(w: string, y: string)
    requires w != [] && AllWord(w) && !IsOperator(w) && Boundary(y)
    ensures Restore(w + y) == w + Restore(y)
  {
    RunLengthOfRun(w, y);
    assert (w + y)[..|w|] == w && (w + y)[|w|..] == y;
  }

  /** The rewrite only adds `$` characters: every other character occurs as often as in the input. */
  lemma {:induction false} RewriteAddsOnlyDollar(s: string)
    ensures forall c :: c != '$' ==> multiset(Rewrite(s))[c] == multiset(s)[c]
    decreases |s|
  {
    if s == [] {
    } else if !IsWordChar(s[0]) {
      RewriteAddsOnlyDollar(s[1..]);
      assert s == [s[0]] + s[1..];
    } else {
      var n := RunLength(s);
      var w, y := s[..n], s[n..];
      RewriteAddsOnlyDollar(y);
      var head := if IsOperator(w) then "$" + w else w;
      assert Rewrite(s) == head + Rewrite(y);
      assert multiset(Rewrite(s)) == multiset(head) + multiset(Rewrite(y));
      assert s == w + y;
      assert multiset(s) == multiset(w) + multiset(y);
    }
  }

  /** Round trip: removing the inserted `$` characters gives back the input. */
  lemma {:induction false} RestoreRewrite(s: string)
    ensures Restore(Rewrite(s)) == s
    decreases |s|
  {
    if s == [] {
    } else if !IsWordChar(s[0]) {
      assert Rewrite(s) == [s[0]] + Rewrite(s[1..]);
      RewriteStartsWithNoOperator(s[1..]);
      RestoreChar(s[0], Rewrite(s[1..]));
      RestoreRewrite(s[1..]);
      assert s == [s[0]] + s[1..];
    } else {
      var n := RunLength(s);
      var w, y := s[..n], s[n..];
      SplitRun(s);
      RewriteRun(w, y);
      RewriteKeepsBoundary(y);
      if IsOperator(w) {
        RestoreOperator(w, Rewrite(y));
      } else {
        RestorePlainRun(w, Rewrite(y));
      }
      RestoreRewrite(y);
    }
  }

  /**
   * `Rewrite` is injective, so rewritten keys of one object never collide,
   * and `Restore` finds the original of every rewritten text.
   */
  lemma RewriteInjective()
    ensures forall a, b :: Rewrite(a) == Rewrite(b) ==> a == b
    ensures forall a :: Restore(Rewrite(a)) == a
  {
    forall a ensures Restore(Rewrite(a)) == a {
      RestoreRewrite(a);
    }
  }

  // ---------------------------------------------------------------------------
  // Lemmas: the walk agrees with the regular expression

  /** Right after a word character the pattern cannot match. */
  lemma NoMatchAfterWordChar(s: string, j: nat)
    requires 0 < j < |s| && IsWordChar(s[j - 1])
    ensures !MatchAt(s, j)
  {
  }

  /** Inside a run of word characters the reference rewrite only copies. */
  lemma {:induction false} InsideRunMarked(s: string, i: nat, n: nat, j: nat)
    requires i + n <= |s| && i < j <= i + n
    requires forall q :: i <= q < i + n ==> IsWordChar(s[q])
    ensures MarkedFrom(s, j) == s[j..i + n] + MarkedFrom(s, i + n)
    decreases i + n - j
  {
    if j < i + n {
      NoMatchAfterWordChar(s, j);
      InsideRunMarked(s, i, n, j + 1);
      var rest := MarkedFrom(s, i + n);
      assert MarkedFrom(s, j) == [s[j]] + (s[j + 1..i + n] + rest);
      assert s[j..i + n] == [s[j]] + s[j + 1..i + n];
      assert [s[j]] + (s[j + 1..i + n] + rest) == ([s[j]] + s[j + 1..i + n]) + rest;
    }
  }

  /** Inside a run of word characters the pattern finds no match. */
  lemma {:induction false} InsideRunMatches(s: string, i: nat, n: nat, j: nat)
    requires i + n <= |s| && i < j <= i + n
    requires forall q :: i <= q < i + n ==> IsWordChar(s[q])
    ensures MatchesFrom(s, j) == MatchesFrom(s, i + n)
    decreases i + n - j
  {
    if j < i + n {
      NoMatchAfterWordChar(s, j);
      InsideRunMatches(s, i, n, j + 1);
    }
  }

  /** Inside a run of word characters the pattern cannot match after its first index. */
  lemma InsideRun(s: string, i: nat, n: nat, j: nat)
    requires i + n <= |s| && i < j <= i + n
    requires forall q :: i <= q < i + n ==> IsWordChar(s[q])
    ensures MarkedFrom(s, j) == s[j..i + n] + MarkedFrom(s, i + n)
    ensures MatchesFrom(s, j) == MatchesFrom(s, i + n)
  {
    InsideRunMarked(s, i, n, j);
    InsideRunMatches(s, i, n, j);
  }

  /** A run of `k` word characters followed by a boundary has length `k`. */
  lemma RunLengthExact(t: string, k: nat)
    requires k <= |t|
    requires forall q :: 0 <= q < k ==> IsWordChar(t[q])
    requires k == |t| || !IsWordChar(t[k])
    ensures RunLength(t) == k
  {
    assert t == t[..k] + t[k..];
    RunLengthOfRun(t[..k], t[k..]);
  }

  /** At the start of a word run, a two-letter alternative matches iff it is the whole run. */
  lemma Word2AtRun(s: string, i: nat, a: char, b: char)
    requires i < |s| && IsWordChar(a) && IsWordChar(b)
    ensures Word2At(s, i, a, b) <==> RunLength(s[i..]) == 2 && s[i] == a && s[i + 1] == b
  {
    var t := s[i..];
    if Word2At(s, i, a, b) {
      assert t[0] == s[i] && t[1] == s[i + 1];
      assert |t| == 2 || t[2] == s[i + 2];
      RunLengthExact(t, 2);
    }
    if RunLength(t) == 2 {
      assert |t| == 2 || t[2] == s[i + 2];
    }
  }

  /** At the start of a word run, a three-letter alternative matches iff it is the whole run. */
  lemma Word3AtRun(s: string, i: nat, a: char, b: char, c: char)
    requires i < |s| && IsWordChar(a) && IsWordChar(b) && IsWordChar(c)
    ensures Word3At(s, i, a, b, c) <==> RunLength(s[i..]) == 3 && s[i] == a && s[i + 1] == b && s[i + 2] == c
  {
    var t := s[i..];
    if Word3At(s, i, a, b, c) {
      assert t[0] == s[i] && t[1] == s[i + 1] && t[2] == s[i + 2];
      assert |t| == 3 || t[3] == s[i + 3];
      RunLengthExact(t, 3);
    }
    if RunLength(t) == 3 {
      assert |t| == 3 || t[3] == s[i + 3];
    }
  }

  /** At the start of a maximal word run, the pattern matches iff the run is a comparison word. */
  lemma MatchAtRun(s: string, i: nat)
    requires i < |s| && (i == 0 || !IsWordChar(s[i - 1]))
    ensures MatchAt(s, i) <==> IsOperator(s[i..i + RunLength(s[i..])])
  {
    var n := RunLength(s[i..]);
    var w := s[i..i + n];
    Word2AtRun(s, i, 'g', 't');
    Word3AtRun(s, i, 'g', 't', 'e');
    Word2AtRun(s, i, 'l', 't');
    Word3AtRun(s, i, 'l', 't', 'e');
    Word2AtRun(s, i, 'i', 'n');
    assert n >= 1 ==> w[0] == s[i];
    assert n >= 2 ==> w[1] == s[i + 1];
    assert n >= 3 ==> w[2] == s[i + 2];
  }

  /** The reference rewrite of a whole word run: one optional `$`, then the run. */
  lemma MarkedRun(s: string, i: nat, n: nat)
    requires 0 < n && i + n <= |s|
    requires forall q :: i <= q < i + n ==> IsWordChar(s[q])
    ensures MarkedFrom(s, i) == (if MatchAt(s, i) then "$" + s[i..i + n] else s[i..i + n]) + MarkedFrom(s, i + n)
    ensures MatchesFrom(s, i) == (if MatchAt(s, i) then 1 else 0) + MatchesFrom(s, i + n)
  {
    var rest := MarkedFrom(s, i + n);
    var tail := if n > 1 then s[i + 1..i + n] + rest else rest;
    if n > 1 {
      InsideRun(s, i, n, i + 1);
    }
    assert MarkedFrom(s, i + 1) == tail;
    assert s[i..i + n] + rest == [s[i]] + tail;
    if MatchAt(s, i) {
      assert MarkedFrom(s, i) == ['$', s[i]] + tail;
    } else {
      assert MarkedFrom(s, i) == [s[i]] + tail;
    }
  }

  /** The length of the reference rewrite counts one extra character per match. */
  lemma {:induction false} MarkedLength(s: string, i: nat)
    requires i <= |s|
    ensures |MarkedFrom(s, i)| == |s| - i + MatchesFrom(s, i)
    decreases |s| - i
  {
    if i < |s| {
      MarkedLength(s, i + 1);
    }
  }

  /** The pattern never matches at a non-word character: every alternative starts with a letter. */
  lemma NoMatchAtNonWord(s: string, i: nat)
    requires i < |s| && !IsWordChar(s[i])
    ensures !MatchAt(s, i)
  {
  }

  /** One step of `Rewrite` over a non-word character agrees with the reference rewrite. */
  lemma CharStep(s: string, i: nat)
    requires i < |s| && !IsWordChar(s[i])
    ensures Rewrite(s[i..]) == [s[i]] + Rewrite(s[i + 1..])
    ensures MarkedFrom(s, i) == [s[i]] + MarkedFrom(s, i + 1)
  {
    NoMatchAtNonWord(s, i);
    assert s[i..][1..] == s[i + 1..];
  }

  /** The word run that starts at index `i` of `s`, seen from `s` itself. */
  lemma RunAt(s: string, i: nat)
    requires i < |s| && IsWordChar(s[i])
    ensures var n := RunLength(s[i..]);
      && 0 < n && i + n <= |s| && (i + n == |s| || !IsWordChar(s[i + n]))
      && (forall q :: i <= q < i + n ==> IsWordChar(s[q]))
      && AllWord(s[i..i + n]) && Boundary(s[i + n..])
      && s[i..] == s[i..i + n] + s[i + n..]
  {
    var t := s[i..];
    var n := RunLength(t);
    SplitRun(t);
    assert t[..n] == s[i..i + n] && t[n..] == s[i + n..];
    forall q | i <= q < i + n ensures IsWordChar(s[q]) {
      assert s[q] == t[..n][q - i];
    }
    assert i + n == |s| || s[i + n] == t[n..][0];
  }

  /** One step of `Rewrite` over a whole word run agrees with the reference rewrite. */
  lemma RunStep(s: string, i: nat) returns (n: nat, out: string)
    requires i < |s| && IsWordChar(s[i]) && (i == 0 || !IsWordChar(s[i - 1]))
    ensures 0 < n && i + n <= |s| && (i + n == |s| || !IsWordChar(s[i + n]))
    ensures Rewrite(s[i..]) == out + Rewrite(s[i + n..])
    ensures MarkedFrom(s, i) == out + MarkedFrom(s, i + n)
  {
    n := RunLength(s[i..]);
    out := if MatchAt(s, i) then "$" + s[i..i + n] else s[i..i + n];
    RunStepRewrite(s, i, n);
    RunStepMarked(s, i, n);
  }

  /** The `Rewrite` half of `RunStep`. */
  lemma RunStepRewrite(s: string, i: nat, n: nat)
    requires i < |s| && IsWordChar(s[i]) && (i == 0 || !IsWordChar(s[i - 1]))
    requires n == RunLength(s[i..])
    ensures 0 < n && i + n <= |s|
    ensures Rewrite(s[i..]) == (if MatchAt(s, i) then "$" + s[i..i + n] else s[i..i + n]) + Rewrite(s[i + n..])
  {
    RunAt(s, i);
    var w, y := s[i..i + n], s[i + n..];
    RewriteRun(w, y);
    MatchAtRun(s, i);
    assert Rewrite(s[i..]) == Rewrite(w + y);
  }

  /** The reference half of `RunStep`. */
  lemma RunStepMarked(s: string, i: nat, n: nat)
    requires i < |s| && IsWordChar(s[i])
    requires n == RunLength(s[i..])
    ensures 0 < n && i + n <= |s| && (i + n == |s| || !IsWordChar(s[i + n]))
    ensures MarkedFrom(s, i) == (if MatchAt(s, i) then "$" + s[i..i + n] else s[i..i + n]) + MarkedFrom(s, i + n)
  {
    RunAt(s, i);
    MarkedRun(s, i, n);
  }

  /**
   * `Rewrite` is the reference rewrite, wherever `i` is a place the run-by-run
   * walk can reach: the start, just after a non-word character, or just
   * before one.
   */
  lemma {:induction false} RewriteFromIsMarked(s: string, i: nat)
    requires i <= |s|
    requires i == 0 || i == |s| || !IsWordChar(s[i - 1]) || !IsWordChar(s[i])
    ensures Rewrite(s[i..]) == MarkedFrom(s, i)
    decreases |s| - i
  {
    if i < |s| {
      if !IsWordChar(s[i]) {
        CharStep(s, i);
        RewriteFromIsMarked(s, i + 1);
      } else {
        var n, out := RunStep(s, i);
        RewriteFromIsMarked(s, i + n);
      }
    }
  }

  /**
   * The run-by-run rewrite puts a `$` before exactly the indexes where
   * `\b(gt|gte|lt|lte|in)\b` matches, and changes nothing else.
   */
  lemma RewriteIsMarked(s: string)
    ensures Rewrite(s) == MarkedFrom(s, 0)
  {
    RewriteFromIsMarked(s, 0);
    assert s[0..] == s;
  }

  /** The output is longer than the input by exactly the number of matches. */
  lemma RewriteLength(s: string)
    ensures |Rewrite(s)| == |s| + MatchCount(s)
  {
    RewriteIsMarked(s);
    MarkedLength(s, 0);
  }

  /** Text in which the pattern matches nowhere comes out unchanged. */
  lemma NoMatchUnchanged(s: string)
    requires forall i :: 0 <= i < |s| ==> !MatchAt(s, i)
    ensures Rewrite(s) == s
  {
    RewriteIsMarked(s);
    MarkedWithoutMatches(s, 0);
  }

  lemma {:induction false} MarkedWithoutMatches(s: string, i: nat)
    requires i <= |s|
    requires forall k :: i <= k < |s| ==> !MatchAt(s, k)
    ensures MarkedFrom(s, i) == s[i..]
    decreases |s| - i
  {
    if i < |s| {
      MarkedWithoutMatches(s, i + 1);
      assert s[i..] == [s[i]] + s[i + 1..];
    }
  }

  /** A single run of word characters is rewritten iff it is a comparison word. */
  lemma SingleRun(w: string)
    requires w != [] && AllWord(w)
    ensures Rewrite(w) == if IsOperator(w) then "$" + w else w
  {
    RewriteRun(w, []);
    assert w + [] == w;
  }

  /** A longer run that merely contains or ends in a comparison word is left alone. */
  lemma LongerRunUntouched()
    ensures Rewrite("gt16") == "gt16"
    ensures Rewrite("length") == "length"
  {
    SingleRun("gt16");
    SingleRun("length");
  }

  /** `gte` is a comparison word in its own right, not `gt` followed by `e`. */
  lemma WholeRunRewritten()
    ensures Rewrite("gte") == "$gte"
  {
    SingleRun("gte");
  }
}
