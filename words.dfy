/** A word-level view of strings: Python's `str.split()` with no argument.
    Both name normalisers only ever look at where the whitespace runs are, so
    their behaviour can be stated on the list of words; the lemmas here
    connect the character-level operations of module Text with that view. */
module WordSplit {
  import opened Text

  predicate IsWord(w: string) {
    w != [] && NoSpace(w)
  }

  predicate WellFormed(ws: seq<string>) {
    forall k :: 0 <= k < |ws| ==> IsWord(ws[k])
  }

  /** `s` begins with a non-whitespace character, i.e. a word starts at its front. */
  predicate StartsWord(s: string) {
    s != [] && !IsSpace(s[0])
  }

  /** `s.split()`: the maximal runs of non-whitespace characters, in order.
      Read one character at a time: a whitespace character is skipped, and a
      word character either glues onto the word that follows it directly or
      forms the end of its word. */
  function Words(s: string): (ws: seq<string>)
    ensures StartsWord(s) ==> |ws| > 0
    decreases |s|
  {
    if s == [] then []
    else if IsSpace(s[0]) then Words(s[1..])
    else
      var rest := Words(s[1..]);
      if StartsWord(s[1..]) then [[s[0]] + rest[0]] + rest[1..]
      else [[s[0]]] + rest
  }

  /** Prepends `w` unless it is empty (what is left of a word after a prefix is cut off). */
  function ConsNonEmpty(w: string, ws: seq<string>): seq<string> {
    if w == [] then ws else [w] + ws
  }

  /** A string is single-spaced when it has no whitespace at either end and
      every whitespace character in it is a lone `' '`. */
  predicate SingleSpaced(r: string) {
    && (r == [] || (!IsSpace(r[0]) && !IsSpace(r[|r| - 1])))
    && forall i :: 0 <= i < |r| - 1 && IsSpace(r[i]) ==> r[i] == ' ' && !IsSpace(r[i + 1])
  }

  // ---------------------------------------------------------------------
  // Basic facts
  // ---------------------------------------------------------------------

  /** Every element of `s.split()` is a non-empty run without whitespace. */
  lemma {:induction false} WordsWellFormed(s: string)
    ensures WellFormed(Words(s))
    decreases |s|
  {
    if s != [] {
      WordsWellFormed(s[1..]);
      var rest := Words(s[1..]);
      if !IsSpace(s[0]) && StartsWord(s[1..]) {
        var w := [s[0]] + rest[0];
        assert IsWord(rest[0]);
        forall i | 0 <= i < |w| ensures !IsSpace(w[i]) {
          if i > 0 {
            assert w[i] == rest[0][i - 1];
          }
        }
      }
    }
  }

  /** A string that does not end in whitespace has a word unless it is empty. */
  lemma {:induction false} WordsNonEmpty(s: string)
    requires s != [] && !IsSpace(s[|s| - 1])
    ensures Words(s) != []
    decreases |s|
  {
    if IsSpace(s[0]) {
      assert s[1..][|s| - 2] == s[|s| - 1];
      WordsNonEmpty(s[1..]);
    }
  }

  lemma {:induction false} WordsOfSpacesPrefix(a: string, b: string)
    requires AllSpace(a)
    ensures Words(a + b) == Words(b)
    decreases |a|
  {
    if a == [] {
      assert a + b == b;
    } else {
      assert (a + b)[1..] == a[1..] + b;
      WordsOfSpacesPrefix(a[1..], b);
    }
  }

  lemma {:induction false} WordsOfSpaces(a: string)
    requires AllSpace(a)
    ensures Words(a) == []
  {
    WordsOfSpacesPrefix(a, []);
    assert a + [] == a;
  }

  lemma {:induction false} WordsOfSpacesSuffix(s: string, a: string)
    requires AllSpace(a)
    ensures Words(s + a) == Words(s)
    decreases |s|
  {
    if s == [] {
      assert s + a == a;
      WordsOfSpaces(a);
    } else {
      assert (s + a)[1..] == s[1..] + a;
      WordsOfSpacesSuffix(s[1..], a);
      if s[1..] == [] {
        assert s[1..] + a == a;
      } else {
        assert (s[1..] + a)[0] == s[1..][0];
      }
    }
  }

  /** A word followed by the end of the string or by whitespace is the first element. */
  lemma {:induction false} WordsCons(w: string, r: string)
    requires IsWord(w)
    requires !StartsWord(r)
    ensures Words(w + r) == [w] + Words(r)
    decreases |w|
  {
    var s := w + r;
    assert s[1..] == w[1..] + r;
    if |w| == 1 {
      assert w[1..] + r == r;
      assert w == [s[0]];
    } else {
      assert IsWord(w[1..]) by {
        forall i | 0 <= i < |w[1..]| ensures !IsSpace(w[1..][i]) {
          assert w[1..][i] == w[i + 1];
        }
      }
      WordsCons(w[1..], r);
      assert StartsWord(s[1..]) by { assert s[1] == w[1]; }
      assert [s[0]] + w[1..] == w;
    }
  }

  lemma {:induction false} WordsConsNonEmpty(w: string, r: string)
    requires NoSpace(w)
    requires !StartsWord(r)
    ensures Words(w + r) == ConsNonEmpty(w, Words(r))
  {
    if w == [] {
      assert w + r == r;
    } else {
      WordsCons(w, r);
    }
  }

  /** A string that starts with a word character splits into its first word and the rest. */
  lemma {:induction false} WordsSplitFirst(t: string)
    requires StartsWord(t)
    ensures Words(t) == [t[..WordRun(t)]] + Words(t[WordRun(t)..])
  {
    var n := WordRun(t);
    assert t == t[..n] + t[n..];
    WordsCons(t[..n], t[n..]);
  }

  /** The decomposition of a string into its leading whitespace, its first
      word and the rest, which is empty or starts with whitespace. */
  lemma {:induction false} FirstWord(s: string)
    requires TrimLeft(s) != []
    ensures var t := TrimLeft(s); var n := WordRun(t);
      && 0 < n <= |t|
      && s == s[..|s| - |t|] + (t[..n] + t[n..])
      && IsWord(t[..n])
      && !StartsWord(t[n..])
      && Words(s) == [t[..n]] + Words(t[n..])
  {
    var t := TrimLeft(s);
    assert WordRun(t) > 0 by {
      assert !IsSpace(t[0]);
    }
    FirstWordShape(s, t, WordRun(t));
    FirstWordWords(s);
  }

  lemma FirstWordShape(s: string, t: string, n: nat)
    requires |t| <= |s| && t == s[|s| - |t|..]
    requires 0 < n <= |t| && NoSpace(t[..n]) && (n == |t| || IsSpace(t[n]))
    ensures s == s[..|s| - |t|] + (t[..n] + t[n..])
    ensures IsWord(t[..n]) && !StartsWord(t[n..])
  {
    assert t == t[..n] + t[n..];
    var k := |s| - |t|;
    assert s == s[..k] + s[k..];
    assert n < |t| ==> t[n..][0] == t[n];
  }

  lemma FirstWordWords(s: string)
    requires TrimLeft(s) != []
    ensures var t := TrimLeft(s); Words(s) == [t[..WordRun(t)]] + Words(t[WordRun(t)..])
  {
    var t := TrimLeft(s);
    var pre := s[..|s| - |t|];
    assert s == pre + t;
    WordsOfSpacesPrefix(pre, t);
    WordsSplitFirst(t);
  }

  lemma {:induction false} WordsOfTrimLeft(s: string)
    ensures Words(TrimLeft(s)) == Words(s)
    decreases |s|
  {
    if |s| > 0 && IsSpace(s[0]) {
      WordsOfTrimLeft(s[1..]);
    }
  }

  lemma {:induction false} WordsOfStrip(s: string)
    ensures Words(Strip(s)) == Words(s)
  {
    var t := TrimLeft(s);
    WordsOfTrimLeft(s);
    var u := TrimRight(t);
    assert t == u + t[|u|..];
    WordsOfSpacesSuffix(u, t[|u|..]);
  }

  // ---------------------------------------------------------------------
  // Character-level operations read on words
  // ---------------------------------------------------------------------

  /** Deleting all whitespace leaves the words glued together. */
  lemma {:induction false} RemoveSpacesIsConcat(s: string)
    ensures RemoveSpaces(s) == Concat(Words(s))
    decreases |s|
  {
    if s != [] {
      RemoveSpacesIsConcat(s[1..]);
      var rest := Words(s[1..]);
      if !IsSpace(s[0]) {
        if StartsWord(s[1..]) {
          assert Concat(rest) == rest[0] + Concat(rest[1..]);
          assert Concat(Words(s)) == ([s[0]] + rest[0]) + Concat(rest[1..]);
        } else {
          assert Concat(Words(s)) == [s[0]] + Concat(rest);
        }
      }
    }
  }

  function LowerWords(ws: seq<string>): (r: seq<string>)
    ensures |r| == |ws|
    ensures forall k :: 0 <= k < |ws| ==> r[k] == Lower(ws[k])
  {
    if ws == [] then [] else [Lower(ws[0])] + LowerWords(ws[1..])
  }

  /** Lower-casing does not move word boundaries. */
  lemma {:induction false} WordsOfLower(s: string)
    ensures Words(Lower(s)) == LowerWords(Words(s))
    decreases |s|
  {
    if s != [] {
      var l := Lower(s);
      assert l[1..] == Lower(s[1..]);
      WordsOfLower(s[1..]);
      var rest := Words(s[1..]);
      if !IsSpace(s[0]) {
        assert StartsWord(l[1..]) <==> StartsWord(s[1..]);
        if StartsWord(s[1..]) {
          assert Lower([s[0]] + rest[0]) == [l[0]] + Lower(rest[0]);
          assert LowerWords(rest) == [Lower(rest[0])] + LowerWords(rest[1..]);
          assert LowerWords(rest)[1..] == LowerWords(rest[1..]);
          assert Words(l) == [[l[0]] + Lower(rest[0])] + LowerWords(rest[1..]);
        } else {
          assert Lower([s[0]]) == [l[0]];
          assert Words(l) == [[l[0]]] + LowerWords(rest);
        }
      }
    }
  }

  lemma {:induction false} LowerWordsIdempotent(ws: seq<string>)
    ensures LowerWords(LowerWords(ws)) == LowerWords(ws)
  {
    forall k | 0 <= k < |ws| ensures LowerWords(LowerWords(ws))[k] == LowerWords(ws)[k] {
      LowerIdempotent(ws[k]);
    }
  }

  /** Putting one `c` before a single-space join glues it onto the first word. */
  lemma {:induction false} JoinGlue(c: char, ws: seq<string>)
    requires ws != []
    ensures Join(" ", [[c] + ws[0]] + ws[1..]) == [c] + Join(" ", ws)
  {
    var vs := [[c] + ws[0]] + ws[1..];
    assert vs[1..] == ws[1..];
  }

  /** `re.sub(r'\s+', ' ', y)` on a string without trailing whitespace is the
      single-space join of its words, with one extra space in front if `y`
      starts with whitespace. */
  lemma {:induction false} CollapseIsJoin(y: string)
    requires y == [] || !IsSpace(y[|y| - 1])
    ensures y != [] && IsSpace(y[0]) ==> CollapseSpaces(y, ' ') == " " + Join(" ", Words(y))
    ensures y == [] || !IsSpace(y[0]) ==> CollapseSpaces(y, ' ') == Join(" ", Words(y))
    decreases |y|, 1
  {
    if y == [] {
    } else if IsSpace(y[0]) {
      CollapseSpaceStep(y);
    } else {
      CollapseWordStep(y);
    }
  }

  /** The step of CollapseIsJoin for a string starting with whitespace. */
  lemma {:induction false} CollapseSpaceStep(y: string)
    requires y != [] && IsSpace(y[0]) && !IsSpace(y[|y| - 1])
    ensures CollapseSpaces(y, ' ') == " " + Join(" ", Words(y))
    decreases |y|, 0
  {
    var y1 := y[1..];
    var t := TrimLeft(y1);
    assert y1[|y1| - 1] == y[|y| - 1];
    assert y1[..|y1|] == y1;
    assert t != [];
    assert t[|t| - 1] == y1[|y1| - 1];
    CollapseWordStep(t);
    WordsOfTrimLeft(y1);
  }

  /** The step of CollapseIsJoin for a string starting with a word character. */
  lemma {:induction false} CollapseWordStep(y: string)
    requires y != [] && !IsSpace(y[0]) && !IsSpace(y[|y| - 1])
    ensures CollapseSpaces(y, ' ') == Join(" ", Words(y))
    decreases |y|, 0
  {
    var y1 := y[1..];
    var c := y[0];
    if y1 != [] {
      assert y1[|y1| - 1] == y[|y| - 1];
    }
    CollapseIsJoin(y1);
    var ws := Words(y1);
    assert CollapseSpaces(y, ' ') == [c] + CollapseSpaces(y1, ' ');
    if StartsWord(y1) {
      assert Words(y) == [[c] + ws[0]] + ws[1..];
      JoinGlue(c, ws);
    } else if y1 != [] {
      WordsNonEmpty(y1);
      assert Words(y) == [[c]] + ws;
      assert ([[c]] + ws)[1..] == ws;
    } else {
      assert Words(y) == [[c]];
    }
  }

  /** `re.sub(r'\s+', ' ', x.strip())` is the single-space join of the words of `x`. */
  lemma {:induction false} CollapseOfStrip(x: string)
    ensures CollapseSpaces(Strip(x), ' ') == Join(" ", Words(x))
  {
    CollapseIsJoin(Strip(x));
    WordsOfStrip(x);
  }

  lemma {:induction false} JoinCons(ws: seq<string>)
    requires |ws| > 1
    ensures Join(" ", ws) == ws[0] + (" " + Join(" ", ws[1..]))
  {
  }

  /** Splitting a single-space join gives back the words. */
  lemma {:induction false} WordsOfJoin(ws: seq<string>)
    requires WellFormed(ws)
    ensures Words(Join(" ", ws)) == ws
    decreases |ws|
  {
    if |ws| == 1 {
      WordsCons(ws[0], []);
      assert ws[0] + [] == ws[0];
    } else if |ws| > 1 {
      var rest := Join(" ", ws[1..]);
      JoinCons(ws);
      var sp := " " + rest;
      WordsCons(ws[0], sp);
      assert sp[1..] == rest;
      WordsOfJoin(ws[1..]);
      assert Words(Join(" ", ws)) == [ws[0]] + ws[1..];
    }
  }

  /** A single-space join of words is single-spaced. */
  lemma {:induction false} JoinIsSingleSpaced(ws: seq<string>)
    requires WellFormed(ws)
    ensures SingleSpaced(Join(" ", ws))
    ensures ws != [] ==> Join(" ", ws) != []
    decreases |ws|
  {
    if |ws| > 1 {
      var w := ws[0];
      var rest := Join(" ", ws[1..]);
      JoinIsSingleSpaced(ws[1..]);
      var r := Join(" ", ws);
      JoinCons(ws);
      assert |r| == |w| + 1 + |rest|;
      forall i | 0 <= i < |w| ensures !IsSpace(r[i]) {
        assert r[i] == w[i];
      }
      forall i | 0 <= i < |r| - 1 && IsSpace(r[i]) ensures r[i] == ' ' && !IsSpace(r[i + 1]) {
        if i == |w| {
          assert r[i + 1] == rest[0];
        } else {
          assert r[i] == rest[i - |w| - 1];
          assert r[i + 1] == rest[i - |w|];
        }
      }
      assert r[0] == w[0];
      assert r[|r| - 1] == rest[|rest| - 1];
    }
  }
}
