/** The name normalisers that make the modal table and the orders grid meet
    (rpa_hashtag.py `_normalize_name_for_key`, `_normalize_name_for_csv`),
    the cell cleaner `limpar_texto`, the XPath quoting helper `xpath_literal`
    and the row padding rule of the modal reader. */
module Names {
  import opened Wrappers
  import opened Text
  import opened WordSplit

  // ---------------------------------------------------------------------
  // The regular-expression steps
  // ---------------------------------------------------------------------

  /** The characters of the class `[#\-'\(\)]`. */
  predicate IsPunct(c: char) {
    c == '#' || c == '-' || c == '\'' || c == '(' || c == ')'
  }

  /** `re.sub(r"[#\-'\(\)]", '', s)`. */
  function RemovePunct(s: string): (r: string)
    ensures |r| <= |s|
  {
    if s == [] then []
    else if IsPunct(s[0]) then RemovePunct(s[1..])
    else [s[0]] + RemovePunct(s[1..])
  }

  /** `re.sub(r'^\s*' + p + r'\s*', '', s)` for a literal `p`: when `p`
      follows the leading whitespace it is cut off together with that
      whitespace and the whitespace after it; otherwise `s` is unchanged. */
  function DropPrefixToken(s: string, p: string): (r: string)
    requires |p| > 0
    ensures |r| <= |s| && r == s[|s| - |r|..]
  {
    var t := TrimLeft(s);
    if StartsWith(t, p) then TrimLeft(t[|p|..]) else s
  }

  /** `re.sub(r'^\s*\d+\s*', '', s)`. */
  function DropLeadingNumber(s: string): (r: string)
    ensures |r| <= |s| && r == s[|s| - |r|..]
  {
    var t := TrimLeft(s);
    var d := DigitRun(t);
    if d > 0 then TrimLeft(t[d..]) else s
  }

  /** `_normalize_name_for_key` on a string (rpa_hashtag.py:836-849). */
  function NameKey(s: string): string {
    var a := RemovePunct(Lower(Strip(s)));
    var b := DropPrefixToken(a, "mp");
    var c := DropPrefixToken(b, "gg");
    RemoveSpaces(DropLeadingNumber(c))
  }

  /** `_normalize_name_for_key`, `None` included. */
  function NormalizeNameForKey(s: Option<string>): (r: string)
    ensures s == None ==> r == ""
    ensures s.Some? ==> r == NameKey(s.value)
  {
    match s
    case None => ""
    case Some(v) => NameKey(v)
  }

  /** `_normalize_name_for_csv` on a string (rpa_hashtag.py:857-860). */
  function DisplayName(s: string): string {
    CollapseSpaces(Strip(DropPrefixToken(s, "#")), ' ')
  }

  /** `_normalize_name_for_csv`, `None` included. */
  function NormalizeNameForCsv(s: Option<string>): (r: string)
    ensures s == None ==> r == ""
    ensures s.Some? ==> r == DisplayName(s.value)
  {
    match s
    case None => ""
    case Some(v) => DisplayName(v)
  }

  // ---------------------------------------------------------------------
  // The same steps on the list of words
  // ---------------------------------------------------------------------

  function PunctWords(ws: seq<string>): seq<string> {
    if ws == [] then [] else ConsNonEmpty(RemovePunct(ws[0]), PunctWords(ws[1..]))
  }

  /** Cuts `p` off the front of the first word. */
  function DropWordPrefix(ws: seq<string>, p: string): seq<string> {
    if ws != [] && StartsWith(ws[0], p) then ConsNonEmpty(ws[0][|p|..], ws[1..]) else ws
  }

  /** Cuts the leading digits off the first word. */
  function DropNumberWord(ws: seq<string>): seq<string> {
    if ws != [] && DigitRun(ws[0]) > 0 then ConsNonEmpty(ws[0][DigitRun(ws[0])..], ws[1..]) else ws
  }

  /** The join key read on words: lower-case every word, delete the
      punctuation, cut `mp`, then `gg`, then a digit run off the first word,
      and glue what is left together. */
  function KeyOfWords(ws: seq<string>): string {
    Concat(DropNumberWord(DropWordPrefix(DropWordPrefix(PunctWords(LowerWords(ws)), "mp"), "gg")))
  }

  // ---------------------------------------------------------------------
  // Character-level facts
  // ---------------------------------------------------------------------

  lemma {:induction false} RemovePunctAppend(a: string, b: string)
    ensures RemovePunct(a + b) == RemovePunct(a) + RemovePunct(b)
    decreases |a|
  {
    if a == [] {
      assert a + b == b;
    } else {
      assert (a + b)[1..] == a[1..] + b;
      RemovePunctAppend(a[1..], b);
      if !IsPunct(a[0]) {
        assert RemovePunct(a + b) == [a[0]] + RemovePunct(a[1..] + b);
      }
    }
  }

  /** Deleting characters keeps every property that holds character by character. */
  lemma {:induction false} RemovePunctKeeps(s: string)
    ensures NoSpace(s) ==> NoSpace(RemovePunct(s))
    ensures AllSpace(s) ==> RemovePunct(s) == s
    ensures NoUpper(s) ==> NoUpper(RemovePunct(s))
    ensures !StartsWord(s) ==> !StartsWord(RemovePunct(s))
    ensures NoPunct(RemovePunct(s))
    decreases |s|
  {
    if s != [] {
      RemovePunctKeeps(s[1..]);
      var r := RemovePunct(s[1..]);
      if !IsPunct(s[0]) {
        var x := [s[0]] + r;
        forall i | 1 <= i < |x| ensures x[i] == r[i - 1] { }
        if NoSpace(s) {
          assert NoSpace(s[1..]) by {
            forall i | 0 <= i < |s[1..]| ensures !IsSpace(s[1..][i]) { assert s[1..][i] == s[i + 1]; }
          }
        }
        if AllSpace(s) {
          assert AllSpace(s[1..]) by {
            forall i | 0 <= i < |s[1..]| ensures IsSpace(s[1..][i]) { assert s[1..][i] == s[i + 1]; }
          }
          assert [s[0]] + s[1..] == s;
        }
        if NoUpper(s) {
          assert NoUpper(s[1..]) by {
            forall i | 0 <= i < |s[1..]| ensures !IsUpper(s[1..][i]) { assert s[1..][i] == s[i + 1]; }
          }
        }
      } else {
        if NoUpper(s) {
          assert NoUpper(s[1..]) by {
            forall i | 0 <= i < |s[1..]| ensures !IsUpper(s[1..][i]) { assert s[1..][i] == s[i + 1]; }
          }
        }
        if NoSpace(s) {
          assert NoSpace(s[1..]) by {
            forall i | 0 <= i < |s[1..]| ensures !IsSpace(s[1..][i]) { assert s[1..][i] == s[i + 1]; }
          }
        }
      }
    }
  }

  predicate NoPunct(s: string) {
    forall i :: 0 <= i < |s| ==> !IsPunct(s[i])
  }

  lemma {:induction false} SuffixKeeps(s: string, k: nat)
    requires k <= |s|
    ensures NoUpper(s) ==> NoUpper(s[k..])
    ensures NoPunct(s) ==> NoPunct(s[k..])
  {
    forall i | 0 <= i < |s| - k ensures s[k..][i] == s[k + i] { }
  }

  lemma {:induction false} RemoveSpacesKeeps(s: string)
    ensures NoUpper(s) ==> NoUpper(RemoveSpaces(s))
    ensures NoPunct(s) ==> NoPunct(RemoveSpaces(s))
    decreases |s|
  {
    if s != [] {
      SuffixKeeps(s, 1);
      RemoveSpacesKeeps(s[1..]);
      var r := RemoveSpaces(s[1..]);
      var x := [s[0]] + r;
      forall i | 1 <= i < |x| ensures x[i] == r[i - 1] { }
    }
  }

  lemma {:induction false} DigitRunOfWord(w: string, r: string)
    requires NoSpace(w)
    requires !StartsWord(r)
    ensures DigitRun(w + r) == DigitRun(w)
    decreases |w|
  {
    if w == [] {
      assert w + r == r;
    } else {
      assert (w + r)[1..] == w[1..] + r;
      assert NoSpace(w[1..]) by {
        forall i | 0 <= i < |w[1..]| ensures !IsSpace(w[1..][i]) { assert w[1..][i] == w[i + 1]; }
      }
      DigitRunOfWord(w[1..], r);
    }
  }

  lemma {:induction false} WordRunAtLeast(t: string, k: nat)
    requires k <= |t| && NoSpace(t[..k])
    ensures WordRun(t) >= k
    decreases k
  {
    if k > 0 {
      assert t[0] == t[..k][0];
      var u := t[1..][..k - 1];
      forall i | 0 <= i < |u| ensures !IsSpace(u[i]) {
        assert u[i] == t[..k][i + 1];
      }
      WordRunAtLeast(t[1..], k - 1);
    }
  }

  /** A whitespace-free `p` starts a string exactly when it starts its first word. */
  lemma {:induction false} StartsWithFirstWord(t: string, p: string)
    requires NoSpace(p)
    ensures StartsWith(t, p) <==> StartsWith(t[..WordRun(t)], p)
  {
    var n := WordRun(t);
    if StartsWith(t, p) {
      WordRunAtLeast(t, |p|);
      assert t[..n][..|p|] == t[..|p|];
    }
    if StartsWith(t[..n], p) {
      assert t[..n][..|p|] == t[..|p|];
    }
  }

  lemma {:induction false} SuffixNoSpace(w: string, k: nat)
    requires NoSpace(w) && k <= |w|
    ensures NoSpace(w[k..])
  {
    forall i | 0 <= i < |w| - k ensures !IsSpace(w[k..][i]) { assert w[k..][i] == w[k + i]; }
  }

  // ---------------------------------------------------------------------
  // Each step of the normalisers, read on words
  // ---------------------------------------------------------------------

  lemma {:induction false} WordsOfRemovePunct(s: string)
    ensures Words(RemovePunct(s)) == PunctWords(Words(s))
    decreases |s|
  {
    var t := TrimLeft(s);
    var pre := s[..|s| - |t|];
    if t == [] {
      assert s[..|s|] == s;
      RemovePunctKeeps(s);
      WordsOfSpaces(s);
    } else {
      FirstWord(s);
      var n := WordRun(t);
      var w, r := t[..n], t[n..];
      RemovePunctAppend(pre, w + r);
      RemovePunctAppend(w, r);
      RemovePunctKeeps(pre);
      RemovePunctKeeps(w);
      RemovePunctKeeps(r);
      WordsOfSpacesPrefix(pre, RemovePunct(w) + RemovePunct(r));
      WordsConsNonEmpty(RemovePunct(w), RemovePunct(r));
      WordsOfRemovePunct(r);
      assert ([w] + Words(r))[1..] == Words(r);
    }
  }

  /** How the first word of a string that starts with a word character
      meets a whitespace-free prefix `p`. */
  lemma {:induction false} DropWordPrefixOfFirst(t: string, p: string)
    requires StartsWord(t) && NoSpace(p)
    ensures StartsWith(t, p) ==> Words(TrimLeft(t[|p|..])) == DropWordPrefix(Words(t), p)
    ensures !StartsWith(t, p) ==> DropWordPrefix(Words(t), p) == Words(t)
  {
    var n := WordRun(t);
    var w, r := t[..n], t[n..];
    WordsSplitFirst(t);
    StartsWithFirstWord(t, p);
    if StartsWith(t, p) {
      var v := w[|p|..];
      assert t[|p|..] == v + r;
      SuffixNoSpace(w, |p|);
      WordsConsNonEmpty(v, r);
      WordsOfTrimLeft(v + r);
    }
  }

  lemma {:induction false} WordsOfDropPrefixToken(s: string, p: string)
    requires |p| > 0 && NoSpace(p)
    ensures Words(DropPrefixToken(s, p)) == DropWordPrefix(Words(s), p)
  {
    var t := TrimLeft(s);
    WordsOfTrimLeft(s);
    if t != [] {
      DropWordPrefixOfFirst(t, p);
    }
  }

  /** The same for the leading digit run. */
  lemma {:induction false} DropNumberOfFirst(t: string)
    requires StartsWord(t)
    ensures DigitRun(t) > 0 ==> Words(TrimLeft(t[DigitRun(t)..])) == DropNumberWord(Words(t))
    ensures DigitRun(t) == 0 ==> DropNumberWord(Words(t)) == Words(t)
  {
    var n := WordRun(t);
    var w, r := t[..n], t[n..];
    assert Words(t) == [w] + Words(r) by {
      WordsSplitFirst(t);
    }
    assert t == w + r;
    assert DigitRun(t) == DigitRun(w) by {
      DigitRunOfWord(w, r);
    }
    var d := DigitRun(w);
    if d > 0 {
      NumberCutWord(t, w, r, d);
    }
  }

  /** Cutting `d` leading characters of the first word `w` of `t = w + r`. */
  lemma NumberCutWord(t: string, w: string, r: string, d: nat)
    requires t == w + r && NoSpace(w) && 0 < d <= |w| && !StartsWord(r)
    ensures Words(TrimLeft(t[d..])) == ConsNonEmpty(w[d..], Words(r))
  {
    var v := w[d..];
    assert t[d..] == v + r;
    SuffixNoSpace(w, d);
    WordsConsNonEmpty(v, r);
    WordsOfTrimLeft(v + r);
  }

  lemma {:induction false} WordsOfDropLeadingNumber(s: string)
    ensures Words(DropLeadingNumber(s)) == DropNumberWord(Words(s))
  {
    var t := TrimLeft(s);
    WordsOfTrimLeft(s);
    if t != [] {
      DropNumberOfFirst(t);
    }
  }

  lemma {:induction false} CleanedWords(s: string)
    ensures Words(RemovePunct(Lower(Strip(s)))) == PunctWords(LowerWords(Words(s)))
  {
    WordsOfStrip(s);
    WordsOfLower(Strip(s));
    WordsOfRemovePunct(Lower(Strip(s)));
  }

  lemma {:induction false} PrefixesCutWords(a: string)
    ensures Words(DropPrefixToken(DropPrefixToken(a, "mp"), "gg"))
         == DropWordPrefix(DropWordPrefix(Words(a), "mp"), "gg")
  {
    WordsOfDropPrefixToken(a, "mp");
    WordsOfDropPrefixToken(DropPrefixToken(a, "mp"), "gg");
  }

  lemma {:induction false} NumberCutConcat(c: string)
    ensures RemoveSpaces(DropLeadingNumber(c)) == Concat(DropNumberWord(Words(c)))
  {
    WordsOfDropLeadingNumber(c);
    RemoveSpacesIsConcat(DropLeadingNumber(c));
  }

  /** The join key depends only on the words of the name. */
  lemma {:induction false} NameKeyOfWords(s: string)
    ensures NameKey(s) == KeyOfWords(Words(s))
  {
    var a := RemovePunct(Lower(Strip(s)));
    CleanedWords(s);
    var c := DropPrefixToken(DropPrefixToken(a, "mp"), "gg");
    PrefixesCutWords(a);
    NumberCutConcat(c);
  }

  /** The display name is the words of the name, after one leading `#` is
      cut off, joined by single spaces. */
  lemma {:induction false} DisplayNameOfWords(s: string)
    ensures DisplayName(s) == Join(" ", DropWordPrefix(Words(s), "#"))
  {
    assert NoSpace("#");
    DisplayWords(s, "#");
  }

  lemma {:induction false} DisplayWords(s: string, p: string)
    requires |p| > 0 && NoSpace(p)
    ensures CollapseSpaces(Strip(DropPrefixToken(s, p)), ' ') == Join(" ", DropWordPrefix(Words(s), p))
  {
    CollapseOfStrip(DropPrefixToken(s, p));
    WordsOfDropPrefixToken(s, p);
  }

  lemma {:induction false} DropWordPrefixWellFormed(ws: seq<string>, p: string)
    requires WellFormed(ws)
    ensures WellFormed(DropWordPrefix(ws, p))
  {
    if ws != [] && StartsWith(ws[0], p) {
      SuffixNoSpace(ws[0], |p|);
    }
  }

  // ---------------------------------------------------------------------
  // What the normalisers promise
  // ---------------------------------------------------------------------

  lemma {:induction false} DropPrefixTokenKeeps(a: string, p: string)
    requires |p| > 0
    ensures NoUpper(a) ==> NoUpper(DropPrefixToken(a, p))
    ensures NoPunct(a) ==> NoPunct(DropPrefixToken(a, p))
  {
    SuffixKeeps(a, |a| - |DropPrefixToken(a, p)|);
  }

  lemma {:induction false} DropLeadingNumberKeeps(a: string)
    ensures NoUpper(a) ==> NoUpper(DropLeadingNumber(a))
    ensures NoPunct(a) ==> NoPunct(DropLeadingNumber(a))
  {
    SuffixKeeps(a, |a| - |DropLeadingNumber(a)|);
  }

  lemma {:induction false} CutsKeep(a: string)
    requires NoUpper(a) && NoPunct(a)
    ensures var d := DropLeadingNumber(DropPrefixToken(DropPrefixToken(a, "mp"), "gg"));
      NoUpper(d) && NoPunct(d)
  {
    var b := DropPrefixToken(a, "mp");
    DropPrefixTokenKeeps(a, "mp");
    var c := DropPrefixToken(b, "gg");
    DropPrefixTokenKeeps(b, "gg");
    DropLeadingNumberKeeps(c);
  }

  /** What is left before the final whitespace deletion is already lower-case
      and free of punctuation. */
  lemma {:induction false} KeyBeforeSpacesClean(s: string)
    ensures var d := DropLeadingNumber(DropPrefixToken(DropPrefixToken(RemovePunct(Lower(Strip(s))), "mp"), "gg"));
      NoUpper(d) && NoPunct(d)
  {
    LowerNoUpper(Strip(s));
    RemovePunctKeeps(Lower(Strip(s)));
    CutsKeep(RemovePunct(Lower(Strip(s))));
  }

  /** The key is lower-case and has no whitespace and none of `# - ' ( )`. */
  lemma {:induction false} NameKeyShape(s: string)
    ensures NoSpace(NameKey(s)) && NoUpper(NameKey(s)) && NoPunct(NameKey(s))
  {
    KeyBeforeSpacesClean(s);
    RemoveSpacesKeeps(DropLeadingNumber(DropPrefixToken(DropPrefixToken(RemovePunct(Lower(Strip(s))), "mp"), "gg")));
  }

  /** The display name has no whitespace at either end, and each whitespace
      character in it is a single `' '` between two words. */
  lemma {:induction false} DisplayNameSingleSpaced(s: string)
    ensures SingleSpaced(DisplayName(s))
  {
    DisplayNameOfWords(s);
    WordsWellFormed(s);
    DropWordPrefixWellFormed(Words(s), "#");
    JoinIsSingleSpaced(DropWordPrefix(Words(s), "#"));
  }

  /** Names that differ only in the amount or kind of whitespace get the same key. */
  lemma {:induction false} NameKeyIgnoresSpacing(s: string, t: string)
    requires Words(s) == Words(t)
    ensures NameKey(s) == NameKey(t)
  {
    NameKeyOfWords(s);
    NameKeyOfWords(t);
  }

  lemma {:induction false} NameKeyIgnoresCase(s: string)
    ensures NameKey(Lower(s)) == NameKey(s)
  {
    NameKeyOfWords(s);
    NameKeyOfWords(Lower(s));
    WordsOfLower(s);
    LowerWordsIdempotent(Words(s));
  }

  lemma {:induction false} PunctWordsCons(w: string, ws: seq<string>)
    ensures PunctWords([w] + ws) == ConsNonEmpty(RemovePunct(w), PunctWords(ws))
  {
    assert ([w] + ws)[1..] == ws;
  }

  /** Cutting a leading `#` off the first word does not change the key. */
  lemma {:induction false} KeyOfWordsDropHash(ws: seq<string>)
    ensures KeyOfWords(DropWordPrefix(ws, "#")) == KeyOfWords(ws)
  {
    if ws != [] && StartsWith(ws[0], "#") {
      var w, rest := ws[0], ws[1..];
      var v := w[1..];
      assert w == "#" + v;
      LowerAppend("#", v);
      assert Lower(w) == "#" + Lower(v);
      assert RemovePunct(Lower(w)) == RemovePunct(Lower(v));
      assert ws == [w] + rest;
      assert LowerWords(ws) == [Lower(w)] + LowerWords(rest);
      PunctWordsCons(Lower(w), LowerWords(rest));
      if v != [] {
        assert LowerWords([v] + rest) == [Lower(v)] + LowerWords(rest);
        PunctWordsCons(Lower(v), LowerWords(rest));
      }
    }
  }

  /** The property the reconciliation join rests on: the grid keeps courier
      names in display form and the modal keeps them raw, and both give the
      same key. */
  lemma {:induction false} NameKeyOfDisplayName(s: string)
    ensures NameKey(DisplayName(s)) == NameKey(s)
  {
    var d := DropWordPrefix(Words(s), "#");
    DisplayNameOfWords(s);
    WordsWellFormed(s);
    DropWordPrefixWellFormed(Words(s), "#");
    WordsOfJoin(d);
    NameKeyOfWords(DisplayName(s));
    NameKeyOfWords(s);
    KeyOfWordsDropHash(Words(s));
  }

  // ---------------------------------------------------------------------
  // The courier of the reconciliation scenario: `#12 Ruan Pablo`
  // ---------------------------------------------------------------------

  /** `"#12 Ruan Pablo".split()` */
  lemma ExampleWords(num: string, w1: string, w2: string, s: string)
    requires num == "#12" && w1 == "Ruan" && w2 == "Pablo" && s == num + " " + w1 + " " + w2
    ensures Words(s) == [num, w1, w2]
  {
    var pablo := " " + w2;
    assert Words(pablo) == Words(w2 + "") by {
      assert pablo[1..] == w2 + "";
    }
    WordsCons(w2, "");
    var ruan := " " + w1 + pablo;
    assert Words(ruan) == Words(w1 + pablo) by {
      assert ruan[1..] == w1 + pablo;
    }
    WordsCons(w1, pablo);
    assert s == num + ruan;
    WordsCons(num, ruan);
  }

  lemma ExampleKeyOfWords(num: string, w1: string, w2: string, l1: string, l2: string)
    requires num == "#12" && w1 == "Ruan" && w2 == "Pablo" && l1 == "ruan" && l2 == "pablo"
    ensures KeyOfWords([num, w1, w2]) == l1 + l2
  {
    assert Lower(num) == num && Lower(w1) == l1 && Lower(w2) == l2;
    assert LowerWords([num, w1, w2]) == [num, l1, l2];
    assert RemovePunct(num) == num[1..] by {
      assert num[1..] == "12";
      assert RemovePunct(num[1..][1..]) == num[1..][1..];
    }
    assert NoPunct(l1) && NoPunct(l2);
    RemovePunctOfClean(l1);
    RemovePunctOfClean(l2);
    PunctWordsCons(num, [l1, l2]);
    PunctWordsCons(l1, [l2]);
    PunctWordsCons(l2, []);
    var pw := [num[1..], l1, l2];
    assert PunctWords([num, l1, l2]) == pw;
    assert !StartsWith(pw[0], "mp") && !StartsWith(pw[0], "gg");
    assert DigitRun(pw[0]) == 2;
    assert DropNumberWord(pw) == [l1, l2];
    assert Concat([l2]) == l2 + Concat([]) by { assert [l2][1..] == []; }
    assert Concat([l1, l2]) == l1 + Concat([l2]) by { assert [l1, l2][1..] == [l2]; }
  }

  /** Text without `# - ' ( )` passes the punctuation pass unchanged. */
  lemma {:induction false} RemovePunctOfClean(s: string)
    requires NoPunct(s)
    ensures RemovePunct(s) == s
    decreases |s|
  {
    if s != [] {
      assert NoPunct(s[1..]) by {
        forall i | 0 <= i < |s[1..]| ensures !IsPunct(s[1..][i]) { assert s[1..][i] == s[i + 1]; }
      }
      RemovePunctOfClean(s[1..]);
      assert !IsPunct(s[0]);
    }
  }

  /** `#12 Ruan Pablo` has the key `ruanpablo`: the `#`, the number and the
      spaces go, and the letters are lower-cased. */
  lemma NameKeyExample(num: string, w1: string, w2: string, s: string)
    requires num == "#12" && w1 == "Ruan" && w2 == "Pablo" && s == num + " " + w1 + " " + w2
    ensures NameKey(s) == "ruan" + "pablo"
  {
    ExampleWords(num, w1, w2, s);
    NameKeyOfWords(s);
    ExampleKeyOfWords(num, w1, w2, "ruan", "pablo");
  }

  /** ... and the display name `12 Ruan Pablo`: only the `#` goes. */
  lemma DisplayNameExample(num: string, w1: string, w2: string, s: string)
    requires num == "#12" && w1 == "Ruan" && w2 == "Pablo" && s == num + " " + w1 + " " + w2
    ensures DisplayName(s) == num[1..] + " " + w1 + " " + w2
  {
    ExampleWords(num, w1, w2, s);
    DisplayNameOfWords(s);
    DropHashJoin(num, w1, w2);
  }

  lemma DropHashJoin(num: string, w1: string, w2: string)
    requires num == "#12" && w1 == "Ruan" && w2 == "Pablo"
    ensures Join(" ", DropWordPrefix([num, w1, w2], "#")) == num[1..] + " " + w1 + " " + w2
  {
    assert StartsWith(num, "#");
    var d := [num[1..], w1, w2];
    assert DropWordPrefix([num, w1, w2], "#") == d;
    JoinThree(" ", num[1..], w1, w2);
  }

  lemma JoinThree(sep: string, a: string, b: string, c: string)
    ensures Join(sep, [a, b, c]) == a + sep + b + sep + c
  {
    assert Join(sep, [c]) == c;
    assert Join(sep, [b, c]) == b + sep + c by { assert [b, c][1..] == [c]; }
    assert Join(sep, [a, b, c]) == a + sep + (b + sep + c) by { assert [a, b, c][1..] == [b, c]; }
  }
}
