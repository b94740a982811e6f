/** Character classes and the Python string operations the normalisers are
    built from: `str.strip`, `str.lower`, `str.replace`, `str.split` and
    `str.join`, and the regular-expression rewrites `\s+` and `\d+`.
    Whitespace and case are modelled on ASCII only (see README). */
module Text {

  /** `str.isspace()` on ASCII: space, \t \n \v \f \r and the separators \x1c-\x1f. */
  predicate IsSpace(c: char) {
    c == ' ' || ('\t' <= c <= '\r') || ('\U{1C}' <= c <= '\U{1F}')
  }

  predicate IsDigit(c: char) {
    '0' <= c <= '9'
  }

  predicate IsUpper(c: char) {
    'A' <= c <= 'Z'
  }

  function DigitValue(c: char): (d: nat)
    requires IsDigit(c)
    ensures d < 10
  {
    c as int - '0' as int
  }

  function LowerChar(c: char): (r: char)
    ensures !IsUpper(r)
    ensures IsSpace(r) <==> IsSpace(c)
    ensures !IsUpper(c) ==> r == c
  {
    if IsUpper(c) then (c as int - 'A' as int + 'a' as int) as char else c
  }

  /** `str.lower()` (ASCII letters only). */
  function Lower(s: string): (r: string)
    ensures |r| == |s|
    ensures forall i :: 0 <= i < |s| ==> r[i] == LowerChar(s[i])
  {
    seq(|s|, i requires 0 <= i < |s| => LowerChar(s[i]))
  }

  predicate AllSpace(s: string) {
    forall i :: 0 <= i < |s| ==> IsSpace(s[i])
  }

  predicate NoSpace(s: string) {
    forall i :: 0 <= i < |s| ==> !IsSpace(s[i])
  }

  predicate NoUpper(s: string) {
    forall i :: 0 <= i < |s| ==> !IsUpper(s[i])
  }

  predicate StartsWith(s: string, p: string) {
    |p| <= |s| && s[..|p|] == p
  }

  /** `str.lstrip()`, and also the effect of a leading `^\s*` in a regex. */
  function TrimLeft(s: string): (r: string)
    ensures |r| <= |s| && r == s[|s| - |r|..]
    ensures AllSpace(s[..|s| - |r|])
    ensures r == [] || !IsSpace(r[0])
    decreases |s|
  {
    if |s| > 0 && IsSpace(s[0]) then
      var r := TrimLeft(s[1..]);
      assert s[..|s| - |r|] == [s[0]] + s[1..][..|s[1..]| - |r|];
      r
    else s
  }

  /** `str.rstrip()`. */
  function TrimRight(s: string): (r: string)
    ensures |r| <= |s| && r == s[..|r|]
    ensures AllSpace(s[|r|..])
    ensures r == [] || !IsSpace(r[|r| - 1])
    decreases |s|
  {
    if |s| > 0 && IsSpace(s[|s| - 1]) then
      var r := TrimRight(s[..|s| - 1]);
      SpaceTail(s, r);
      r
    else s
  }

  lemma SpaceTail(s: string, r: string)
    requires |s| > 0 && IsSpace(s[|s| - 1]) && |r| <= |s| - 1
    requires r == s[..|s| - 1][..|r|] && AllSpace(s[..|s| - 1][|r|..])
    ensures r == s[..|r|] && AllSpace(s[|r|..])
  {
    forall i | 0 <= i < |s| - |r|
      ensures IsSpace(s[|r|..][i])
    {
      if |r| + i < |s| - 1 {
        assert s[|r|..][i] == s[..|s| - 1][|r|..][i];
      }
    }
  }

  lemma TrimLeftKeeps(s: string)
    requires s == [] || !IsSpace(s[0])
    ensures TrimLeft(s) == s
  {
  }

  lemma TrimRightKeeps(s: string)
    requires s == [] || !IsSpace(s[|s| - 1])
    ensures TrimRight(s) == s
  {
  }

  /** `str.strip()`: no whitespace at either end. */
  function Strip(s: string): (r: string)
    ensures r == [] || (!IsSpace(r[0]) && !IsSpace(r[|r| - 1]))
  {
    TrimRight(TrimLeft(s))
  }

  /** `re.sub(r'\s+', '', s)`: every whitespace character deleted. */
  function RemoveSpaces(s: string): (r: string)
    ensures NoSpace(r)
    ensures |r| <= |s|
  {
    if s == [] then []
    else if IsSpace(s[0]) then RemoveSpaces(s[1..])
    else [s[0]] + RemoveSpaces(s[1..])
  }

  /** Length of the maximal run of digits at the front of `s` (`\d+`). */
  function DigitRun(s: string): (n: nat)
    ensures n <= |s|
    ensures forall i :: 0 <= i < n ==> IsDigit(s[i])
    ensures n == |s| || !IsDigit(s[n])
  {
    if s == [] || !IsDigit(s[0]) then 0 else 1 + DigitRun(s[1..])
  }

  /** Length of the maximal run of non-whitespace characters at the front of `s`. */
  function WordRun(s: string): (n: nat)
    ensures n <= |s|
    ensures NoSpace(s[..n])
    ensures n == |s| || IsSpace(s[n])
  {
    if s == [] || IsSpace(s[0]) then 0 else 1 + WordRun(s[1..])
  }

  /** `re.sub(r'\s+', [sep], s)`: each maximal whitespace run becomes one `sep`. */
  function CollapseSpaces(s: string, sep: char): (r: string)
    ensures |r| <= |s|
    decreases |s|
  {
    if s == [] then []
    else if IsSpace(s[0]) then [sep] + CollapseSpaces(TrimLeft(s[1..]), sep)
    else [s[0]] + CollapseSpaces(s[1..], sep)
  }

  /** `s.replace(pat, rep)` for a non-empty `pat`: the leftmost occurrences, non-overlapping. */
  function ReplaceAll(s: string, pat: string, rep: string): string
    requires |pat| > 0
    decreases |s|
  {
    if |s| < |pat| then s
    else if s[..|pat|] == pat then rep + ReplaceAll(s[|pat|..], pat, rep)
    else [s[0]] + ReplaceAll(s[1..], pat, rep)
  }

  /** The same scan with an ASCII case-insensitive match (`re.IGNORECASE`);
      `pat` is given in lower case. */
  function ReplaceAllIgnoreCase(s: string, pat: string, rep: string): string
    requires |pat| > 0
    decreases |s|
  {
    if |s| < |pat| then s
    else if Lower(s[..|pat|]) == pat then rep + ReplaceAllIgnoreCase(s[|pat|..], pat, rep)
    else [s[0]] + ReplaceAllIgnoreCase(s[1..], pat, rep)
  }

  /** `s.split(sep)` for a one-character separator. */
  function Split(s: string, sep: char): (parts: seq<string>)
    ensures |parts| > 0
    ensures forall k :: 0 <= k < |parts| ==> sep !in parts[k]
  {
    if s == [] then [[]]
    else
      var rest := Split(s[1..], sep);
      if s[0] == sep then [[]] + rest
      else [[s[0]] + rest[0]] + rest[1..]
  }

  /** `sep.join(parts)`. */
  function Join(sep: string, parts: seq<string>): string {
    if parts == [] then []
    else if |parts| == 1 then parts[0]
    else parts[0] + sep + Join(sep, parts[1..])
  }

  function Concat(parts: seq<string>): string {
    if parts == [] then [] else parts[0] + Concat(parts[1..])
  }

  // ---------------------------------------------------------------------
  // Facts about these operations
  // ---------------------------------------------------------------------

  lemma {:induction false} LowerIdempotent(s: string)
    ensures Lower(Lower(s)) == Lower(s)
  {
  }

  lemma {:induction false} LowerNoUpper(s: string)
    ensures NoUpper(Lower(s))
  {
    forall i | 0 <= i < |s| ensures !IsUpper(Lower(s)[i]) {
      assert Lower(s)[i] == LowerChar(s[i]);
    }
  }

  lemma {:induction false} LowerAppend(a: string, b: string)
    ensures Lower(a + b) == Lower(a) + Lower(b)
  {
  }

  lemma {:induction false} SplitJoin(s: string, sep: char)
    ensures Join([sep], Split(s, sep)) == s
    decreases |s|
  {
    if s != [] {
      var rest := Split(s[1..], sep);
      SplitJoin(s[1..], sep);
      if s[0] == sep {
        assert Split(s, sep) == [[]] + rest;
      } else {
        assert Split(s, sep) == [[s[0]] + rest[0]] + rest[1..];
        if |rest| == 1 {
          assert Join([sep], rest) == rest[0];
        } else {
          assert Join([sep], rest) == rest[0] + [sep] + Join([sep], rest[1..]);
        }
      }
    }
  }

  /** A separator that occurs splits the string into at least two parts. */
  lemma {:induction false} SplitCount(s: string, sep: char)
    requires sep in s
    ensures |Split(s, sep)| >= 2
    decreases |s|
  {
    if s[0] != sep {
      assert sep in s[1..];
      SplitCount(s[1..], sep);
    }
  }

  lemma {:induction false} RemoveSpacesAppend(a: string, b: string)
    ensures RemoveSpaces(a + b) == RemoveSpaces(a) + RemoveSpaces(b)
    decreases |a|
  {
    if a != [] {
      assert (a + b)[0] == a[0] && (a + b)[1..] == a[1..] + b;
      RemoveSpacesAppend(a[1..], b);
      if !IsSpace(a[0]) {
        assert RemoveSpaces(a + b) == [a[0]] + RemoveSpaces(a[1..] + b);
      }
    } else {
      assert a + b == b;
    }
  }

  lemma {:induction false} RemoveSpacesOfSpaces(a: string)
    requires AllSpace(a)
    ensures RemoveSpaces(a) == []
    decreases |a|
  {
    if a != [] {
      RemoveSpacesOfSpaces(a[1..]);
    }
  }

  lemma {:induction false} RemoveSpacesOfWord(w: string)
    requires NoSpace(w)
    ensures RemoveSpaces(w) == w
    decreases |w|
  {
    if w != [] {
      RemoveSpacesOfWord(w[1..]);
    }
  }

  lemma {:induction false} SplitNoSep(a: string, sep: char)
    requires sep !in a
    ensures Split(a, sep) == [a]
    decreases |a|
  {
    if a != [] {
      assert sep !in a[1..];
      SplitNoSep(a[1..], sep);
      assert [a[0]] + a[1..] == a;
    }
  }

  lemma {:induction false} SplitAtSep(a: string, sep: char, b: string)
    requires sep !in a
    ensures Split(a + [sep] + b, sep) == [a] + Split(b, sep)
    decreases |a|
  {
    var s := a + [sep] + b;
    if a == [] {
      assert s == [sep] + b;
      assert s[1..] == b;
    } else {
      assert s[1..] == a[1..] + [sep] + b;
      assert sep !in a[1..];
      SplitAtSep(a[1..], sep, b);
      assert [a[0]] + a[1..] == a;
    }
  }

  /** Lower-casing changes nothing in a string without capitals. */
  lemma {:induction false} LowerOfNoUpper(s: string)
    requires NoUpper(s)
    ensures Lower(s) == s
  {
    forall i | 0 <= i < |s| ensures Lower(s)[i] == s[i] {
      assert !IsUpper(s[i]);
    }
  }

  /** `s.replace(pat, rep)` changes nothing when the first character of
      `pat` does not occur in `s`. */
  lemma {:induction false} ReplaceAbsent(s: string, pat: string, rep: string)
    requires |pat| > 0 && pat[0] !in s
    ensures ReplaceAll(s, pat, rep) == s
    decreases |s|
  {
    if |s| >= |pat| {
      assert s[..|pat|] != pat by { assert s[..|pat|][0] == s[0]; }
      assert pat[0] !in s[1..];
      ReplaceAbsent(s[1..], pat, rep);
      assert [s[0]] + s[1..] == s;
    }
  }

  /** A prefix without the first character of `pat` passes through
      `s.replace(pat, rep)` unchanged. */
  lemma {:induction false} ReplaceSkipsPrefix(a: string, s: string, pat: string, rep: string)
    requires |pat| > 0 && pat[0] !in a
    ensures ReplaceAll(a + s, pat, rep) == a + ReplaceAll(s, pat, rep)
    decreases |a|
  {
    if a == [] {
      assert a + s == s;
    } else {
      var x := a + s;
      if |x| < |pat| {
        assert |s| < |pat|;
        assert ReplaceAll(s, pat, rep) == s;
      } else {
        assert x[..|pat|] != pat by { assert x[..|pat|][0] == a[0]; }
        assert ReplaceAll(x, pat, rep) == [x[0]] + ReplaceAll(x[1..], pat, rep);
        assert x[1..] == a[1..] + s;
        assert pat[0] !in a[1..];
        ReplaceSkipsPrefix(a[1..], s, pat, rep);
        assert [a[0]] + (a[1..] + ReplaceAll(s, pat, rep)) == a + ReplaceAll(s, pat, rep);
      }
    }
  }

  /** `s.replace(c, "")` leaves no `c`. */
  lemma {:induction false} ReplaceCharRemoves(s: string, c: char)
    ensures c !in ReplaceAll(s, [c], "")
    decreases |s|
  {
    if |s| >= 1 {
      ReplaceCharRemoves(s[1..], c);
      if s[..1] != [c] {
        assert s[0] == s[..1][0];
      }
    }
  }

  /** A one-character replacement works on the two halves of a string
      separately. */
  lemma {:induction false} ReplaceCharAppend(a: string, b: string, c: char, rep: string)
    ensures ReplaceAll(a + b, [c], rep) == ReplaceAll(a, [c], rep) + ReplaceAll(b, [c], rep)
    decreases |a|
  {
    if a == [] {
      assert a + b == b;
    } else {
      assert (a + b)[..1] == a[..1];
      assert (a + b)[1..] == a[1..] + b;
      ReplaceCharAppend(a[1..], b, c, rep);
      if a[..1] != [c] {
        assert a[..1] == [a[0]];
      }
    }
  }
}
