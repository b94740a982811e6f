/** Reading the modal table of couriers: the per-column cell cleaner
    `limpar_texto` (rpa_hashtag.py:174-184), the XPath quoting helper
    `xpath_literal` used to locate a store by name (rpa_hashtag.py:187-195)
    and the rule that pads a short row with `"-"` and drops a long one
    (rpa_hashtag.py:613-617). */
module Cells {
  import opened Wrappers
  import opened Text

  // ---------------------------------------------------------------------
  // limpar_texto
  // ---------------------------------------------------------------------

  /** Strips the cell; column 0 (the courier) also loses every `#`, column 2
      (the fee sum) every `R$`, each followed by a second strip. */
  function LimparTexto(texto: string, col: int): string {
    var t := Strip(texto);
    if col == 0 then Strip(ReplaceAll(t, "#", ""))
    else if col == 2 then Strip(ReplaceAll(t, "R$", ""))
    else t
  }

  predicate Stripped(s: string) {
    s == [] || (!IsSpace(s[0]) && !IsSpace(s[|s| - 1]))
  }

  lemma {:induction false} StripOfStripped(s: string)
    requires Stripped(s)
    ensures Strip(s) == s
  {
    TrimLeftKeeps(s);
    TrimRightKeeps(s);
  }

  /** `strip` only cuts characters off the ends. */
  lemma {:induction false} StripKeepsAbsent(s: string, c: char)
    requires c !in s
    ensures c !in Strip(s)
  {
    var t := TrimLeft(s);
    assert t == s[|s| - |t|..];
    var u := TrimRight(t);
    assert u == t[..|u|];
  }

  /** Every cleaned cell is stripped, and a courier cell has no `#` left. */
  lemma {:induction false} LimparTextoShape(texto: string, col: int)
    ensures Stripped(LimparTexto(texto, col))
    ensures col == 0 ==> '#' !in LimparTexto(texto, col)
  {
    var t := Strip(texto);
    if col == 0 {
      var u := ReplaceAll(t, "#", "");
      assert '#' !in u by {
        ReplaceCharRemoves(t, '#');
      }
      StripKeepsAbsent(u, '#');
      StrippedStrip(u);
    } else if col == 2 {
      StrippedStrip(ReplaceAll(t, "R$", ""));
    } else {
      StrippedStrip(texto);
    }
  }

  lemma StrippedStrip(x: string)
    ensures Stripped(Strip(x))
  {
  }

  /** Cleaning a cleaned cell again changes nothing, except in column 2. */
  lemma {:induction false} LimparTextoIdempotent(texto: string, col: int)
    requires col != 2
    ensures LimparTexto(LimparTexto(texto, col), col) == LimparTexto(texto, col)
  {
    var r := LimparTexto(texto, col);
    LimparTextoShape(texto, col);
    StripOfStripped(r);
    if col == 0 {
      ReplaceAbsent(r, "#", "");
    }
  }

  /** In column 2 the removal is not idempotent: deleting the inner `R$` of
      `RR$$` forms a new one. */
  lemma {:induction false} LimparTextoFeeNotIdempotent(r: char, d: char)
    requires r == 'R' && d == '$'
    ensures LimparTexto([r, r, d, d], 2) == [r, d]
    ensures LimparTexto([r, d], 2) == []
  {
    FeeClean([r, r, d, d], [r, d]);
    FeeClean([r, d], []);
  }

  lemma FeeClean(t: string, u: string)
    requires (t == "RR$$" && u == "R$") || (t == "R$" && u == "")
    ensures LimparTexto(t, 2) == u
  {
    assert Strip(t) == t by {
      StripOfStripped(t);
    }
    if t == "RR$$" {
      FeeInner();
    } else {
      FeeOuter();
    }
    assert Strip(u) == u by {
      StripOfStripped(u);
    }
  }

  lemma FeeInner()
    ensures ReplaceAll("RR$$", "R$", "") == "R$"
  {
    var a := "RR$$";
    assert a[..2][1] == 'R';
    assert a[1..][..2] == "R$";
    assert a[1..][2..] == "$";
    assert ReplaceAll("$", "R$", "") == "$";
  }

  lemma FeeOuter()
    ensures ReplaceAll("R$", "R$", "") == ""
  {
    assert "R$"[2..] == [];
  }

  // ---------------------------------------------------------------------
  // xpath_literal
  // ---------------------------------------------------------------------

  /** An XPath string literal: the body between two equal quote characters. */
  datatype Literal = Literal(quote: char, body: string)

  /** The two expression forms `xpath_literal` produces: a literal, or a
      call of `concat` on literals. */
  datatype Expr = Single(lit: Literal) | ConcatOf(args: seq<Literal>)

  predicate ValidLiteral(l: Literal) {
    (l.quote == '\'' || l.quote == '"') && l.quote !in l.body
  }

  /** XPath 1.0 `concat` takes at least two arguments. */
  predicate ValidExpr(e: Expr) {
    match e
    case Single(l) => ValidLiteral(l)
    case ConcatOf(args) => |args| >= 2 && forall k :: 0 <= k < |args| ==> ValidLiteral(args[k])
  }

  function RenderLiteral(l: Literal): string {
    [l.quote] + l.body + [l.quote]
  }

  function RenderLiterals(ls: seq<Literal>): (r: seq<string>)
    ensures |r| == |ls|
  {
    if ls == [] then [] else [RenderLiteral(ls[0])] + RenderLiterals(ls[1..])
  }

  /** The concrete syntax of an expression. */
  function Render(e: Expr): string {
    match e
    case Single(l) => RenderLiteral(l)
    case ConcatOf(args) => "concat(" + Join(", ", RenderLiterals(args)) + ")"
  }

  function Bodies(ls: seq<Literal>): string {
    if ls == [] then [] else ls[0].body + Bodies(ls[1..])
  }

  /** The string value XPath gives an expression. */
  function Eval(e: Expr): string {
    match e
    case Single(l) => l.body
    case ConcatOf(args) => Bodies(args)
  }

  function SingleQuoted(parts: seq<string>): (r: seq<string>)
    ensures |r| == |parts|
  {
    if parts == [] then [] else ["'" + parts[0] + "'"] + SingleQuoted(parts[1..])
  }

  /** `xpath_literal(s)`: single quotes when `s` has none, else double
      quotes when it has none of those, else `concat` of the pieces between
      the single quotes, with `"'"` between them. */
  function XPathLiteral(s: string): string {
    if '\'' !in s then "'" + s + "'"
    else if '"' !in s then "\"" + s + "\""
    else
      var parts := Split(s, '\'');
      "concat(" + Join(", \"'\", ", SingleQuoted(parts)) + ")"
  }

  /** The `concat` arguments for the pieces: each piece single-quoted, with
      the literal `"'"` between consecutive pieces. */
  function Interleave(parts: seq<string>): (ls: seq<Literal>)
    requires |parts| > 0
    ensures |ls| == 2 * |parts| - 1
  {
    if |parts| == 1 then [Literal('\'', parts[0])]
    else [Literal('\'', parts[0]), Literal('"', "'")] + Interleave(parts[1..])
  }

  lemma InterleaveRenders(parts: seq<string>)
    requires |parts| > 0
    ensures Join(", ", RenderLiterals(Interleave(parts))) == Join(", \"'\", ", SingleQuoted(parts))
  {
    InterleaveRendersWith(parts, ", ", ", \"'\", ");
  }

  /** The same for any separator `sep` between the arguments. */
  lemma {:induction false} InterleaveRendersWith(parts: seq<string>, sep: string, mid: string)
    requires |parts| > 0 && mid == sep + "\"'\"" + sep
    ensures Join(sep, RenderLiterals(Interleave(parts))) == Join(mid, SingleQuoted(parts))
    decreases |parts|
  {
    if |parts| > 1 {
      var q := "\"'\"";
      var ls, rest := Interleave(parts), Interleave(parts[1..]);
      var r0 := "'" + parts[0] + "'";
      var x := Join(sep, RenderLiterals(rest));
      assert RenderLiterals(ls) == [r0, q] + RenderLiterals(rest) by {
        assert ls[1..][1..] == rest;
        assert RenderLiterals(ls) == [RenderLiteral(ls[0])] + RenderLiterals(ls[1..]);
        assert RenderLiterals(ls[1..]) == [RenderLiteral(ls[1])] + RenderLiterals(rest);
        assert RenderLiteral(ls[0]) == r0 && RenderLiteral(ls[1]) == q;
      }
      assert x == Join(mid, SingleQuoted(parts[1..])) by {
        InterleaveRendersWith(parts[1..], sep, mid);
      }
      JoinTwo(sep, r0, q, RenderLiterals(rest));
      assert SingleQuoted(parts) == [r0] + SingleQuoted(parts[1..]);
      JoinOne(mid, r0, SingleQuoted(parts[1..]));
      assert r0 + sep + (q + sep + x) == r0 + mid + x;
    }
  }

  lemma JoinTwo(sep: string, a: string, b: string, xs: seq<string>)
    requires xs != []
    ensures Join(sep, [a, b] + xs) == a + sep + (b + sep + Join(sep, xs))
  {
    assert ([a, b] + xs)[1..] == [b] + xs;
    assert ([b] + xs)[1..] == xs;
  }

  lemma JoinOne(sep: string, a: string, xs: seq<string>)
    requires xs != []
    ensures Join(sep, [a] + xs) == a + sep + Join(sep, xs)
  {
    assert ([a] + xs)[1..] == xs;
  }

  lemma {:induction false} InterleaveEval(parts: seq<string>)
    requires |parts| > 0
    ensures Bodies(Interleave(parts)) == Join("'", parts)
    decreases |parts|
  {
    if |parts| > 1 {
      InterleaveEval(parts[1..]);
      var ls := Interleave(parts);
      assert ls[1..][1..] == Interleave(parts[1..]);
    }
  }

  lemma {:induction false} InterleaveValid(parts: seq<string>)
    requires |parts| > 0
    requires forall k :: 0 <= k < |parts| ==> '\'' !in parts[k]
    ensures forall k :: 0 <= k < |Interleave(parts)| ==> ValidLiteral(Interleave(parts)[k])
    decreases |parts|
  {
    if |parts| > 1 {
      InterleaveValid(parts[1..]);
      var ls := Interleave(parts);
      assert ls[2..] == Interleave(parts[1..]);
    }
  }

  /** `xpath_literal(s)` is the text of a well-formed XPath expression whose
      value is exactly `s`, whatever quotes `s` contains. */
  lemma {:induction false} XPathLiteralDenotes(s: string)
    ensures exists e :: ValidExpr(e) && Render(e) == XPathLiteral(s) && Eval(e) == s
  {
    if '\'' !in s {
      var e := Single(Literal('\'', s));
      assert Render(e) == XPathLiteral(s);
      assert ValidExpr(e) && Eval(e) == s;
    } else if '"' !in s {
      var e := Single(Literal('"', s));
      assert Render(e) == XPathLiteral(s);
      assert ValidExpr(e) && Eval(e) == s;
    } else {
      var parts := Split(s, '\'');
      SplitCount(s, '\'');
      var e := ConcatOf(Interleave(parts));
      InterleaveRenders(parts);
      InterleaveEval(parts);
      InterleaveValid(parts);
      SplitJoin(s, '\'');
      assert Render(e) == XPathLiteral(s);
      assert ValidExpr(e) && Eval(e) == s;
    }
  }

  // ---------------------------------------------------------------------
  // Row padding
  // ---------------------------------------------------------------------

  /** A row read from the modal is padded with `"-"` up to the number of
      headers; it is kept only if it then has exactly that many cells, which
      drops a row with more cells than headers. */
  method PadRow(row: seq<string>, width: nat) returns (kept: Option<seq<string>>)
    ensures kept.Some? <==> |row| <= width
    ensures kept.Some? ==> |kept.value| == width && kept.value[..|row|] == row
    ensures kept.Some? ==> forall i :: |row| <= i < width ==> kept.value[i] == "-"
  {
    var r := row;
    while |r| < width
      invariant |row| <= |r| && r[..|row|] == row
      invariant |row| <= width ==> |r| <= width
      invariant |row| > width ==> r == row
      invariant forall i :: |row| <= i < |r| ==> r[i] == "-"
      decreases width - |r|
    {
      r := r + ["-"];
    }
    if |r| == width {
      kept := Some(r);
    } else {
      kept := None;
    }
  }
}
