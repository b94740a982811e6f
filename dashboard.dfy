/** The parsing helpers of the dashboard (app.py): alias resolution of
    column names, header normalisation, the Brazilian-currency parser and
    the text rewrite that precedes date parsing. */
module Dashboard {
  import opened Wrappers
  import opened Text
  import opened Calendar

  // ---------------------------------------------------------------------
  // Column aliases (app.py:69-92)
  // ---------------------------------------------------------------------

  /** `ALIASES`: for each canonical key, the accepted column names in the
      order they are tried. */
  const Aliases: map<string, seq<string>> := map[
    "entregador" := ["entregador", "nome_entregador"],
    "chave_pix" := ["chave_pix", "pix", "email_pix"],
    "data_filtro" := ["data_filtro", "data", "data_base"],
    "hora_inicio_filtro" := ["hora_início_filtro", "hora_inicio_filtro", "hora_inicio"],
    "hora_fim_filtro" := ["hora_fim_filtro", "hora_fim"],
    "loja" := ["loja", "unidade", "restaurante"],
    "status" := ["status"],
    "valor_do_pedido" := ["valor_do_pedido", "valor_pedido", "pedido_valor"],
    "taxa_de_entrega" := ["taxa_de_entrega", "taxa_entrega"],
    "taxa_do_entregador" := ["taxa_do_entregador", "taxa_entregador"],
    "data_de_criacao" := ["data_de_criação", "data_de_criacao", "criado_em"],
    "pagamento" := ["pagamento", "forma_pagamento"],
    "classificacao_do_turno" := ["classificação_do_turno", "classificacao_do_turno", "turno"],
    "classificacao_do_dia" := ["classificação_do_dia", "classificacao_do_dia", "dia_semana"],
    "pagamento_por_turno" := ["pagamento_por_turno"]
  ]

  /** The first of `opts` that is among `columns`. */
  function FirstPresent(opts: seq<string>, columns: seq<string>): (r: Option<string>)
    ensures r.None? <==> forall i :: 0 <= i < |opts| ==> opts[i] !in columns
    ensures r.Some? ==> exists i :: 0 <= i < |opts| && opts[i] == r.value && r.value in columns
                                   && forall j :: 0 <= j < i ==> opts[j] !in columns
    decreases |opts|
  {
    if opts == [] then None
    else if opts[0] in columns then Some(opts[0])
    else
      var r := FirstPresent(opts[1..], columns);
      assert forall i :: 1 <= i < |opts| ==> opts[i] == opts[1..][i - 1];
      r
  }

  /** `get_col(df, key)`: an unknown key has no aliases. */
  function GetCol(columns: seq<string>, key: string): (r: Option<string>)
    ensures key !in Aliases ==> r.None?
  {
    FirstPresent(if key in Aliases then Aliases[key] else [], columns)
  }

  /** The column found is an alias of the key, present in the table, and
      every alias listed before it is absent; `None` means that no alias is
      present. */
  lemma GetColFirstAlias(columns: seq<string>, key: string)
    requires key in Aliases
    ensures GetCol(columns, key).None? <==> forall i :: 0 <= i < |Aliases[key]| ==> Aliases[key][i] !in columns
    ensures GetCol(columns, key).Some? ==>
      exists i :: 0 <= i < |Aliases[key]| && Aliases[key][i] == GetCol(columns, key).value
                  && GetCol(columns, key).value in columns
                  && forall j :: 0 <= j < i ==> Aliases[key][j] !in columns
  {
  }

  // ---------------------------------------------------------------------
  // Header normalisation (app.py:170-173)
  // ---------------------------------------------------------------------

  /** `strip()`, then `\s+` to `_`, then `lower()`. */
  function NormalizeHeader(h: string): (r: string)
    ensures NoSpace(r) && NoUpper(r)
  {
    var c := CollapseSpaces(Strip(h), '_');
    CollapseNoSpace(Strip(h), '_');
    Lower(c)
  }

  function NormalizeColumns(columns: seq<string>): (r: seq<string>)
    ensures |r| == |columns|
    ensures forall i :: 0 <= i < |columns| ==> r[i] == NormalizeHeader(columns[i])
  {
    seq(|columns|, i requires 0 <= i < |columns| => NormalizeHeader(columns[i]))
  }

  /** `re.sub(r'\s+', c, s)` with a non-space `c` leaves no whitespace. */
  lemma {:induction false} CollapseNoSpace(s: string, c: char)
    requires !IsSpace(c)
    ensures NoSpace(CollapseSpaces(s, c))
    decreases |s|
  {
    if s != [] {
      if IsSpace(s[0]) {
        CollapseNoSpace(TrimLeft(s[1..]), c);
      } else {
        CollapseNoSpace(s[1..], c);
      }
    }
  }

  /** Without whitespace the collapse changes nothing. */
  lemma {:induction false} CollapseOfNoSpace(s: string, c: char)
    requires NoSpace(s)
    ensures CollapseSpaces(s, c) == s
    decreases |s|
  {
    if s != [] {
      assert !IsSpace(s[0]);
      CollapseOfNoSpace(s[1..], c);
      assert [s[0]] + s[1..] == s;
    }
  }

  lemma StripOfNoSpace(s: string)
    requires NoSpace(s)
    ensures Strip(s) == s
  {
    assert s == [] || (!IsSpace(s[0]) && !IsSpace(s[|s| - 1]));
    TrimLeftKeeps(s);
    TrimRightKeeps(s);
  }

  /** Normalising a normalised header changes nothing. */
  lemma NormalizeHeaderIdempotent(h: string)
    ensures NormalizeHeader(NormalizeHeader(h)) == NormalizeHeader(h)
  {
    var r := NormalizeHeader(h);
    StripOfNoSpace(r);
    CollapseOfNoSpace(r, '_');
    LowerOfNoUpper(r);
  }

  /** Two words separated by one space become the lower-cased words
      joined by `_`. */
  lemma TwoWordHeader(a: string, b: string)
    requires a != [] && b != [] && NoSpace(a) && NoSpace(b)
    ensures NormalizeHeader(a + " " + b) == Lower(a) + "_" + Lower(b)
  {
    var s := a + " " + b;
    assert s[0] == a[0] && s[|s| - 1] == b[|b| - 1];
    StripOfEnds(s);
    assert s == a + (" " + b);
    CollapseWord(a, " " + b);
    assert (" " + b)[1..] == b;
    assert TrimLeft(b) == b;
    assert CollapseSpaces(" " + b, '_') == "_" + CollapseSpaces(b, '_');
    CollapseOfNoSpace(b, '_');
    assert CollapseSpaces(s, '_') == a + "_" + b;
    LowerAppend(a, "_" + b);
    LowerAppend("_", b);
  }

  /** The robot's `Data Filtro` column header normalises to the first
      alias of the filter-date key. */
  lemma FilterDateHeader(a: string, b: string)
    requires a == "Data" && b == "Filtro"
    ensures NormalizeHeader(a + " " + b) == "data_filtro"
  {
    assert NormalizeHeader(a + " " + b) == Lower(a) + "_" + Lower(b) by {
      assert NoSpace(a) && NoSpace(b);
      TwoWordHeader(a, b);
    }
    assert Lower(a) + "_" + Lower(b) == "data_filtro" by {
      LowerWord(a, "data");
      LowerWord(b, "filtro");
    }
  }

  lemma LowerWord(a: string, l: string)
    requires (a == "Data" && l == "data") || (a == "Filtro" && l == "filtro")
    ensures Lower(a) == l
  {
  }

  /** So, once the headers are normalised, `get_col(df, "data_filtro")`
      finds that column. */
  lemma FilterDateResolves(a: string, b: string)
    requires a == "Data" && b == "Filtro"
    ensures GetCol(NormalizeColumns([a + " " + b]), "data_filtro") == Some("data_filtro")
  {
    FilterDateHeader(a, b);
    var cols := NormalizeColumns([a + " " + b]);
    assert cols == ["data_filtro"] by {
      assert |cols| == 1 && cols[0] == "data_filtro";
    }
    DataFiltroAlias(cols);
  }

  lemma DataFiltroAlias(cols: seq<string>)
    requires cols == ["data_filtro"]
    ensures GetCol(cols, "data_filtro") == Some("data_filtro")
  {
    assert Aliases["data_filtro"][0] == "data_filtro";
  }

  lemma StripOfEnds(s: string)
    requires s != [] && !IsSpace(s[0]) && !IsSpace(s[|s| - 1])
    ensures Strip(s) == s
  {
    TrimLeftKeeps(s);
    TrimRightKeeps(s);
  }

  lemma {:induction false} CollapseWord(w: string, rest: string)
    requires NoSpace(w)
    ensures CollapseSpaces(w + rest, '_') == w + CollapseSpaces(rest, '_')
    decreases |w|
  {
    if w != [] {
      assert (w + rest)[0] == w[0] && !IsSpace(w[0]);
      assert (w + rest)[1..] == w[1..] + rest;
      CollapseWord(w[1..], rest);
      assert [w[0]] + w[1..] == w;
    } else {
      assert w + rest == rest;
    }
  }

  // ---------------------------------------------------------------------
  // Brazilian currency (app.py:94-106)
  // ---------------------------------------------------------------------

  /** What `float()` yields, kept exact: the finite decimal
      `coef * 10^exp`, or one of `inf`/`nan`. */
  datatype Number = Finite(coef: int, exp: int) | NonFinite

  /** An optional sign followed by at least one digit, and nothing else. */
  function SignedInt(t: string): (r: Option<int>)
    ensures r.Some? ==> t != []
  {
    var neg := |t| > 0 && t[0] == '-';
    var digits := if |t| > 0 && (t[0] == '+' || t[0] == '-') then t[1..] else t;
    if digits != [] && AllDigits(digits) then
      Some(if neg then -(DigitsValue(digits) as int) else DigitsValue(digits))
    else None
  }

  /** The exponent part after the mantissa: absent, or `e`/`E` and a signed integer. */
  function ExponentValue(t: string): (r: Option<int>)
    ensures t == [] ==> r == Some(0)
  {
    if t == [] then Some(0)
    else if t[0] == 'e' || t[0] == 'E' then SignedInt(t[1..])
    else None
  }

  /** An unsigned decimal numeral (digits, an optional point and digits,
      at least one digit in all, then an optional exponent): its digits read
      as one integer, and the power of ten to scale it by. */
  function DecimalValue(body: string): Option<(nat, int)> {
    var a := DigitRun(body);
    var rest := body[a..];
    var hasPoint := |rest| > 0 && rest[0] == '.';
    var afterPoint := if hasPoint then rest[1..] else rest;
    var b := if hasPoint then DigitRun(afterPoint) else 0;
    if a + b == 0 then None
    else
      match ExponentValue(afterPoint[b..])
      case None => None
      case Some(e) =>
        assert AllDigits(body[..a] + afterPoint[..b]);
        Some((DigitsValue(body[..a] + afterPoint[..b]), e - b))
  }

  predicate NonFiniteWord(w: string) {
    var l := Lower(w);
    l == "inf" || l == "infinity" || l == "nan"
  }

  /** `float(t)` on text: surrounding whitespace, an optional sign, then a
      decimal numeral or `inf`/`infinity`/`nan` in any case; `None` is the
      `ValueError`. */
  function ParseFloat(t: string): Option<Number> {
    var u := Strip(t);
    var neg := |u| > 0 && u[0] == '-';
    var body := if |u| > 0 && (u[0] == '+' || u[0] == '-') then u[1..] else u;
    if NonFiniteWord(body) then Some(NonFinite)
    else
      match DecimalValue(body)
      case None => None
      case Some((m, e)) => Some(Finite(if neg then -(m as int) else m, e))
  }

  /** Drop `R$` and spaces, delete the thousands points, and turn the
      decimal comma into a point. */
  function CleanBrl(s: string): string {
    ReplaceAll(ReplaceAll(ReplaceAll(ReplaceAll(s, "R$", ""), " ", ""), ".", ""), ",", ".")
  }

  /** `parse_brl_to_float`: `None` is `pd.NA`, for a missing cell, a blank
      one, or text that `float()` rejects after the clean-up. */
  function ParseBrl(cell: Option<string>): (r: Option<Number>)
    ensures cell.None? ==> r.None?
    ensures cell.Some? && AllSpace(cell.value) ==> r.None?
  {
    if cell.None? then None
    else
      var s := Strip(cell.value);
      StripOfBlank(cell.value);
      if s == [] then None else ParseFloat(CleanBrl(s))
  }

  lemma StripOfBlank(s: string)
    ensures Strip(s) == [] <==> AllSpace(s)
  {
    var l := TrimLeft(s);
    if l != [] {
      assert !IsSpace(l[0]) && l[0] == s[|s| - |l|];
    }
    if AllSpace(s) && l != [] {
      }
  }

  // ---------------------------------------------------------------------
  // The currency format the parser reads
  // ---------------------------------------------------------------------

  /** The decimal digits of `n`, without leading zeros. */
  function Unpadded(n: nat): (s: string)
    ensures s != [] && AllDigits(s)
  {
    if n < 10 then [DigitChar(n)] else Unpadded(n / 10) + [DigitChar(n % 10)]
  }

  /** The digits of `n` in groups of three separated by `.`. */
  function Grouped(n: nat): (s: string)
    ensures s != [] && IsDigit(s[0]) && IsDigit(s[|s| - 1])
    ensures forall i :: 0 <= i < |s| ==> IsDigit(s[i]) || s[i] == '.'
  {
    if n < 1000 then Unpadded(n)
    else
      var g := Grouped(n / 1000) + "." + Padded(n % 1000, 3);
      assert g[0] == Grouped(n / 1000)[0];
      g
  }

  /** An amount in centavos as `R$ 1.234,56`. */
  function FormatBrl(c: nat): string {
    "R$ " + (Grouped(c / 100) + "," + Padded(c % 100, 2))
  }

  lemma {:induction false} UnpaddedValue(n: nat)
    ensures DigitsValue(Unpadded(n)) == n
  {
    if n >= 10 {
      UnpaddedValue(n / 10);
      DigitsValueAppend(Unpadded(n / 10), DigitChar(n % 10));
    }
  }

  lemma {:induction false} DigitsValueConcat(a: string, b: string)
    requires AllDigits(a) && AllDigits(b)
    ensures AllDigits(a + b)
    ensures DigitsValue(a + b) == DigitsValue(a) * Pow10(|b|) + DigitsValue(b)
    decreases |b|
  {
    if b == [] {
      assert a + b == a;
    } else {
      var b' := b[..|b| - 1];
      var c := b[|b| - 1];
      assert b == b' + [c];
      assert a + b == (a + b') + [c];
      DigitsValueConcat(a, b');
      DigitsValueAppend(a + b', c);
      DigitsValueAppend(b', c);
      assert Pow10(|b|) == 10 * Pow10(|b'|);
      ShiftDigit(DigitsValue(a), Pow10(|b'|), DigitsValue(b'), DigitValue(c));
    }
  }

  lemma ShiftDigit(x: nat, p: nat, y: nat, d: nat)
    ensures 10 * (x * p + y) + d == x * (10 * p) + (10 * y + d)
  {
  }

  /** Deleting the points of the grouped digits of `n` leaves the decimal
      digits of `n`. */
  lemma {:induction false} UngroupedValue(n: nat)
    ensures var d := ReplaceAll(Grouped(n), ".", "");
      d != [] && AllDigits(d) && DigitsValue(d) == n
  {
    if n < 1000 {
      ReplaceAbsent(Unpadded(n), ".", "");
      UnpaddedValue(n);
    } else {
      var g, p := Grouped(n / 1000), Padded(n % 1000, 3);
      UngroupedValue(n / 1000);
      var d := ReplaceAll(g, ".", "");
      ReplaceCharAppend(g + ".", p, '.', "");
      ReplaceCharAppend(g, ".", '.', "");
      assert ReplaceAll(".", ".", "") == "";
      assert '.' !in p;
      ReplaceAbsent(p, ".", "");
      assert ReplaceAll(Grouped(n), ".", "") == d + p;
      DigitsValueConcat(d, p);
      assert Pow10(3) == 1000;
      PaddedValue(n % 1000, 3);
    }
  }

  /** The clean-up turns `R$ 1.234,56` into `1234.56`. */
  lemma CleanOfFormat(c: nat)
    ensures CleanBrl(FormatBrl(c)) == ReplaceAll(Grouped(c / 100), ".", "") + "." + Padded(c % 100, 2)
  {
    UngroupedValue(c / 100);
    CleanOfParts(Grouped(c / 100), Padded(c % 100, 2));
  }

  lemma CleanOfParts(g: string, p: string)
    requires forall i :: 0 <= i < |g| ==> IsDigit(g[i]) || g[i] == '.'
    requires AllDigits(p) && AllDigits(ReplaceAll(g, ".", ""))
    ensures CleanBrl("R$ " + (g + "," + p)) == ReplaceAll(g, ".", "") + "." + p
  {
    var y := g + "," + p;
    var d := ReplaceAll(g, ".", "");
    assert 'R' !in y && ' ' !in y by { AmountChars(g, p); }
    var s1 := ReplaceAll("R$ " + y, "R$", "");
    assert s1 == " " + y by { DropCurrency(y); }
    var s2 := ReplaceAll(s1, " ", "");
    assert s2 == y by { DropSpace(y); }
    var s3 := ReplaceAll(s2, ".", "");
    assert s3 == d + "," + p by { PointsDropped(g, p); }
    assert ReplaceAll(s3, ",", ".") == d + "." + p by { CommaToPoint(d, p); }
  }

  lemma AmountChars(g: string, p: string)
    requires forall i :: 0 <= i < |g| ==> IsDigit(g[i]) || g[i] == '.'
    requires AllDigits(p)
    ensures 'R' !in g + "," + p && ' ' !in g + "," + p
  {
    var y := g + "," + p;
    forall i | 0 <= i < |y|
      ensures y[i] != 'R' && y[i] != ' '
    {
      if i < |g| {
        assert y[i] == g[i];
      } else if i > |g| {
        assert y[i] == p[i - |g| - 1];
      }
    }
  }

  lemma DropSpace(y: string)
    requires ' ' !in y
    ensures ReplaceAll(" " + y, " ", "") == y
  {
    ReplaceCharAppend(" ", y, ' ', "");
    ReplaceAbsent(y, " ", "");
    assert ReplaceAll(" ", " ", "") == "";
  }

  lemma DropCurrency(y: string)
    requires 'R' !in y
    ensures ReplaceAll("R$ " + y, "R$", "") == " " + y
  {
    var s := "R$ " + y;
    assert s[..2] == "R$";
    assert s[2..] == " " + y;
    ReplaceAbsent(" " + y, "R$", "");
  }

  lemma PointsDropped(g: string, p: string)
    requires AllDigits(p)
    ensures ReplaceAll(g + "," + p, ".", "") == ReplaceAll(g, ".", "") + "," + p
  {
    assert g + "," + p == g + ("," + p);
    ReplaceCharAppend(g, "," + p, '.', "");
    assert '.' !in "," + p;
    ReplaceAbsent("," + p, ".", "");
  }

  lemma CommaToPoint(d: string, p: string)
    requires AllDigits(d) && AllDigits(p)
    ensures ReplaceAll(d + "," + p, ",", ".") == d + "." + p
  {
    assert d + "," + p == d + ("," + p);
    ReplaceCharAppend(d, "," + p, ',', ".");
    assert ',' !in d && ',' !in p;
    ReplaceAbsent(d, ",", ".");
    ReplaceCharAppend(",", p, ',', ".");
    ReplaceAbsent(p, ",", ".");
    assert ReplaceAll(",", ",", ".") == ".";
  }

  lemma {:induction false} DigitRunOfDigits(d: string, rest: string)
    requires AllDigits(d) && (rest == [] || !IsDigit(rest[0]))
    ensures DigitRun(d + rest) == |d|
    decreases |d|
  {
    if d == [] {
      assert d + rest == rest;
    } else {
      assert (d + rest)[0] == d[0];
      assert (d + rest)[1..] == d[1..] + rest;
      DigitRunOfDigits(d[1..], rest);
    }
  }

  lemma PlainDecimalValue(d: string, p: string)
    requires d != [] && AllDigits(d) && AllDigits(p)
    ensures AllDigits(d + p)
    ensures DecimalValue(d + "." + p) == Some((DigitsValue(d + p), -|p|))
  {
    var t := d + ("." + p);
    assert t == d + "." + p;
    DigitRunOfDigits(d, "." + p);
    assert t[|d|..] == "." + p;
    assert ("." + p)[1..] == p;
    DigitRunOfDigits(p, []);
    assert p + [] == p;
    assert t[..|d|] == d;
    assert p[|p|..] == [];
    DigitsValueConcat(d, p);
  }

  lemma UnsignedFloat(t: string, m: nat, e: int)
    requires Strip(t) == t && t != [] && IsDigit(t[0]) && !NonFiniteWord(t)
    requires DecimalValue(t) == Some((m, e))
    ensures ParseFloat(t) == Some(Finite(m, e))
  {
  }

  lemma LeadingDigitFinite(t: string)
    requires t != [] && IsDigit(t[0])
    ensures !NonFiniteWord(t)
  {
    assert Lower(t)[0] == t[0];
  }

  /** `float()` reads digits, a point and digits as the exact decimal. */
  lemma PlainDecimal(d: string, p: string)
    requires d != [] && p != [] && AllDigits(d) && AllDigits(p)
    ensures AllDigits(d + p)
    ensures ParseFloat(d + "." + p) == Some(Finite(DigitsValue(d + p), -|p|))
  {
    PlainDecimalText(d, p);
    PlainDecimalValue(d, p);
    UnsignedFloat(d + "." + p, DigitsValue(d + p), -|p|);
  }

  lemma PlainDecimalText(d: string, p: string)
    requires d != [] && p != [] && AllDigits(d) && AllDigits(p)
    ensures var t := d + "." + p; t != [] && IsDigit(t[0]) && Strip(t) == t && !NonFiniteWord(t)
  {
    var t := d + "." + p;
    assert t[0] == d[0] && t[|t| - 1] == p[|p| - 1];
    StripOfEnds(t);
    LeadingDigitFinite(t);
  }

  /** Parsing a formatted amount gives back its value in reais, so
      `R$ 0,00` is the number 0 and not a missing value. */
  lemma ParseFormatted(c: nat)
    ensures ParseBrl(Some(FormatBrl(c))) == Some(Finite(c, -2))
  {
    var g, p := Grouped(c / 100), Padded(c % 100, 2);
    var d := ReplaceAll(g, ".", "");
    assert FormatBrl(c) == "R$ " + (g + "," + p);
    UngroupedValue(c / 100);
    assert AllDigits(d + p) && DigitsValue(d + p) == c && |p| == 2 by { CentsValue(d, p, c); }
    ParseAmountText(g, p);
  }

  lemma CentsValue(d: string, p: string, c: nat)
    requires AllDigits(d) && DigitsValue(d) == c / 100 && p == Padded(c % 100, 2)
    ensures AllDigits(d + p) && DigitsValue(d + p) == c
  {
    assert Pow10(2) == 100;
    PaddedValue(c % 100, 2);
    DigitsValueConcat(d, p);
    var k := DigitsValue(d + p);
    assert k == c;
  }

  /** The same on the parts of the text: grouped digits and the centavo
      digits. */
  lemma ParseAmountText(g: string, p: string)
    requires g != [] && IsDigit(g[0])
    requires forall i :: 0 <= i < |g| ==> IsDigit(g[i]) || g[i] == '.'
    requires var d := ReplaceAll(g, ".", ""); d != [] && AllDigits(d)
    requires p != [] && AllDigits(p)
    ensures AllDigits(ReplaceAll(g, ".", "") + p)
    ensures ParseBrl(Some("R$ " + (g + "," + p)))
         == Some(Finite(DigitsValue(ReplaceAll(g, ".", "") + p), -|p|))
  {
    var s := "R$ " + (g + "," + p);
    var d := ReplaceAll(g, ".", "");
    assert Strip(s) == s by {
      assert s[0] == 'R' && s[|s| - 1] == p[|p| - 1];
      StripOfEnds(s);
    }
    assert CleanBrl(s) == d + "." + p by { CleanOfParts(g, p); }
    PlainDecimal(d, p);
    BrlOfStripped(s);
  }

  lemma BrlOfStripped(s: string)
    requires s != [] && Strip(s) == s
    ensures ParseBrl(Some(s)) == ParseFloat(CleanBrl(s))
  {
  }

  /** `R$ 1.234,56` is read as 1234.56 and `R$ 0,00` as 0, which is a
      number and not the missing value. */
  lemma BrlExamples()
    ensures FormatBrl(123456) == "R$ 1.234,56"
    ensures ParseBrl(Some(FormatBrl(123456))) == Some(Finite(123456, -2))
    ensures FormatBrl(0) == "R$ 0,00"
    ensures ParseBrl(Some(FormatBrl(0))) == Some(Finite(0, -2))
  {
    FormatThousands();
    FormatZero();
    ParseFormatted(123456);
    ParseFormatted(0);
  }

  // ---------------------------------------------------------------------
  // The money columns of the loader (app.py:184-188)
  // ---------------------------------------------------------------------

  /** A whole pay amount as the export writes it: the float `n.0`, that is
      the integer digits followed by `.0`, e.g. `80.0`. */
  predicate WholeFloatText(s: string) {
    |s| >= 3 && s[|s| - 2] == '.' && s[|s| - 1] == '0' && AllDigits(s[..|s| - 2])
  }

  /** The integer digits of such a text. */
  function IntegerPart(s: string): string
    requires WholeFloatText(s)
  {
    s[..|s| - 2]
  }

  lemma {:induction false} WholeFloatParts(s: string)
    requires WholeFloatText(s)
    ensures s == IntegerPart(s) + ".0"
    ensures 'R' !in s && ' ' !in s && ',' !in s && '.' !in IntegerPart(s)
  {
    var d := IntegerPart(s);
    assert s == d + ".0";
    forall i | 0 <= i < |s| ensures IsDigit(s[i]) || s[i] == '.' {
      if i < |d| {
        assert s[i] == d[i];
      }
    }
  }

  /** The clean-up deletes the point: `80.0` becomes `800`. */
  lemma {:induction false} CleanOfWholeFloat(s: string)
    requires WholeFloatText(s)
    ensures CleanBrl(s) == IntegerPart(s) + "0"
  {
    var d := IntegerPart(s);
    WholeFloatParts(s);
    var s1 := ReplaceAll(s, "R$", "");
    assert s1 == s by { ReplaceAbsent(s, "R$", ""); }
    var s2 := ReplaceAll(s1, " ", "");
    assert s2 == s by { ReplaceAbsent(s, " ", ""); }
    var s3 := ReplaceAll(s2, ".", "");
    assert s3 == d + "0" by {
      ReplaceCharAppend(d, ".0", '.', "");
      ReplaceAbsent(d, ".", "");
      assert ReplaceAll(".0", ".", "") == "0";
    }
    assert ReplaceAll(s3, ",", ".") == d + "0" by {
      assert ',' !in d + "0";
      ReplaceAbsent(d + "0", ",", ".");
    }
  }

  lemma {:induction false} WholeFloatStripped(s: string)
    requires WholeFloatText(s)
    ensures Strip(s) == s
  {
    assert IsDigit(s[0]) by { assert s[0] == s[..|s| - 2][0]; }
    StripOfEnds(s);
  }

  /** As written, the loader reads the pay column with `parse_brl_to_float`,
      which takes the point of `80.0` for a thousands separator: every pay
      amount is read ten times too large. */
  lemma {:induction false} PayReadTenfold(s: string)
    requires WholeFloatText(s)
    ensures ParseBrl(Some(s)) == Some(Finite(10 * DigitsValue(IntegerPart(s)), 0))
  {
    WholeFloatClean(s);
    BrlOfDigitsZero(s, IntegerPart(s));
  }

  lemma {:induction false} WholeFloatClean(s: string)
    requires WholeFloatText(s)
    ensures s != [] && Strip(s) == s && AllDigits(IntegerPart(s))
    ensures CleanBrl(s) == IntegerPart(s) + "0"
  {
    WholeFloatStripped(s);
    CleanOfWholeFloat(s);
  }

  lemma {:induction false} BrlOfDigitsZero(s: string, d: string)
    requires s != [] && Strip(s) == s && CleanBrl(s) == d + "0" && AllDigits(d)
    ensures ParseBrl(Some(s)) == Some(Finite(10 * DigitsValue(d), 0))
  {
    AppendZero(d);
    BrlOfDigits(s, d + "0");
  }

  /** Appending a `0` multiplies by ten. */
  lemma {:induction false} AppendZero(d: string)
    requires AllDigits(d)
    ensures AllDigits(d + "0") && DigitsValue(d + "0") == 10 * DigitsValue(d)
  {
    DigitsValueAppend(d, '0');
    assert d + "0" == d + ['0'];
  }

  /** Text that cleans to a run of digits is read as their integer. */
  lemma {:induction false} BrlOfDigits(s: string, t: string)
    requires s != [] && Strip(s) == s && CleanBrl(s) == t && t != [] && AllDigits(t)
    ensures ParseBrl(Some(s)) == Some(Finite(DigitsValue(t), 0))
  {
    BrlOfStripped(s);
    IntegerFloat(t);
  }

  /** `float()` reads a run of digits as the integer they write. */
  lemma {:induction false} IntegerFloat(t: string)
    requires t != [] && AllDigits(t)
    ensures ParseFloat(t) == Some(Finite(DigitsValue(t), 0))
  {
    assert IsDigit(t[|t| - 1]);
    StripOfEnds(t);
    DigitRunOfDigits(t, []);
    assert t + [] == t && t[..|t|] == t && t[|t|..] == [];
    assert DecimalValue(t) == Some((DigitsValue(t), 0));
    LeadingDigitFinite(t);
    UnsignedFloat(t, DigitsValue(t), 0);
  }

  /** The weekend day-shift pay `80.0` is read as 800. */
  lemma {:induction false} PayReadExample()
    ensures ParseBrl(Some("80.0")) == Some(Finite(800, 0))
  {
    var s := "80.0";
    assert s[..2] == "80" && AllDigits("80");
    assert WholeFloatText(s) && IntegerPart(s) == "80";
    assert DigitsValue("80") == 80 by {
      assert DigitsValue("8") == 8;
      DigitsValueAppend("8", '0');
      assert "8" + ['0'] == "80";
    }
    PayReadTenfold(s);
  }

  /** The pay column read as the number it holds: `float()` of the stripped
      text, with a missing or blank cell as `pd.NA`. */
  function ParsePay(cell: Option<string>): (r: Option<Number>)
    ensures cell.None? ==> r.None?
    ensures cell.Some? && AllSpace(cell.value) ==> r.None?
  {
    if cell.None? then None
    else
      var s := Strip(cell.value);
      StripOfBlank(cell.value);
      if s == [] then None else ParseFloat(s)
  }

  const PayKey := "pagamento_por_turno"

  /** The money columns read as intended: the three fee columns hold
      Brazilian currency text, the pay column a plain number. */
  function LoadMoney(column: string, cell: Option<string>): Option<Number> {
    if column == PayKey then ParsePay(cell) else ParseBrl(cell)
  }

  /** Read as intended, the pay text `n.0` is the amount `n` exactly. */
  lemma {:induction false} LoadMoneyPay(s: string)
    requires WholeFloatText(s)
    ensures LoadMoney(PayKey, Some(s)) == Some(Finite(10 * DigitsValue(IntegerPart(s)), -1))
  {
    ParsePayOfWholeFloat(s);
  }

  lemma {:induction false} ParsePayOfWholeFloat(s: string)
    requires WholeFloatText(s)
    ensures ParsePay(Some(s)) == Some(Finite(10 * DigitsValue(IntegerPart(s)), -1))
  {
    WholeFloatPay(s);
    PayOfStripped(s);
  }

  lemma {:induction false} WholeFloatPay(s: string)
    requires WholeFloatText(s)
    ensures s != [] && Strip(s) == s
    ensures ParseFloat(s) == Some(Finite(10 * DigitsValue(IntegerPart(s)), -1))
  {
    WholeFloatStripped(s);
    WholeFloatValue(s);
  }

  lemma {:induction false} PayOfStripped(s: string)
    requires s != [] && Strip(s) == s
    ensures ParsePay(Some(s)) == ParseFloat(s)
  {
  }

  lemma {:induction false} WholeFloatValue(s: string)
    requires WholeFloatText(s)
    ensures ParseFloat(s) == Some(Finite(10 * DigitsValue(IntegerPart(s)), -1))
  {
    var d := IntegerPart(s);
    assert s == d + "." + "0" by { WholeFloatParts(s); }
    PlainDecimal(d, "0");
    AppendZero(d);
  }

  /** The fee columns are still read as currency text. */
  lemma {:induction false} LoadMoneyFee(column: string, c: nat)
    requires column != PayKey
    ensures LoadMoney(column, Some(FormatBrl(c))) == Some(Finite(c, -2))
  {
    ParseFormatted(c);
  }

  lemma FormatThousands()
    ensures FormatBrl(123456) == "R$ 1.234,56"
  {
    GroupedThousands();
    assert Padded(56, 2) == "56";
  }

  lemma GroupedThousands()
    ensures Grouped(1234) == "1.234"
  {
    assert Padded(2, 1) == "2";
    assert Padded(23, 2) == "23";
    assert Padded(234, 3) == "234";
    assert Grouped(1) == "1";
  }

  lemma FormatZero()
    ensures FormatBrl(0) == "R$ 0,00"
  {
    assert Grouped(0) == "0";
    assert Padded(0, 2) == "00";
  }

  // ---------------------------------------------------------------------
  // Text that is not a number
  // ---------------------------------------------------------------------

  /** No digit and no `n`: neither a numeral nor `inf`/`nan` can be read. */
  predicate NoNumeral(s: string) {
    forall i :: 0 <= i < |s| ==> !IsDigit(s[i]) && s[i] != 'n' && s[i] != 'N'
  }

  lemma NoNumeralSlice(s: string, a: nat, b: nat)
    requires NoNumeral(s) && a <= b <= |s|
    ensures NoNumeral(s[a..b])
  {
    forall i | 0 <= i < b - a ensures s[a..b][i] == s[a + i] { }
  }

  lemma NoNumeralStrip(s: string)
    requires NoNumeral(s)
    ensures NoNumeral(Strip(s))
  {
    var l := TrimLeft(s);
    NoNumeralSlice(s, |s| - |l|, |s|);
    NoNumeralSlice(l, 0, |TrimRight(l)|);
  }

  lemma {:induction false} NoNumeralReplace(s: string, pat: string, rep: string)
    requires |pat| > 0 && NoNumeral(s) && NoNumeral(rep)
    ensures NoNumeral(ReplaceAll(s, pat, rep))
    decreases |s|
  {
    if |s| >= |pat| {
      NoNumeralSlice(s, 1, |s|);
      NoNumeralSlice(s, |pat|, |s|);
      NoNumeralReplace(s[1..], pat, rep);
      NoNumeralReplace(s[|pat|..], pat, rep);
    }
  }

  lemma NoNumeralClean(s: string)
    requires NoNumeral(s)
    ensures NoNumeral(CleanBrl(s))
  {
    var s1 := ReplaceAll(s, "R$", "");
    NoNumeralReplace(s, "R$", "");
    var s2 := ReplaceAll(s1, " ", "");
    NoNumeralReplace(s1, " ", "");
    var s3 := ReplaceAll(s2, ".", "");
    NoNumeralReplace(s2, ".", "");
    NoNumeralReplace(s3, ",", ".");
  }

  lemma NoNumeralNotWord(w: string)
    requires NoNumeral(w)
    ensures !NonFiniteWord(w)
  {
    if |w| >= 1 {
      assert Lower(w)[0] == LowerChar(w[0]) != 'n';
    }
    if |w| >= 2 {
      assert Lower(w)[1] == LowerChar(w[1]) != 'n';
    }
  }

  lemma NoNumeralDecimal(body: string)
    requires NoNumeral(body)
    ensures DecimalValue(body) == None
  {
    assert DigitRun(body) == 0 by {
      if body != [] {
        assert !IsDigit(body[0]);
      }
    }
    if |body| > 0 && body[0] == '.' {
      var after := body[1..];
      NoNumeralSlice(body, 1, |body|);
      if after != [] {
        assert !IsDigit(after[0]);
      }
      assert DigitRun(after) == 0;
    }
  }

  lemma NoNumeralFloat(t: string)
    requires NoNumeral(t)
    ensures ParseFloat(t) == None
  {
    var u := Strip(t);
    NoNumeralStrip(t);
    var body := if |u| > 0 && (u[0] == '+' || u[0] == '-') then u[1..] else u;
    NoNumeralSlice(u, if |u| > 0 && (u[0] == '+' || u[0] == '-') then 1 else 0, |u|);
    assert body == u[(if |u| > 0 && (u[0] == '+' || u[0] == '-') then 1 else 0)..|u|];
    NoNumeralNotWord(body);
    NoNumeralDecimal(body);
  }

  /** A cell without any digit (and without the `n` of `inf`/`nan`), such as
      `R$ -`, is read as missing rather than raising. */
  lemma ParseBrlNoNumeral(s: string)
    requires NoNumeral(s)
    ensures ParseBrl(Some(s)) == None
  {
    var t := Strip(s);
    NoNumeralStrip(s);
    NoNumeralClean(t);
    NoNumeralFloat(CleanBrl(t));
  }

  // ---------------------------------------------------------------------
  // Date text (app.py:64-67, 108-116)
  // ---------------------------------------------------------------------

  /** `PT_BR_MONTHS`, in the order its entries are applied. */
  const Months: seq<(string, string)> := [
    ("jan", "01"), ("fev", "02"), ("mar", "03"), ("abr", "04"), ("mai", "05"), ("jun", "06"),
    ("jul", "07"), ("ago", "08"), ("set", "09"), ("out", "10"), ("nov", "11"), ("dez", "12")
  ]

  /** `re.sub(r'(\d{1,2})h(\d{2})', r'\1:\2', s)`: scanning from the left,
      two digits are tried before one, and the scan resumes after each
      match; a match only turns its `h` into `:`. */
  function HourRewrite(s: string): (r: string)
    ensures |r| == |s|
    decreases |s|
  {
    if |s| >= 5 && IsDigit(s[0]) && IsDigit(s[1]) && s[2] == 'h' && IsDigit(s[3]) && IsDigit(s[4]) then
      s[..2] + ":" + s[3..5] + HourRewrite(s[5..])
    else if |s| >= 4 && IsDigit(s[0]) && s[1] == 'h' && IsDigit(s[2]) && IsDigit(s[3]) then
      s[..1] + ":" + s[2..4] + HourRewrite(s[4..])
    else if s == [] then []
    else [s[0]] + HourRewrite(s[1..])
  }

  /** The month passes `ms[..]` applied in order, each an
      `re.sub(f'/{k}/', f'/{v}/', s, flags=re.IGNORECASE)`. */
  function ApplyMonths(s: string, ms: seq<(string, string)>): string
    decreases |ms|
  {
    if ms == [] then s
    else
      var (k, v) := ms[|ms| - 1];
      ReplaceAllIgnoreCase(ApplyMonths(s, ms[..|ms| - 1]), "/" + k + "/", "/" + v + "/")
  }

  /** The text `normalize_ptbr_datetime` hands to `pd.to_datetime`. */
  function NormalizedText(s: string): string {
    ApplyMonths(HourRewrite(s), Months)
  }

  /** `normalize_ptbr_datetime` up to the final parse: `None` is the missing
      value, which stays missing. */
  method NormalizePtbrDatetime(cell: Option<string>) returns (t: Option<string>)
    ensures cell.None? ==> t.None?
    ensures cell.Some? ==> t == Some(NormalizedText(cell.value))
  {
    if cell.None? {
      return None;
    }
    var s := HourRewrite(cell.value);
    var i := 0;
    while i < |Months|
      invariant 0 <= i <= |Months|
      invariant s == ApplyMonths(HourRewrite(cell.value), Months[..i])
    {
      var (k, v) := Months[i];
      assert Months[..i + 1][..i] == Months[..i];
      s := ReplaceAllIgnoreCase(s, "/" + k + "/", "/" + v + "/");
      i := i + 1;
    }
    assert Months[..|Months|] == Months;
    return Some(s);
  }

  /** The first entry of `ms` whose key is `k`. */
  function FirstKey(k: string, ms: seq<(string, string)>): (r: Option<nat>)
    ensures r.Some? ==> r.value < |ms| && ms[r.value].0 == k
    decreases |ms|
  {
    if ms == [] then None
    else
      match FirstKey(k, ms[..|ms| - 1])
      case Some(i) => Some(i)
      case None => if ms[|ms| - 1].0 == k then Some(|ms| - 1) else None
  }

  /** Position `i` of `s` holds an `h` with a digit before it and two
      digits after it, and `r` has `:` there. */
  predicate HourAt(s: string, r: string, i: int)
    requires 0 <= i < |s| == |r|
  {
    s[i] == 'h' && r[i] == ':' && 1 <= i && i + 2 < |s| && IsDigit(s[i - 1]) && IsDigit(s[i + 1]) && IsDigit(s[i + 2])
  }

  /** `r` differs from `s` only at hour separators. */
  predicate OnlyHours(s: string, r: string)
    requires |s| == |r|
  {
    forall i :: 0 <= i < |s| && r[i] != s[i] ==> HourAt(s, r, i)
  }

  /** Every rewrite the hour pass makes turns an `h` that has a digit
      before it and two digits after it into `:`; nothing else changes. */
  lemma {:induction false} HourRewriteSound(s: string)
    ensures OnlyHours(s, HourRewrite(s))
    decreases |s|
  {
    var r := HourRewrite(s);
    if |s| >= 5 && IsDigit(s[0]) && IsDigit(s[1]) && s[2] == 'h' && IsDigit(s[3]) && IsDigit(s[4]) {
      HourRewriteSound(s[5..]);
      assert r[5..] == HourRewrite(s[5..]);
      assert HourAt(s, r, 2);
      OnlyHoursShift(s, r, 5);
    } else if |s| >= 4 && IsDigit(s[0]) && s[1] == 'h' && IsDigit(s[2]) && IsDigit(s[3]) {
      HourRewriteSound(s[4..]);
      assert r[4..] == HourRewrite(s[4..]);
      assert HourAt(s, r, 1);
      OnlyHoursShift(s, r, 4);
    } else if s != [] {
      HourRewriteSound(s[1..]);
      assert r[1..] == HourRewrite(s[1..]);
      OnlyHoursShift(s, r, 1);
    }
  }

  /** A prefix of length `n` that changes only hour separators, followed by
      a suffix that does likewise. */
  lemma OnlyHoursShift(s: string, r: string, n: nat)
    requires n <= |s| == |r|
    requires forall i :: 0 <= i < n && r[i] != s[i] ==> HourAt(s, r, i)
    requires OnlyHours(s[n..], r[n..])
    ensures OnlyHours(s, r)
  {
    forall i | n <= i < |s| && r[i] != s[i]
      ensures HourAt(s, r, i)
    {
      assert r[n..][i - n] == r[i] && s[n..][i - n] == s[i];
      assert HourAt(s[n..], r[n..], i - n);
      assert s[n..][i - n - 1] == s[i - 1];
    }
  }

  /** Text without `h` that does not end in a digit passes through the hour
      rewrite unchanged, and no match reaches across its end. */
  lemma HourPrefix(a: string, b: string)
    requires 'h' !in a && (a == [] || !IsDigit(a[|a| - 1]))
    ensures HourRewrite(a + b) == a + HourRewrite(b)
  {
    HourPrefixAt(a + b, a, b);
  }

  lemma {:induction false} HourPrefixAt(s: string, a: string, b: string)
    requires 'h' !in a && (a == [] || !IsDigit(a[|a| - 1])) && s == a + b
    ensures HourRewrite(s) == a + HourRewrite(b)
    decreases |a|
  {
    if a == [] {
      assert s == b;
    } else {
      assert s[0] == a[0] && s[1..] == a[1..] + b;
      assert |a| >= 2 ==> s[1] == a[1];
      assert |a| >= 3 ==> s[2] == a[2];
      HourHead(s);
      if |a| >= 2 {
        assert a[1..][|a[1..]| - 1] == a[|a| - 1];
      }
      HourPrefixAt(s[1..], a[1..], b);
      ConsRest(s[0], a, HourRewrite(b));
    }
  }

  /** Where no hour starts, the first character is kept. */
  lemma HourHead(s: string)
    requires |s| > 0
    requires !(|s| >= 5 && IsDigit(s[0]) && IsDigit(s[1]) && s[2] == 'h' && IsDigit(s[3]) && IsDigit(s[4]))
    requires !(|s| >= 4 && IsDigit(s[0]) && s[1] == 'h' && IsDigit(s[2]) && IsDigit(s[3]))
    ensures HourRewrite(s) == [s[0]] + HourRewrite(s[1..])
  {
  }

  /** `22h42` becomes `22:42`, and `7h05` becomes `7:05`. */
  lemma HourClock(hh: string, mm: string)
    requires 1 <= |hh| <= 2 && AllDigits(hh) && |mm| == 2 && AllDigits(mm)
    ensures HourRewrite(hh + "h" + mm) == hh + ":" + mm
  {
    var s := hh + "h" + mm;
    if |hh| == 2 {
      assert s[..2] == hh && s[3..5] == mm && s[5..] == [];
    } else {
      assert !IsDigit(s[1]);
      assert s[..1] == hh && s[2..4] == mm && s[4..] == [];
    }
  }

  /** A case-insensitive search for a pattern starting with `/` passes
      over text without `/`. */
  lemma SlashFreePrefix(a: string, b: string, pat: string, rep: string)
    requires |pat| > 0 && pat[0] == '/' && '/' !in a
    ensures ReplaceAllIgnoreCase(a + b, pat, rep) == a + ReplaceAllIgnoreCase(b, pat, rep)
  {
    SlashFreeAt(a + b, a, b, pat, rep);
  }

  lemma {:induction false} SlashFreeAt(s: string, a: string, b: string, pat: string, rep: string)
    requires |pat| > 0 && pat[0] == '/' && '/' !in a && s == a + b
    ensures ReplaceAllIgnoreCase(s, pat, rep) == a + ReplaceAllIgnoreCase(b, pat, rep)
    decreases |a|
  {
    if a == [] {
      assert s == b;
    } else {
      assert s[0] == a[0] && s[1..] == a[1..] + b;
      HeadMiss(s, pat, rep);
      SlashFreeAt(s[1..], a[1..], b, pat, rep);
      ConsRest(s[0], a, ReplaceAllIgnoreCase(b, pat, rep));
    }
  }

  /** A first character that cannot start the pattern is kept. */
  lemma HeadMiss(s: string, pat: string, rep: string)
    requires |s| > 0 && |pat| > 0 && LowerChar(s[0]) != pat[0]
    ensures ReplaceAllIgnoreCase(s, pat, rep) == [s[0]] + ReplaceAllIgnoreCase(s[1..], pat, rep)
  {
    if |s| >= |pat| {
      assert Lower(s[..|pat|])[0] != pat[0];
    } else {
      assert ReplaceAllIgnoreCase(s[1..], pat, rep) == s[1..];
      assert s == [s[0]] + s[1..];
    }
  }

  lemma ConsRest(c: char, a: string, x: string)
    requires |a| > 0 && c == a[0]
    ensures [c] + (a[1..] + x) == a + x
  {
    assert a == [c] + a[1..];
  }

  lemma SlashFree(r: string, pat: string, rep: string)
    requires |pat| > 0 && pat[0] == '/' && '/' !in r
    ensures ReplaceAllIgnoreCase(r, pat, rep) == r
  {
    SlashFreePrefix(r, [], pat, rep);
    assert r + [] == r;
  }

  /** A slash followed by text without `/` does not start a `/k/` match. */
  lemma SlashTail(r: string, k: string, rep: string)
    requires |k| == 3 && '/' !in r
    ensures ReplaceAllIgnoreCase("/" + r, "/" + k + "/", rep) == "/" + r
  {
    var s, pat := "/" + r, "/" + k + "/";
    if |s| >= 5 {
      assert s[4] == r[3];
      assert Lower(s[..5])[4] == LowerChar(r[3]) != '/';
      assert s[1..] == r;
    }
    SlashFree(r, pat, rep);
  }

  /** One month pass over `/W/R`: it is rewritten exactly when `W` is the
      key in some case. */
  lemma MonthPass(s: string, w: string, r: string, k: string, v: string)
    requires |k| == 3 && '/' !in w && '/' !in r && s == "/" + w + "/" + r
    ensures ReplaceAllIgnoreCase(s, "/" + k + "/", "/" + v + "/")
         == if |w| == 3 && Lower(w) == k then "/" + v + "/" + r else s
  {
    if |w| == 3 && Lower(w) == k {
      MonthHit(w, r, k, v);
    } else {
      assert s[1..] == w + ("/" + r);
      MonthMiss(s, w, r, k, "/" + k + "/", "/" + v + "/");
    }
  }

  lemma MonthHit(w: string, r: string, k: string, v: string)
    requires |k| == 3 && '/' !in r && |w| == 3 && Lower(w) == k
    ensures ReplaceAllIgnoreCase("/" + w + "/" + r, "/" + k + "/", "/" + v + "/") == "/" + v + "/" + r
  {
    var s, pat, rep := "/" + w + "/" + r, "/" + k + "/", "/" + v + "/";
    assert s[..5] == "/" + w + "/";
    LowerAppend("/", w);
    LowerAppend("/" + w, "/");
    assert Lower(s[..5]) == pat;
    assert s[5..] == r;
    SlashFree(r, pat, rep);
  }

  lemma MonthMiss(s: string, w: string, r: string, k: string, pat: string, rep: string)
    requires |k| == 3 && '/' !in w && '/' !in r && !(|w| == 3 && Lower(w) == k)
    requires pat == "/" + k + "/" && |s| > 0 && s[0] == '/' && s[1..] == w + ("/" + r)
    ensures ReplaceAllIgnoreCase(s, pat, rep) == s
  {
    var t := w + ("/" + r);
    assert s == "/" + w + "/" + r;
    assert |s| < |pat| || Lower(s[..|pat|]) != pat by {
      if |s| >= 5 {
        MissWindow(w, r, k);
      }
    }
    assert ReplaceAllIgnoreCase(t, pat, rep) == t by {
      SlashFreePrefix(w, "/" + r, pat, rep);
      SlashTail(r, k, rep);
    }
    MissStep(s, t, pat, rep);
  }

  lemma MissTail(w: string, r: string, k: string, v: string)
    requires |k| == 3 && '/' !in w && '/' !in r
    ensures ReplaceAllIgnoreCase(w + ("/" + r), "/" + k + "/", "/" + v + "/") == w + ("/" + r)
  {
    SlashFreePrefix(w, "/" + r, "/" + k + "/", "/" + v + "/");
    SlashTail(r, k, "/" + v + "/");
  }

  /** No match at the head of `s`, and none in its tail: nothing changes. */
  lemma MissStep(s: string, t: string, pat: string, rep: string)
    requires |s| > 0 && |pat| > 0 && s[1..] == t
    requires |s| < |pat| || Lower(s[..|pat|]) != pat
    requires ReplaceAllIgnoreCase(t, pat, rep) == t
    ensures ReplaceAllIgnoreCase(s, pat, rep) == s
  {
    NoMatchStep(s, pat, rep);
    assert s == [s[0]] + t;
  }

  lemma NoMatchStep(s: string, pat: string, rep: string)
    requires |s| > 0 && |pat| > 0 && (|s| < |pat| || Lower(s[..|pat|]) != pat)
    ensures ReplaceAllIgnoreCase(s, pat, rep) == [s[0]] + ReplaceAllIgnoreCase(s[1..], pat, rep)
  {
    if |s| < |pat| {
      assert ReplaceAllIgnoreCase(s[1..], pat, rep) == s[1..];
      assert s == [s[0]] + s[1..];
    }
  }

  lemma MissWindow(w: string, r: string, k: string)
    requires |k| == 3 && '/' !in w && '/' !in r && !(|w| == 3 && Lower(w) == k)
    requires |"/" + w + "/" + r| >= 5
    ensures Lower(("/" + w + "/" + r)[..5]) != "/" + k + "/"
  {
    var s, pat := "/" + w + "/" + r, "/" + k + "/";
    if |w| < 3 {
      assert s[4] == r[2 - |w|];
      assert Lower(s[..5])[4] == LowerChar(s[4]) != '/';
    } else if |w| > 3 {
      assert s[4] == w[3];
      assert Lower(s[..5])[4] == LowerChar(s[4]) != '/';
    } else {
      assert s[..5] == "/" + w + "/";
      assert Lower(s[..5])[1..4] == Lower(w);
      assert pat[1..4] == k;
    }
  }

  /** The month field after the passes `ms`: the value of the first entry
      whose key is the field in lower case, or the field itself. */
  function Numbered(x: string, ms: seq<(string, string)>): string {
    match FirstKey(Lower(x), ms)
    case Some(i) => ms[i].1
    case None => x
  }

  /** A month table of the shape of `PT_BR_MONTHS`: three-letter keys and
      two-digit values, none holding a slash. */
  predicate MonthTableShaped(ms: seq<(string, string)>) {
    forall i :: 0 <= i < |ms| ==> |ms[i].0| == 3 && |ms[i].1| == 2 && '/' !in ms[i].1
  }

  lemma MonthsTable()
    ensures MonthTableShaped(Months)
  {
  }

  /** One pass on `p/x/r` with slash-free `p`, `x` and `r` changes at most
      the month field. */
  lemma DatePass(s: string, p: string, x: string, r: string, k: string, v: string)
    requires |k| == 3 && '/' !in p && '/' !in x && '/' !in r && s == p + "/" + x + "/" + r
    ensures ReplaceAllIgnoreCase(s, "/" + k + "/", "/" + v + "/")
         == p + "/" + (if |x| == 3 && Lower(x) == k then v else x) + "/" + r
  {
    var t, pat, rep := "/" + x + "/" + r, "/" + k + "/", "/" + v + "/";
    var y := if |x| == 3 && Lower(x) == k then v else x;
    assert ReplaceAllIgnoreCase(s, pat, rep) == p + ReplaceAllIgnoreCase(t, pat, rep) by {
      SlashAssoc(p, x, r);
      SlashFreeAt(s, p, t, pat, rep);
    }
    assert ReplaceAllIgnoreCase(t, pat, rep) == "/" + y + "/" + r by {
      MonthPass(t, x, r, k, v);
    }
    SlashAssoc(p, y, r);
  }

  lemma SlashAssoc(p: string, x: string, r: string)
    ensures p + "/" + x + "/" + r == p + ("/" + x + "/" + r)
  {
  }

  /** All the passes of a month table on `p/x/r`: the month field becomes
      the value of the first matching key, compared without case, and the
      rest of the text is untouched. */
  lemma {:induction false} DatePasses(s: string, p: string, x: string, r: string, ms: seq<(string, string)>)
    requires MonthTableShaped(ms) && '/' !in p && '/' !in x && '/' !in r && s == p + "/" + x + "/" + r
    ensures ApplyMonths(s, ms) == p + "/" + Numbered(x, ms) + "/" + r
    decreases |ms|
  {
    if ms != [] {
      var ms', k, v := ms[..|ms| - 1], ms[|ms| - 1].0, ms[|ms| - 1].1;
      assert MonthTableShaped(ms') by {
        forall i | 0 <= i < |ms'| ensures |ms'[i].0| == 3 && |ms'[i].1| == 2 && '/' !in ms'[i].1 {
          assert ms'[i] == ms[i];
        }
      }
      DatePasses(s, p, x, r, ms');
      var n' := Numbered(x, ms');
      assert '/' !in n' by {
        if FirstKey(Lower(x), ms').Some? {
          assert ms'[FirstKey(Lower(x), ms').value] == ms[FirstKey(Lower(x), ms').value];
        }
      }
      DatePass(ApplyMonths(s, ms'), p, n', r, k, v);
      NumberedStep(x, ms);
    }
  }

  /** The month field after one more pass. */
  lemma NumberedStep(x: string, ms: seq<(string, string)>)
    requires MonthTableShaped(ms) && ms != []
    ensures var n', k, v := Numbered(x, ms[..|ms| - 1]), ms[|ms| - 1].0, ms[|ms| - 1].1;
      Numbered(x, ms) == if |n'| == 3 && Lower(n') == k then v else n'
  {
    var ms' := ms[..|ms| - 1];
    match FirstKey(Lower(x), ms')
    case Some(i) =>
      assert ms'[i] == ms[i];
    case None =>
  }

  /** A field that is not three characters long is not a month key. */
  lemma NumberedShort(x: string, ms: seq<(string, string)>)
    requires MonthTableShaped(ms) && |x| != 3
    ensures Numbered(x, ms) == x
  {
    assert |Lower(x)| != 3;
  }

  /** `dd/mmm/yyyy HHhMM` becomes `dd/<month number>/yyyy HH:MM`; an
      unknown three-letter month is left as it is. */
  lemma DateTimeText(dd: string, w: string, y: string, hh: string, mm: string)
    requires AllDigits(dd) && AllDigits(y) && |w| == 3 && '/' !in w && 'h' !in w
    requires 1 <= |hh| <= 2 && AllDigits(hh) && |mm| == 2 && AllDigits(mm)
    ensures NormalizedText(dd + "/" + w + "/" + y + " " + hh + "h" + mm)
         == dd + "/" + Numbered(w, Months) + "/" + (y + " " + hh + ":" + mm)
  {
    DateTimeAt(dd + "/" + w + "/" + y + " " + hh + "h" + mm, dd, w, y, hh, mm);
  }

  lemma DateTimeAt(input: string, dd: string, w: string, y: string, hh: string, mm: string)
    requires AllDigits(dd) && AllDigits(y) && |w| == 3 && '/' !in w && 'h' !in w
    requires 1 <= |hh| <= 2 && AllDigits(hh) && |mm| == 2 && AllDigits(mm)
    requires input == dd + "/" + w + "/" + y + " " + hh + "h" + mm
    ensures NormalizedText(input) == dd + "/" + Numbered(w, Months) + "/" + (y + " " + hh + ":" + mm)
  {
    var a := dd + "/" + w + "/" + y + " ";
    var t := a + (hh + ":" + mm);
    assert HourRewrite(input) == t by {
      assert input == a + (hh + "h" + mm);
      DateHour(a, dd, w, y, hh, mm);
    }
    assert ApplyMonths(t, Months) == dd + "/" + Numbered(w, Months) + "/" + (y + " " + hh + ":" + mm) by {
      DateMonths(t, dd, w, y, hh, mm);
    }
  }

  lemma DateMonths(t: string, dd: string, w: string, y: string, hh: string, mm: string)
    requires AllDigits(dd) && AllDigits(y) && |w| == 3 && '/' !in w
    requires AllDigits(hh) && AllDigits(mm) && t == dd + "/" + w + "/" + y + " " + (hh + ":" + mm)
    ensures ApplyMonths(t, Months) == dd + "/" + Numbered(w, Months) + "/" + (y + " " + hh + ":" + mm)
  {
    var r := y + " " + hh + ":" + mm;
    assert '/' !in dd && '/' !in r by {
      DigitsFree(dd);
      DigitsFree(y);
      DigitsFree(hh);
      DigitsFree(mm);
    }
    assert t == dd + "/" + w + "/" + r;
    MonthsTable();
    DatePasses(t, dd, w, r, Months);
  }

  lemma DateHour(a: string, dd: string, w: string, y: string, hh: string, mm: string)
    requires AllDigits(dd) && AllDigits(y) && 'h' !in w && a == dd + "/" + w + "/" + y + " "
    requires 1 <= |hh| <= 2 && AllDigits(hh) && |mm| == 2 && AllDigits(mm)
    ensures HourRewrite(a + (hh + "h" + mm)) == a + (hh + ":" + mm)
  {
    assert 'h' !in a by {
      DigitsFree(dd);
      DigitsFree(y);
    }
    HourPrefix(a, hh + "h" + mm);
    HourClock(hh, mm);
  }

  /** A digit string holds neither a slash nor an `h`. */
  lemma DigitsFree(s: string)
    requires AllDigits(s)
    ensures '/' !in s && 'h' !in s && ':' !in s && ' ' !in s
  {
    forall i | 0 <= i < |s|
      ensures s[i] != '/' && s[i] != 'h' && s[i] != ':' && s[i] != ' '
    {
      assert IsDigit(s[i]);
    }
  }

  /** The key of entry `j` is `k` and no earlier key is. */
  lemma {:induction false} FirstKeyAt(k: string, ms: seq<(string, string)>, j: nat)
    requires j < |ms| && ms[j].0 == k
    requires forall i :: 0 <= i < j ==> ms[i].0 != k
    ensures FirstKey(k, ms) == Some(j)
    decreases |ms|
  {
    if j < |ms| - 1 {
      var ms' := ms[..|ms| - 1];
      assert forall i :: 0 <= i <= j ==> ms'[i] == ms[i];
      FirstKeyAt(k, ms', j);
    } else {
      FirstKeyNone(k, ms[..|ms| - 1]);
    }
  }

  /** A key that no entry has is not found. */
  lemma {:induction false} FirstKeyNone(k: string, ms: seq<(string, string)>)
    requires forall i :: 0 <= i < |ms| ==> ms[i].0 != k
    ensures FirstKey(k, ms) == None
    decreases |ms|
  {
    if ms != [] {
      var ms' := ms[..|ms| - 1];
      assert forall i :: 0 <= i < |ms'| ==> ms'[i] == ms[i];
      FirstKeyNone(k, ms');
    }
  }

  /** `out`, in any case, is month 10. */
  lemma October(w: string)
    requires Lower(w) == "out"
    ensures Numbered(w, Months) == "10"
  {
    FirstKeyAt(Lower(w), Months, 9);
  }

  /** `'29/out/2025 22h42'` becomes `'29/10/2025 22:42'`. */
  lemma OctoberText(dd: string, w: string, y: string, hh: string, mm: string)
    requires dd == "29" && w == "out" && y == "2025" && hh == "22" && mm == "42"
    ensures NormalizedText(dd + "/" + w + "/" + y + " " + hh + "h" + mm)
         == dd + "/" + "10" + "/" + (y + " " + hh + ":" + mm)
  {
    assert AllDigits(dd) && AllDigits(y) && AllDigits(hh) && AllDigits(mm);
    assert '/' !in w && 'h' !in w;
    DateTimeText(dd, w, y, hh, mm);
    assert Lower(w) == "out";
    October(w);
  }
}
