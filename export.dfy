/** The table transformation of `exportar_dados_finais`
    (rpa_hashtag.py:630-735): the first row is the header, the derived
    columns are set when the columns they read are present, and rows whose
    courier is `total` are dropped. The frame is a header and a list of rows;
    the CSV file the result is written to is not part of this model. */
module Export {
  import opened Wrappers
  import opened Text
  import opened Calendar
  import opened Shifts

  /** A cell of the exported frame: scraped text, or the pay amount that
      `calcular_pagamento` puts in its column. */
  datatype Cell = Str(text: string) | Amount(reais: int)

  const Courier := "Entregador"
  const FilterDate := "Data Filtro"
  const CreatedAt := "Data de Criação"
  const ShiftColumn := "Classificação do Turno"
  const DayColumn := "Classificação do Dia"
  const PayColumn := "Pagamento por Turno"

  /** The header the store loop writes once (rpa_hashtag.py:1304-1308). */
  const ConsolidatedHeaders: seq<string> := [
    "Entregador", "Chave Pix", "Data Filtro", "Hora Início Filtro",
    "Hora Fim Filtro", "Loja", "Status", "Valor do pedido",
    "Taxa de entrega", "Taxa do entregador", "Data de Criação", "Pagamento"]

  /** The three per-row rules the export applies; the source defines them
      inside `exportar_dados_finais`. */
  datatype Rules = Rules(shift: string -> string, weekday: string -> string, pay: (string, string) -> int)

  const SourceRules := Rules(ClassificarPeriodo, ObterDiaSemana, CalcularPagamento)

  predicate Rectangular<T>(header: seq<string>, rows: seq<seq<T>>) {
    forall k :: 0 <= k < |rows| ==> |rows[k]| == |header|
  }

  /** Where a column is: its first position. */
  function IndexOf(names: seq<string>, name: string): (r: Option<nat>)
    ensures r.None? <==> name !in names
    ensures r.Some? ==> r.value < |names| && names[r.value] == name && name !in names[..r.value]
  {
    if names == [] then None
    else if names[0] == name then Some(0)
    else match IndexOf(names[1..], name)
      case None => None
      case Some(i) => assert names[1..][..i] == names[1..i + 1]; Some(i + 1)
  }

  /** `df[name] = values`: an existing column is overwritten in place and a
      new one is added on the right. */
  function SetColumn<T>(header: seq<string>, rows: seq<seq<T>>, name: string, values: seq<T>): (r: (seq<string>, seq<seq<T>>))
    requires |values| == |rows| && Rectangular(header, rows)
    ensures Rectangular(r.0, r.1) && |r.1| == |rows| && name in r.0
  {
    match IndexOf(header, name)
    case Some(i) => (header, seq(|rows|, k requires 0 <= k < |rows| => rows[k][i := values[k]]))
    case None => (header + [name], seq(|rows|, k requires 0 <= k < |rows| => rows[k] + [values[k]]))
  }

  /** `df[source].apply(f)` for a text column. */
  function MapColumn(rows: seq<seq<string>>, i: nat, f: string -> string): (r: seq<string>)
    requires forall k :: 0 <= k < |rows| ==> i < |rows[k]|
    ensures |r| == |rows|
  {
    seq(|rows|, k requires 0 <= k < |rows| => f(rows[k][i]))
  }

  /** Block 1: the shift of the creation time, when that column exists. */
  function AddShiftColumn(rules: Rules, header: seq<string>, rows: seq<seq<string>>): (r: (seq<string>, seq<seq<string>>))
    requires Rectangular(header, rows)
    ensures Rectangular(r.0, r.1) && |r.1| == |rows|
  {
    match IndexOf(header, CreatedAt)
    case None => (header, rows)
    case Some(i) => SetColumn(header, rows, ShiftColumn, MapColumn(rows, i, rules.shift))
  }

  /** Block 2, first half: the weekday of the filter date. */
  function AddDayColumn(rules: Rules, header: seq<string>, rows: seq<seq<string>>): (r: (seq<string>, seq<seq<string>>))
    requires Rectangular(header, rows)
    ensures Rectangular(r.0, r.1) && |r.1| == |rows|
  {
    match IndexOf(header, FilterDate)
    case None => (header, rows)
    case Some(i) => SetColumn(header, rows, DayColumn, MapColumn(rows, i, rules.weekday))
  }

  function ToCells(row: seq<string>): (r: seq<Cell>)
    ensures |r| == |row|
  {
    seq(|row|, k requires 0 <= k < |row| => Str(row[k]))
  }

  /** Block 2, second half: the pay, when both classifications exist. */
  function AddPayColumn(rules: Rules, header: seq<string>, rows: seq<seq<string>>): (r: (seq<string>, seq<seq<Cell>>))
    requires Rectangular(header, rows)
    ensures Rectangular(r.0, r.1) && |r.1| == |rows|
  {
    var cells := seq(|rows|, k requires 0 <= k < |rows| => ToCells(rows[k]));
    match (IndexOf(header, ShiftColumn), IndexOf(header, DayColumn))
    case (Some(t), Some(d)) =>
      var pay := seq(|rows|, k requires 0 <= k < |rows| => Amount(rules.pay(rows[k][d], rows[k][t])));
      SetColumn(header, cells, PayColumn, pay)
    case _ => (header, cells)
  }

  /** `s.str.strip().str.lower() == "total"`; the pay amount is not text. */
  predicate IsTotal(c: Cell) {
    c.Str? && Lower(Strip(c.text)) == "total"
  }

  /** The rows whose cell `i` is not a total, in their order. */
  function DropTotals(rows: seq<seq<Cell>>, i: nat): (r: seq<seq<Cell>>)
    requires forall k :: 0 <= k < |rows| ==> i < |rows[k]|
    ensures |r| <= |rows|
    ensures forall k :: 0 <= k < |r| ==> i < |r[k]|
  {
    if rows == [] then []
    else if IsTotal(rows[0][i]) then DropTotals(rows[1..], i)
    else [rows[0]] + DropTotals(rows[1..], i)
  }

  function DropTotalRows(header: seq<string>, rows: seq<seq<Cell>>): (r: seq<seq<Cell>>)
    requires Rectangular(header, rows)
    ensures Rectangular(header, r)
  {
    match IndexOf(header, Courier)
    case None => rows
    case Some(i) => DropTotalsShape(rows, i, |header|); DropTotals(rows, i)
  }

  lemma {:induction false} DropTotalsShape(rows: seq<seq<Cell>>, i: nat, width: nat)
    requires i < width && forall k :: 0 <= k < |rows| ==> |rows[k]| == width
    ensures forall k :: 0 <= k < |DropTotals(rows, i)| ==> |DropTotals(rows, i)[k]| == width
    decreases |rows|
  {
    if rows != [] {
      DropTotalsShape(rows[1..], i, width);
    }
  }

  /** The steps of the `try` block, on a well-formed frame. */
  function Derive(rules: Rules, header: seq<string>, rows: seq<seq<string>>): (r: (seq<string>, seq<seq<Cell>>))
    requires Rectangular(header, rows)
    ensures Rectangular(r.0, r.1)
  {
    var (h1, r1) := AddShiftColumn(rules, header, rows);
    var (h2, r2) := AddDayColumn(rules, h1, r1);
    var (h3, r3) := AddPayColumn(rules, h2, r2);
    (h3, DropTotalRows(h3, r3))
  }

  /** Whether `pd.DataFrame(rows, columns=header)` builds: the rows are
      padded to the longest one, whose length must be the header's. */
  predicate FrameBuilds(header: seq<string>, rows: seq<seq<string>>) {
    && (forall k :: 0 <= k < |rows| ==> |rows[k]| <= |header|)
    && (rows == [] || exists k :: 0 <= k < |rows| && |rows[k]| == |header|)
  }

  /** A short row padded with missing cells. A missing cell is written as an
      empty field, the shift and weekday rules read it as they read empty
      text (`MissingCellRules`) and the total filter keeps its row as it
      keeps an empty courier, so it is modelled as `""`. The pay rule is
      the exception: it raises on a missing cell (`MissingReadByPay`). */
  function PadMissing(row: seq<string>, width: nat): (r: seq<string>)
    requires |row| <= width
    ensures |r| == width && r[..|row|] == row
    ensures forall i :: |row| <= i < width ==> r[i] == ""
  {
    row + seq(width - |row|, _ => "")
  }

  /** A missing cell makes `classificar_periodo` and `obter_dia_semana`
      raise and return `""`; empty text gives the same. */
  lemma {:induction false} MissingCellRules()
    ensures ClassificarPeriodo("") == "" && ObterDiaSemana("") == ""
  {
    var e: string := "";
    assert Lower(Strip(e)) == e;
    MonthKeysOutsidePlain();
    ReplaceEachPlain(e, MonthTable);
    ReplaceAbsent(e, "h", ":");
    assert ShiftText(e) == e;
    SplitNoSep(e, '/');
    assert Strip(e) == e;
  }

  /** Column `column` is read as it stands, because `source`, from which it
      would be recomputed, is absent, and some row has no cell there. */
  predicate MissingAt(header: seq<string>, rows: seq<seq<string>>, column: string, source: string) {
    source !in header &&
    match IndexOf(header, column)
    case None => false
    case Some(i) => exists k :: 0 <= k < |rows| && |rows[k]| <= i
  }

  /** The pay is computed and one of the two classifications it reads is a
      missing cell: `calcular_pagamento` then calls `.lower()` on `None`
      and raises. */
  predicate MissingReadByPay(header: seq<string>, rows: seq<seq<string>>) {
    && (ShiftColumn in header || CreatedAt in header)
    && (DayColumn in header || FilterDate in header)
    && (MissingAt(header, rows, ShiftColumn, CreatedAt) || MissingAt(header, rows, DayColumn, FilterDate))
  }

  /** The rows as they came, when the `try` block raises. */
  function AsWritten(rows: seq<seq<string>>): (r: seq<seq<Cell>>)
    ensures |r| == |rows| && forall k :: 0 <= k < |rows| ==> r[k] == ToCells(rows[k])
  {
    seq(|rows|, k requires 0 <= k < |rows| => ToCells(rows[k]))
  }

  /** `exportar_dados_finais(dados)` with the given row rules: `None` for
      an empty list (nothing is written and the call returns false),
      otherwise the frame that is written. When the frame cannot be built,
      or the pay rule meets a missing cell, the exception is caught and the
      rows are written as they came. */
  function ExportWith(rules: Rules, dados: seq<seq<string>>): (r: Option<(seq<string>, seq<seq<Cell>>)>)
    ensures r.None? <==> dados == []
  {
    if dados == [] then None
    else
      var header, rows := dados[0], dados[1..];
      if !FrameBuilds(header, rows) || MissingReadByPay(header, rows) then
        Some((header, AsWritten(rows)))
      else
        Some(Derive(rules, header, seq(|rows|, k requires 0 <= k < |rows| => PadMissing(rows[k], |header|))))
  }

  /** `exportar_dados_finais(dados)`. */
  function ExportarDadosFinais(dados: seq<seq<string>>): (r: Option<(seq<string>, seq<seq<Cell>>)>)
    ensures r.None? <==> dados == []
  {
    ExportWith(SourceRules, dados)
  }

  // ---------------------------------------------------------------------
  // Facts
  // ---------------------------------------------------------------------

  /** No row that is left is a total. */
  lemma {:induction false} DropTotalsNoTotal(rows: seq<seq<Cell>>, i: nat)
    requires forall k :: 0 <= k < |rows| ==> i < |rows[k]|
    ensures forall k :: 0 <= k < |DropTotals(rows, i)| ==> !IsTotal(DropTotals(rows, i)[k][i])
    decreases |rows|
  {
    if rows != [] {
      DropTotalsNoTotal(rows[1..], i);
      var d, d' := DropTotals(rows, i), DropTotals(rows[1..], i);
      if !IsTotal(rows[0][i]) {
        assert d == [rows[0]] + d';
        forall k | 0 <= k < |d|
          ensures !IsTotal(d[k][i])
        {
          if k > 0 {
            assert d[k] == d'[k - 1];
          }
        }
      }
    }
  }

  /** What `DropTotals` keeps: exactly the rows that are not totals. */
  lemma {:induction false} DropTotalsKeeps(rows: seq<seq<Cell>>, i: nat)
    requires forall k :: 0 <= k < |rows| ==> i < |rows[k]|
    ensures forall row :: row in DropTotals(rows, i) ==> row in rows
    ensures forall row :: row in rows && !IsTotal(row[i]) ==> row in DropTotals(rows, i)
    decreases |rows|
  {
    if rows != [] {
      DropTotalsKeeps(rows[1..], i);
      assert forall row :: row in rows ==> row == rows[0] || row in rows[1..];
    }
  }

  /** The count of rows that `DropTotals` removes. */
  function CountTotals(rows: seq<seq<Cell>>, i: nat): nat
    requires forall k :: 0 <= k < |rows| ==> i < |rows[k]|
  {
    if rows == [] then 0 else (if IsTotal(rows[0][i]) then 1 else 0) + CountTotals(rows[1..], i)
  }

  lemma {:induction false} DropTotalsCount(rows: seq<seq<Cell>>, i: nat)
    requires forall k :: 0 <= k < |rows| ==> i < |rows[k]|
    ensures |DropTotals(rows, i)| == |rows| - CountTotals(rows, i)
    decreases |rows|
  {
    if rows != [] {
      DropTotalsCount(rows[1..], i);
    }
  }

  /** A row of the consolidated table with its three derived cells, written
      row by row rather than column by column. */
  function ExtendRow(rules: Rules, row: seq<string>): (r: seq<Cell>)
    requires |row| == 12
    ensures |r| == 15
  {
    var turno := rules.shift(row[10]);
    var dia := rules.weekday(row[2]);
    ToCells(row) + [Str(turno), Str(dia), Amount(rules.pay(dia, turno))]
  }

  /** The first position of a name is the one before which it does not
      occur. */
  lemma {:induction false} IndexOfAt(names: seq<string>, name: string, i: nat)
    requires i < |names| && names[i] == name && name !in names[..i]
    ensures IndexOf(names, name) == Some(i)
  {
    assert forall j :: i < j <= |names| ==> names[..j][i] == name;
    assert forall j :: 0 <= j < i ==> names[..i][j] == names[j];
  }

  lemma {:induction false} CreatedAtFirst()
    ensures CreatedAt !in ConsolidatedHeaders[..10]
  {
    assert ConsolidatedHeaders[..10] == ["Entregador", "Chave Pix", "Data Filtro", "Hora Início Filtro",
      "Hora Fim Filtro", "Loja", "Status", "Valor do pedido", "Taxa de entrega", "Taxa do entregador"];
  }

  lemma {:induction false} ConsolidatedIndices()
    ensures IndexOf(ConsolidatedHeaders, CreatedAt) == Some(10)
    ensures ShiftColumn !in ConsolidatedHeaders
  {
    CreatedAtFirst();
    IndexOfAt(ConsolidatedHeaders, CreatedAt, 10);
    DerivedNamesNew();
  }

  /** The derived columns are not among the consolidated ones. */
  lemma {:induction false} DerivedNamesNew()
    ensures ShiftColumn !in ConsolidatedHeaders
  {
    assert forall k :: 0 <= k < |ConsolidatedHeaders| ==> |ConsolidatedHeaders[k]| < |ShiftColumn|;
  }

  lemma {:induction false} ShiftIndices()
    ensures var h := ConsolidatedHeaders + [ShiftColumn];
      IndexOf(h, FilterDate) == Some(2) && DayColumn !in h
  {
    var h := ConsolidatedHeaders + [ShiftColumn];
    assert h[2] == FilterDate;
    assert h[..2] == ["Entregador", "Chave Pix"];
    IndexOfAt(h, FilterDate, 2);
    assert h == ConsolidatedHeaders + [ShiftColumn];
  }

  lemma {:induction false} DayIndices()
    ensures var h := ConsolidatedHeaders + [ShiftColumn] + [DayColumn];
      && IndexOf(h, ShiftColumn) == Some(12) && IndexOf(h, DayColumn) == Some(13)
      && PayColumn !in h && IndexOf(h + [PayColumn], Courier) == Some(0)
  {
    var h := ConsolidatedHeaders + [ShiftColumn] + [DayColumn];
    ShiftAtTwelve(h);
    DayAtThirteen(h);
    CourierFirst(h + [PayColumn]);
    DerivedNamesNew();
  }

  lemma ShiftAtTwelve(h: seq<string>)
    requires h == ConsolidatedHeaders + [ShiftColumn] + [DayColumn]
    ensures IndexOf(h, ShiftColumn) == Some(12)
  {
    assert h[12] == ShiftColumn && h[..12] == ConsolidatedHeaders;
    DerivedNamesNew();
    IndexOfAt(h, ShiftColumn, 12);
  }

  lemma DayAtThirteen(h: seq<string>)
    requires h == ConsolidatedHeaders + [ShiftColumn] + [DayColumn]
    ensures IndexOf(h, DayColumn) == Some(13)
  {
    assert h[13] == DayColumn && h[..13] == ConsolidatedHeaders + [ShiftColumn];
    DerivedNamesNew();
    IndexOfAt(h, DayColumn, 13);
  }

  lemma CourierFirst(h: seq<string>)
    requires |h| > 0 && h[0] == Courier
    ensures IndexOf(h, Courier) == Some(0)
  {
    IndexOfAt(h, Courier, 0);
  }

  /** The consolidated rows, each with its derived cells. */
  function Extended(rules: Rules, rows: seq<seq<string>>): (r: seq<seq<Cell>>)
    requires forall k :: 0 <= k < |rows| ==> |rows[k]| == 12
    ensures |r| == |rows| && forall k :: 0 <= k < |r| ==> |r[k]| == 15
  {
    seq(|rows|, k requires 0 <= k < |rows| => ExtendRow(rules, rows[k]))
  }

  function WithShift(rules: Rules, row: seq<string>): (r: seq<string>)
    requires |row| == 12
    ensures |r| == 13
  {
    row + [rules.shift(row[10])]
  }

  function WithDay(rules: Rules, row: seq<string>): (r: seq<string>)
    requires |row| == 12
    ensures |r| == 14
  {
    WithShift(rules, row) + [rules.weekday(row[2])]
  }

  /** Setting a column the header does not have appends it. */
  lemma {:induction false} SetNewColumn<T>(header: seq<string>, rows: seq<seq<T>>, name: string, values: seq<T>)
    requires |values| == |rows| && Rectangular(header, rows) && name !in header
    ensures SetColumn(header, rows, name, values)
         == (header + [name], seq(|rows|, k requires 0 <= k < |rows| => rows[k] + [values[k]]))
  {
  }

  lemma {:induction false} ShiftAtTen(rules: Rules, rows: seq<seq<string>>)
    requires forall k :: 0 <= k < |rows| ==> |rows[k]| == 12
    ensures AddShiftColumn(rules, ConsolidatedHeaders, rows)
         == SetColumn(ConsolidatedHeaders, rows, ShiftColumn, MapColumn(rows, 10, rules.shift))
  {
    ConsolidatedIndices();
  }

  lemma {:induction false} ShiftRows(rules: Rules, rows: seq<seq<string>>)
    requires forall k :: 0 <= k < |rows| ==> |rows[k]| == 12
    ensures var vals := MapColumn(rows, 10, rules.shift);
      seq(|rows|, k requires 0 <= k < |rows| => rows[k] + [vals[k]])
      == seq(|rows|, k requires 0 <= k < |rows| => WithShift(rules, rows[k]))
  {
  }

  lemma {:induction false} ShiftStep(rules: Rules, rows: seq<seq<string>>)
    requires forall k :: 0 <= k < |rows| ==> |rows[k]| == 12
    ensures AddShiftColumn(rules, ConsolidatedHeaders, rows)
         == (ConsolidatedHeaders + [ShiftColumn], ShiftTable(rules, rows))
  {
    var vals := MapColumn(rows, 10, rules.shift);
    var added := seq(|rows|, k requires 0 <= k < |rows| => rows[k] + [vals[k]]);
    assert AddShiftColumn(rules, ConsolidatedHeaders, rows) == SetColumn(ConsolidatedHeaders, rows, ShiftColumn, vals) by {
      ShiftAtTen(rules, rows);
    }
    assert SetColumn(ConsolidatedHeaders, rows, ShiftColumn, vals) == (ConsolidatedHeaders + [ShiftColumn], added) by {
      DerivedNamesNew();
      SetNewColumn(ConsolidatedHeaders, rows, ShiftColumn, vals);
    }
    assert added == ShiftTable(rules, rows) by {
      ShiftRows(rules, rows);
    }
  }

  function ShiftTable(rules: Rules, rows: seq<seq<string>>): seq<seq<string>>
    requires forall k :: 0 <= k < |rows| ==> |rows[k]| == 12
  {
    seq(|rows|, k requires 0 <= k < |rows| => WithShift(rules, rows[k]))
  }

  function DayTable(rules: Rules, rows: seq<seq<string>>): seq<seq<string>>
    requires forall k :: 0 <= k < |rows| ==> |rows[k]| == 12
  {
    seq(|rows|, k requires 0 <= k < |rows| => WithDay(rules, rows[k]))
  }

  lemma {:induction false} DayAtTwo(rules: Rules, rows: seq<seq<string>>)
    requires forall k :: 0 <= k < |rows| ==> |rows[k]| == 12
    ensures AddDayColumn(rules, ConsolidatedHeaders + [ShiftColumn], ShiftTable(rules, rows))
         == SetColumn(ConsolidatedHeaders + [ShiftColumn], ShiftTable(rules, rows), DayColumn, MapColumn(ShiftTable(rules, rows), 2, rules.weekday))
  {
    ShiftIndices();
  }

  lemma {:induction false} DayRows(rules: Rules, rows: seq<seq<string>>)
    requires forall k :: 0 <= k < |rows| ==> |rows[k]| == 12
    ensures var r1 := ShiftTable(rules, rows);
      var vals := MapColumn(r1, 2, rules.weekday);
      seq(|r1|, k requires 0 <= k < |r1| => r1[k] + [vals[k]]) == DayTable(rules, rows)
  {
    var r1 := ShiftTable(rules, rows);
    assert forall k :: 0 <= k < |rows| ==> r1[k][2] == rows[k][2];
  }

  lemma {:induction false} DayStep(rules: Rules, rows: seq<seq<string>>)
    requires forall k :: 0 <= k < |rows| ==> |rows[k]| == 12
    ensures AddDayColumn(rules, ConsolidatedHeaders + [ShiftColumn], ShiftTable(rules, rows))
         == (ConsolidatedHeaders + [ShiftColumn, DayColumn], DayTable(rules, rows))
  {
    DayAtTwo(rules, rows);
    ShiftIndices();
    SetNewColumn(ConsolidatedHeaders + [ShiftColumn], ShiftTable(rules, rows), DayColumn, MapColumn(ShiftTable(rules, rows), 2, rules.weekday));
    DayRows(rules, rows);
    assert ConsolidatedHeaders + [ShiftColumn] + [DayColumn] == ConsolidatedHeaders + [ShiftColumn, DayColumn];
  }

  lemma {:induction false} PayAt(rules: Rules, rows: seq<seq<string>>)
    requires forall k :: 0 <= k < |rows| ==> |rows[k]| == 12
    ensures var h2 := ConsolidatedHeaders + [ShiftColumn, DayColumn];
      var r2 := DayTable(rules, rows);
      AddPayColumn(rules, h2, r2)
      == SetColumn(h2, seq(|r2|, k requires 0 <= k < |r2| => ToCells(r2[k])), PayColumn,
                   seq(|r2|, k requires 0 <= k < |r2| => Amount(rules.pay(r2[k][13], r2[k][12]))))
  {
    DayIndices();
    assert ConsolidatedHeaders + [ShiftColumn] + [DayColumn] == ConsolidatedHeaders + [ShiftColumn, DayColumn];
  }

  lemma {:induction false} PayRow(rules: Rules, row: seq<string>)
    requires |row| == 12
    ensures var r := WithDay(rules, row);
      ToCells(r) + [Amount(rules.pay(r[13], r[12]))] == ExtendRow(rules, row)
  {
    var t, d := rules.shift(row[10]), rules.weekday(row[2]);
    var r := WithDay(rules, row);
    assert r == row + [t, d];
    ToCellsAppend(row, [t, d]);
    assert ToCells([t, d]) == [Str(t), Str(d)];
  }

  lemma {:induction false} ToCellsAppend(a: seq<string>, b: seq<string>)
    ensures ToCells(a + b) == ToCells(a) + ToCells(b)
  {
  }

  lemma {:induction false} PayRows(rules: Rules, rows: seq<seq<string>>)
    requires forall k :: 0 <= k < |rows| ==> |rows[k]| == 12
    ensures var r2 := DayTable(rules, rows);
      var cells := seq(|r2|, k requires 0 <= k < |r2| => ToCells(r2[k]));
      var pay := seq(|r2|, k requires 0 <= k < |r2| => Amount(rules.pay(r2[k][13], r2[k][12])));
      seq(|r2|, k requires 0 <= k < |r2| => cells[k] + [pay[k]])
      == Extended(rules, rows)
  {
    forall k | 0 <= k < |rows| {
      PayRow(rules, rows[k]);
    }
  }

  lemma {:induction false} PayStep(rules: Rules, rows: seq<seq<string>>)
    requires forall k :: 0 <= k < |rows| ==> |rows[k]| == 12
    ensures AddPayColumn(rules, ConsolidatedHeaders + [ShiftColumn, DayColumn], DayTable(rules, rows))
         == (ConsolidatedHeaders + [ShiftColumn, DayColumn, PayColumn], Extended(rules, rows))
  {
    var h2 := ConsolidatedHeaders + [ShiftColumn, DayColumn];
    var r2 := DayTable(rules, rows);
    var cells := seq(|r2|, k requires 0 <= k < |r2| => ToCells(r2[k]));
    var pay := seq(|r2|, k requires 0 <= k < |r2| => Amount(rules.pay(r2[k][13], r2[k][12])));
    var added := seq(|r2|, k requires 0 <= k < |r2| => cells[k] + [pay[k]]);
    assert AddPayColumn(rules, h2, r2) == SetColumn(h2, cells, PayColumn, pay) by {
      PayAt(rules, rows);
    }
    assert SetColumn(h2, cells, PayColumn, pay) == (h2 + [PayColumn], added) by {
      assert PayColumn !in h2 by {
        DayIndices();
        assert ConsolidatedHeaders + [ShiftColumn] + [DayColumn] == h2;
      }
      SetNewColumn(h2, cells, PayColumn, pay);
    }
    assert added == Extended(rules, rows) by {
      PayRows(rules, rows);
    }
    assert h2 + [PayColumn] == ConsolidatedHeaders + [ShiftColumn, DayColumn, PayColumn];
  }

  lemma {:induction false} DeriveOfConsolidated(rules: Rules, rows: seq<seq<string>>)
    requires forall k :: 0 <= k < |rows| ==> |rows[k]| == 12
    ensures Derive(rules, ConsolidatedHeaders, rows)
         == (ConsolidatedHeaders + [ShiftColumn, DayColumn, PayColumn],
             DropTotals(Extended(rules, rows), 0))
  {
    ShiftStep(rules, rows);
    DayStep(rules, rows);
    PayStep(rules, rows);
    DayIndices();
    assert ConsolidatedHeaders + [ShiftColumn] + [DayColumn] + [PayColumn] == ConsolidatedHeaders + [ShiftColumn, DayColumn, PayColumn];
  }

  /** The export of the consolidated table adds the shift, the day and the
      pay of each row, in that order, and drops the `total` rows. */
  lemma {:induction false} ExportOfConsolidated(rules: Rules, rows: seq<seq<string>>)
    requires forall k :: 0 <= k < |rows| ==> |rows[k]| == 12
    ensures ExportWith(rules, [ConsolidatedHeaders] + rows)
         == Some((ConsolidatedHeaders + [ShiftColumn, DayColumn, PayColumn],
                  DropTotals(Extended(rules, rows), 0)))
  {
    var dados := [ConsolidatedHeaders] + rows;
    assert dados[0] == ConsolidatedHeaders && dados[1..] == rows;
    assert rows != [] ==> |rows[0]| == |ConsolidatedHeaders|;
    assert FrameBuilds(ConsolidatedHeaders, rows);
    assert ConsolidatedHeaders[10] == CreatedAt && ConsolidatedHeaders[2] == FilterDate;
    assert !MissingReadByPay(ConsolidatedHeaders, rows);
    var padded := seq(|rows|, k requires 0 <= k < |rows| => PadMissing(rows[k], |ConsolidatedHeaders|));
    forall k | 0 <= k < |rows|
      ensures padded[k] == rows[k]
    {
      assert padded[k] == padded[k][..|rows[k]|];
    }
    assert padded == rows;
    DeriveOfConsolidated(rules, rows);
  }

  /** The same for the source's own rules. */
  lemma {:induction false} ExportarConsolidated(rows: seq<seq<string>>)
    requires forall k :: 0 <= k < |rows| ==> |rows[k]| == 12
    ensures ExportarDadosFinais([ConsolidatedHeaders] + rows)
         == Some((ConsolidatedHeaders + [ShiftColumn, DayColumn, PayColumn], DropTotals(Extended(SourceRules, rows), 0)))
  {
    ExportOfConsolidated(SourceRules, rows);
  }

  /** A row longer than the header, or rows all shorter than it, make
      building the frame fail: the rows are written as they came, nothing
      derived and nothing dropped. */
  lemma {:induction false} ExportMalformed(rules: Rules, header: seq<string>, rows: seq<seq<string>>)
    requires (exists k :: 0 <= k < |rows| && |rows[k]| > |header|)
          || (rows != [] && forall k :: 0 <= k < |rows| ==> |rows[k]| < |header|)
    ensures var r := ExportWith(rules, [header] + rows);
      && r.Some? && r.value.0 == header && |r.value.1| == |rows|
      && forall j :: 0 <= j < |rows| ==> r.value.1[j] == ToCells(rows[j])
  {
    var dados := [header] + rows;
    assert dados[0] == header && dados[1..] == rows;
    assert !FrameBuilds(header, rows);
  }

  /** Short rows beside a full one are padded: the frame is derived from
      the padded rows, unless the pay rule reads a missing cell, which
      raises and leaves the rows as they came. */
  lemma {:induction false} ExportPadsShortRows(rules: Rules, header: seq<string>, rows: seq<seq<string>>, k: nat)
    requires k < |rows| && |rows[k]| == |header|
    requires forall j :: 0 <= j < |rows| ==> |rows[j]| <= |header|
    ensures ExportWith(rules, [header] + rows)
         == if MissingReadByPay(header, rows) then Some((header, AsWritten(rows)))
            else Some(Derive(rules, header, seq(|rows|, j requires 0 <= j < |rows| => PadMissing(rows[j], |header|))))
  {
    var dados := [header] + rows;
    assert dados[0] == header && dados[1..] == rows;
    assert FrameBuilds(header, rows);
  }

  /** Two classification columns without their sources and a row too
      short to hold the day: the pay rule raises and nothing is derived. */
  lemma {:induction false} PayOnMissingExample()
    ensures ExportarDadosFinais([[ShiftColumn, DayColumn], ["manhã", "sábado"], ["noite"]])
         == Some(([ShiftColumn, DayColumn], [[Str("manhã"), Str("sábado")], [Str("noite")]]))
  {
    var header, rows := [ShiftColumn, DayColumn], [["manhã", "sábado"], ["noite"]];
    assert IndexOf(header, DayColumn) == Some(1);
    assert CreatedAt !in header && FilterDate !in header;
    assert |rows[1]| <= 1;
    assert MissingAt(header, rows, DayColumn, FilterDate);
    var dados := [header] + rows;
    assert dados[0] == header && dados[1..] == rows;
    assert ToCells(rows[0]) == [Str("manhã"), Str("sábado")];
    assert ToCells(rows[1]) == [Str("noite")];
    assert AsWritten(rows) == [[Str("manhã"), Str("sábado")], [Str("noite")]];
  }

  /** An exported row keeps its twelve scraped cells and is paid by the
      rate card for the weekday of its filter date and the shift of its
      creation time, or 0 when that time does not parse. */
  lemma {:induction false} ExportedRow(row: seq<string>)
    requires |row| == 12
    ensures var r := ExtendRow(SourceRules, row);
      var p := ParseDateTime(ShiftText(row[10]));
      && r[..12] == ToCells(row)
      && r[12] == Str(ClassificarPeriodo(row[10]))
      && r[13] == Str(ObterDiaSemana(row[2]))
      && r[14] == Amount(if p.None? then 0 else Rate(IsWeekend(ObterDiaSemana(row[2])), ShiftAt(p.value)))
  {
    ExportedCells(SourceRules, row);
    PagamentoOfDerived(row[2], row[10]);
  }

  lemma {:induction false} ExportedCells(rules: Rules, row: seq<string>)
    requires |row| == 12
    ensures var r := ExtendRow(rules, row);
      && r[..12] == ToCells(row)
      && r[12] == Str(rules.shift(row[10]))
      && r[13] == Str(rules.weekday(row[2]))
      && r[14] == Amount(rules.pay(rules.weekday(row[2]), rules.shift(row[10])))
  {
    var r := ExtendRow(rules, row);
    assert r[..12] == ToCells(row);
  }
}
