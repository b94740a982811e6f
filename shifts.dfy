/** The derived columns of the export: the shift of a creation time
    (`classificar_periodo`, rpa_hashtag.py:640-673), the weekday of the
    filter date (`obter_dia_semana`, rpa_hashtag.py:680-686) and the flat
    pay per shift (`calcular_pagamento`, rpa_hashtag.py:688-702). Pay is in
    whole reais: the source only ever returns the constants 0, 70, 80, 90
    and 100. */
module Shifts {
  import opened Wrappers
  import opened Text
  import opened Calendar

  // ---------------------------------------------------------------------
  // classificar_periodo
  // ---------------------------------------------------------------------

  datatype Shift = Madrugada | Manha | Noite

  function ShiftName(t: Shift): string {
    match t
    case Madrugada => "madrugada"
    case Manha => "manhã"
    case Noite => "noite"
  }

  /** Minutes since midnight: `time` objects compare in this order. */
  function MinuteOfDay(hour: int, minute: int): int {
    60 * hour + minute
  }

  /** Before 07:00 is the early shift, before 18:00 the day shift, and the
      rest the night shift. */
  function ShiftAt(t: DateTime): Shift {
    var now := MinuteOfDay(t.hour, t.minute);
    if now < MinuteOfDay(7, 0) then Madrugada
    else if now < MinuteOfDay(18, 0) then Manha
    else Noite
  }

  /** The month abbreviations, in the order the dictionary lists them. */
  const MonthTable: seq<(string, string)> := [
    ("jan", "01"), ("fev", "02"), ("mar", "03"), ("abr", "04"),
    ("mai", "05"), ("jun", "06"), ("jul", "07"), ("ago", "08"),
    ("set", "09"), ("out", "10"), ("nov", "11"), ("dez", "12")]

  /** Replaces every key of `table`, one key after the other. Testing for the
      key before replacing it, as the source does, changes nothing. */
  function ReplaceEach(s: string, table: seq<(string, string)>): string
    requires forall k :: 0 <= k < |table| ==> |table[k].0| > 0
    decreases |table|
  {
    if table == [] then s
    else ReplaceEach(ReplaceAll(s, table[0].0, table[0].1), table[1..])
  }

  /** The text `classificar_periodo` hands to strptime. */
  function ShiftText(s: string): string {
    MonthKeysOutsidePlain();
    ReplaceAll(ReplaceEach(Lower(Strip(s)), MonthTable), "h", ":")
  }

  /** `classificar_periodo(s)`: the shift name, or `""` when the text is not a
      date and time. */
  function ClassificarPeriodo(s: string): string {
    PeriodName(ParseDateTime(ShiftText(s)))
  }

  /** The name of the shift of a parsed time; an exception gives `""`. */
  function PeriodName(p: Option<DateTime>): string {
    match p
    case None => ""
    case Some(t) => ShiftName(ShiftAt(t))
  }

  lemma {:induction false} PeriodNameCases(p: Option<DateTime>)
    requires p.Some? ==> ValidDateTime(p.value)
    ensures PeriodName(p) == "" <==> p.None?
    ensures p.Some? ==>
      (PeriodName(p) == "madrugada" <==> p.value.hour < 7)
      && (PeriodName(p) == "manhã" <==> 7 <= p.value.hour < 18)
      && (PeriodName(p) == "noite" <==> 18 <= p.value.hour)
  {
  }

  /** The result is empty exactly when the text does not parse, and
      otherwise names the shift of the hour. */
  lemma {:induction false} ClassificarPeriodoCases(s: string)
    ensures var p := ParseDateTime(ShiftText(s));
      && (ClassificarPeriodo(s) == "" <==> p.None?)
      && (p.Some? ==>
            (ClassificarPeriodo(s) == "madrugada" <==> p.value.hour < 7)
            && (ClassificarPeriodo(s) == "manhã" <==> 7 <= p.value.hour < 18)
            && (ClassificarPeriodo(s) == "noite" <==> 18 <= p.value.hour))
  {
    PeriodNameCases(ParseDateTime(ShiftText(s)));
  }

  /** How the site writes a creation time: `14/10/2025 17h09`. */
  function SiteDateTime(t: DateTime): string
    requires ValidDateTime(t)
  {
    FormatDate(t.date) + " " + Padded(t.hour, 2) + "h" + Padded(t.minute, 2)
  }

  /** Characters of numeric date-time text. */
  predicate PlainChar(c: char) {
    IsDigit(c) || c == '/' || c == ' ' || c == 'h' || c == ':'
  }

  predicate Plain(s: string) {
    forall i :: 0 <= i < |s| ==> PlainChar(s[i])
  }

  /** Every key begins with a character that numeric text never holds. */
  predicate KeysOutsidePlain(table: seq<(string, string)>) {
    forall k :: 0 <= k < |table| ==> |table[k].0| > 0 && !PlainChar(table[k].0[0])
  }

  lemma {:induction false} MonthKeysOutsidePlain()
    ensures KeysOutsidePlain(MonthTable)
  {
  }

  /** No month abbreviation occurs in numeric text. */
  lemma {:induction false} ReplaceEachPlain(s: string, table: seq<(string, string)>)
    requires Plain(s) && KeysOutsidePlain(table)
    ensures ReplaceEach(s, table) == s
    decreases |table|
  {
    if table != [] {
      assert !PlainChar(table[0].0[0]);
      ReplaceAbsent(s, table[0].0, table[0].1);
      ReplaceEachPlain(s, table[1..]);
    }
  }

  lemma {:induction false} PlainPieces(t: DateTime)
    requires ValidDateTime(t)
    ensures Plain(FormatDate(t.date)) && Plain(Padded(t.hour, 2)) && Plain(Padded(t.minute, 2))
    ensures 'h' !in FormatDate(t.date) && 'h' !in Padded(t.hour, 2) && 'h' !in Padded(t.minute, 2)
  {
    var d := t.date;
    assert AllDigits(Padded(d.day, 2)) && AllDigits(Padded(d.month, 2)) && AllDigits(Padded(d.year, 4));
    assert AllDigits(Padded(t.hour, 2)) && AllDigits(Padded(t.minute, 2));
  }

  lemma {:induction false} SiteTextPlain(t: DateTime)
    requires ValidDateTime(t)
    ensures Plain(SiteDateTime(t)) && NoUpper(SiteDateTime(t))
    ensures SiteDateTime(t) != [] && IsDigit(SiteDateTime(t)[0]) && IsDigit(SiteDateTime(t)[|SiteDateTime(t)| - 1])
  {
    PlainPieces(t);
    var a, b, c := FormatDate(t.date), Padded(t.hour, 2), Padded(t.minute, 2);
    var s := a + " " + b + "h" + c;
    assert s[0] == a[0] && s[|s| - 1] == c[|c| - 1];
    assert AllDigits(Padded(t.date.day, 2)) && AllDigits(c);
    forall i | 0 <= i < |s| ensures PlainChar(s[i]) && !IsUpper(s[i]) {
      if i < |a| {
        assert s[i] == a[i];
      } else if i == |a| {
      } else if i < |a| + 1 + |b| {
        assert s[i] == b[i - |a| - 1];
      } else if i == |a| + 1 + |b| {
      } else {
        assert s[i] == c[i - |a| - 2 - |b|];
      }
    }
  }

  lemma {:induction false} ReplaceHourMark(t: DateTime)
    requires ValidDateTime(t)
    ensures ReplaceAll(SiteDateTime(t), "h", ":") == FormatDateTime(t)
  {
    PlainPieces(t);
    var a, b, c := FormatDate(t.date), Padded(t.hour, 2), Padded(t.minute, 2);
    ReplaceAbsent(a + " " + b, "h", ":");
    ReplaceAbsent(c, "h", ":");
    ReplaceCharAppend(a + " " + b, "h" + c, 'h', ":");
    ReplaceCharAppend("h", c, 'h', ":");
    assert ReplaceAll("h", "h", ":") == ":";
    assert a + " " + b + "h" + c == (a + " " + b) + ("h" + c);
    assert (a + " " + b) + (":" + c) == FormatDateTime(t);
  }

  lemma {:induction false} ShiftTextOfSite(t: DateTime)
    requires ValidDateTime(t)
    ensures ShiftText(SiteDateTime(t)) == FormatDateTime(t)
  {
    var s := SiteDateTime(t);
    SiteTextPlain(t);
    assert Strip(s) == s;
    LowerOfNoUpper(s);
    MonthKeysOutsidePlain();
    ReplaceEachPlain(s, MonthTable);
    ReplaceHourMark(t);
  }

  /** A creation time as the site writes it falls in the shift of its hour. */
  lemma {:induction false} ClassificarPeriodoOfSite(t: DateTime)
    requires ValidDateTime(t)
    ensures ClassificarPeriodo(SiteDateTime(t)) == ShiftName(ShiftAt(t))
    ensures t.hour < 7 ==> ClassificarPeriodo(SiteDateTime(t)) == "madrugada"
    ensures 7 <= t.hour < 18 ==> ClassificarPeriodo(SiteDateTime(t)) == "manhã"
    ensures 18 <= t.hour ==> ClassificarPeriodo(SiteDateTime(t)) == "noite"
  {
    ShiftTextOfSite(t);
    ParseFormatDateTime(t);
    PeriodNameCases(Some(t));
  }

  /** How a creation time reads with its month abbreviated, in any case:
      `14/Out/2025 17h09`. */
  function AbbreviatedDateTime(t: DateTime, w: string): string
    requires ValidDateTime(t)
  {
    Padded(t.date.day, 2) + "/" + w + "/" + Padded(t.date.year, 4) + " " + Padded(t.hour, 2) + "h" + Padded(t.minute, 2)
  }

  /** A three-character word none of whose characters occurs in numeric
      text. */
  predicate Abbreviation(w: string) {
    |w| == 3 && forall j :: 0 <= j < 3 ==> !PlainChar(w[j])
  }

  lemma {:induction false} PlainAppend(x: string, y: string)
    requires Plain(x) && Plain(y)
    ensures Plain(x + y)
  {
    forall i | 0 <= i < |x + y| ensures PlainChar((x + y)[i]) {
      if i >= |x| {
        assert (x + y)[i] == y[i - |x|];
      }
    }
  }

  lemma {:induction false} PlainNoUpper(x: string)
    requires Plain(x)
    ensures NoUpper(x)
  {
    forall i | 0 <= i < |x| ensures !IsUpper(x[i]) {
      assert PlainChar(x[i]);
    }
  }

  /** The keys are distinct abbreviations, each value is month `k + 1`
      written with two digits. */
  lemma {:induction false} MonthTableShape()
    ensures forall k :: 0 <= k < |MonthTable| ==> Abbreviation(MonthTable[k].0)
    ensures forall k :: 0 <= k < |MonthTable| ==> MonthTable[k].1 == Padded(k + 1, 2)
    ensures forall j, k :: 0 <= j < k < |MonthTable| ==> MonthTable[j].0 != MonthTable[k].0
  {
  }

  /** Replacing one key in numeric text around a single abbreviation `u`
      replaces `u` when it is the key and changes nothing otherwise. */
  lemma {:induction false} WordPass(a: string, u: string, c: string, k: string, v: string)
    requires Plain(a) && Plain(c) && |c| >= 2 && Abbreviation(u) && Abbreviation(k)
    ensures ReplaceAll(a + u + c, k, v) == if u == k then a + v + c else a + u + c
  {
    assert !PlainChar(k[0]) && !PlainChar(k[1]) && !PlainChar(k[2]);
    assert PlainChar(c[0]);
    assert k[0] !in a && k[0] !in c;
    ReplaceSkipsPrefix(a, u + c, k, v);
    assert a + u + c == a + (u + c);
    ReplaceAbsent(c, k, v);
    var s0 := u + c;
    if u == k {
      assert s0[..3] == k && s0[3..] == c;
    } else {
      assert s0[..3] == u;
      var s1 := s0[1..];
      assert s1[..3] != k by { assert s1[..3][2] == c[0]; }
      var s2 := s1[1..];
      assert s2[..3] != k by { assert s2[..3][1] == c[0]; }
      assert s2[1..] == c;
      assert ReplaceAll(s2, k, v) == [s2[0]] + c;
      assert ReplaceAll(s1, k, v) == [s1[0]] + ([s2[0]] + c);
      assert ReplaceAll(s0, k, v) == [s0[0]] + ([s1[0]] + ([s2[0]] + c));
      assert [s0[0]] + ([s1[0]] + ([s2[0]] + c)) == u + c;
    }
  }

  /** The pass over the table replaces the first key equal to the
      abbreviation by its value; the later keys find nothing left. */
  lemma {:induction false} EachPass(a: string, c: string, table: seq<(string, string)>, i: nat)
    requires Plain(a) && Plain(c) && |c| >= 2
    requires forall k :: 0 <= k < |table| ==> |table[k].0| == 3 && Abbreviation(table[k].0) && Plain(table[k].1)
    requires i < |table| && forall j :: 0 <= j < i ==> table[j].0 != table[i].0
    ensures ReplaceEach(a + table[i].0 + c, table) == a + table[i].1 + c
    decreases i
  {
    WordPass(a, table[i].0, c, table[0].0, table[0].1);
    if i == 0 {
      PlainAppend(a, table[0].1);
      PlainAppend(a + table[0].1, c);
      assert KeysOutsidePlain(table[1..]) by {
        forall k | 0 <= k < |table[1..]| ensures |table[1..][k].0| > 0 && !PlainChar(table[1..][k].0[0]) {
          assert Abbreviation(table[k + 1].0);
        }
      }
      ReplaceEachPlain(a + table[0].1 + c, table[1..]);
    } else {
      assert table[1..][i - 1] == table[i];
      EachPass(a, c, table[1..], i - 1);
    }
  }

  /** The text before the month, `dd/`. */
  function DayPart(t: DateTime): string
    requires ValidDateTime(t)
  {
    Padded(t.date.day, 2) + "/"
  }

  /** The text after the month, `/yyyy HHhMM`. */
  function RestPart(t: DateTime): string
    requires ValidDateTime(t)
  {
    "/" + Padded(t.date.year, 4) + " " + Padded(t.hour, 2) + "h" + Padded(t.minute, 2)
  }

  lemma {:induction false} PartsPlain(t: DateTime)
    requires ValidDateTime(t)
    ensures Plain(DayPart(t)) && Plain(RestPart(t)) && |RestPart(t)| >= 2
    ensures IsDigit(DayPart(t)[0]) && IsDigit(RestPart(t)[|RestPart(t)| - 1])
  {
    var d := t.date;
    PlainPieces(t);
    assert AllDigits(Padded(d.day, 2)) && AllDigits(Padded(d.year, 4)) && AllDigits(Padded(t.minute, 2));
    assert Plain("/") && Plain(" ") && Plain("h");
    PlainAppend(Padded(d.day, 2), "/");
    PlainAppend("/", Padded(d.year, 4));
    PlainAppend("/" + Padded(d.year, 4), " ");
    PlainAppend("/" + Padded(d.year, 4) + " ", Padded(t.hour, 2));
    PlainAppend("/" + Padded(d.year, 4) + " " + Padded(t.hour, 2), "h");
    PlainAppend("/" + Padded(d.year, 4) + " " + Padded(t.hour, 2) + "h", Padded(t.minute, 2));
    assert RestPart(t)[|RestPart(t)| - 1] == Padded(t.minute, 2)[1];
  }

  /** Stripping and lower-casing touch only the month. */
  lemma {:induction false} AbbreviatedLower(t: DateTime, w: string)
    requires ValidDateTime(t)
    ensures Lower(Strip(AbbreviatedDateTime(t, w))) == DayPart(t) + Lower(w) + RestPart(t)
  {
    var a, c := DayPart(t), RestPart(t);
    PartsPlain(t);
    var s := a + w + c;
    assert s == AbbreviatedDateTime(t, w);
    assert s[0] == a[0] && s[|s| - 1] == c[|c| - 1];
    TrimLeftKeeps(s);
    TrimRightKeeps(s);
    PlainNoUpper(a);
    PlainNoUpper(c);
    LowerAppend(a + w, c);
    LowerAppend(a, w);
    LowerOfNoUpper(a);
    LowerOfNoUpper(c);
  }

  /** The month pass turns the abbreviation of month `m` into `mm`. */
  lemma {:induction false} AbbreviatedMonthPass(t: DateTime, table: seq<(string, string)>)
    requires ValidDateTime(t) && |table| == 12
    requires forall k :: 0 <= k < |table| ==> |table[k].0| == 3 && Abbreviation(table[k].0) && Plain(table[k].1)
    requires forall j, k :: 0 <= j < k < |table| ==> table[j].0 != table[k].0
    requires table[t.date.month - 1].1 == Padded(t.date.month, 2)
    ensures ReplaceEach(DayPart(t) + table[t.date.month - 1].0 + RestPart(t), table) == SiteDateTime(t)
  {
    PartsPlain(t);
    EachPass(DayPart(t), RestPart(t), table, t.date.month - 1);
  }

  lemma {:induction false} MonthEntries()
    ensures forall k :: 0 <= k < |MonthTable| ==> |MonthTable[k].0| == 3 && Abbreviation(MonthTable[k].0) && Plain(MonthTable[k].1)
    ensures forall j, k :: 0 <= j < k < |MonthTable| ==> MonthTable[j].0 != MonthTable[k].0
  {
    MonthTableShape();
    forall k | 0 <= k < |MonthTable| ensures Plain(MonthTable[k].1) {
      assert AllDigits(Padded(k + 1, 2));
    }
  }

  /** A creation time with its month abbreviated in any case reaches
      strptime as `dd/mm/yyyy HH:MM`. */
  lemma {:induction false} ShiftTextOfAbbreviated(t: DateTime, w: string)
    requires ValidDateTime(t) && Lower(w) == MonthTable[t.date.month - 1].0
    ensures ShiftText(AbbreviatedDateTime(t, w)) == FormatDateTime(t)
  {
    AbbreviatedLower(t, w);
    MonthEntries();
    MonthTableShape();
    AbbreviatedMonthPass(t, MonthTable);
    ReplaceHourMark(t);
  }

  /** The same text falls in the shift of its hour. */
  lemma {:induction false} ClassificarPeriodoOfAbbreviated(t: DateTime, w: string)
    requires ValidDateTime(t) && Lower(w) == MonthTable[t.date.month - 1].0
    ensures ClassificarPeriodo(AbbreviatedDateTime(t, w)) == ShiftName(ShiftAt(t))
    ensures t.hour < 7 ==> ClassificarPeriodo(AbbreviatedDateTime(t, w)) == "madrugada"
    ensures 7 <= t.hour < 18 ==> ClassificarPeriodo(AbbreviatedDateTime(t, w)) == "manhã"
    ensures 18 <= t.hour ==> ClassificarPeriodo(AbbreviatedDateTime(t, w)) == "noite"
  {
    ShiftTextOfAbbreviated(t, w);
    ParseFormatDateTime(t);
    PeriodNameCases(Some(t));
  }

  // ---------------------------------------------------------------------
  // obter_dia_semana
  // ---------------------------------------------------------------------

  /** Indexed by `date.weekday()`: Monday first. */
  const DayNames: seq<string> := ["segunda", "terça", "quarta", "quinta", "sexta", "sábado", "domingo"]

  /** `obter_dia_semana(s)`: the weekday name of a stripped `DD/MM/YYYY`, or
      `""`. */
  function ObterDiaSemana(s: string): (r: string)
    ensures r == "" || r in DayNames
  {
    match ParseDate(Strip(s))
    case None => ""
    case Some(d) => DayNames[Weekday(d)]
  }

  lemma {:induction false} FormattedDateStripped(d: Date)
    requires ValidDate(d)
    ensures Strip(FormatDate(d)) == FormatDate(d)
  {
    var s := FormatDate(d);
    assert AllDigits(Padded(d.day, 2)) && AllDigits(Padded(d.year, 4));
    assert s[0] == Padded(d.day, 2)[0];
    assert s[|s| - 1] == Padded(d.year, 4)[3];
  }

  /** A written date is named after its weekday. */
  lemma {:induction false} ObterDiaSemanaOfDate(d: Date)
    requires ValidDate(d)
    ensures ObterDiaSemana(FormatDate(d)) == DayNames[Weekday(d)]
  {
    FormattedDateStripped(d);
    ParseFormatDate(d);
  }

  /** The date `proximo_dia` gives is named after the following weekday. */
  lemma {:induction false} ObterDiaSemanaOfProximoDia(d: Date)
    requires ValidDate(d) && d != MaxDate
    ensures ProximoDia(FormatDate(d)) == Returns(FormatDate(NextDay(d)))
    ensures ObterDiaSemana(FormatDate(NextDay(d))) == DayNames[(Weekday(d) + 1) % 7]
  {
    ParseFormatDate(d);
    WeekdayNextDay(d);
    ObterDiaSemanaOfDate(NextDay(d));
  }

  /** 14/10/2025 was a Tuesday. */
  lemma {:induction false} ObterDiaSemanaExample()
    ensures ObterDiaSemana(FormatDate(Date(2025, 10, 14))) == "terça"
  {
    WeekdayExample();
    ObterDiaSemanaOfDate(Date(2025, 10, 14));
  }

  // ---------------------------------------------------------------------
  // calcular_pagamento
  // ---------------------------------------------------------------------

  predicate IsWeekend(dia: string) {
    dia == "sábado" || dia == "domingo"
  }

  /** `calcular_pagamento(dia, turno)`: both names are lowered and stripped;
      any day other than Saturday and Sunday, the empty one included, takes
      the weekday rates, and an unknown shift pays nothing. */
  function CalcularPagamento(dia: string, turno: string): int {
    var d := Strip(Lower(dia));
    var t := Strip(Lower(turno));
    if IsWeekend(d) then
      (if t == "manhã" || t == "noite" then 80 else if t == "madrugada" then 100 else 0)
    else
      (if t == "manhã" || t == "noite" then 70 else if t == "madrugada" then 90 else 0)
  }

  /** The rate card as a table independent of the code: 70 a shift, 10 more
      at the weekend, 20 more for the early shift. */
  function Rate(weekend: bool, t: Shift): int {
    70 + (if weekend then 10 else 0) + (if t == Madrugada then 20 else 0)
  }

  lemma {:induction false} ShiftNameNormal(t: Shift)
    ensures Strip(Lower(ShiftName(t))) == ShiftName(t)
  {
    var n := ShiftName(t);
    assert NoUpper(n);
    LowerOfNoUpper(n);
    assert n[0] != ' ' && n[|n| - 1] != ' ';
  }

  /** Every shift pays its rate, on the day kind `dia` normalises to. */
  lemma {:induction false} PagamentoOfShift(dia: string, t: Shift)
    ensures CalcularPagamento(dia, ShiftName(t)) == Rate(IsWeekend(Strip(Lower(dia))), t)
  {
    ShiftNameNormal(t);
  }

  /** A shift the table does not know, the empty one included, pays 0. */
  lemma {:induction false} PagamentoOfUnknownShift(dia: string, turno: string)
    requires forall t: Shift :: Strip(Lower(turno)) != ShiftName(t)
    ensures CalcularPagamento(dia, turno) == 0
  {
    assert Strip(Lower(turno)) != ShiftName(Madrugada);
    assert Strip(Lower(turno)) != ShiftName(Manha);
    assert Strip(Lower(turno)) != ShiftName(Noite);
  }

  /** An empty day, as `obter_dia_semana` gives for a bad date, is paid as
      a weekday. */
  lemma {:induction false} PagamentoOfEmptyDay(t: Shift)
    ensures CalcularPagamento("", ShiftName(t)) == Rate(false, t)
  {
    PagamentoOfShift("", t);
    assert Lower("") == "";
  }

  /** What the export computes per row: the day name and shift name it
      derives give the rate, and a row whose time does not parse pays 0. */
  lemma {:induction false} PagamentoOfDerived(filtro: string, criacao: string)
    ensures var p := ParseDateTime(ShiftText(criacao));
      var pay := CalcularPagamento(ObterDiaSemana(filtro), ClassificarPeriodo(criacao));
      && (p.None? ==> pay == 0)
      && (p.Some? ==> pay == Rate(IsWeekend(ObterDiaSemana(filtro)), ShiftAt(p.value)))
  {
    var p := ParseDateTime(ShiftText(criacao));
    if p.None? {
      PagamentoOfEmptyShift(ObterDiaSemana(filtro));
    } else {
      PagamentoOfParsed(ObterDiaSemana(filtro), p.value);
    }
  }

  lemma {:induction false} PagamentoOfParsed(dia: string, t: DateTime)
    requires dia == "" || dia in DayNames
    ensures CalcularPagamento(dia, PeriodName(Some(t))) == Rate(IsWeekend(dia), ShiftAt(t))
  {
    DayNameNormal(dia);
    PagamentoOfShift(dia, ShiftAt(t));
  }

  lemma {:induction false} PagamentoOfEmptyShift(dia: string)
    ensures CalcularPagamento(dia, "") == 0
  {
    assert |Lower("")| == 0;
    assert Strip(Lower("")) == [];
  }

  lemma {:induction false} DayNameNormal(dia: string)
    requires dia == "" || dia in DayNames
    ensures Strip(Lower(dia)) == dia
  {
    if dia != "" {
      assert NoUpper(dia);
      LowerOfNoUpper(dia);
      assert dia[0] != ' ' && dia[|dia| - 1] != ' ';
    }
  }
}
