/** `cruzar_modal_com_mui` (rpa_hashtag.py:1030-1120): the left join of the
    delivery summary (the "modal" rows, one per courier) against the order
    records read from the orders grid, keyed by `_normalize_name_for_key`,
    together with the quality check that compares each courier's declared
    order count with the number of grid records found for them. */
module Reconcile {
  import opened Wrappers
  import opened Text
  import opened Calendar
  import opened Names

  /** One record of the orders grid, with the fields `coletar_tabela_mui`
      stores (rpa_hashtag.py:953-961). */
  datatype GridRecord = GridRecord(
    status: string, orderValue: string, deliveryFee: string,
    courierFee: string, createdAt: string, courier: string, payment: string)

  /** The store and shift the join runs for: `data_base`, `h_ini_str`,
      `h_fim_str` and `nome_loja`. */
  datatype Context = Context(dataBase: string, start: string, end: string, store: string)

  // ---------------------------------------------------------------------
  // Specification
  // ---------------------------------------------------------------------

  /** The two name normalisers the join uses: the join key and the display
      name written to the output. The source uses `_normalize_name_for_key`
      and `_normalize_name_for_csv` (`SourceNormalisers`); the join is stated
      for any pair so that its proofs need not look inside them. */
  datatype Normalisers = Normalisers(key: string -> string, display: string -> string)

  const SourceNormalisers: Normalisers := Normalisers(NameKey, DisplayName)

  /** The grid records filed under `key`, in grid order. */
  function Matches(norm: Normalisers, grid: seq<GridRecord>, key: string): (m: seq<GridRecord>)
    ensures |m| <= |grid|
    decreases |grid|
  {
    if grid == [] then []
    else
      var last := grid[|grid| - 1];
      Matches(norm, grid[..|grid| - 1], key) + (if norm.key(last.courier) == key then [last] else [])
  }

  /** `linha_modal[0]`, or `""` when the row is empty. */
  function ModalCourier(row: seq<string>): string {
    if |row| > 0 then row[0] else ""
  }

  /** `linha_modal[3]` when the row has it, else `""`. */
  function ModalPix(row: seq<string>): string {
    if |row| > 3 then row[3] else ""
  }

  function ModalKey(norm: Normalisers, row: seq<string>): string {
    norm.key(ModalCourier(row))
  }

  /** `int(x)`: surrounding whitespace, an optional sign, then decimal digits. */
  function ParseInt(s: string): Option<int> {
    var t := Strip(s);
    var signed := |t| > 0 && (t[0] == '-' || t[0] == '+');
    var digits := if signed then t[1..] else t;
    if |digits| > 0 && AllDigits(digits) then
      var v: int := DigitsValue(digits);
      Some(if signed && t[0] == '-' then -v else v)
    else None
  }

  /** `int(linha_modal[1].strip())`, `None` where that raises. */
  function ExpectedCount(row: seq<string>): Option<int> {
    if |row| > 1 then ParseInt(Strip(row[1])) else None
  }

  /** The quality failure of one modal row: not the `total` row, a readable
      non-negative declared count, and a different number of grid records. */
  predicate Mismatch(norm: Normalisers, row: seq<string>, grid: seq<GridRecord>) {
    ModalKey(norm, row) != "total" && ExpectedCount(row).Some? && ExpectedCount(row).value >= 0
    && ExpectedCount(row).value != |Matches(norm, grid, ModalKey(norm, row))|
  }

  /** The six leading fields of every output row of a modal row. */
  function Prefix(norm: Normalisers, row: seq<string>, ctx: Context): (p: seq<string>)
    ensures |p| == 6
  {
    [norm.display(ModalCourier(row)), ModalPix(row), ctx.dataBase, ctx.start, ctx.end, ctx.store]
  }

  function GridFields(r: GridRecord): (f: seq<string>)
    ensures |f| == 6
  {
    [r.status, r.orderValue, r.deliveryFee, r.courierFee, r.createdAt, r.payment]
  }

  const Blank: seq<string> := ["", "", "", "", "", ""]

  /** One output row per record of `found`, in order. */
  function JoinedRows(prefix: seq<string>, found: seq<GridRecord>): seq<seq<string>>
    decreases |found|
  {
    if found == [] then []
    else JoinedRows(prefix, found[..|found| - 1]) + [prefix + GridFields(found[|found| - 1])]
  }

  /** The rows one modal row contributes: its matches, or one blank-filled row. */
  function RowsFor(norm: Normalisers, row: seq<string>, grid: seq<GridRecord>, ctx: Context): seq<seq<string>> {
    var found := Matches(norm, grid, ModalKey(norm, row));
    if found == [] then [Prefix(norm, row, ctx) + Blank] else JoinedRows(Prefix(norm, row, ctx), found)
  }

  /** The left join, in modal order. */
  function LeftJoin(norm: Normalisers, modal: seq<seq<string>>, grid: seq<GridRecord>, ctx: Context): seq<seq<string>>
    decreases |modal|
  {
    if modal == [] then []
    else LeftJoin(norm, modal[..|modal| - 1], grid, ctx) + RowsFor(norm, modal[|modal| - 1], grid, ctx)
  }

  /** `index.get(key, [])`. */
  function Lookup(index: map<string, seq<GridRecord>>, key: string): seq<GridRecord> {
    if key in index then index[key] else []
  }

  // ---------------------------------------------------------------------
  // The join
  // ---------------------------------------------------------------------

  /** The inner `for rec in encontrados` loop: one row per match. */
  method AppendMatches(prefix: seq<string>, found: seq<GridRecord>) returns (out: seq<seq<string>>)
    ensures out == JoinedRows(prefix, found)
  {
    out := [];
    var k := 0;
    while k < |found|
      invariant 0 <= k <= |found|
      invariant out == JoinedRows(prefix, found[..k])
    {
      out := out + [prefix + GridFields(found[k])];
      assert found[..k + 1][..k] == found[..k];
      k := k + 1;
    }
    assert found[..k] == found;
  }

  lemma {:induction false} MismatchStep(norm: Normalisers, modal: seq<seq<string>>, j: nat, grid: seq<GridRecord>)
    requires j < |modal|
    ensures (exists i :: 0 <= i < j + 1 && Mismatch(norm, modal[i], grid))
        <==> (exists i :: 0 <= i < j && Mismatch(norm, modal[i], grid)) || Mismatch(norm, modal[j], grid)
  {
  }

  lemma {:induction false} LeftJoinStep(norm: Normalisers, modal: seq<seq<string>>, j: nat, grid: seq<GridRecord>, ctx: Context)
    requires j < |modal|
    ensures LeftJoin(norm, modal[..j + 1], grid, ctx) == LeftJoin(norm, modal[..j], grid, ctx) + RowsFor(norm, modal[j], grid, ctx)
  {
    assert modal[..j + 1][..j] == modal[..j];
  }

  /** The first loop: `index.setdefault(chave, []).append(rec)` for every
      grid record, so each key lists its records in grid order. */
  method BuildIndex(norm: Normalisers, grid: seq<GridRecord>) returns (index: map<string, seq<GridRecord>>)
    ensures forall k :: Lookup(index, k) == Matches(norm, grid, k)
  {
    index := map[];
    var i := 0;
    while i < |grid|
      invariant 0 <= i <= |grid|
      invariant forall k :: Lookup(index, k) == Matches(norm, grid[..i], k)
    {
      var key := norm.key(grid[i].courier);
      index := index[key := Lookup(index, key) + [grid[i]]];
      assert grid[..i + 1][..i] == grid[..i];
      i := i + 1;
    }
    assert grid[..i] == grid;
  }

  /** The quality check of one modal row against the `found` records:
      `int()` failing or a missing column reads as -1. */
  method CheckCount(key: string, line: seq<string>, found: nat) returns (mismatch: bool)
    ensures mismatch <==> (key != "total" && ExpectedCount(line).Some?
                           && ExpectedCount(line).value >= 0 && ExpectedCount(line).value != found)
  {
    mismatch := false;
    if key != "total" {
      var expected := -1;
      if |line| > 1 {
        var parsed := ParseInt(Strip(line[1]));
        if parsed.Some? {
          expected := parsed.value;
        }
      }
      if expected >= 0 && expected != found {
        mismatch := true;
      }
    }
  }

  /** The body of the second loop for one modal row: its quality check and
      the rows it contributes. */
  method JoinModalRow(norm: Normalisers, index: map<string, seq<GridRecord>>, grid: seq<GridRecord>,
                      line: seq<string>, ctx: Context)
    returns (emitted: seq<seq<string>>, mismatch: bool)
    requires forall k :: Lookup(index, k) == Matches(norm, grid, k)
    ensures emitted == RowsFor(norm, line, grid, ctx)
    ensures mismatch == Mismatch(norm, line, grid)
  {
    var courier := if |line| > 0 then line[0] else "";
    var pix := if |line| > 3 then line[3] else "";
    var key := norm.key(courier);
    var found := Lookup(index, key);
    assert found == Matches(norm, grid, ModalKey(norm, line));
    mismatch := CheckCount(key, line, |found|);
    var prefix := [norm.display(courier), pix, ctx.dataBase, ctx.start, ctx.end, ctx.store];
    assert prefix == Prefix(norm, line, ctx);
    if found != [] {
      emitted := AppendMatches(prefix, found);
    } else {
      emitted := [prefix + Blank];
    }
  }

  /** `cruzar_modal_com_mui`: the rows of the left join, in modal order, and
      whether any modal row failed the quality check. */
  method CruzarModalComMui(norm: Normalisers, modal: seq<seq<string>>, grid: seq<GridRecord>, ctx: Context)
    returns (rows: seq<seq<string>>, flag: bool)
    ensures rows == LeftJoin(norm, modal, grid, ctx)
    ensures flag <==> exists i :: 0 <= i < |modal| && Mismatch(norm, modal[i], grid)
  {
    var index := BuildIndex(norm, grid);
    rows := [];
    flag := false;
    var j := 0;
    while j < |modal|
      invariant 0 <= j <= |modal|
      invariant rows == LeftJoin(norm, modal[..j], grid, ctx)
      invariant flag <==> exists i :: 0 <= i < j && Mismatch(norm, modal[i], grid)
    {
      var emitted, mismatch := JoinModalRow(norm, index, grid, modal[j], ctx);
      if mismatch {
        flag := true;
      }
      MismatchStep(norm, modal, j, grid);
      LeftJoinStep(norm, modal, j, grid, ctx);
      rows := rows + emitted;
      j := j + 1;
    }
    assert modal[..j] == modal;
  }

  // ---------------------------------------------------------------------
  // Properties of the join
  // ---------------------------------------------------------------------

  /** The number of rows a modal row contributes: `max(1, matches)`. */
  function RowCount(norm: Normalisers, modal: seq<seq<string>>, grid: seq<GridRecord>): nat
    decreases |modal|
  {
    if modal == [] then 0
    else
      var n := |Matches(norm, grid, ModalKey(norm, modal[|modal| - 1]))|;
      RowCount(norm, modal[..|modal| - 1], grid) + (if n == 0 then 1 else n)
  }

  lemma {:induction false} JoinedRowsShape(prefix: seq<string>, found: seq<GridRecord>)
    requires |prefix| == 6
    ensures |JoinedRows(prefix, found)| == |found|
    ensures forall k :: 0 <= k < |found| ==>
      JoinedRows(prefix, found)[k] == prefix + GridFields(found[k])
    decreases |found|
  {
    if found != [] {
      JoinedRowsShape(prefix, found[..|found| - 1]);
    }
  }

  /** Every output row has the twelve fields of the consolidated header. */
  lemma {:induction false} RowsForWidth(norm: Normalisers, row: seq<string>, grid: seq<GridRecord>, ctx: Context)
    ensures forall r :: r in RowsFor(norm, row, grid, ctx) ==> |r| == 12
  {
    var found := Matches(norm, grid, ModalKey(norm, row));
    if found != [] {
      JoinedRowsShape(Prefix(norm, row, ctx), found);
    }
  }

  lemma {:induction false} LeftJoinWidth(norm: Normalisers, modal: seq<seq<string>>, grid: seq<GridRecord>, ctx: Context)
    ensures forall r :: r in LeftJoin(norm, modal, grid, ctx) ==> |r| == 12
    decreases |modal|
  {
    if modal != [] {
      LeftJoinWidth(norm, modal[..|modal| - 1], grid, ctx);
      RowsForWidth(norm, modal[|modal| - 1], grid, ctx);
    }
  }

  /** The row-count invariant of the left join. */
  lemma {:induction false} LeftJoinCount(norm: Normalisers, modal: seq<seq<string>>, grid: seq<GridRecord>, ctx: Context)
    ensures |LeftJoin(norm, modal, grid, ctx)| == RowCount(norm, modal, grid)
    decreases |modal|
  {
    if modal != [] {
      var row := modal[|modal| - 1];
      LeftJoinCount(norm, modal[..|modal| - 1], grid, ctx);
      var found := Matches(norm, grid, ModalKey(norm, row));
      if found != [] {
        JoinedRowsShape(Prefix(norm, row, ctx), found);
      }
    }
  }

  /** Every modal row contributes at least one row: no courier is lost. */
  lemma {:induction false} RowCountAtLeast(norm: Normalisers, modal: seq<seq<string>>, grid: seq<GridRecord>)
    ensures RowCount(norm, modal, grid) >= |modal|
    decreases |modal|
  {
    if modal != [] {
      RowCountAtLeast(norm, modal[..|modal| - 1], grid);
    }
  }

  /** A record is filed under `key` exactly when its own key is `key`, as
      often as it occurs in the grid. */
  lemma {:induction false} MatchesCount(norm: Normalisers, grid: seq<GridRecord>, key: string, r: GridRecord)
    ensures multiset(Matches(norm, grid, key))[r] == if norm.key(r.courier) == key then multiset(grid)[r] else 0
    decreases |grid|
  {
    if grid != [] {
      var init := grid[..|grid| - 1];
      var last := grid[|grid| - 1];
      MatchesCount(norm, init, key, r);
      assert grid == init + [last];
      assert multiset(grid) == multiset(init) + multiset{last};
    }
  }

  lemma {:induction false} MatchesMember(norm: Normalisers, grid: seq<GridRecord>, key: string)
    ensures forall x :: x in Matches(norm, grid, key) ==> x in grid && norm.key(x.courier) == key
    decreases |grid|
  {
    if grid != [] {
      MatchesMember(norm, grid[..|grid| - 1], key);
    }
  }

  /** Each output row is the modal row's six fields followed either by the
      blank fields or by the fields of a grid record with the same key. */
  lemma {:induction false} RowsForJoinsByKey(norm: Normalisers, row: seq<string>, grid: seq<GridRecord>, ctx: Context)
    ensures forall out :: out in RowsFor(norm, row, grid, ctx) ==>
      |out| == 12 && out[..6] == Prefix(norm, row, ctx) &&
      (out[6..] == Blank || exists r :: r in grid && norm.key(r.courier) == ModalKey(norm, row) && out[6..] == GridFields(r))
  {
    var found := Matches(norm, grid, ModalKey(norm, row));
    var p := Prefix(norm, row, ctx);
    if found != [] {
      JoinedRowsShape(p, found);
      MatchesMember(norm, grid, ModalKey(norm, row));
      forall out | out in RowsFor(norm, row, grid, ctx)
        ensures |out| == 12 && out[..6] == p
        ensures exists r :: r in grid && norm.key(r.courier) == ModalKey(norm, row) && out[6..] == GridFields(r)
      {
        var k :| 0 <= k < |found| && JoinedRows(p, found)[k] == out;
        assert out == p + GridFields(found[k]);
        assert found[k] in found;
        assert out[6..] == GridFields(found[k]);
      }
    } else {
      assert (p + Blank)[..6] == p;
      assert (p + Blank)[6..] == Blank;
    }
  }

  lemma {:induction false} MatchesEmpty(norm: Normalisers, key: string)
    ensures Matches(norm, [], key) == []
  {
  }

  lemma {:induction false} RowsForEmptyGrid(norm: Normalisers, row: seq<string>, ctx: Context)
    ensures RowsFor(norm, row, [], ctx) == [Prefix(norm, row, ctx) + Blank]
  {
    MatchesEmpty(norm, ModalKey(norm, row));
  }

  /** One blank-filled row per modal row. */
  function BlankRows(norm: Normalisers, modal: seq<seq<string>>, ctx: Context): seq<seq<string>>
    decreases |modal|
  {
    if modal == [] then [] else BlankRows(norm, modal[..|modal| - 1], ctx) + [Prefix(norm, modal[|modal| - 1], ctx) + Blank]
  }

  lemma {:induction false} BlankRowsShape(norm: Normalisers, modal: seq<seq<string>>, ctx: Context)
    ensures |BlankRows(norm, modal, ctx)| == |modal|
    ensures forall i :: 0 <= i < |modal| ==> BlankRows(norm, modal, ctx)[i] == Prefix(norm, modal[i], ctx) + Blank
    decreases |modal|
  {
    if modal != [] {
      BlankRowsShape(norm, modal[..|modal| - 1], ctx);
    }
  }

  /** With an empty grid every modal row gives exactly one row, whose six
      grid fields are empty. */
  lemma {:induction false} LeftJoinEmptyGrid(norm: Normalisers, modal: seq<seq<string>>, ctx: Context)
    ensures LeftJoin(norm, modal, [], ctx) == BlankRows(norm, modal, ctx)
    ensures |LeftJoin(norm, modal, [], ctx)| == |modal|
    ensures forall i :: 0 <= i < |modal| ==> LeftJoin(norm, modal, [], ctx)[i] == Prefix(norm, modal[i], ctx) + Blank
    decreases |modal|
  {
    if modal != [] {
      LeftJoinEmptyGrid(norm, modal[..|modal| - 1], ctx);
      RowsForEmptyGrid(norm, modal[|modal| - 1], ctx);
    }
    BlankRowsShape(norm, modal, ctx);
  }

  /** Stripping changes nothing in a string that starts and ends with a
      non-whitespace character. */
  lemma {:induction false} StripOfTrimmed(s: string)
    requires s == [] || (!IsSpace(s[0]) && !IsSpace(s[|s| - 1]))
    ensures Strip(s) == s
  {
  }

  /** A count written in decimal, possibly zero-padded, reads back. */
  lemma {:induction false} ParseIntOfText(n: nat, width: nat)
    requires 0 < width && n < Pow10(width)
    ensures ParseInt(Padded(n, width)) == Some(n)
  {
    var p := Padded(n, width);
    PaddedValue(n, width);
    assert IsDigit(p[0]) && IsDigit(p[|p| - 1]);
    StripOfTrimmed(p);
    assert p[0] != '-' && p[0] != '+';
  }

  /** The same with a minus sign in front. */
  lemma {:induction false} ParseIntOfNegative(n: nat, width: nat)
    requires 0 < width && n < Pow10(width)
    ensures ParseInt("-" + Padded(n, width)) == Some(-(n as int))
  {
    var p := Padded(n, width);
    var t := "-" + p;
    PaddedValue(n, width);
    assert t[0] == '-' && t[1..] == p;
    assert !IsSpace(t[|t| - 1]) by { assert t[|t| - 1] == p[|p| - 1]; }
    StripOfTrimmed(t);
  }

  /** Text that is not a number is not read as a count. */
  lemma {:induction false} ParseIntRejects(s: string)
    requires Strip(s) == [] || (Strip(s)[0] != '-' && Strip(s)[0] != '+' && !IsDigit(Strip(s)[0]))
    ensures ParseInt(s) == None
  {
  }

  /** The quality check is skipped for a modal row whose count cannot be
      read, is negative, or that is the `total` row: such a row is never a
      mismatch, whatever the grid holds. */
  lemma {:induction false} UnreadableCountIgnored(norm: Normalisers, row: seq<string>, grid: seq<GridRecord>)
    requires ModalKey(norm, row) == "total" || ExpectedCount(row) == None || ExpectedCount(row).value < 0
    ensures !Mismatch(norm, row, grid)
  {
  }

  /** `int("-1")` is a readable but negative count, so it is never a mismatch. */
  lemma {:induction false} MinusOneIgnored(norm: Normalisers, row: seq<string>, grid: seq<GridRecord>)
    requires |row| > 1 && row[1] == "-1"
    ensures ExpectedCount(row) == Some(-1)
    ensures !Mismatch(norm, row, grid)
  {
    StripOfTrimmed("-1");
    assert Padded(1, 1) == "1";
    assert "-1" == "-" + Padded(1, 1);
    ParseIntOfNegative(1, 1);
  }

  /** A declared count equal to the number of records found passes the check. */
  lemma {:induction false} MatchingCountPasses(norm: Normalisers, row: seq<string>, grid: seq<GridRecord>, width: nat)
    requires ModalKey(norm, row) != "total"
    requires 0 < width && |Matches(norm, grid, ModalKey(norm, row))| < Pow10(width)
    requires |row| > 1 && row[1] == Padded(|Matches(norm, grid, ModalKey(norm, row))|, width)
    ensures ExpectedCount(row) == Some(|Matches(norm, grid, ModalKey(norm, row))|)
    ensures !Mismatch(norm, row, grid)
  {
    var p := row[1];
    StripOfTrimmed(p);
    ParseIntOfText(|Matches(norm, grid, ModalKey(norm, row))|, width);
  }

  /** A declared count that differs from the number of records found fails
      the check, whether the grid holds more records or fewer. */
  lemma {:induction false} DifferentCountFails(norm: Normalisers, row: seq<string>, grid: seq<GridRecord>, n: nat, width: nat)
    requires ModalKey(norm, row) != "total"
    requires 0 < width && n < Pow10(width) && n != |Matches(norm, grid, ModalKey(norm, row))|
    requires |row| > 1 && row[1] == Padded(n, width)
    ensures ExpectedCount(row) == Some(n)
    ensures Mismatch(norm, row, grid)
  {
    StripOfTrimmed(row[1]);
    ParseIntOfText(n, width);
  }
}
