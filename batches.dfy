/** `dividir_em_lotes` (rpa_hashtag.py:1376-1381), which cuts the active
    stores into batches for the worker threads, and the merge of the
    threads' partial tables (rpa_hashtag.py:1419-1447). */
module Batches {
  import opened Wrappers

  /** `[s[i:i + k] for i in range(0, len(s), k)]` for a positive step `k`. */
  function Chunks<T>(s: seq<T>, k: nat): seq<seq<T>>
    requires k > 0
    decreases |s|
  {
    if s == [] then []
    else if |s| <= k then [s]
    else [s[..k]] + Chunks(s[k..], k)
  }

  /** The concatenation of a sequence of sequences. */
  function Flatten<T>(parts: seq<seq<T>>): seq<T>
    decreases |parts|
  {
    if parts == [] then [] else parts[0] + Flatten(parts[1..])
  }

  /** Python's `ceil(n / q)` for `q > 0` and `n >= 0`. */
  function CeilDiv(n: nat, q: nat): (c: nat)
    requires q > 0
    ensures c * q >= n
    ensures c == 0 || (c - 1) * q < n
  {
    (n + q - 1) / q
  }

  /** The slice step `dividir_em_lotes` uses. */
  function BatchSize(n: nat, qtdLotes: int, limite: int): int {
    if qtdLotes <= 1 then limite
    else
      var c := CeilDiv(n, qtdLotes);
      if c < limite then c else limite
  }

  /** `dividir_em_lotes(lojas, qtd_lotes, limite_por_lote)`: `range` raises on
      a zero step and is empty for a negative one. */
  function DividirEmLotes<T>(lojas: seq<T>, qtdLotes: int, limite: int): Outcome<seq<seq<T>>> {
    var tam := BatchSize(|lojas|, qtdLotes, limite);
    if tam == 0 then Raises
    else if tam < 0 then Returns([])
    else Returns(Chunks(lojas, tam))
  }

  // ---------------------------------------------------------------------
  // Properties of the partition
  // ---------------------------------------------------------------------

  /** Concatenating the batches gives back the input, in order; every batch
      is non-empty and at most `k` long. */
  lemma {:induction false} ChunksPartition<T>(s: seq<T>, k: nat)
    requires k > 0
    ensures Flatten(Chunks(s, k)) == s
    ensures forall b :: b in Chunks(s, k) ==> 0 < |b| <= k
    decreases |s|
  {
    if s != [] && |s| > k {
      ChunksPartition(s[k..], k);
      assert s[..k] + s[k..] == s;
      assert Chunks(s, k)[1..] == Chunks(s[k..], k);
    }
  }

  /** `m` batches of `k` cover at most `m * k` elements, so a list that fits
      needs at most `m` batches. */
  lemma {:induction false} ChunksCount<T>(s: seq<T>, k: nat, m: nat)
    requires k > 0 && |s| <= m * k
    ensures |Chunks(s, k)| <= m
    decreases |s|
  {
    if s != [] && |s| > k {
      assert m >= 1;
      assert |s[k..]| <= (m - 1) * k;
      ChunksCount(s[k..], k, m - 1);
    }
  }

  /** The caller's case: a non-empty list (or at most one batch requested)
      and a positive limit never raises, and the batches partition the
      list within the limit. */
  lemma {:induction false} DividirEmLotesPartition<T>(lojas: seq<T>, qtdLotes: int, limite: int)
    requires limite >= 1
    requires qtdLotes > 1 ==> lojas != []
    ensures DividirEmLotes(lojas, qtdLotes, limite).Returns?
    ensures Flatten(DividirEmLotes(lojas, qtdLotes, limite).value) == lojas
    ensures forall b :: b in DividirEmLotes(lojas, qtdLotes, limite).value ==> 0 < |b| <= limite
  {
    var tam := BatchSize(|lojas|, qtdLotes, limite);
    if qtdLotes > 1 {
      assert CeilDiv(|lojas|, qtdLotes) >= 1;
    }
    assert 0 < tam <= limite;
    ChunksPartition(lojas, tam);
  }

  /** With several batches requested each one holds at most `ceil(n / q)`
      stores, and when that share fits the limit there are at most `q`
      batches. */
  lemma {:induction false} DividirEmLotesBalanced<T>(lojas: seq<T>, qtdLotes: int, limite: int)
    requires limite >= 1 && qtdLotes > 1 && lojas != []
    ensures DividirEmLotes(lojas, qtdLotes, limite).Returns?
    ensures forall b :: b in DividirEmLotes(lojas, qtdLotes, limite).value ==> |b| <= CeilDiv(|lojas|, qtdLotes)
    ensures CeilDiv(|lojas|, qtdLotes) <= limite ==> |DividirEmLotes(lojas, qtdLotes, limite).value| <= qtdLotes
  {
    var c := CeilDiv(|lojas|, qtdLotes);
    var tam := BatchSize(|lojas|, qtdLotes, limite);
    assert c >= 1;
    assert tam <= c;
    ChunksPartition(lojas, tam);
    if c <= limite {
      assert tam == c;
      ChunksCount(lojas, tam, qtdLotes);
    }
  }

  /** `range(0, n, 0)` raises: an empty list split into several batches. */
  lemma {:induction false} DividirEmLotesEmpty<T>(lojas: seq<T>, qtdLotes: int, limite: int)
    requires lojas == [] && qtdLotes > 1 && limite >= 1
    ensures DividirEmLotes(lojas, qtdLotes, limite) == Raises
  {
    assert CeilDiv(0, qtdLotes) == 0;
  }

  // ---------------------------------------------------------------------
  // The merge
  // ---------------------------------------------------------------------

  /** `mesclar_csvs_parciais` on the partial tables in file-name order:
      `None` stands for a file that could not be read, which is skipped;
      the result is `None` when there is no file or none could be read,
      otherwise the rows of the readable tables, one after the other. */
  function MesclarParciais<T>(parts: seq<Option<seq<T>>>): Option<seq<T>> {
    var readable := Readable(parts);
    if readable == [] then None else Some(Flatten(readable))
  }

  function Readable<T>(parts: seq<Option<seq<T>>>): (r: seq<seq<T>>)
    ensures |r| <= |parts|
    decreases |parts|
  {
    if parts == [] then []
    else (if parts[0].Some? then [parts[0].value] else []) + Readable(parts[1..])
  }

  function AllRead<T>(parts: seq<seq<T>>): (r: seq<Option<seq<T>>>)
    ensures |r| == |parts|
    decreases |parts|
  {
    if parts == [] then [] else [Some(parts[0])] + AllRead(parts[1..])
  }

  lemma {:induction false} ReadableAllRead<T>(parts: seq<seq<T>>)
    ensures Readable(AllRead(parts)) == parts
    decreases |parts|
  {
    if parts != [] {
      ReadableAllRead(parts[1..]);
      assert AllRead(parts)[1..] == AllRead(parts[1..]);
    }
  }

  /** When every batch's table is read back, the merge is the concatenation
      of the batches' rows in batch order; cutting a table into batches and
      merging the pieces gives the table back. */
  lemma {:induction false} MergeOfBatches<T>(rows: seq<T>, k: nat)
    requires k > 0 && rows != []
    ensures MesclarParciais(AllRead(Chunks(rows, k))) == Some(rows)
  {
    ReadableAllRead(Chunks(rows, k));
    ChunksPartition(rows, k);
    assert Chunks(rows, k) != [];
  }

  /** A file that cannot be read contributes nothing. */
  lemma {:induction false} UnreadableSkipped<T>(a: seq<Option<seq<T>>>, b: seq<Option<seq<T>>>)
    ensures Readable(a + [None] + b) == Readable(a + b)
    decreases |a|
  {
    if a == [] {
      assert a + [None] + b == [None] + b;
      assert ([None] + b)[1..] == b;
      assert a + b == b;
    } else {
      assert (a + [None] + b)[0] == a[0];
      assert (a + [None] + b)[1..] == a[1..] + [None] + b;
      assert (a + b)[1..] == a[1..] + b;
      UnreadableSkipped(a[1..], b);
    }
  }

  lemma {:induction false} FlattenAppend<T>(a: seq<seq<T>>, b: seq<seq<T>>)
    ensures Flatten(a + b) == Flatten(a) + Flatten(b)
    decreases |a|
  {
    if a != [] {
      assert (a + b)[1..] == a[1..] + b;
      FlattenAppend(a[1..], b);
    } else {
      assert a + b == b;
    }
  }

  /** The merge does not depend on the order in which the workers' tables
      arrive: swapping two groups of tables gives the same rows, as a
      multiset. */
  lemma {:induction false} MergeCommutes<T>(a: seq<Option<seq<T>>>, b: seq<Option<seq<T>>>)
    ensures MesclarParciais(a + b).None? <==> MesclarParciais(b + a).None?
    ensures MesclarParciais(a + b).Some? ==>
      multiset(MesclarParciais(a + b).value) == multiset(MesclarParciais(b + a).value)
  {
    ReadableAppend(a, b);
    ReadableAppend(b, a);
    FlattenAppend(Readable(a), Readable(b));
    FlattenAppend(Readable(b), Readable(a));
  }

  lemma {:induction false} ReadableAppend<T>(a: seq<Option<seq<T>>>, b: seq<Option<seq<T>>>)
    ensures Readable(a + b) == Readable(a) + Readable(b)
    decreases |a|
  {
    if a != [] {
      assert (a + b)[0] == a[0];
      assert (a + b)[1..] == a[1..] + b;
      ReadableAppend(a[1..], b);
    } else {
      assert a + b == b;
    }
  }
}
