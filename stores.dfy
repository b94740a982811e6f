/** The per-store loop of `processar_lojas_e_turnos_por_data`
    (rpa_hashtag.py:1126-1350) with the browser replaced by recorded
    answers: whether the first store shows the inactive alert, what each
    store switch reports, which clicks open the delivery summary, the
    summary's rows, and what each fetch of the orders grid returns. */
module Stores {
  import opened Wrappers
  import opened Calendar
  import opened Reconcile
  import opened Export

  /** One entry of `lista_lojas`: its name, the `ativa` column and the two
      shift hours as `strftime("%H:%M")` writes them. */
  datatype Store = Store(name: string, active: string, start: string, end: string)

  /** One fetch of the orders grid: either `coletar_tabela_mui` raised, or it
      returned these records. */
  datatype Fetch = Raised | Fetched(grid: seq<GridRecord>)

  /** What the browser answers while one store is processed: whether the
      store switch (`mudar_loja`) returns `"inativa"`, the outcome of each
      click on the delivery summary, the summary's rows and the successive
      grid fetches. Answers beyond the end of a sequence are failures. */
  datatype Browser = Browser(reportsInactive: bool, clicks: seq<bool>, modal: seq<seq<string>>, fetches: seq<Fetch>)

  datatype Status = Pendente | Sucesso | SucessoAvisoQualidade

  function StatusText(s: Status): string {
    match s
    case Pendente => "PENDENTE"
    case Sucesso => "SUCESSO"
    case SucessoAvisoQualidade => "SUCESSO (AVISO QUALIDADE)"
  }

  const MaxModalTries: nat := 3
  const MaxQualityAttempts: nat := 3

  function ClickAt(clicks: seq<bool>, i: nat): bool {
    i < |clicks| && clicks[i]
  }

  function FetchAt(fetches: seq<Fetch>, i: nat): Fetch {
    if i < |fetches| then fetches[i] else Raised
  }

  // ---------------------------------------------------------------------
  // Opening the delivery summary: up to three clicks
  // ---------------------------------------------------------------------

  predicate ModalOpens(clicks: seq<bool>) {
    exists i :: 0 <= i < MaxModalTries && ClickAt(clicks, i)
  }

  method OpenModal(clicks: seq<bool>) returns (isOpen: bool, tries: nat)
    ensures 1 <= tries <= MaxModalTries
    ensures isOpen <==> ModalOpens(clicks)
    ensures isOpen == ClickAt(clicks, tries - 1)
    ensures forall i :: 0 <= i < tries - 1 ==> !ClickAt(clicks, i)
  {
    tries := 0;
    isOpen := false;
    while tries < MaxModalTries && !isOpen
      invariant 0 <= tries <= MaxModalTries
      invariant forall i :: 0 <= i < tries - 1 ==> !ClickAt(clicks, i)
      invariant isOpen ==> tries >= 1 && ClickAt(clicks, tries - 1)
      invariant !isOpen ==> forall i :: 0 <= i < tries ==> !ClickAt(clicks, i)
    {
      tries := tries + 1;
      isOpen := ClickAt(clicks, tries - 1);
    }
  }

  // ---------------------------------------------------------------------
  // The quality retry loop
  // ---------------------------------------------------------------------

  predicate AnyMismatch(norm: Normalisers, modal: seq<seq<string>>, grid: seq<GridRecord>) {
    exists i :: 0 <= i < |modal| && Mismatch(norm, modal[i], grid)
  }

  /** An attempt that completed and passed the quality check. */
  predicate Clean(norm: Normalisers, modal: seq<seq<string>>, f: Fetch) {
    f.Fetched? && !AnyMismatch(norm, modal, f.grid)
  }

  /** The first clean attempt among the first `n`. */
  function FirstClean(norm: Normalisers, modal: seq<seq<string>>, fetches: seq<Fetch>, n: nat): (r: Option<nat>)
    ensures r.Some? ==> r.value < n && Clean(norm, modal, FetchAt(fetches, r.value))
    ensures r.Some? ==> forall s :: 0 <= s < r.value ==> !Clean(norm, modal, FetchAt(fetches, s))
    ensures r.None? ==> forall s :: 0 <= s < n ==> !Clean(norm, modal, FetchAt(fetches, s))
  {
    if n == 0 then None
    else
      var earlier := FirstClean(norm, modal, fetches, n - 1);
      if earlier.Some? then earlier
      else if Clean(norm, modal, FetchAt(fetches, n - 1)) then Some(n - 1)
      else None
  }

  /** The last attempt among the first `n` that completed. */
  function LastCompleted(fetches: seq<Fetch>, n: nat): (r: Option<nat>)
    ensures r.Some? ==> r.value < n && FetchAt(fetches, r.value).Fetched?
    ensures r.Some? ==> forall s :: r.value < s < n ==> FetchAt(fetches, s) == Raised
    ensures r.None? ==> forall s :: 0 <= s < n ==> FetchAt(fetches, s) == Raised
  {
    if n == 0 then None
    else if FetchAt(fetches, n - 1).Fetched? then Some(n - 1)
    else LastCompleted(fetches, n - 1)
  }

  /** How many attempts the loop makes: up to and including the first clean
      one, and never more than three. */
  function AttemptsUsed(norm: Normalisers, modal: seq<seq<string>>, fetches: seq<Fetch>): (n: nat)
    ensures 1 <= n <= MaxQualityAttempts
  {
    var first := FirstClean(norm, modal, fetches, MaxQualityAttempts);
    if first.Some? then first.value + 1 else MaxQualityAttempts
  }

  /** The rows kept after the first `n` attempts: those of the last one that
      completed, or none. */
  function RetainedRows(norm: Normalisers, modal: seq<seq<string>>, fetches: seq<Fetch>, ctx: Context, n: nat): seq<seq<string>> {
    var last := LastCompleted(fetches, n);
    if last.None? then [] else LeftJoin(norm, modal, FetchAt(fetches, last.value).grid, ctx)
  }

  /** `for tentativa_qualidade in range(3)` (rpa_hashtag.py:1264-1301). */
  method QualityLoop(norm: Normalisers, modal: seq<seq<string>>, fetches: seq<Fetch>, ctx: Context)
    returns (rows: seq<seq<string>>, flag: bool, attempts: nat)
    ensures attempts == AttemptsUsed(norm, modal, fetches)
    ensures rows == RetainedRows(norm, modal, fetches, ctx, attempts)
    ensures flag <==> FirstClean(norm, modal, fetches, MaxQualityAttempts).None?
  {
    rows := [];
    flag := true;
    attempts := 0;
    var t := 0;
    while t < MaxQualityAttempts
      invariant 0 <= t <= MaxQualityAttempts && attempts == t
      invariant FirstClean(norm, modal, fetches, t).None?
      invariant flag
      invariant rows == RetainedRows(norm, modal, fetches, ctx, t)
    {
      attempts := t + 1;
      match FetchAt(fetches, t) {
        case Raised =>
          flag := true;
        case Fetched(grid) =>
          rows, flag := CruzarModalComMui(norm, modal, grid, ctx);
          if !flag {
            FirstCleanStable(norm, modal, fetches, t + 1, MaxQualityAttempts);
            return;
          }
      }
      t := t + 1;
    }
  }

  lemma {:induction false} FirstCleanStable(norm: Normalisers, modal: seq<seq<string>>, fetches: seq<Fetch>, n: nat, m: nat)
    requires n <= m && FirstClean(norm, modal, fetches, n).Some?
    ensures FirstClean(norm, modal, fetches, m) == FirstClean(norm, modal, fetches, n)
    decreases m - n
  {
    if n < m {
      FirstCleanStable(norm, modal, fetches, n, m - 1);
    }
  }

  // ---------------------------------------------------------------------
  // One store
  // ---------------------------------------------------------------------

  /** What processing one store leaves behind: the new `loja_atual`, the
      status recorded for the store, whether the delivery summary isOpen,
      and the rows added to the consolidated table. */
  datatype StoreOutcome = StoreOutcome(name: string, current: Option<string>, status: Status, isOpen: bool, rows: seq<seq<string>>)

  function JoinContext(store: Store, dataBase: string): Context {
    Context(dataBase, store.start, store.end, store.name)
  }

  /** The outcome of one store, given `loja_atual` before it. */
  function StoreResult(norm: Normalisers, store: Store, current: Option<string>, b: Browser, dataBase: string): StoreOutcome {
    if current != Some(store.name) && b.reportsInactive then
      StoreOutcome(store.name, current, Pendente, false, [])
    else if !ModalOpens(b.clicks) then
      StoreOutcome(store.name, Some(store.name), Pendente, false, [])
    else
      var n := AttemptsUsed(norm, b.modal, b.fetches);
      var clean := FirstClean(norm, b.modal, b.fetches, MaxQualityAttempts).Some?;
      StoreOutcome(store.name, Some(store.name), if clean then Sucesso else SucessoAvisoQualidade, true,
                   RetainedRows(norm, b.modal, b.fetches, JoinContext(store, dataBase), n))
  }

  /** Whether the store gets past the store switch (rpa_hashtag.py:1190-1198)
      to the filters, where `proximo_dia(data_base)` runs. */
  predicate PassesSwitch(store: Store, current: Option<string>, b: Browser) {
    !(current != Some(store.name) && b.reportsInactive)
  }

  /** One store as the program runs it: a store that gets past the switch
      computes the end of the filter with `proximo_dia(data_base)`, and the
      overflow that call raises for the last representable date is caught
      nowhere in the loop. */
  function StoreStep(norm: Normalisers, next: string -> Outcome<string>, store: Store, current: Option<string>, b: Browser, dataBase: string): Outcome<StoreOutcome> {
    if PassesSwitch(store, current, b) && next(dataBase).Raises? then Raises
    else Returns(StoreResult(norm, store, current, b, dataBase))
  }

  method ProcessStore(norm: Normalisers, next: string -> Outcome<string>, store: Store, current: Option<string>, b: Browser, dataBase: string)
    returns (out: Outcome<StoreOutcome>)
    ensures out == StoreStep(norm, next, store, current, b, dataBase)
  {
    var loja := current;
    if current != Some(store.name) {
      if b.reportsInactive {
        return Returns(StoreOutcome(store.name, current, Pendente, false, []));
      }
      loja := Some(store.name);
    }
    var filterEnd := next(dataBase);
    if filterEnd.Raises? {
      return Raises;
    }
    var isOpen, _ := OpenModal(b.clicks);
    if isOpen {
      var rows, flag, _ := QualityLoop(norm, b.modal, b.fetches, JoinContext(store, dataBase));
      out := Returns(StoreOutcome(store.name, loja, if flag then SucessoAvisoQualidade else Sucesso, true, rows));
    } else {
      out := Returns(StoreOutcome(store.name, loja, Pendente, false, []));
    }
  }

  // ---------------------------------------------------------------------
  // The store loop
  // ---------------------------------------------------------------------

  /** `[l for l in lista_lojas if l['ativa'] == 'S']`. */
  function ActiveStores(stores: seq<Store>): (r: seq<Store>)
    ensures |r| <= |stores|
    ensures forall s :: s in r ==> s in stores && s.active == "S"
    decreases |stores|
  {
    if stores == [] then []
    else ActiveStores(stores[..|stores| - 1]) + (if stores[|stores| - 1].active == "S" then [stores[|stores| - 1]] else [])
  }

  /** `[l for l in lojas_ativas if l['nome'] != nome]`. */
  function WithoutName(stores: seq<Store>, name: string): (r: seq<Store>)
    ensures |r| <= |stores|
    ensures forall s :: s in r ==> s in stores && s.name != name
    decreases |stores|
  {
    if stores == [] then []
    else WithoutName(stores[..|stores| - 1], name) + (if stores[|stores| - 1].name != name then [stores[|stores| - 1]] else [])
  }

  /** The outcomes of visiting `stores` in order, each store starting from the
      `loja_atual` the previous one left. */
  function Outcomes(norm: Normalisers, stores: seq<Store>, start: Option<string>, runs: seq<Browser>, dataBase: string): (r: seq<StoreOutcome>)
    ensures |r| == |stores|
    decreases |stores|
  {
    if stores == [] then []
    else
      var prev := Outcomes(norm, stores[..|stores| - 1], start, runs, dataBase);
      prev + [StoreResult(norm, stores[|stores| - 1], CurrentAfter(prev, start), RunAt(runs, |stores| - 1), dataBase)]
  }

  function CurrentAfter(outs: seq<StoreOutcome>, start: Option<string>): Option<string> {
    if outs == [] then start else outs[|outs| - 1].current
  }

  /** Some visit raises: it gets past the switch, from the `loja_atual` the
      earlier visits left, and `proximo_dia` raises, which ends the whole
      run. */
  predicate RunAborts(norm: Normalisers, next: string -> Outcome<string>, stores: seq<Store>, start: Option<string>, runs: seq<Browser>, dataBase: string)
    decreases |stores|
  {
    if stores == [] then false
    else
      var k := |stores| - 1;
      var prev := Outcomes(norm, stores[..k], start, runs, dataBase);
      RunAborts(norm, next, stores[..k], start, runs, dataBase)
      || StoreStep(norm, next, stores[k], CurrentAfter(prev, start), RunAt(runs, k), dataBase).Raises?
  }

  /** What the loop leaves: the exception, or `dados_consolidados` and
      `status_lojas`. */
  function VisitResult(norm: Normalisers, next: string -> Outcome<string>, visit: seq<Store>, start: Option<string>, init: map<string, Status>,
                       runs: seq<Browser>, dataBase: string): Outcome<(seq<seq<string>>, map<string, Status>)>
  {
    if RunAborts(norm, next, visit, start, runs, dataBase) then Raises
    else
      var outs := Outcomes(norm, visit, start, runs, dataBase);
      Returns((Consolidated(outs), StatusAfter(init, outs)))
  }

  /** The browser's answers for the `k`-th store visited; a store without
      recorded answers never opens its summary. */
  function RunAt(runs: seq<Browser>, k: nat): Browser {
    if k < |runs| then runs[k] else Browser(false, [], [], [])
  }

  /** The rows of the outcomes whose summary isOpen, in order. */
  function AllRows(outs: seq<StoreOutcome>): seq<seq<string>>
    decreases |outs|
  {
    if outs == [] then []
    else
      var last := outs[|outs| - 1];
      AllRows(outs[..|outs| - 1]) + (if last.isOpen then last.rows else [])
  }

  predicate AnyOpen(outs: seq<StoreOutcome>) {
    exists i :: 0 <= i < |outs| && outs[i].isOpen
  }

  /** `dados_consolidados`: the header once, before the rows of the first
      store whose summary isOpen, then every such store's rows. */
  function Consolidated(outs: seq<StoreOutcome>): seq<seq<string>> {
    if AnyOpen(outs) then [ConsolidatedHeaders] + AllRows(outs) else []
  }

  /** `status_lojas` after the outcomes, a later store overwriting an
      earlier one of the same name. */
  function StatusAfter(init: map<string, Status>, outs: seq<StoreOutcome>): map<string, Status>
    decreases |outs|
  {
    if outs == [] then init
    else StatusAfter(init, outs[..|outs| - 1])[outs[|outs| - 1].name := outs[|outs| - 1].status]
  }

  /** Etapa 1: the stores the loop visits, `loja_atual` before the loop and the
      statuses recorded before it. */
  function Prelude(active: seq<Store>, firstRun: bool, firstInactive: bool): (seq<Store>, Option<string>, map<string, Status>)
    requires active != []
  {
    var first := active[0].name;
    if !firstRun then (active, Some(""), map[])
    else if firstInactive then (WithoutName(active, first), None, map[first := Pendente])
    else (active, Some(first), map[])
  }

  /** Etapa 2: the stores visited in order, each from the `loja_atual` the
      previous one left; `dados_consolidados` and `status_lojas` as they
      stand afterwards, or the exception of a visit that raises. */
  method VisitStores(norm: Normalisers, next: string -> Outcome<string>, visit: seq<Store>, start: Option<string>, init: map<string, Status>,
                     runs: seq<Browser>, dataBase: string)
    returns (result: Outcome<(seq<seq<string>>, map<string, Status>)>)
    ensures result == VisitResult(norm, next, visit, start, init, runs, dataBase)
  {
    var dados: seq<seq<string>> := [];
    var status := init;
    var loja := start;
    var k := 0;
    ghost var outs: seq<StoreOutcome> := [];
    while k < |visit|
      invariant 0 <= k <= |visit|
      invariant outs == Outcomes(norm, visit[..k], start, runs, dataBase)
      invariant !RunAborts(norm, next, visit[..k], start, runs, dataBase)
      invariant loja == CurrentAfter(outs, start)
      invariant dados == Consolidated(outs)
      invariant status == StatusAfter(init, outs)
    {
      var step := ProcessStore(norm, next, visit[k], loja, RunAt(runs, k), dataBase);
      if step.Raises? {
        AbortingStep(norm, next, visit, k, start, runs, dataBase);
        return Raises;
      }
      var out := step.value;
      AdvancingStep(norm, next, visit, k, start, init, runs, dataBase, outs, out);
      if out.isOpen {
        if dados == [] {
          dados := [ConsolidatedHeaders];
        }
        dados := dados + out.rows;
      }
      assert dados == Consolidated(outs + [out]);
      status := status[out.name := out.status];
      loja := out.current;
      outs := outs + [out];
      k := k + 1;
    }
    assert visit[..k] == visit;
    return Returns((dados, status));
  }

  /** `processar_lojas_e_turnos_por_data` up to the export: `None` when no
      store is active (the call returns `False`), otherwise what the loop
      leaves after the first-run prelude. */
  method ProcessarLojas(norm: Normalisers, next: string -> Outcome<string>, lojas: seq<Store>, dataBase: string, firstRun: bool,
                        firstInactive: bool, runs: seq<Browser>)
    returns (result: Outcome<Option<(seq<seq<string>>, map<string, Status>)>>)
    ensures ActiveStores(lojas) == [] <==> result == Returns(None)
    ensures ActiveStores(lojas) != [] ==>
      var (visit, start, init) := Prelude(ActiveStores(lojas), firstRun, firstInactive);
      match VisitResult(norm, next, visit, start, init, runs, dataBase)
      case Raises => result == Raises
      case Returns(v) => result == Returns(Some(v))
  {
    var ativas := ActiveStores(lojas);
    if ativas == [] {
      return Returns(None);
    }
    var init: map<string, Status> := map[];
    var loja: Option<string> := Some("");
    var first := ativas[0].name;
    if firstRun {
      if firstInactive {
        init := init[first := Pendente];
        ativas := WithoutName(ativas, first);
        loja := None;
      } else {
        loja := Some(first);
      }
    }
    assert (ativas, loja, init) == Prelude(ActiveStores(lojas), firstRun, firstInactive);
    var visited := VisitStores(norm, next, ativas, loja, init, runs, dataBase);
    match visited
    case Raises => result := Raises;
    case Returns(v) => result := Returns(Some(v));
  }

  /** A visit that raises aborts the whole loop. */
  lemma {:induction false} AbortingStep(norm: Normalisers, next: string -> Outcome<string>, visit: seq<Store>, k: nat, start: Option<string>,
                                        runs: seq<Browser>, dataBase: string)
    requires k < |visit|
    requires StoreStep(norm, next, visit[k], CurrentAfter(Outcomes(norm, visit[..k], start, runs, dataBase), start), RunAt(runs, k), dataBase).Raises?
    ensures RunAborts(norm, next, visit, start, runs, dataBase)
  {
    RunAbortsStep(norm, next, visit, k, start, runs, dataBase);
    RunAbortsExtends(norm, next, visit, k + 1, start, runs, dataBase);
  }

  /** A visit that returns extends the outcomes, the table and the statuses
      by its own. */
  lemma {:induction false} AdvancingStep(norm: Normalisers, next: string -> Outcome<string>, visit: seq<Store>, k: nat, start: Option<string>,
                                         init: map<string, Status>, runs: seq<Browser>, dataBase: string, outs: seq<StoreOutcome>, out: StoreOutcome)
    requires k < |visit|
    requires outs == Outcomes(norm, visit[..k], start, runs, dataBase)
    requires !RunAborts(norm, next, visit[..k], start, runs, dataBase)
    requires StoreStep(norm, next, visit[k], CurrentAfter(outs, start), RunAt(runs, k), dataBase) == Returns(out)
    ensures outs + [out] == Outcomes(norm, visit[..k + 1], start, runs, dataBase)
    ensures !RunAborts(norm, next, visit[..k + 1], start, runs, dataBase)
    ensures CurrentAfter(outs + [out], start) == out.current
    ensures Consolidated(outs + [out]) ==
      if out.isOpen then (if Consolidated(outs) == [] then [ConsolidatedHeaders] else Consolidated(outs)) + out.rows
      else Consolidated(outs)
    ensures StatusAfter(init, outs + [out]) == StatusAfter(init, outs)[out.name := out.status]
  {
    RunAbortsStep(norm, next, visit, k, start, runs, dataBase);
    VisitStep(norm, visit, k, start, runs, dataBase, outs, out);
    ConsolidatedStep(outs, out);
    StatusAfterStep(init, outs, out);
  }

  lemma {:induction false} RunAbortsStep(norm: Normalisers, next: string -> Outcome<string>, stores: seq<Store>, k: nat, start: Option<string>, runs: seq<Browser>, dataBase: string)
    requires k < |stores|
    ensures RunAborts(norm, next, stores[..k + 1], start, runs, dataBase)
        <==> RunAborts(norm, next, stores[..k], start, runs, dataBase)
             || StoreStep(norm, next, stores[k], CurrentAfter(Outcomes(norm, stores[..k], start, runs, dataBase), start), RunAt(runs, k), dataBase).Raises?
  {
    assert stores[..k + 1][..k] == stores[..k];
  }

  /** A run that aborts within a prefix aborts. */
  lemma {:induction false} RunAbortsExtends(norm: Normalisers, next: string -> Outcome<string>, stores: seq<Store>, n: nat, start: Option<string>, runs: seq<Browser>, dataBase: string)
    requires n <= |stores| && RunAborts(norm, next, stores[..n], start, runs, dataBase)
    ensures RunAborts(norm, next, stores, start, runs, dataBase)
    decreases |stores| - n
  {
    if n < |stores| {
      RunAbortsStep(norm, next, stores, n, start, runs, dataBase);
      RunAbortsExtends(norm, next, stores, n + 1, start, runs, dataBase);
    } else {
      assert stores[..n] == stores;
    }
  }

  lemma {:induction false} VisitStep(norm: Normalisers, stores: seq<Store>, k: nat, start: Option<string>, runs: seq<Browser>,
                                     dataBase: string, outs: seq<StoreOutcome>, out: StoreOutcome)
    requires k < |stores|
    requires outs == Outcomes(norm, stores[..k], start, runs, dataBase)
    requires out == StoreResult(norm, stores[k], CurrentAfter(outs, start), RunAt(runs, k), dataBase)
    ensures outs + [out] == Outcomes(norm, stores[..k + 1], start, runs, dataBase)
    ensures CurrentAfter(outs + [out], start) == out.current
  {
    OutcomesStep(norm, stores, k, start, runs, dataBase);
  }

  lemma {:induction false} OutcomesStep(norm: Normalisers, stores: seq<Store>, k: nat, start: Option<string>, runs: seq<Browser>, dataBase: string)
    requires k < |stores|
    ensures Outcomes(norm, stores[..k + 1], start, runs, dataBase)
         == Outcomes(norm, stores[..k], start, runs, dataBase)
            + [StoreResult(norm, stores[k], CurrentAfter(Outcomes(norm, stores[..k], start, runs, dataBase), start), RunAt(runs, k), dataBase)]
  {
    assert stores[..k + 1][..k] == stores[..k];
  }

  lemma {:induction false} StatusAfterStep(init: map<string, Status>, outs: seq<StoreOutcome>, out: StoreOutcome)
    ensures StatusAfter(init, outs + [out]) == StatusAfter(init, outs)[out.name := out.status]
  {
    assert (outs + [out])[..|outs|] == outs;
  }

  /** How one more outcome changes the consolidated table. */
  lemma {:induction false} ConsolidatedStep(outs: seq<StoreOutcome>, out: StoreOutcome)
    ensures AllRows(outs + [out]) == AllRows(outs) + (if out.isOpen then out.rows else [])
    ensures AnyOpen(outs + [out]) <==> AnyOpen(outs) || out.isOpen
    ensures Consolidated(outs + [out]) ==
      if out.isOpen then (if Consolidated(outs) == [] then [ConsolidatedHeaders] else Consolidated(outs)) + out.rows
      else Consolidated(outs)
  {
    AllRowsStep(outs, out);
    AnyOpenStep(outs, out);
    if !AnyOpen(outs) {
      AllRowsNoneOpen(outs);
    }
  }

  lemma AllRowsStep(outs: seq<StoreOutcome>, out: StoreOutcome)
    ensures AllRows(outs + [out]) == AllRows(outs) + (if out.isOpen then out.rows else [])
  {
    assert (outs + [out])[..|outs|] == outs;
  }

  lemma AnyOpenStep(outs: seq<StoreOutcome>, out: StoreOutcome)
    ensures AnyOpen(outs + [out]) <==> AnyOpen(outs) || out.isOpen
  {
    var all := outs + [out];
    assert all[|outs|] == out;
    assert forall i :: 0 <= i < |outs| ==> all[i] == outs[i];
  }

  /** Stores whose summary never isOpen add no rows. */
  lemma {:induction false} AllRowsNoneOpen(outs: seq<StoreOutcome>)
    requires !AnyOpen(outs)
    ensures AllRows(outs) == []
    decreases |outs|
  {
    if outs != [] {
      var init := outs[..|outs| - 1];
      assert forall i :: 0 <= i < |init| ==> init[i] == outs[i];
      AllRowsNoneOpen(init);
      assert !outs[|outs| - 1].isOpen;
    }
  }

  // ---------------------------------------------------------------------
  // Properties
  // ---------------------------------------------------------------------

  /** The loop stops at the first clean attempt and keeps exactly its rows. */
  lemma {:induction false} StopsAtFirstClean(norm: Normalisers, modal: seq<seq<string>>, fetches: seq<Fetch>, ctx: Context, t: nat)
    requires FirstClean(norm, modal, fetches, MaxQualityAttempts) == Some(t)
    ensures AttemptsUsed(norm, modal, fetches) == t + 1
    ensures FetchAt(fetches, t).Fetched?
    ensures RetainedRows(norm, modal, fetches, ctx, t + 1) == LeftJoin(norm, modal, FetchAt(fetches, t).grid, ctx)
  {
  }

  /** Without a clean attempt all three are made and the rows kept are
      those of the last one that completed. */
  lemma {:induction false} NoCleanAttempt(norm: Normalisers, modal: seq<seq<string>>, fetches: seq<Fetch>)
    requires FirstClean(norm, modal, fetches, MaxQualityAttempts).None?
    ensures AttemptsUsed(norm, modal, fetches) == MaxQualityAttempts
    ensures forall s :: 0 <= s < MaxQualityAttempts ==>
      FetchAt(fetches, s) == Raised || AnyMismatch(norm, modal, FetchAt(fetches, s).grid)
  {
  }

  /** An attempt that raises leaves the rows of the earlier attempts. */
  lemma {:induction false} RaisedKeepsRows(norm: Normalisers, modal: seq<seq<string>>, fetches: seq<Fetch>, ctx: Context, n: nat)
    requires 0 < n && FetchAt(fetches, n - 1) == Raised
    ensures RetainedRows(norm, modal, fetches, ctx, n) == RetainedRows(norm, modal, fetches, ctx, n - 1)
  {
  }

  /** The kept rows are those of a single completed attempt, never a sum of
      several, and none when no attempt completed. */
  lemma {:induction false} RowsOfOneAttempt(norm: Normalisers, modal: seq<seq<string>>, fetches: seq<Fetch>, ctx: Context, n: nat)
    ensures (forall s :: 0 <= s < n ==> FetchAt(fetches, s) == Raised) ==> RetainedRows(norm, modal, fetches, ctx, n) == []
    ensures (exists s :: 0 <= s < n && FetchAt(fetches, s).Fetched?) ==>
      exists s :: 0 <= s < n && FetchAt(fetches, s).Fetched? &&
        RetainedRows(norm, modal, fetches, ctx, n) == LeftJoin(norm, modal, FetchAt(fetches, s).grid, ctx)
  {
    var last := LastCompleted(fetches, n);
    if last.Some? {
      assert FetchAt(fetches, last.value).Fetched?;
    } else {
      assert forall s :: 0 <= s < n ==> FetchAt(fetches, s) == Raised;
    }
  }

  /** `"inativa"` from the store switch: `PENDENTE`, no rows, `loja_atual`
      unchanged. */
  lemma {:induction false} InactiveStorePending(norm: Normalisers, store: Store, current: Option<string>, b: Browser, dataBase: string)
    requires current != Some(store.name) && b.reportsInactive
    ensures StoreResult(norm, store, current, b, dataBase) == StoreOutcome(store.name, current, Pendente, false, [])
  {
  }

  /** Without a store switch the switch's answer plays no part. */
  lemma {:induction false} SameStoreNoSwitch(norm: Normalisers, store: Store, b: Browser, dataBase: string)
    ensures StoreResult(norm, store, Some(store.name), b, dataBase)
         == StoreResult(norm, store, Some(store.name), b.(reportsInactive := false), dataBase)
  {
  }

  /** A summary that does not open in three clicks: `PENDENTE`, no rows. */
  lemma {:induction false} ModalClosedPending(norm: Normalisers, store: Store, current: Option<string>, b: Browser, dataBase: string)
    requires !(current != Some(store.name) && b.reportsInactive)
    requires forall i :: 0 <= i < MaxModalTries ==> !ClickAt(b.clicks, i)
    ensures StoreResult(norm, store, current, b, dataBase) == StoreOutcome(store.name, Some(store.name), Pendente, false, [])
  {
  }

  /** Once the summary opens the status is `SUCESSO` exactly when an attempt
      was clean, `SUCESSO (AVISO QUALIDADE)` otherwise, and never `PENDENTE`. */
  lemma {:induction false} OpenedStatus(norm: Normalisers, store: Store, current: Option<string>, b: Browser, dataBase: string)
    requires !(current != Some(store.name) && b.reportsInactive)
    requires ModalOpens(b.clicks)
    ensures var out := StoreResult(norm, store, current, b, dataBase);
      out.isOpen && out.current == Some(store.name) &&
      (out.status == Sucesso <==> FirstClean(norm, b.modal, b.fetches, MaxQualityAttempts).Some?) &&
      (out.status == SucessoAvisoQualidade <==> FirstClean(norm, b.modal, b.fetches, MaxQualityAttempts).None?)
  {
  }

  /** The consolidated table is empty, or the header followed by the rows of
      the stores whose summary opened; the header comes exactly once. */
  lemma {:induction false} ConsolidatedShape(outs: seq<StoreOutcome>)
    ensures Consolidated(outs) != [] <==> AnyOpen(outs)
    ensures Consolidated(outs) != [] ==>
      Consolidated(outs)[0] == ConsolidatedHeaders && Consolidated(outs)[1..] == AllRows(outs)
    ensures |Consolidated(outs)| == (if AnyOpen(outs) then 1 else 0) + |AllRows(outs)|
  {
    if AnyOpen(outs) {
      assert ([ConsolidatedHeaders] + AllRows(outs))[1..] == AllRows(outs);
    } else {
      AllRowsNoneOpen(outs);
    }
  }

  /** `status_lojas` holds, for every store name visited, the status of the
      last visit to a store of that name. */
  lemma {:induction false} LastVisitWins(init: map<string, Status>, outs: seq<StoreOutcome>, i: nat)
    requires i < |outs|
    requires forall j :: i < j < |outs| ==> outs[j].name != outs[i].name
    ensures outs[i].name in StatusAfter(init, outs)
    ensures StatusAfter(init, outs)[outs[i].name] == outs[i].status
    decreases |outs|
  {
    var last := |outs| - 1;
    if i < last {
      var prefix := outs[..last];
      assert forall j :: i < j < |prefix| ==> prefix[j] == outs[j];
      LastVisitWins(init, prefix, i);
      assert outs[last].name != outs[i].name;
      assert prefix[i] == outs[i];
    }
  }

  lemma {:induction false} StatusKeys(init: map<string, Status>, outs: seq<StoreOutcome>)
    ensures StatusAfter(init, outs).Keys == init.Keys + set o | o in outs :: o.name
    decreases |outs|
  {
    if outs != [] {
      var prefix := outs[..|outs| - 1];
      StatusKeys(init, prefix);
      assert outs == prefix + [outs[|outs| - 1]];
      assert (set o | o in outs :: o.name) == (set o | o in prefix :: o.name) + {outs[|outs| - 1].name};
    }
  }

  /** Every active store is visited: the filter keeps exactly the stores whose
      `ativa` column is `"S"`. */
  lemma {:induction false} ActiveStoresComplete(stores: seq<Store>)
    ensures forall s :: s in stores && s.active == "S" ==> s in ActiveStores(stores)
    decreases |stores|
  {
    if stores != [] {
      var prefix := stores[..|stores| - 1];
      ActiveStoresComplete(prefix);
      assert stores == prefix + [stores[|stores| - 1]];
    }
  }

  /** After an inactive first store only the stores of other names remain. */
  lemma {:induction false} WithoutNameComplete(stores: seq<Store>, name: string)
    ensures forall s :: s in stores && s.name != name ==> s in WithoutName(stores, name)
    decreases |stores|
  {
    if stores != [] {
      var prefix := stores[..|stores| - 1];
      WithoutNameComplete(prefix, name);
      assert stores == prefix + [stores[|stores| - 1]];
    }
  }

  // ---------------------------------------------------------------------
  // The end of the filter: `proximo_dia(data_base)`
  // ---------------------------------------------------------------------

  /** When the filter's end date raises, the first store that gets past
      the switch ends the run: no table and no statuses come out. */
  lemma {:induction false} FilterRaisesAborts(norm: Normalisers, next: string -> Outcome<string>, visit: seq<Store>,
                                              start: Option<string>, init: map<string, Status>, runs: seq<Browser>,
                                              dataBase: string, k: nat)
    requires k < |visit| && next(dataBase).Raises? && !RunAt(runs, k).reportsInactive
    ensures RunAborts(norm, next, visit, start, runs, dataBase)
    ensures VisitResult(norm, next, visit, start, init, runs, dataBase) == Raises
  {
    RunAbortsStep(norm, next, visit, k, start, runs, dataBase);
    RunAbortsExtends(norm, next, visit, k + 1, start, runs, dataBase);
  }

  /** When the filter's end date is computed, no visit raises and the loop
      leaves the table and the statuses of its outcomes. */
  lemma {:induction false} FilterReturnsCompletes(norm: Normalisers, next: string -> Outcome<string>, visit: seq<Store>,
                                                  start: Option<string>, init: map<string, Status>, runs: seq<Browser>,
                                                  dataBase: string)
    requires next(dataBase).Returns?
    ensures !RunAborts(norm, next, visit, start, runs, dataBase)
    ensures var outs := Outcomes(norm, visit, start, runs, dataBase);
      VisitResult(norm, next, visit, start, init, runs, dataBase) == Returns((Consolidated(outs), StatusAfter(init, outs)))
    decreases |visit|
  {
    if visit != [] {
      FilterReturnsCompletes(norm, next, visit[..|visit| - 1], start, init, runs, dataBase);
    }
  }

  /** `data_base` 31/12/9999: the first store not reported inactive makes
      `proximo_dia` overflow, and the run ends with the exception. */
  lemma {:induction false} LastDayAborts(norm: Normalisers, visit: seq<Store>, start: Option<string>,
                                         init: map<string, Status>, runs: seq<Browser>, dataBase: string, k: nat)
    requires dataBase == FormatDate(MaxDate)
    requires k < |visit| && !RunAt(runs, k).reportsInactive
    ensures VisitResult(norm, ProximoDia, visit, start, init, runs, dataBase) == Raises
  {
    ProximoDiaOverflow();
    FilterRaisesAborts(norm, ProximoDia, visit, start, init, runs, dataBase, k);
  }

  /** Any other `data_base`, parsed or not, lets the loop complete. */
  lemma {:induction false} OtherDaysComplete(norm: Normalisers, visit: seq<Store>, start: Option<string>,
                                             init: map<string, Status>, runs: seq<Browser>, dataBase: string)
    requires ParseDate(dataBase) != Some(MaxDate)
    ensures var outs := Outcomes(norm, visit, start, runs, dataBase);
      VisitResult(norm, ProximoDia, visit, start, init, runs, dataBase) == Returns((Consolidated(outs), StatusAfter(init, outs)))
  {
    if ParseDate(dataBase).None? {
      ProximoDiaInvalid(dataBase);
    } else {
      ProximoDiaValid(dataBase);
    }
    FilterReturnsCompletes(norm, ProximoDia, visit, start, init, runs, dataBase);
  }
}
