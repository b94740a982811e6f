# Delivery reconciliation robot and dashboard — a Dafny model

This project models the data-handling core of a robot that collects, for
every active store and every date, the delivery summary of each courier
(the "modal" table: courier, declared order count, …, Pix key) and the
detailed orders grid of the delivery portal. It then reconciles the two and
writes one consolidated table. It also models the helpers of the dashboard
that reads those tables back. Browser automation is not modelled. What the
browser reports is given to the model as explicit inputs.

The modules follow the program:

| module | file | models |
|---|---|---|
| `Wrappers` | wrappers.dfy | `Option` and `Outcome` (a value or an exception) |
| `Text`, `WordSplit` | text.dfy, words.dfy | `str.strip`, `lower`, `replace`, `split`, `join`, `str.split()` on ASCII text |
| `Names` | names.dfy | `_normalize_name_for_key` and `_normalize_name_for_csv`, with a word-level reference definition of each |
| `Cells` | cells.dfy | `limpar_texto`, `xpath_literal`, the padding of short modal rows |
| `Calendar` | calendar.dfy | `strptime`/`strftime` with `%d/%m/%Y` and `%d/%m/%Y %H:%M`, the proleptic Gregorian calendar, `proximo_dia` |
| `Shifts` | shifts.dfy | `classificar_periodo`, `obter_dia_semana`, `calcular_pagamento` |
| `Export` | export.dfy | the table transformation of `exportar_dados_finais` |
| `Reconcile` | reconcile.dfy | `cruzar_modal_com_mui`: the name index, the left join and the order-count quality check |
| `Stores` | stores.dfy | `processar_lojas_e_turnos_por_data`: the active filter, the first-run prelude, the store switch, the modal retries, the quality retries, the consolidated table and the per-store status |
| `Batches` | batches.dfy | `dividir_em_lotes` and the concatenation of `mesclar_csvs_parciais` |
| `Dashboard` | dashboard.dfy | `ALIASES`/`get_col`, header normalisation, `parse_brl_to_float`, `normalize_ptbr_datetime` |

Three design choices shape the model:

- The join and the store loop take the two name normalisers as a value
  (`Reconcile.Normalisers`). The store loop also takes the next-day function
  as a value; `Calendar.ProximoDia` is the program's own. The export takes the three row rules as a value
  (`Export.Rules`). `SourceNormalisers` and `SourceRules` are the program's
  own choices. General facts are proved for any choice, and facts about the
  program's own rules are proved for those.
- What the portal shows is an input, one `Stores.Browser` per store visit:
  - whether the store switch reported the store as inactive;
  - the outcome of each click on the summary button;
  - the modal rows;
  - the outcome of each grid read (`Raised` or the records read).
- `float()` is kept exact: `Dashboard.Number` is either a decimal
  `coef * 10^exp` or one of `inf`/`nan`.

## Model

| member | source | states |
|---|---|---|
| Names.NormalizeNameForKey | rpa_hashtag.py:829-849 | `None` gives the empty key; text gives its key |
| Names.NameKeyShape | rpa_hashtag.py:837-847 | a key holds no whitespace, no upper-case letter and none of `# - ' ( )` |
| Names.NameKeyOfWords | rpa_hashtag.py:837-847 | the regex pipeline equals a word-level definition: lower-case each word, delete the punctuation, cut a leading `mp`, then `gg`, then a digit run off the first word, and concatenate what is left |
| Names.NameKeyIgnoresSpacing | rpa_hashtag.py:837-847 | two names with the same words have the same key, however they are spaced |
| Names.NameKeyIgnoresCase | rpa_hashtag.py:837 | a name and its lower-case form have the same key |
| Names.NameKeyOfDisplayName | rpa_hashtag.py:829-860 | the key of the display name is the key of the raw name, so grid records, whose courier is stored as a display name, meet the raw modal name |
| Names.NameKeyExample | rpa_hashtag.py:829-849 | `#12 Ruan Pablo` has the key `ruanpablo` |
| Names.NormalizeNameForCsv | rpa_hashtag.py:852-860 | `None` gives the empty name; text gives its display name |
| Names.DisplayNameOfWords | rpa_hashtag.py:852-860 | the display name is the words of the text joined by single spaces, with a leading `#` cut off the first word |
| Names.DisplayNameSingleSpaced | rpa_hashtag.py:852-860 | a display name has no leading or trailing whitespace, and its inner whitespace is single spaces |
| Names.DisplayNameExample | rpa_hashtag.py:852-860 | `#12 Ruan Pablo` is displayed as `12 Ruan Pablo` |
| Cells.LimparTextoShape | rpa_hashtag.py:174-184 | a cleaned cell has no surrounding whitespace, and a column-0 cell has no `#` |
| Cells.LimparTextoIdempotent | rpa_hashtag.py:174-184 | cleaning twice is cleaning once in every column but the fee column |
| Cells.LimparTextoFeeNotIdempotent | rpa_hashtag.py:181-182 | in the fee column `RR$$` cleans to `R$`, which cleans to the empty string |
| Cells.XPathLiteralDenotes | rpa_hashtag.py:187-195 | the literal is a well-formed XPath string expression (quoted literal or `concat` of quoted literals) whose value is the input |
| Cells.PadRow | rpa_hashtag.py:613-617 | a row no longer than the header is padded with `-` to the header's width, keeping its cells; a longer row is dropped |
| Calendar.ParseFormatDate | rpa_hashtag.py:198-206 | parsing a formatted date gives the date back |
| Calendar.ParseFormatDateTime | rpa_hashtag.py:654 | parsing a formatted date-time gives it back |
| Calendar.WeekdayNextDay | rpa_hashtag.py:683-685 | the weekday of the next day is one more, modulo 7 |
| Calendar.WeekdayExample | rpa_hashtag.py:683-685 | 14/10/2025 is a Tuesday (weekday 1) |
| Calendar.ProximoDiaValid | rpa_hashtag.py:198-206 | for a date before 31/12/9999 the result parses, as the day after |
| Calendar.ProximoDiaInvalid | rpa_hashtag.py:198-206 | text that does not parse comes back unchanged |
| Calendar.ProximoDiaOverflow | rpa_hashtag.py:200-202 | 31/12/9999 raises, since the overflow is not the `ValueError` that is caught |
| Shifts.ClassificarPeriodoCases | rpa_hashtag.py:640-673 | the shift is empty exactly when the normalised text does not parse; otherwise `madrugada` exactly before 07:00, `manhã` exactly from 07:00 to 17:59, `noite` exactly from 18:00 |
| Shifts.ClassificarPeriodoOfSite | rpa_hashtag.py:640-673 | a portal time `dd/mm/yyyy HHhMM` is classified by its hour |
| Shifts.ShiftTextOfAbbreviated | rpa_hashtag.py:642-653 | `dd/mmm/yyyy HHhMM`, with the month abbreviated in any case, is normalised to `dd/MM/yyyy HH:MM` before parsing |
| Shifts.ClassificarPeriodoOfAbbreviated | rpa_hashtag.py:640-673 | a time with its month abbreviated in any case is classified by its hour |
| Shifts.ObterDiaSemana | rpa_hashtag.py:680-686 | the result is empty or one of the seven day names |
| Shifts.ObterDiaSemanaOfDate | rpa_hashtag.py:680-686 | a formatted date gets the day name of its weekday |
| Shifts.ObterDiaSemanaOfProximoDia | rpa_hashtag.py:680-686 | the day after a date gets the next day name |
| Shifts.ObterDiaSemanaExample | rpa_hashtag.py:680-686 | 14/10/2025 is a `terça` |
| Shifts.PagamentoOfShift | rpa_hashtag.py:688-702 | the pay for a shift is the rate card: 70, plus 10 at the weekend, plus 20 for `madrugada` |
| Shifts.PagamentoOfUnknownShift | rpa_hashtag.py:688-702 | a shift that is none of the three pays 0 |
| Shifts.PagamentoOfEmptyShift | rpa_hashtag.py:688-702 | an empty shift pays 0 |
| Shifts.PagamentoOfEmptyDay | rpa_hashtag.py:688-702 | an empty day name (a filter date that does not parse) is paid at the weekday rate |
| Shifts.PagamentoOfDerived | rpa_hashtag.py:704-710 | a row's pay is 0 when its creation time does not parse, else the rate for its filter date's weekday and its creation time's shift |
| Export.ExportarDadosFinais | rpa_hashtag.py:630-634 | there is nothing to export exactly when the data is empty |
| Export.ExportOfConsolidated | rpa_hashtag.py:636-719 | for any row rules, the consolidated table gains the shift, day and pay columns, in that order, and loses its `total` rows |
| Export.ExportarConsolidated | rpa_hashtag.py:636-719 | the same, with the program's own rules |
| Export.ExportMalformed | rpa_hashtag.py:636-722 | a row longer than the header, or rows all shorter than it, make building the frame fail; the rows are then written as they came |
| Export.ExportPadsShortRows | rpa_hashtag.py:636-721 | beside a row of the header's width, shorter rows are padded with missing cells before the columns are derived; when the pay rule would read a missing shift or day cell it raises, and the rows are written as they came |
| Export.PayOnMissingExample | rpa_hashtag.py:688-721 | a short row whose day cell is missing makes the pay rule raise, so the two rows are written unchanged with no derived columns |
| Export.MissingCellRules | rpa_hashtag.py:640-686 | a missing cell is classified as no shift and no weekday, as empty text is |
| Export.ExportedRow | rpa_hashtag.py:675-712 | an exported row keeps its twelve cells and adds the shift of its creation time, the weekday of its filter date and the pay for them |
| Export.DropTotalsNoTotal | rpa_hashtag.py:715-716 | no remaining row has `total` as its courier |
| Export.DropTotalsKeeps | rpa_hashtag.py:715-716 | every remaining row was an input row, and every input row that is not a total remains |
| Export.DropTotalsCount | rpa_hashtag.py:715-716 | exactly the total rows are removed |
| Reconcile.BuildIndex | rpa_hashtag.py:1041-1043 | each key looks up exactly the grid records with that key, in grid order |
| Reconcile.CheckCount | rpa_hashtag.py:1062-1075 | a mismatch exactly when the key is not `total`, the declared count parses, is not negative and differs from the records found |
| Reconcile.JoinModalRow | rpa_hashtag.py:1046-1117 | the rows emitted for one modal row, and its mismatch, are those of the specification |
| Reconcile.CruzarModalComMui | rpa_hashtag.py:1030-1120 | the output is the left join of the modal rows against the grid, and the flag is set exactly when some modal row mismatches |
| Reconcile.LeftJoinWidth | rpa_hashtag.py:1089-1117 | every output row has twelve fields |
| Reconcile.LeftJoinCount | rpa_hashtag.py:1089-1117 | the output has one row per matching record, or one row for a modal row without match |
| Reconcile.RowCountAtLeast | rpa_hashtag.py:1106-1117 | the join keeps every modal row: at least as many rows out as in |
| Reconcile.MatchesCount | rpa_hashtag.py:1041-1055 | a record occurs among the matches of a key as often as in the grid when its key is that key, otherwise not at all |
| Reconcile.MatchesMember | rpa_hashtag.py:1041-1055 | every match is a grid record with that key |
| Reconcile.RowsForJoinsByKey | rpa_hashtag.py:1089-1117 | each output row is the modal prefix followed by blanks or by the fields of a grid record with the same key |
| Reconcile.LeftJoinEmptyGrid | rpa_hashtag.py:1106-1117 | against an empty grid each modal row becomes its prefix and six blanks |
| Reconcile.ParseIntOfText | rpa_hashtag.py:1066-1068 | a decimal count is read as its value |
| Reconcile.ParseIntOfNegative | rpa_hashtag.py:1066-1068 | a negative count is read as its value |
| Reconcile.ParseIntRejects | rpa_hashtag.py:1066-1071 | text that does not start with a sign or a digit is not a count |
| Reconcile.UnreadableCountIgnored | rpa_hashtag.py:1062-1074 | the `total` row, an unreadable count and a negative count never mismatch |
| Reconcile.MinusOneIgnored | rpa_hashtag.py:1071-1074 | a declared `-1` is read but never compared |
| Reconcile.MatchingCountPasses | rpa_hashtag.py:1074-1081 | a declared count equal to the records found does not mismatch |
| Reconcile.DifferentCountFails | rpa_hashtag.py:1074-1075 | a declared count different from the records found mismatches |
| Stores.OpenModal | rpa_hashtag.py:1232-1240 | at most three clicks; the modal is open exactly when one of them opens it, and it stops at the first that does |
| Stores.QualityLoop | rpa_hashtag.py:1264-1301 | the attempts used, the rows kept (those of the last completed read) and the warning flag (no clean attempt) are those of the specification |
| Stores.StopsAtFirstClean | rpa_hashtag.py:1283-1291 | after the first clean attempt the loop stops and keeps that attempt's join |
| Stores.NoCleanAttempt | rpa_hashtag.py:1264-1301 | without a clean attempt all three are used, each raised or mismatched |
| Stores.RaisedKeepsRows | rpa_hashtag.py:1296-1300 | an attempt whose grid read raises keeps the rows of the attempts before it |
| Stores.RowsOfOneAttempt | rpa_hashtag.py:1283-1286 | the rows kept are those of one attempt, never a sum of attempts, and none when every read raised |
| Stores.ProcessStore | rpa_hashtag.py:1179-1326 | one store's outcome is that of the specification: an inactive switch gives `PENDENTE`; otherwise an exception from the filter's end date propagates, and else the modal and quality loops decide |
| Stores.InactiveStorePending | rpa_hashtag.py:1190-1198 | switching to a store reported inactive leaves it `PENDENTE` with no rows and the current store unchanged |
| Stores.SameStoreNoSwitch | rpa_hashtag.py:1190 | when the store is already the current one no switch happens, so an inactive report has no effect |
| Stores.ModalClosedPending | rpa_hashtag.py:1324-1326 | when no click opens the modal the store is `PENDENTE` with no rows |
| Stores.OpenedStatus | rpa_hashtag.py:1316-1322 | an opened store is `SUCESSO` exactly when some attempt was clean, otherwise `SUCESSO (AVISO QUALIDADE)` |
| Stores.ConsolidatedShape | rpa_hashtag.py:1304-1314 | the table is empty exactly when no modal opened; otherwise it is the header once, then all retained rows in visit order |
| Stores.LastVisitWins | rpa_hashtag.py:1196-1326 | a store's status is that of its last visit |
| Stores.StatusKeys | rpa_hashtag.py:1160-1326 | the status map covers exactly the prelude's stores and the visited ones |
| Stores.ActiveStoresComplete | rpa_hashtag.py:1140 | every store marked `S` is processed |
| Stores.WithoutNameComplete | rpa_hashtag.py:1163 | removing the inactive first store keeps every other store |
| Stores.VisitStores | rpa_hashtag.py:1179-1326 | the loop raises exactly when some visit's filter end date raises; otherwise its table and status map are those of the specification |
| Stores.FilterRaisesAborts | rpa_hashtag.py:1190-1218 | when the end date raises, one visit that passes the switch aborts the whole loop |
| Stores.FilterReturnsCompletes | rpa_hashtag.py:1179-1326 | when the end date returns, the loop completes with the consolidated table and the statuses |
| Stores.LastDayAborts | rpa_hashtag.py:1217-1218 | on 31/12/9999 the loop raises as soon as one visited store is not reported inactive |
| Stores.OtherDaysComplete | rpa_hashtag.py:1217-1218 | on any other date text the loop completes |
| Stores.ProcessarLojas | rpa_hashtag.py:1126-1326 | nothing runs exactly when no store is active; otherwise the prelude runs and then the visits, which either raise or give the specified table and statuses |
| Batches.ChunksPartition | rpa_hashtag.py:1376-1381 | the slices concatenate back to the input and each is non-empty and at most the step long |
| Batches.DividirEmLotesPartition | rpa_hashtag.py:1376-1381 | the batches concatenate back to the stores, in order, and each is non-empty and within the limit |
| Batches.DividirEmLotesBalanced | rpa_hashtag.py:1379-1381 | with several threads each batch has at most the ceiling of stores over threads, and there are at most that many batches when the limit allows |
| Batches.DividirEmLotesEmpty | rpa_hashtag.py:1379-1381 | with several threads and no store the slicing step is 0 and `range` raises |
| Batches.MergeOfBatches | rpa_hashtag.py:1419-1440 | merging the partial tables of the batches gives back all the rows |
| Batches.UnreadableSkipped | rpa_hashtag.py:1428-1434 | a partial table that cannot be read is skipped |
| Batches.MergeCommutes | rpa_hashtag.py:1419-1440 | the merged rows do not depend on the order of the partial tables, up to order |
| Dashboard.GetCol | app.py:87-92 | an unknown key resolves to no column |
| Dashboard.GetColFirstAlias | app.py:87-92 | a key resolves to the first of its aliases present among the columns, and to none exactly when no alias is present |
| Dashboard.NormalizeHeader | app.py:170-173 | a normalised header has no whitespace and no upper-case letter |
| Dashboard.NormalizeHeaderIdempotent | app.py:170-173 | normalising a header twice is normalising it once |
| Dashboard.TwoWordHeader | app.py:170-173 | two words become their lower-case forms joined by `_` |
| Dashboard.FilterDateResolves | app.py:69-92 | the column `Data Filtro` resolves as `data_filtro` |
| Dashboard.ParseBrl | app.py:94-106 | a missing or blank cell has no value |
| Dashboard.ParseFormatted | app.py:94-106 | an amount written `R$ 1.234,56` parses to exactly that many centavos over 100 |
| Dashboard.BrlExamples | app.py:95 | `R$ 1.234,56` is 1234.56 and `R$ 0,00` is 0 |
| Dashboard.ParseBrlNoNumeral | app.py:102-106 | text without a numeral has no value |
| Dashboard.PayReadTenfold | app.py:94-106 | a pay amount written as the float text `n.0` is read as `10 * n`, because the point is deleted as a thousands separator |
| Dashboard.PayReadExample | app.py:184-188 | the pay text `80.0` is read as 800 |
| Dashboard.LoadMoneyPay | app.py:184-188 | read as a plain number, the pay text `n.0` is the amount `n` |
| Dashboard.LoadMoneyFee | app.py:184-188 | the three fee columns are still read as currency text, so a written amount of centavos parses back to itself |
| Dashboard.NormalizePtbrDatetime | app.py:108-116 | a missing cell gives no time; text gives the rewritten text |
| Dashboard.HourRewriteSound | app.py:112 | the rewrite only turns an `h` between an hour of one or two digits and two minute digits into `:` |
| Dashboard.DateTimeText | app.py:108-116 | `dd/mmm/yyyy HHhMM` becomes `dd/MM/yyyy HH:MM`, with the month abbreviation replaced by its number in any case |
| Dashboard.OctoberText | app.py:109 | `29/out/2025 22h42` becomes `29/10/2025 22:42` |

## Left out

- Browser automation is not modelled. This covers login, store selection, filters, waits, `sleep`, clicks and the XPath queries. Their results enter as `Stores.Browser` and the prelude's `firstInactive`. The `TimeoutException` that a wait in `login`, `selecionar_loja` or `aplicar_filtros` raises is not caught and ends the whole run; `Stores.Browser` cannot express it, so "raises exactly when" in `Stores.VisitStores` is meant within the model.
- Logging, the summary counts and the summary log are not modelled. Logging has no effect on the data.
- Threads and their start-up stagger are not modelled. The model covers only what the batch split and the merge do to the rows.
- File and CSV I/O, timestamps in file names, `best_read_csv`, the dashboard's Streamlit UI and its charts are not modelled.
- `pd.to_datetime` after the rewrite in `normalize_ptbr_datetime` is not modelled. It is a foreign parser, so the model ends at the rewritten text.
- Dashboard.ParseBrl: returns the exact decimal, not the rounded binary `float`.
- Dashboard.ParseBrl: `float()` also accepts `_` between digits (`1_000`). The model's decimal reader does not, so such an amount has no value.
- Credentials and the portal's URL are not modelled.
- Export.ExportOfConsolidated, Export.ExportarConsolidated: for a header with no rows the model derives the three empty columns. With pandas 2 the pay step on an empty frame raises instead, and the header is written unchanged.
- Text is ASCII: `strip`, `lower`, `\s` and `\d` are modelled on ASCII only. Unicode whitespace, digits and case mappings are not.
- Reconcile.ParseIntOfText: `int()` also accepts `_` between digits. The model's count reader does not, so such a count is treated as unreadable.
- Calendar.ParseFormatDate, Calendar.ProximoDiaValid, Shifts.ObterDiaSemanaOfProximoDia: years are formatted with four digits. For years below 1000 the platform's `%Y` may print fewer digits.
- `mudar_loja` returning `None` after a timeout or an unexpected error is modelled as a normal switch. The source does the same, since only `"inativa"` is tested.

## Findings

| source | as written | input that shows it | evidently intended | confidence | as-written member | corrected member |
|---|---|---|---|---|---|---|
| app.py:184-188 | the pay column `pagamento_por_turno` goes through `parse_brl_to_float`, which deletes every `.`; the export writes pay as the float text `80.0` (rpa_hashtag.py:706-711), so it is read as 800 | the pay cell `80.0` | the pay read as the number it is, 80 | not executed | Dashboard.PayReadTenfold | Dashboard.LoadMoneyPay |
