# Card-production workstation simulator — Dafny model

The simulator turns an array of card orders into batches and moves them through
a fixed pipeline of operations: `paper`, `cut`, `assemble`, `glue` and `pack`.
Each operation has a pool of workstations. A workstation claims up to its
capacity from the head of its operation's pending queue, works on it, and then
passes the batch on. If a batch of the same card and order is waiting at the
next operation, the units taken are added to it. Otherwise the claimed batch
object itself, with whatever quantity it holds at that moment, joins the next
queue, which is then re-sorted by priority key.

The model covers:

- **Settings** (`settings.dfy`, from `settings.js`): the operation list, the
  time, count and capacity tables, and the successor lookup `getNextStep`, with
  its quirks.
- **Priority** (`priority.dfy`): the seeding key `Number("i.p")`, taken as an
  exact real number `i + p / 10^digits(p)`.
- **Orders** (`orders.dfy`): the input records.
- **Batches** (`batches.dfy`): the batch record as a heap object. Claims and
  merges change its quantity in place, and the same object can sit in more
  than one queue. The module also has the sort by key and the `find` over a
  queue.
- **Workstations** (`workstations.dfy`, from `workstations.js`): the pending
  queues as a `Pipeline` object, with seeding (`queueRows`) and the two halves
  of `process`:
  - `Claim`: shift, split and unshift;
  - `Complete`: find-and-merge, or push-and-re-sort.

  Scenario methods drive one interleaving of the timers through these
  operations.
- **Sizing** (`sizing.dfy`, from `index.js`): the largest row quantity, found
  by the nested `reduce`, and the loop that raises each operation's worker
  count to `ceil(maxSize / capacity)`.

## Model

| member | source | states |
|---|---|---|
| Settings.OperationsShape | settings.js:4-5 | five distinct operations, and the first operation is `paper`, the head of the list |
| Settings.TablesPositive | settings.js:9-32 | every operation has a positive time, count and capacity |
| Settings.GetNextStep | settings.js:39-47 | a successor, when there is one, is itself an operation |
| Settings.NextStepTable | settings.js:39-47 | paper→cut, cut→assemble, assemble→glue, glue→none, pack→pack, and every unlisted name→none |
| Settings.Follow | settings.js:39-47 | every stage reached by following the successor is an operation |
| Settings.FollowPastEnd | settings.js:37-47 | once the successor walk reaches "none" it stays there |
| Settings.WalkFromFirst | settings.js:39-47 | from `paper` a batch visits cut, assemble and glue and then leaves after four steps; `pack` is never reached |
| Settings.IndexOf | settings.js:2-4 | the position of an operation in the pipeline list |
| Settings.NextStage | settings.js:34-37 | the corrected successor is always an operation |
| Settings.NextStageFollowsList | settings.js:2-4 | the corrected successor is the next operation in list order, and the last one has none |
| Settings.NextStageVisitsAll | settings.js:2-4 | with the corrected successor, the walk from `paper` visits every operation in list order and ends after `pack` |
| Priority.Digits | workstations.js:62 | p has d decimal digits: 10^(d-1) <= p < 10^d |
| Priority.Fraction | workstations.js:62 | the digits of p read after the decimal point lie in [0, 1) |
| Priority.Key | workstations.js:62 | the key "i.p" lies in [i, i+1) |
| Priority.KeyOrdersByIndex | workstations.js:58-61 | every row of an earlier order gets a smaller key than every row of a later one |
| Priority.KeySameWidth | workstations.js:58-62 | within one order, priorities with the same number of digits order and tie as the priorities themselves |
| Priority.KeyIgnoresTrailingZero | workstations.js:62 | priority 10p gets the same key as priority p |
| Priority.KeyTenBeforeTwo | workstations.js:58-62 | priority 10 ties with priority 1 and sorts before every one-digit priority from 2 to 9 |
| Priority.OrderedKey | workstations.js:58-62 | the corrected key for order position i lies in [i, i+1) |
| Priority.OrderedKeyLexicographic | workstations.js:58-62 | the corrected keys order and tie exactly by (order position, row priority) |
| Batches.Batch.constructor | workstations.js:54-63 | a new batch record holds the given order number, quantity, card id and key |
| Batches.Insert | workstations.js:67 | inserting into a sorted queue keeps it sorted and adds exactly that batch |
| Batches.SortByPriority | workstations.js:67 | the result is sorted ascending by key and holds exactly the same batch objects |
| Batches.FindMatch | workstations.js:108 | finds the first entry of the same card and order; returns none exactly when no entry matches |
| Batches.DistinctPermutation | workstations.js:67 | re-sorting a queue that holds no object twice gives a queue that holds no object twice |
| Sizing.CeilDiv | index.js:27 | c = ceil(n/d), characterised by c*d >= n > (c-1)*d |
| Sizing.CeilDivUnique | index.js:27 | the ceiling is the only integer with those bounds |
| Sizing.RowMax | index.js:18-20 | the inner reduce bounds every row quantity, is at least its start value, and is the start value or some row's quantity |
| Sizing.OrdersMax | index.js:17-21 | the outer reduce bounds every row of every order, is at least its start value, and is the start value or some row's quantity |
| Sizing.MaxSize | index.js:17-21 | maxSize is non-negative and bounds every row quantity of every order |
| Sizing.MaxSizeIsMaximum | index.js:15-21 | maxSize is non-negative, bounds every row, and is 0 or some row's quantity |
| Sizing.AdjustedCount | index.js:25-28 | the adjusted count is max(count, ceil(maxSize/capacity)): at least both, and equal to one of them |
| Sizing.AdjustedCountBounds | index.js:24-28 | the adjusted count is at least the configured count, and that many workers hold maxSize units in one round |
| Sizing.AdjustedCountLeast | index.js:24-28 | no smaller count has both properties |
| Sizing.AdjustedCountIdempotent | index.js:25-28 | adjusting an adjusted count changes nothing |
| Sizing.AdjustCounts | index.js:24-30 | every operation's count becomes max(count, ceil(maxSize/capacity)); other keys are unchanged |
| Sizing.AdjustTwice | index.js:24-30 | running the adjustment loop twice gives the same table as running it once |
| Workstations.EntriesSnoc | workstations.js:52-65 | seeding one more order appends exactly that order's row records |
| Workstations.EntriesAt | workstations.js:52-63 | seeding pushes one record per row; row k of order i is at position rowsBefore(i)+k with the row's fields and key "i.p" |
| Workstations.EntriesLength | workstations.js:52-65 | the number of records pushed is the total number of rows |
| Workstations.EarlierOrderFirst | workstations.js:58-61 | in a queue sorted by key, every batch of an earlier order stands before every batch of a later one |
| Workstations.ClaimSizesSum | workstations.js:88-95 | the successive claims on a batch add up to its quantity |
| Workstations.ClaimSizesShape | workstations.js:88-95 | every claim but the last takes a full capacity; the last takes at most a capacity and at least one unit |
| Workstations.ClaimSizesCount | workstations.js:88-95 | a batch of q > 0 units is used up after ceil(q / capacity) claims |
| Workstations.ClaimsOfHundredAtForty | workstations.js:88-95 | 100 units at capacity 40 are taken as 40, 40 and 20 |
| Workstations.Pipeline.constructor | workstations.js:20-22 | every operation starts with an empty pending queue |
| Workstations.Pipeline.QueueRows | workstations.js:49-68 | pushes one fresh batch per row, carrying the row's fields and key; the first queue ends sorted with exactly the old batches plus those; other queues are unchanged |
| Workstations.Pipeline.PushOrders | workstations.js:52-65 | the outer seeding loop appends the records of every order, in input order |
| Workstations.Pipeline.PushOrder | workstations.js:53-64 | the inner seeding loop appends one fresh batch per row of one order |
| Workstations.Pipeline.SortQueue | workstations.js:67 | one queue is re-sorted: same objects, sorted, still free of repeats; other queues are unchanged |
| Workstations.Pipeline.Claim | workstations.js:80-95 | an empty queue gives nothing; otherwise the head is claimed, with a capacity's worth split off in place (the batch stays at the head) or the whole batch taken (it leaves the queue); consistent with ClaimSizes; no other batch changes |
| Workstations.Pipeline.PushSorted | workstations.js:113-120 | pushes a batch and re-sorts: the queue gains exactly that object and nothing else changes |
| Workstations.Pipeline.Complete | workstations.js:105-122 | no successor: nothing changes; a matching batch waiting next: only its quantity grows by the units; otherwise the claimed object itself, with its live quantity, joins the next queue |
| Workstations.Pipeline.CompleteCorrected | workstations.js:105-122 | as Complete, but with the list-order successor, and a fresh batch carrying exactly the units taken is pushed in place of the claimed object |
| Workstations.SeedOneRow | workstations.js:49-68 | seeding one row of 100 units leaves exactly that batch queued at paper |
| Workstations.SeedAndClaimAtPaper | workstations.js:80-95 | three paper workstations claim 40, 40 and 20 from it; the batch holds 20 and is no longer queued |
| Workstations.AliasedCompletionScenario | workstations.js:100-121 | paper completes 100 units but cut receives only 80 |
| Workstations.CorrectedFirstCompletion | workstations.js:100-121 | with the corrected completion, the 20-unit completion is claimed whole at cut |
| Workstations.CorrectedCompletionScenario | workstations.js:100-121 | with the corrected completion, cut receives all 100 units |

## Left out

- Worker pools and scheduling (`start`, workstations.js:19-44, and the re-enqueue at lines 85 and 128) are left out. The task-queue library is not part of this model. The bounded number of concurrent workstations per operation is therefore not modelled. Interleavings are chosen explicitly by the scenario methods.
- Timing is left out. `sleep(times[op] * quantity)` at workstations.js:100 is not modelled: `Times` is only a table, and the order in which completions run is a parameter of each scenario.
- Console output (index.js:22, 29; workstations.js:97, 124) is left out as I/O.
- Loading `input.json` (index.js:13) is left out as I/O. The orders are a parameter.
- Row priorities are `nat`. A negative priority makes the string "i.-p", which `Number` turns into NaN. That case and non-integer fields are not modelled.
- Priority.Key is an exact real. The source parses a floating-point number, so rounding of long digit strings is not modelled. Nor are priorities of 10^21 and above: JavaScript prints them in exponent form ("i.1e+21"), which parses to a number far outside [i, i+1), so Key's bound does not describe the source there.
- Sizing.CeilDiv is exact integer ceiling. The source divides in floating point before `Math.ceil`.
- Batches.SortByPriority states a sorted permutation, not stability. The comparator `x.priority - y.priority` and ties of equal keys leave the relative order of equal keys unstated.
- The JavaScript `undefined` from `shift` on an empty queue is modelled as `null` with quantity 0.

## Findings

| source | as written | input that shows it | evidently intended | confidence | as-written member | corrected member |
|---|---|---|---|---|---|---|
| workstations.js:113 | when no batch of the same card and order waits at the next operation, the claimed batch object itself is pushed, carrying its live quantity rather than the units just completed | one order with one 100-unit row of card 7. Paper claims 40, 40 and 20. The 20-unit work finishes first and cut claims those 20. The two 40-unit completions then push and merge into the same object, so cut receives 20 + 60 = 80 units | the next operation receives exactly the units completed, 100 in total | not executed | Workstations.AliasedCompletionScenario | Workstations.Pipeline.CompleteCorrected, Workstations.CorrectedCompletionScenario |
| settings.js:39-47 | `glue` falls to the default and yields no successor, and `pack` is mapped to itself | a batch leaving `glue` finishes the pipeline, so no `pack` workstation ever receives work | each operation is followed by the next one in the list, and `pack`, the last, by none | not executed | Settings.WalkFromFirst | Settings.NextStage, Settings.NextStageVisitsAll |
| workstations.js:62 | the key is the decimal "i.p", so priority 10 reads as i.1 | rows of one order with priorities 2 and 10: keys i.2 and i.1, so priority 10 is served before priority 2, and it ties with priority 1 | rows of one order are served in ascending priority | not executed | Priority.KeyTenBeforeTwo | Priority.OrderedKey, Priority.OrderedKeyLexicographic |
