# CutListOptimizer1D problem aggregation in Dafny

CutListOptimizer1D reads stock and cut lists from JSON files. It groups them
into independent cutting problems, one per tag, and hands each problem to a
one-dimensional cut optimizer. This project models the aggregation core in
`src/json_utils.rs` and proves properties about it:

- the `Problem` record, with its tag, its stock pieces, its cut demands and its stock-piece-to-name lookup;
- `Problem::new`, `add_cut`, `add_source` and `is_valid_problem`;
- the loop of `Problem::from_json_files`, which sends every parsed record to the problem of its tag (creating that problem the first time the tag is seen) and then keeps the valid problems;
- the conversions of a source record into a `StockPiece` and of a cut record into a `CutPiece`;
- the integer power helper `i_pow`.

The files are:

- `wrappers.dfy`: an `Option` type.
- `records.dfy` (module `Records`):
  - the parsed records `SourceRecord` and `CutRecord`;
  - the optimizer's `StockPiece` and `CutPiece`;
  - the two conversions, and `IPow`.
- `problem_spec.dfy` (module `ProblemSpec`):
  - the state of one problem as a value, `ProblemData`;
  - `AddCutTo` and `AddSourceTo`, the value-level meaning of `add_cut` and `add_source`;
  - the invariant `WellFormed`, with its lemmas.
- `aggregation.dfy` (module `Aggregation`):
  - the processing order of the records, `Events`;
  - the tag-to-problem map as a left fold, `Fold`, and the whole result, `Aggregate`;
  - the lemmas characterising them.
- `problem.dfy` (module `Problems`):
  - the imperative model, a class `Problem` whose methods update its fields in place;
  - the aggregation loop over a map of `Problem` objects, `FromRecords`.

  Each method is proved to follow the functions above.

Behaviour of the code worth noting:

- **A price change panics.** `add_source` overwrites the matching stock piece in place (`src/json_utils.rs:173`). The name update on the next line then looks up the NEW piece. The name lookup is keyed by the whole piece, price included. So a record that matches an existing piece in length and availability but has a different cost finds no entry, and `unwrap` panics (`src/json_utils.rs:174`). With the same cost, the name is simply replaced. `ProblemSpec.PriceChangePanics` exhibits the panic, and `ProblemSpec.AddSourceReplaces` states exactly when it happens.
- **The name lookup is keyed by the whole `StockPiece`.** The key is length, price and availability bound together (`src/json_utils.rs:7`, `:169`).
- **`i_pow(b, 0)` is `b`, not 1.** The range `1..exp` is empty for exp <= 1, so the loop runs max(exp - 1, 0) times from `rv = base` (`src/json_utils.rs:47-53`).

A panic is modelled as a result, never as an abort:

- `None` for `AddSourceTo`, `Apply`, `Build`, `Step`, `Fold`, `Aggregate` and `FromRecords`;
- `ok == false` for the methods `AddSource`, `Dispatch`, `ApplyRecord`, `ApplyAll` and `ApplyFile`.

Processing stops at the first panic.

## Model

| member | source | states |
|---|---|---|
| Records.ToStockPiece | src/json_utils.rs:27-35 | the stock piece has the record's length and availability bound, and its price is the record's cost |
| Records.ToCutPiece | src/json_utils.rs:37-45 | the cut piece has the record's length and quantity and no external id |
| Records.IPow | src/json_utils.rs:47-53 | for exp >= 1 the result is base raised to exp; for exp = 0 the result is base itself |
| ProblemSpec.NewProblem | src/json_utils.rs:133-140 | a new problem has the given tag, satisfies the well-formedness invariant and is not solvable |
| ProblemSpec.Solvable | src/json_utils.rs:179-181 | true iff the problem has at least one cut and at least one stock piece; `Problems.Problem.IsValidProblem` ties it to the code's length test, and `Aggregation.SolvableProblemsExact` to the final filter |
| ProblemSpec.AddCutTo | src/json_utils.rs:142-154 | a record of another tag changes nothing; only the cuts change, and the cut list grows by at most one entry; the merge and append cases are in `ProblemSpec.AddCutShape`, the invariant in `ProblemSpec.AddCutKeepsDistinct`, the demand total in `ProblemSpec.AddCutConserves` |
| ProblemSpec.AddSourceTo | src/json_utils.rs:156-177 | a record of another tag changes nothing; when there is no panic, the cuts and tag are kept, the list grows by at most one, and the converted piece is present and carries the record's name; a panic happens only for the record's own tag when the converted piece has no name entry; see `ProblemSpec.AddSourceAppends`, `ProblemSpec.AddSourceReplaces`, `ProblemSpec.AddSourceKeepsWellFormed` |
| ProblemSpec.FirstIndex | src/json_utils.rs:146 | `find` as an index: the returned position matches and no earlier one does; with no result, no element matches |
| ProblemSpec.AddCutShape | src/json_utils.rs:142-154 | a cut record of another tag leaves the problem unchanged; only the cuts ever change; if a cut of the same length exists, exactly that cut gains the record's quantity and the list keeps its length; otherwise the converted record is appended |
| ProblemSpec.AddCutKeepsDistinct | src/json_utils.rs:146-153 | after `add_cut`, no two cuts share a length |
| ProblemSpec.AddCutConserves | src/json_utils.rs:142-154 | `add_cut` raises the total demanded quantity by exactly the record's quantity for its own tag, and by nothing for another tag |
| ProblemSpec.AddSourceAppends | src/json_utils.rs:166-170 | with no stock piece of the same (length, availability), `add_source` appends the converted piece and names it, and keeps every earlier piece and name |
| ProblemSpec.AddSourceReplaces | src/json_utils.rs:172-175 | with a stock piece of the same (length, availability), `add_source` succeeds iff the price is unchanged; the stock list then stays the same and only that piece's name is replaced |
| ProblemSpec.AddSourceKeepsWellFormed | src/json_utils.rs:156-177 | when `add_source` does not panic, no two stock pieces share (length, availability), the names are keyed by exactly the stock pieces, and the tag is kept |
| ProblemSpec.PriceChangePanics | src/json_utils.rs:172-175 | two records of one tag with equal length and availability but different costs: the second `add_source` panics |
| Aggregation.Events | src/json_utils.rs:190-210 | every source and cut record of every file is processed, and nothing else is; the file order is in `Aggregation.EventsPrefix` |
| Aggregation.Step | src/json_utils.rs:193-209 | one record: a cut record never panics; the map afterwards has the old tags plus the record's tag, and every other tag's problem is unchanged; `Aggregation.StepKeeps` gives the invariant it preserves |
| Aggregation.Fold | src/json_utils.rs:188-211 | the map's keys are exactly the tags of the records; `Aggregation.FoldIsPerTag` and `Aggregation.FoldInvariant` characterise its entries |
| Aggregation.Aggregate | src/json_utils.rs:183-218 | the result exists iff the loop does not panic; every returned problem is solvable and belongs to a tag of some record, and no two returned problems share a tag; `Aggregation.AggregateExact` gives the exact content |
| Aggregation.Apply | src/json_utils.rs:142-177 | a record of another tag leaves the problem unchanged; a result that does not panic keeps the problem's tag |
| Aggregation.Build | src/json_utils.rs:193-210 | applying records in order to one problem keeps its tag |
| Aggregation.ApplyKeeps | src/json_utils.rs:142-177 | one record keeps a problem well formed; it adds a cut record's quantity of the same tag to the total demand; the problem has cuts (stock) afterwards iff it had them before or the record is a cut (source) record of its tag |
| Aggregation.StepKeeps | src/json_utils.rs:193-209 | one loop iteration preserves the map invariant: every tag seen has a problem, and each problem has its own tag, is well formed, and matches the demand and presence of its tag's records |
| Aggregation.FoldIsPerTag | src/json_utils.rs:188-211 | the loop panics iff some tag's records panic on a fresh problem; otherwise the map's keys are exactly the records' tags, and each problem equals its own tag's records applied in order to a new problem |
| Aggregation.FoldInvariant | src/json_utils.rs:188-211 | each problem in the final map has its own tag and is well formed; its total demand is the sum of its tag's cut quantities; it has cuts (stock) iff some cut (source) record carries its tag |
| Aggregation.FoldPanicPersists | src/json_utils.rs:198-201 | once a record panics, processing any further records still gives the panic |
| Aggregation.EventsPrefix | src/json_utils.rs:190-210 | the records of the first files are processed before those of later files |
| Aggregation.ForeignRecordsIgnored | src/json_utils.rs:142-159 | applying all records to a problem gives the same result as applying only the records of its own tag |
| Aggregation.SolvableProblems | src/json_utils.rs:213-217 | every kept problem is solvable and is the map's entry for some tag; every solvable entry of the map is kept; `Aggregation.SolvableProblemsExact` adds that, when each key is its entry's tag, a kept problem is the entry of its own tag |
| Aggregation.SolvableProblemsExact | src/json_utils.rs:213-217 | the filter keeps exactly the solvable problems, each being the map's entry for its own tag |
| Aggregation.AggregateExact | src/json_utils.rs:183-218 | the result has a problem for tag t iff t has at least one source record and at least one cut record; that problem is t's records applied in order to a new problem |
| Problems.Problem.constructor | src/json_utils.rs:133-140 | a new problem has the given tag, no pieces, no cuts and no names, and is not yet a valid problem |
| Problems.Problem.AddCut | src/json_utils.rs:142-154 | the object's new state is `AddCutTo` of its old state; it stays well formed and its total demand grows by the record's quantity for its own tag |
| Problems.Problem.AddSource | src/json_utils.rs:156-177 | `ok` is false exactly where `AddSourceTo` panics; otherwise the new state is its result and stays well formed; on a panic the matching stock piece has already been overwritten and nothing else has changed |
| Problems.Problem.IsValidProblem | src/json_utils.rs:179-181 | true iff the problem has at least one cut and at least one stock piece |
| Problems.Dispatch | src/json_utils.rs:198-209 | sends a source record to `add_source` and a cut record to `add_cut`; only a source record can panic, and the new state is `Apply` of the old |
| Problems.ProblemFor | src/json_utils.rs:194-196 | returns the map's problem for the tag, or a fresh empty problem of that tag; either way no other entry is the same object |
| Problems.RegistryValid | src/json_utils.rs:188-211 | every problem object in a map built from records is well formed |
| Problems.ApplyRecord | src/json_utils.rs:193-209 | one record applied to the problem map follows `Step`: it panics exactly when `Step` does, a cut record never panics, and existing entries stay the same objects |
| Problems.ApplyAll | src/json_utils.rs:193-210 | a file's source (or cut) loop follows `Fold` over the records processed so far plus these; it stops at the first panic, and a loop over cut records never panics |
| Problems.ApplyFile | src/json_utils.rs:190-211 | one file: its source records and then its cut records follow `Fold` over the records processed before; it stops at the first panic |
| Problems.CollectValid | src/json_utils.rs:213-217 | the result is the map's valid problems, each exactly once, and every valid problem of the map is included |
| Problems.FromRecords | src/json_utils.rs:183-218 | panics iff `Fold` of the records in file order panics; otherwise it returns one fresh, well-formed, valid problem per tag, equal to that tag's map entry, and includes every solvable tag |

## Left out

- Parsing: `parse_json_file` (`src/json_utils.rs:55-130`) is not part of this model. It reads files, decodes JSON, converts floats to scaled integers and skips malformed entries. The model starts from the parsed records, one `InputFile` per file.
- Scaling by 10^decimals: the `f64` multiplication and truncating cast in the parser are floating point and are not modelled. `IPow` is modelled on its own.
- Records.IPow: the result is an unbounded `nat`, so the `usize` overflow of `rv *= base` is not modelled.
- Problems.Problem.AddCut: cut quantities are unbounded `nat`s, so the `usize` overflow of `value.quantity += piece.quantity` is not modelled. This holds for `ProblemSpec.AddCutTo` and `ProblemSpec.AddCutConserves` too.
- Problems.FromRecords: returns the map's own problem objects rather than clones made by `.cloned()`, and says "fresh" of the objects the loop created.
- Problems.FromRecords: the order of `HashMap::values` is unspecified, so the result is stated as a set of problems with distinct tags, not as a sequence in a given order.
- Panics: a panic is a result (`None`, or `ok == false`) that ends processing, not an abort of the program.
- `src/main.rs` and `src/command_line_parse.rs` are not part of this model. `src/command_line_parse.rs` parses the command line. `src/main.rs` prints each problem and calls `problem.solve(None)` (`src/main.rs:139`). The `impl Problem` block (`src/json_utils.rs:132-219`) defines no `solve` method, so it could only come from the external `cut_optimizer_1d` crate that `src/main.rs:8` imports, and that crate is not part of this model. The result printer in `src/main.rs` is an unimplemented stub, and its `build_optimizer` is an unused demo.
- The external optimizer types: `StockPiece` and `CutPiece` are modelled only by the fields this core sets. `external_id` is an `Option<nat>`.
