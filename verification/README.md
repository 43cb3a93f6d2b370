# SimulationClient core, modelled in Dafny

`tycho-simulation-ts` exposes a native `SimulationClient` to TypeScript. The native
side (`src/lib.rs`) keeps a table of liquidity pools, keyed by component id. The table
is seeded from the first block update of a protocol stream. `new` also spawns an update
processor that merges every later update into the table. That processor runs on a
tokio runtime that is a local of `new`, so it is cancelled when `new` returns. After
construction the table therefore keeps the seed, plus whatever the processor merged
before `new` returned. The client answers two queries against the table:

- `getAmountOut` quotes a batch of input amounts against every pool that holds both
  tokens;
- `getSpotPrice` prices the first such pool it finds.

The pool maths (`ProtocolSim::get_amount_out`, `spot_price`) belongs to a foreign crate.
The model takes it as function-valued parameters: a `Quoter` and a `Pricer`.

The project has six files:

- `wrappers.dfy`: `Option` and `Result`.
- `address.dfy` (module `Address`): `normalize_address`.
- `pools.dfy` (module `Pools`): the entities (token, opaque pool state, component, table
  entry, block update, client errors), the pool-matching predicate, and the merge of a
  block update as specification functions with their lemmas.
- `quoting.dfy` (module `Quoting`): `get_amount_out` as a specification function.
  The lemmas give all-or-nothing failure, one row per matching pool, alignment of each
  row with the input, and independence from the iteration order.
- `spot.dfy` (module `Spot`): `get_spot_price` and its lemmas.
- `client.dfy` (module `Client`): the class `SimulationClient`. It has a `tokens`
  constant and a `states` map field. Its methods loop and update the map in place,
  and each is proved against the specification functions above.

A `HashMap` iterates in an unspecified order. The model makes that order an explicit
parameter `order`, which must list every key of the table exactly once
(`Pools.IsEnumeration`). Every property is proved for every such order.

What the code does, and the model with it:

- A failed quote in any matching pool fails the whole `getAmountOut` call.
- A merge never compares block heights and never removes a pool from the table.
- When no pool matches, `getAmountOut` fails with `NoPoolFound`.
- The spot price is the price of the first matching pool in the table's iteration order.

## Model

| member | source | states |
|---|---|---|
| `Address.TrimHexPrefixes` | src/lib.rs:304 | `trim_start_matches("0x")` strips every leading "0x". The result does not start with "0x" and is shorter than the input by an even amount |
| `Address.TrimHexPrefixesShape` | src/lib.rs:304 | what is stripped reads "0x0x…0x", and what is kept is the unchanged rest of the input |
| `Address.ToLower` | src/lib.rs:304 | lower-casing keeps the length, maps each character on its own, and leaves no upper-case letter |
| `Address.Normalize` | src/lib.rs:303-305 | a normalised address contains no upper-case letter |
| `Address.NormalizeShape` | src/lib.rs:303-305 | the input is a run of "0x" prefixes followed by a rest that does not start with "0x", and the result is that rest lower-cased |
| `Address.NormalizeStripsRepeatedPrefix` | src/lib.rs:304 | "0x0xA" normalises to "a": the prefix is stripped repeatedly |
| `Address.NormalizeKeepsUpperCasePrefix` | src/lib.rs:304 | "0XA" normalises to "0xa": stripping happens before lower-casing |
| `Address.NormalizeFixpoint` | src/lib.rs:303-305 | normalisation leaves a string unchanged exactly when it has no "0x" prefix and no upper-case letter |
| `Address.NormalizeNotIdempotent` | src/lib.rs:303-305 | normalising twice can differ from normalising once ("0X0xa" gives "0x0xa", then "a") |
| `Pools.HoldsPairIff` | src/lib.rs:249-254 | a pool matches exactly when some raw token address of the component normalises to each of the two addresses; the order of the pair does not matter |
| `Pools.MergedKeys` | src/lib.rs:146-168 | after an update, the ids are the old ids plus the new-pair ids that carry a state |
| `Pools.MergedEntry` | src/lib.rs:151-162 | a known id with a state gets that state and keeps its component; a new pair with a state is inserted and overwrites; an id without a state is untouched; a new pair without a state, or a state for an unknown id, is dropped |
| `Pools.MergeIgnoresRemovalsAndHeight` | src/lib.rs:146-168 | `removed_pairs` and `block_number` do not affect the merge |
| `Pools.MergeIdempotent` | src/lib.rs:146-168 | applying the same update twice equals applying it once |
| `Pools.MergeEmptyIsNoOp` | src/lib.rs:85-96 | the update that stands for a stream error leaves the table unchanged |
| `Pools.SeedIsMergeIntoEmpty` | src/lib.rs:108-112 | the initial seed (insertion loop only) equals the full merge of the first update into an empty table |
| `Pools.MergedAllMonotone` | src/lib.rs:147-166 | over any sequence of updates no id is removed, and an id that no update gives a state keeps its entry |
| `Pools.RefreshStep` | src/lib.rs:151-155 | one step of the refresh loop replaces the state of a known id and keeps its component |
| `Pools.InsertStep` | src/lib.rs:158-162 | one step of the insertion loop inserts a new pair only when it has a state |
| `Quoting.LowWord` | src/lib.rs:260-264 | the amount handed to the pool is below 2^64, and equals the input when the input fits in 64 bits |
| `Quoting.QuoteOne` | src/lib.rs:258-283 | a negative amount fails before the pool is asked. Otherwise the quote succeeds exactly when the pool answers for the low word with output and gas below 2^64, and the result is that answer. The errors come in the source's order: a pool error becomes `QuoteFailed` with its message; an output of 2^64 or more is `AmountTooLarge` even when the gas is also too large; a fitting output with gas of 2^64 or more is `GasTooLarge` |
| `Quoting.WideAmountWraps` | src/lib.rs:260-264 | the lossless flag is ignored: amount + 2^64 is quoted exactly like amount |
| `Quoting.QuoteRowFacts` | src/lib.rs:255-284 | a pool's row succeeds exactly when every amount quotes. The row then carries the pool id and is aligned with the input: entry i is the quote of amount i alone, against the same state |
| `Quoting.AbortsAt` | src/lib.rs:258-276 | the first failing amount of a matching pool, after everything before it succeeded, is the error of the whole pool loop |
| `Quoting.CollectSucceedsIff` | src/lib.rs:249-291 | the pool loop succeeds exactly when every matching pool's row succeeds |
| `Quoting.CollectRows` | src/lib.rs:249-291 | each collected row is the row of a matching pool of the order, no pool has two rows, and no matching pool is missing |
| `Quoting.AmountOutMissingToken` | src/lib.rs:229-243 | a missing token fails the call with `TokenNotFound` before any pool is examined, and the input token is checked first |
| `Quoting.AmountOutSucceedsIff` | src/lib.rs:237-296 | all or nothing: `get_amount_out` succeeds exactly when both tokens are known, some pool matches, and every amount quotes in every matching pool |
| `Quoting.AmountOutPools` | src/lib.rs:249-296 | on success there is exactly one row per matching id, with `pool` equal to that id, so there are as many rows as matching pools |
| `Quoting.AmountOutAligned` | src/lib.rs:255-290 | on success every row has one output and one gas value per input amount, and entry i is the pool's answer for amount i |
| `Quoting.AmountOutNoPool` | src/lib.rs:294-296 | with both tokens known and no matching pool, the call fails with `NoPoolFound` whatever the amounts; it never returns an empty list |
| `Quoting.AmountOutRowSet` | src/lib.rs:249-290 | on success a row is in the result exactly when it is the row of a matching pool |
| `Quoting.AmountOutOrderIndependent` | src/lib.rs:249 | the HashMap's iteration order does not decide success or the set and number of rows |
| `Spot.FirstMatch` | src/lib.rs:203-211 | `find` returns the first position in the order whose pool holds both tokens, or none exactly when no pool does |
| `Spot.SpotPriceOfFoundPool` | src/lib.rs:203-217 | once a matching pool is found, the call fails with `SpotPriceFailed(m)` exactly when pricing that pool fails with `m`, and otherwise returns that pool's price |
| `Spot.SpotPriceMissingToken` | src/lib.rs:191-197 | a missing token fails the call before any pool is examined, and token0 is checked first |
| `Spot.SpotPriceNoPoolIff` | src/lib.rs:203-220 | with both tokens known, the call fails with `NoPoolFound` exactly when no pool holds both |
| `Spot.SpotPriceFromMatchingPool` | src/lib.rs:203-217 | otherwise the answer is the priced answer of some matching pool |
| `Spot.SpotPriceSinglePool` | src/lib.rs:203-217 | when exactly one pool matches, the answer is that pool's, whatever the order |
| `Client.SimulationClient.constructor` | src/lib.rs:99-118 | the client keeps the given tokens and seeds its table with the merge of the first update into an empty table |
| `Client.SimulationClient.InsertNewPairs` | src/lib.rs:157-162 | the insertion loop leaves the table equal to `Insert` of the old table: each new pair that has a state is inserted |
| `Client.SimulationClient.ApplyUpdate` | src/lib.rs:146-162 | the update processor's body leaves the table equal to `Merged(old table, update)` |
| `Client.SimulationClient.ProcessUpdates` | src/lib.rs:147-166 | processing a sequence of updates leaves the table equal to merging them in arrival order |
| `Client.SimulationClient.GetAmountOut` | src/lib.rs:225-299 | the nested loops with early returns compute exactly `Quoting.AmountOut` of the current tokens and table |
| `Client.Connect` | src/lib.rs:101-117 | a stream that ends before its first item fails construction with `NoInitialState`; a first item that is a stream error gives a client with an empty table |

## Left out

- The tokio runtime, the protocol stream and its builder, the spawned reader and
  processor tasks, the mpsc channel and the mutexes are not modelled. These are
  concurrency and network I/O. Only the sequential body of each update step is modelled.
- The update processor is cancelled when `new` returns, because the runtime it runs on
  is dropped there. How many updates it merges before that is a matter of scheduling,
  and the model does not capture it. `ApplyUpdate` and `ProcessUpdates` model the
  processor's body as written, for whatever updates it does process.
- Runtime creation failure and protocol-stream build failure in `new` are not modelled:
  they come from foreign calls.
- `log` is not modelled. It only appends to a log file.
- `ComponentFilter::with_tvl_range` (TVL filtering) is not modelled. It is done by the
  foreign stream builder.
- `load_all_tokens` is not modelled: the token table is a parameter of the constructor,
  keyed by normalised address.
- `Bytes::from_str` is not modelled: tokens are looked up by the normalised address
  string, so the "Invalid address" error path is left out. Bytes parsing also accepts
  a "0x" that normalisation kept (input "0X…"); the model does not capture that.
- All pool maths (`get_amount_out`, `spot_price` of the protocol states) is foreign. It
  is a `Quoter` or `Pricer` parameter.
- The spot price is an `f64`; the model passes through whatever the `Pricer` returns,
  as a `real`, and does no arithmetic on it.
- Address.ToLower: maps only ASCII `A`–`Z`; Rust's `to_lowercase` also lower-cases
  non-ASCII letters.
- `get_spot_price` is a specification function (`Spot.SpotPrice`) over the client's
  `tokens` and `states`, not a class member. It contains no loop and changes no state.
- The TypeScript files (`src/binding.ts`, `src/index.ts`, `src/types.ts`, `index.d.ts`,
  `examples/amount_out_test.ts`) and `scripts/build.js` are not modelled. They hold
  type declarations, module loading, an I/O demo and build orchestration.
