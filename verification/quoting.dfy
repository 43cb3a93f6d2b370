/**
 * `get_amount_out` of the native binding, as a specification over the pool table.
 *
 * The pool maths is foreign: a Quoter stands for `ProtocolSim::get_amount_out`.
 * Every amount is quoted independently against the pool's unchanged state; the
 * whole call fails at the first problem met, in table order and then input order.
 */
module Quoting {
  import opened Wrappers
  import opened Pools
  import Address

  /** 2^64: the first value `to_u64` cannot represent. */
  const U64Limit: nat := 0x1_0000_0000_0000_0000

  /** An output amount and its gas cost, as the foreign quote reports them. */
  datatype Swap = Swap(amount: nat, gas: nat)

  type Quoter = (PoolState, nat, Token, Token) -> Result<Swap, string>

  /** The two normalised addresses of a call and the tokens the token table gives for them. */
  datatype Pair = Pair(inAddress: string, outAddress: string, tokenIn: Token, tokenOut: Token)

  /** One pool's row of the result. */
  datatype AmountOutResult = AmountOutResult(pool: string, amountsOut: seq<nat>, gasUsed: seq<nat>)

  /**
   * A row lines up with the input amounts: one output and one gas value per amount,
   * and entry i is the pool's own answer for amount i (its low word), non-negative
   * input, output and gas below 2^64.
   */
  predicate Aligned(row: AmountOutResult, amounts: seq<int>, quote: Quoter, state: PoolState, tokenIn: Token, tokenOut: Token)
  {
    |row.amountsOut| == |amounts| && |row.gasUsed| == |amounts| &&
    forall i :: 0 <= i < |amounts| ==>
      amounts[i] >= 0 && row.amountsOut[i] < U64Limit && row.gasUsed[i] < U64Limit &&
      quote(state, LowWord(amounts[i]), tokenIn, tokenOut) == Ok(Swap(row.amountsOut[i], row.gasUsed[i]))
  }

  /**
   * The unsigned magnitude `BigInt::get_u64` hands over: its lowest 64-bit word. The
   * lossless flag is ignored, so wider amounts are quoted modulo 2^64.
   */
  function LowWord(amount: nat): (w: nat)
    ensures w < U64Limit
    ensures amount < U64Limit ==> w == amount
  {
    amount % U64Limit
  }

  /**
   * One amount against one pool: a negative amount fails before the pool is asked;
   * a quote error fails; an output or a gas cost of 2^64 or more fails; otherwise the
   * quote is the pool's answer for the low word of the amount.
   */
  function QuoteOne(quote: Quoter, state: PoolState, amount: int, pair: Pair): (r: Result<Swap, ClientError>)
    ensures amount < 0 ==> r == Err(NegativeAmount)
    ensures r.Ok? <==> (amount >= 0 && quote(state, LowWord(amount), pair.tokenIn, pair.tokenOut).Ok? &&
                        quote(state, LowWord(amount), pair.tokenIn, pair.tokenOut).value.amount < U64Limit &&
                        quote(state, LowWord(amount), pair.tokenIn, pair.tokenOut).value.gas < U64Limit)
    ensures r.Ok? ==> r.value == quote(state, LowWord(amount), pair.tokenIn, pair.tokenOut).value
    ensures amount >= 0 && quote(state, LowWord(amount), pair.tokenIn, pair.tokenOut).Err? ==>
      r == Err(QuoteFailed(quote(state, LowWord(amount), pair.tokenIn, pair.tokenOut).error))
    ensures amount >= 0 && quote(state, LowWord(amount), pair.tokenIn, pair.tokenOut).Ok? ==>
      var swap := quote(state, LowWord(amount), pair.tokenIn, pair.tokenOut).value;
      (swap.amount >= U64Limit ==> r == Err(AmountTooLarge)) &&
      (swap.amount < U64Limit && swap.gas >= U64Limit ==> r == Err(GasTooLarge))
  {
    if amount < 0 then Err(NegativeAmount)
    else
      match quote(state, LowWord(amount), pair.tokenIn, pair.tokenOut)
      case Err(message) => Err(QuoteFailed(message))
      case Ok(swap) =>
        if swap.amount >= U64Limit then Err(AmountTooLarge)
        else if swap.gas >= U64Limit then Err(GasTooLarge)
        else Ok(swap)
  }

  /** The inner loop: a pool's row for the amounts, in input order, or the first error. */
  function QuoteRow(quote: Quoter, state: PoolState, pool: string, amounts: seq<int>, pair: Pair): Result<AmountOutResult, ClientError>
    decreases |amounts|
  {
    if amounts == [] then Ok(AmountOutResult(pool, [], []))
    else
      match QuoteRow(quote, state, pool, amounts[..|amounts| - 1], pair)
      case Err(e) => Err(e)
      case Ok(row) =>
        match QuoteOne(quote, state, amounts[|amounts| - 1], pair)
        case Err(e) => Err(e)
        case Ok(swap) => Ok(AmountOutResult(pool, row.amountsOut + [swap.amount], row.gasUsed + [swap.gas]))
  }

  /** The outer loop: the rows of the matching pools, in the given order, or the first error. */
  function Collect(table: Table, order: seq<string>, amounts: seq<int>, quote: Quoter, pair: Pair): Result<seq<AmountOutResult>, ClientError>
    requires forall i :: 0 <= i < |order| ==> order[i] in table
    decreases |order|
  {
    if order == [] then Ok([])
    else
      var id := order[|order| - 1];
      match Collect(table, order[..|order| - 1], amounts, quote, pair)
      case Err(e) => Err(e)
      case Ok(rows) =>
        if HoldsPair(table[id].component, pair.inAddress, pair.outAddress) then
          match QuoteRow(quote, table[id].state, id, amounts, pair)
          case Err(e) => Err(e)
          case Ok(row) => Ok(rows + [row])
        else Ok(rows)
  }

  /**
   * get_amount_out: normalise both addresses, look both tokens up (input first), quote
   * every matching pool in the table's iteration order, and fail if no pool matched.
   */
  function AmountOut(tokens: map<string, Token>, table: Table, order: seq<string>,
                     tokenInAddress: string, tokenOutAddress: string, amounts: seq<int>, quote: Quoter)
    : Result<seq<AmountOutResult>, ClientError>
    requires IsEnumeration(order, table)
  {
    var tin := Address.Normalize(tokenInAddress);
    var tout := Address.Normalize(tokenOutAddress);
    if tin !in tokens then Err(TokenNotFound(tin))
    else if tout !in tokens then Err(TokenNotFound(tout))
    else
      match Collect(table, order, amounts, quote, Pair(tin, tout, tokens[tin], tokens[tout]))
      case Err(e) => Err(e)
      case Ok(rows) => if rows == [] then Err(NoPoolFound(tin, tout)) else Ok(rows)
  }

  // ---------------------------------------------------------------- rows

  /**
   * A row succeeds exactly when every amount quotes successfully; it then carries the
   * pool's id and is aligned with the amounts: entry i is the quote of amount i alone,
   * against the same state, so amounts are not cumulative.
   */
  lemma {:induction false} QuoteRowFacts(quote: Quoter, state: PoolState, pool: string, amounts: seq<int>, pair: Pair)
    ensures QuoteRow(quote, state, pool, amounts, pair).Ok? <==>
      forall i :: 0 <= i < |amounts| ==> QuoteOne(quote, state, amounts[i], pair).Ok?
    ensures QuoteRow(quote, state, pool, amounts, pair).Ok? ==>
      QuoteRow(quote, state, pool, amounts, pair).value.pool == pool &&
      Aligned(QuoteRow(quote, state, pool, amounts, pair).value, amounts, quote, state, pair.tokenIn, pair.tokenOut)
    decreases |amounts|
  {
    if amounts != [] {
      var init := amounts[..|amounts| - 1];
      QuoteRowFacts(quote, state, pool, init, pair);
      assert forall i :: 0 <= i < |init| ==> init[i] == amounts[i];
    }
  }

  /** An error in a prefix of the amounts is the error of the whole row. */
  lemma {:induction false} QuoteRowErrorPersists(quote: Quoter, state: PoolState, pool: string, amounts: seq<int>, j: nat, pair: Pair)
    requires j <= |amounts|
    requires QuoteRow(quote, state, pool, amounts[..j], pair).Err?
    ensures QuoteRow(quote, state, pool, amounts, pair) == QuoteRow(quote, state, pool, amounts[..j], pair)
    decreases |amounts| - j
  {
    if j < |amounts| {
      var next := amounts[..j + 1];
      assert next[..|next| - 1] == amounts[..j];
      QuoteRowErrorPersists(quote, state, pool, amounts, j + 1, pair);
    } else {
      assert amounts[..j] == amounts;
    }
  }

  // ---------------------------------------------------------------- pools

  /** An error met at a prefix of the table order is the error of the whole call. */
  lemma {:induction false} CollectErrorPersists(table: Table, order: seq<string>, k: nat, amounts: seq<int>, quote: Quoter, pair: Pair)
    requires forall i :: 0 <= i < |order| ==> order[i] in table
    requires k <= |order|
    requires Collect(table, order[..k], amounts, quote, pair).Err?
    ensures Collect(table, order, amounts, quote, pair) == Collect(table, order[..k], amounts, quote, pair)
    decreases |order| - k
  {
    if k < |order| {
      var next := order[..k + 1];
      assert next[..|next| - 1] == order[..k];
      CollectErrorPersists(table, order, k + 1, amounts, quote, pair);
    } else {
      assert order[..k] == order;
    }
  }

  /** With no matching pool in the order, the outer loop collects nothing and fails on nothing. */
  lemma {:induction false} CollectNoMatch(table: Table, order: seq<string>, amounts: seq<int>, quote: Quoter, pair: Pair)
    requires forall i :: 0 <= i < |order| ==> order[i] in table
    requires forall i :: 0 <= i < |order| ==> !HoldsPair(table[order[i]].component, pair.inAddress, pair.outAddress)
    ensures Collect(table, order, amounts, quote, pair) == Ok([])
    decreases |order|
  {
    if order != [] {
      var init := order[..|order| - 1];
      assert forall i :: 0 <= i < |init| ==> init[i] == order[i];
      CollectNoMatch(table, init, amounts, quote, pair);
    }
  }

  /**
   * The early return of the nested loops: the first failing amount j of the i-th pool
   * of the order, all earlier pools and amounts having succeeded, is the error of the
   * whole outer loop.
   */
  lemma AbortsAt(table: Table, order: seq<string>, i: nat, amounts: seq<int>, j: nat, quote: Quoter, pair: Pair)
    requires forall k :: 0 <= k < |order| ==> order[k] in table
    requires i < |order| && j < |amounts|
    requires Collect(table, order[..i], amounts, quote, pair).Ok?
    requires HoldsPair(table[order[i]].component, pair.inAddress, pair.outAddress)
    requires QuoteRow(quote, table[order[i]].state, order[i], amounts[..j], pair).Ok?
    requires QuoteOne(quote, table[order[i]].state, amounts[j], pair).Err?
    ensures Collect(table, order, amounts, quote, pair) == Err(QuoteOne(quote, table[order[i]].state, amounts[j], pair).error)
  {
    var state, id := table[order[i]].state, order[i];
    var prefix := amounts[..j + 1];
    assert prefix[..|prefix| - 1] == amounts[..j];
    QuoteRowErrorPersists(quote, state, id, amounts, j + 1, pair);
    var pools := order[..i + 1];
    assert pools[..|pools| - 1] == order[..i];
    CollectErrorPersists(table, order, i + 1, amounts, quote, pair);
  }

  /** Collect succeeds exactly when every matching pool's row succeeds. */
  lemma {:induction false} CollectSucceedsIff(table: Table, order: seq<string>, amounts: seq<int>, quote: Quoter, pair: Pair)
    requires forall i :: 0 <= i < |order| ==> order[i] in table
    ensures Collect(table, order, amounts, quote, pair).Ok? <==>
      forall i :: 0 <= i < |order| && HoldsPair(table[order[i]].component, pair.inAddress, pair.outAddress) ==>
        QuoteRow(quote, table[order[i]].state, order[i], amounts, pair).Ok?
    decreases |order|
  {
    if order != [] {
      var init := order[..|order| - 1];
      CollectSucceedsIff(table, init, amounts, quote, pair);
      assert forall i :: 0 <= i < |init| ==> init[i] == order[i];
    }
  }

  /**
   * One step of the outer loop: when the call succeeds on the whole order, it
   * succeeded on the order without its last id, and the last id added a row exactly
   * when its pool matches.
   */
  lemma CollectStep(table: Table, order: seq<string>, amounts: seq<int>, quote: Quoter, pair: Pair)
    requires forall i :: 0 <= i < |order| ==> order[i] in table
    requires order != [] && Collect(table, order, amounts, quote, pair).Ok?
    ensures var init, id := order[..|order| - 1], order[|order| - 1];
      var rows := Collect(table, order, amounts, quote, pair).value;
      Collect(table, init, amounts, quote, pair).Ok? &&
      var before := Collect(table, init, amounts, quote, pair).value;
      if HoldsPair(table[id].component, pair.inAddress, pair.outAddress)
      then QuoteRow(quote, table[id].state, id, amounts, pair).Ok? &&
           rows == before + [QuoteRow(quote, table[id].state, id, amounts, pair).value]
      else rows == before
  {
  }

  /** Each row Collect returns is the row of a matching pool of the order. */
  lemma {:induction false} CollectRowsSound(table: Table, order: seq<string>, amounts: seq<int>, quote: Quoter, pair: Pair)
    requires forall i :: 0 <= i < |order| ==> order[i] in table
    requires Collect(table, order, amounts, quote, pair).Ok?
    ensures var rows := Collect(table, order, amounts, quote, pair).value;
      forall k :: 0 <= k < |rows| ==>
        rows[k].pool in order && HoldsPair(table[rows[k].pool].component, pair.inAddress, pair.outAddress) &&
        QuoteRow(quote, table[rows[k].pool].state, rows[k].pool, amounts, pair) == Ok(rows[k])
    decreases |order|
  {
    if order != [] {
      var init := order[..|order| - 1];
      CollectStep(table, order, amounts, quote, pair);
      CollectRowsSound(table, init, amounts, quote, pair);
      assert forall p :: p in init ==> p in order;
    }
  }

  /** No pool gets two rows, because the order lists no id twice. */
  lemma {:induction false} CollectRowsDistinct(table: Table, order: seq<string>, amounts: seq<int>, quote: Quoter, pair: Pair)
    requires forall i :: 0 <= i < |order| ==> order[i] in table
    requires forall i, j :: 0 <= i < j < |order| ==> order[i] != order[j]
    requires Collect(table, order, amounts, quote, pair).Ok?
    ensures var rows := Collect(table, order, amounts, quote, pair).value;
      forall k, l :: 0 <= k < l < |rows| ==> rows[k].pool != rows[l].pool
    decreases |order|
  {
    if order != [] {
      var init := order[..|order| - 1];
      var id := order[|order| - 1];
      CollectStep(table, order, amounts, quote, pair);
      CollectRowsDistinct(table, init, amounts, quote, pair);
      CollectRowsSound(table, init, amounts, quote, pair);
      assert forall p :: p in init ==> p != id;
      QuoteRowFacts(quote, table[id].state, id, amounts, pair);
    }
  }

  /** Every matching pool of the order has a row. */
  lemma {:induction false} CollectRowsComplete(table: Table, order: seq<string>, amounts: seq<int>, quote: Quoter, pair: Pair)
    requires forall i :: 0 <= i < |order| ==> order[i] in table
    requires Collect(table, order, amounts, quote, pair).Ok?
    ensures var rows := Collect(table, order, amounts, quote, pair).value;
      forall i :: 0 <= i < |order| && HoldsPair(table[order[i]].component, pair.inAddress, pair.outAddress) ==>
        exists k :: 0 <= k < |rows| && rows[k].pool == order[i]
    decreases |order|
  {
    if order != [] {
      var init := order[..|order| - 1];
      var id := order[|order| - 1];
      CollectStep(table, order, amounts, quote, pair);
      CollectRowsComplete(table, init, amounts, quote, pair);
      var rows := Collect(table, order, amounts, quote, pair).value;
      var before := Collect(table, init, amounts, quote, pair).value;
      forall i | 0 <= i < |order| && HoldsPair(table[order[i]].component, pair.inAddress, pair.outAddress)
        ensures exists k :: 0 <= k < |rows| && rows[k].pool == order[i]
      {
        if i < |init| {
          assert init[i] == order[i];
          var k :| 0 <= k < |before| && before[k].pool == init[i];
          assert rows[k] == before[k];
        } else {
          QuoteRowFacts(quote, table[id].state, id, amounts, pair);
          assert rows[|rows| - 1].pool == id;
        }
      }
    }
  }

  /** The three facts above together. */
  lemma CollectRows(table: Table, order: seq<string>, amounts: seq<int>, quote: Quoter, pair: Pair)
    requires forall i :: 0 <= i < |order| ==> order[i] in table
    requires forall i, j :: 0 <= i < j < |order| ==> order[i] != order[j]
    requires Collect(table, order, amounts, quote, pair).Ok?
    ensures var rows := Collect(table, order, amounts, quote, pair).value;
      (forall k :: 0 <= k < |rows| ==>
        rows[k].pool in order && HoldsPair(table[rows[k].pool].component, pair.inAddress, pair.outAddress) &&
        QuoteRow(quote, table[rows[k].pool].state, rows[k].pool, amounts, pair) == Ok(rows[k])) &&
      (forall k, l :: 0 <= k < l < |rows| ==> rows[k].pool != rows[l].pool) &&
      (forall i :: 0 <= i < |order| && HoldsPair(table[order[i]].component, pair.inAddress, pair.outAddress) ==>
        exists k :: 0 <= k < |rows| && rows[k].pool == order[i])
  {
    CollectRowsSound(table, order, amounts, quote, pair);
    CollectRowsDistinct(table, order, amounts, quote, pair);
    CollectRowsComplete(table, order, amounts, quote, pair);
  }

  // ---------------------------------------------------------------- the call

  /**
   * A missing token fails the call before any pool is looked at; the input token is
   * checked first.
   */
  lemma AmountOutMissingToken(tokens: map<string, Token>, table: Table, order: seq<string>,
                              tokenInAddress: string, tokenOutAddress: string, amounts: seq<int>, quote: Quoter)
    requires IsEnumeration(order, table)
    ensures var tin, tout := Address.Normalize(tokenInAddress), Address.Normalize(tokenOutAddress);
      (tin !in tokens ==>
        AmountOut(tokens, table, order, tokenInAddress, tokenOutAddress, amounts, quote) == Err(TokenNotFound(tin))) &&
      (tin in tokens && tout !in tokens ==>
        AmountOut(tokens, table, order, tokenInAddress, tokenOutAddress, amounts, quote) == Err(TokenNotFound(tout)))
  {
  }

  /**
   * All or nothing: get_amount_out succeeds exactly when both tokens are known, some
   * pool holds both, and every amount quotes successfully against every such pool
   * (so a negative amount, a failed quote, or an output or gas of 2^64 or more in
   * any matching pool fails the whole call).
   */
  lemma AmountOutSucceedsIff(tokens: map<string, Token>, table: Table, order: seq<string>,
                             tokenInAddress: string, tokenOutAddress: string, amounts: seq<int>, quote: Quoter)
    requires IsEnumeration(order, table)
    ensures var tin, tout := Address.Normalize(tokenInAddress), Address.Normalize(tokenOutAddress);
      AmountOut(tokens, table, order, tokenInAddress, tokenOutAddress, amounts, quote).Ok? <==>
        tin in tokens && tout in tokens && Matching(table, tin, tout) != {} &&
        forall id, i :: id in Matching(table, tin, tout) && 0 <= i < |amounts| ==>
          QuoteOne(quote, table[id].state, amounts[i], Pair(tin, tout, tokens[tin], tokens[tout])).Ok?
  {
    var tin, tout := Address.Normalize(tokenInAddress), Address.Normalize(tokenOutAddress);
    if tin in tokens && tout in tokens {
      var pair := Pair(tin, tout, tokens[tin], tokens[tout]);
      CollectSucceedsIff(table, order, amounts, quote, pair);
      forall id | id in Matching(table, tin, tout)
        ensures QuoteRow(quote, table[id].state, id, amounts, pair).Ok? <==>
          forall i :: 0 <= i < |amounts| ==> QuoteOne(quote, table[id].state, amounts[i], pair).Ok?
      {
        QuoteRowFacts(quote, table[id].state, id, amounts, pair);
      }
      var c := Collect(table, order, amounts, quote, pair);
      if c.Ok? {
        CollectRows(table, order, amounts, quote, pair);
        if c.value != [] {
          assert c.value[0].pool in Matching(table, tin, tout);
        }
      }
    }
  }

  /**
   * On success there is exactly one row per matching pool, named by the pool's id,
   * and that row is the pool's row for the amounts.
   */
  lemma AmountOutPools(tokens: map<string, Token>, table: Table, order: seq<string>,
                       tokenInAddress: string, tokenOutAddress: string, amounts: seq<int>, quote: Quoter)
    requires IsEnumeration(order, table)
    requires AmountOut(tokens, table, order, tokenInAddress, tokenOutAddress, amounts, quote).Ok?
    ensures var tin, tout := Address.Normalize(tokenInAddress), Address.Normalize(tokenOutAddress);
      var rows := AmountOut(tokens, table, order, tokenInAddress, tokenOutAddress, amounts, quote).value;
      tin in tokens && tout in tokens &&
      (forall k :: 0 <= k < |rows| ==>
        rows[k].pool in Matching(table, tin, tout) &&
        QuoteRow(quote, table[rows[k].pool].state, rows[k].pool, amounts, Pair(tin, tout, tokens[tin], tokens[tout])) == Ok(rows[k])) &&
      (forall id :: id in Matching(table, tin, tout) ==> exists k :: 0 <= k < |rows| && rows[k].pool == id) &&
      (forall k, l :: 0 <= k < l < |rows| ==> rows[k].pool != rows[l].pool) &&
      |rows| == |Matching(table, tin, tout)|
  {
    var tin, tout := Address.Normalize(tokenInAddress), Address.Normalize(tokenOutAddress);
    var pair := Pair(tin, tout, tokens[tin], tokens[tout]);
    CollectRows(table, order, amounts, quote, pair);
    var rows := Collect(table, order, amounts, quote, pair).value;
    forall id | id in Matching(table, tin, tout)
      ensures exists k :: 0 <= k < |rows| && rows[k].pool == id
    {
      var i :| 0 <= i < |order| && order[i] == id;
    }
    RowsArePools(rows, Matching(table, tin, tout));
  }

  /**
   * On success every row belongs to a pool of the table and is aligned with the
   * input amounts (see Aligned).
   */
  lemma AmountOutAligned(tokens: map<string, Token>, table: Table, order: seq<string>,
                         tokenInAddress: string, tokenOutAddress: string, amounts: seq<int>, quote: Quoter)
    requires IsEnumeration(order, table)
    requires AmountOut(tokens, table, order, tokenInAddress, tokenOutAddress, amounts, quote).Ok?
    ensures var tin, tout := Address.Normalize(tokenInAddress), Address.Normalize(tokenOutAddress);
      var rows := AmountOut(tokens, table, order, tokenInAddress, tokenOutAddress, amounts, quote).value;
      tin in tokens && tout in tokens &&
      forall k :: 0 <= k < |rows| ==>
        rows[k].pool in table && Aligned(rows[k], amounts, quote, table[rows[k].pool].state, tokens[tin], tokens[tout])
  {
    var tin, tout := Address.Normalize(tokenInAddress), Address.Normalize(tokenOutAddress);
    var pair := Pair(tin, tout, tokens[tin], tokens[tout]);
    CollectRowsSound(table, order, amounts, quote, pair);
    var rows := Collect(table, order, amounts, quote, pair).value;
    assert AmountOut(tokens, table, order, tokenInAddress, tokenOutAddress, amounts, quote).value == rows;
    forall k | 0 <= k < |rows|
      ensures rows[k].pool in table && Aligned(rows[k], amounts, quote, table[rows[k].pool].state, tokens[tin], tokens[tout])
    {
      QuoteRowFacts(quote, table[rows[k].pool].state, rows[k].pool, amounts, pair);
    }
  }

  /**
   * When both tokens are known but no pool holds them, the call fails with
   * NoPoolFound rather than returning an empty list, whatever the amounts (even
   * negative ones, which are only looked at inside a matching pool).
   */
  lemma AmountOutNoPool(tokens: map<string, Token>, table: Table, order: seq<string>,
                        tokenInAddress: string, tokenOutAddress: string, amounts: seq<int>, quote: Quoter)
    requires IsEnumeration(order, table)
    requires Address.Normalize(tokenInAddress) in tokens && Address.Normalize(tokenOutAddress) in tokens
    requires Matching(table, Address.Normalize(tokenInAddress), Address.Normalize(tokenOutAddress)) == {}
    ensures AmountOut(tokens, table, order, tokenInAddress, tokenOutAddress, amounts, quote)
      == Err(NoPoolFound(Address.Normalize(tokenInAddress), Address.Normalize(tokenOutAddress)))
  {
    var tin, tout := Address.Normalize(tokenInAddress), Address.Normalize(tokenOutAddress);
    var pair := Pair(tin, tout, tokens[tin], tokens[tout]);
    assert forall i :: 0 <= i < |order| ==> order[i] !in Matching(table, tin, tout);
    CollectNoMatch(table, order, amounts, quote, pair);
  }

  /** On success a row is in the result exactly when it is the row of a matching pool. */
  lemma AmountOutRowSet(tokens: map<string, Token>, table: Table, order: seq<string>,
                        tokenInAddress: string, tokenOutAddress: string, amounts: seq<int>, quote: Quoter)
    requires IsEnumeration(order, table)
    requires AmountOut(tokens, table, order, tokenInAddress, tokenOutAddress, amounts, quote).Ok?
    ensures var tin, tout := Address.Normalize(tokenInAddress), Address.Normalize(tokenOutAddress);
      var rows := AmountOut(tokens, table, order, tokenInAddress, tokenOutAddress, amounts, quote).value;
      tin in tokens && tout in tokens &&
      forall row :: row in rows <==>
        row.pool in Matching(table, tin, tout) &&
        QuoteRow(quote, table[row.pool].state, row.pool, amounts, Pair(tin, tout, tokens[tin], tokens[tout])) == Ok(row)
  {
    AmountOutPools(tokens, table, order, tokenInAddress, tokenOutAddress, amounts, quote);
    var rows := AmountOut(tokens, table, order, tokenInAddress, tokenOutAddress, amounts, quote).value;
    forall row | row in rows
      ensures row.pool in Matching(table, Address.Normalize(tokenInAddress), Address.Normalize(tokenOutAddress))
    {
      var k :| 0 <= k < |rows| && rows[k] == row;
    }
  }

  /**
   * The HashMap's iteration order decides neither whether the call succeeds nor
   * which rows it returns; it only decides their order (and, on failure, which
   * error is met first).
   */
  lemma AmountOutOrderIndependent(tokens: map<string, Token>, table: Table, order1: seq<string>, order2: seq<string>,
                                  tokenInAddress: string, tokenOutAddress: string, amounts: seq<int>, quote: Quoter)
    requires IsEnumeration(order1, table) && IsEnumeration(order2, table)
    ensures AmountOut(tokens, table, order1, tokenInAddress, tokenOutAddress, amounts, quote).Ok? ==
            AmountOut(tokens, table, order2, tokenInAddress, tokenOutAddress, amounts, quote).Ok?
    ensures AmountOut(tokens, table, order1, tokenInAddress, tokenOutAddress, amounts, quote).Ok? ==>
      var rows1 := AmountOut(tokens, table, order1, tokenInAddress, tokenOutAddress, amounts, quote).value;
      var rows2 := AmountOut(tokens, table, order2, tokenInAddress, tokenOutAddress, amounts, quote).value;
      |rows1| == |rows2| && forall row :: row in rows1 <==> row in rows2
  {
    AmountOutSucceedsIff(tokens, table, order1, tokenInAddress, tokenOutAddress, amounts, quote);
    AmountOutSucceedsIff(tokens, table, order2, tokenInAddress, tokenOutAddress, amounts, quote);
    if AmountOut(tokens, table, order1, tokenInAddress, tokenOutAddress, amounts, quote).Ok? {
      AmountOutPools(tokens, table, order1, tokenInAddress, tokenOutAddress, amounts, quote);
      AmountOutPools(tokens, table, order2, tokenInAddress, tokenOutAddress, amounts, quote);
      AmountOutRowSet(tokens, table, order1, tokenInAddress, tokenOutAddress, amounts, quote);
      AmountOutRowSet(tokens, table, order2, tokenInAddress, tokenOutAddress, amounts, quote);
    }
  }

  /** Rows with pairwise distinct pools, drawn exactly from `pools`, number |pools|. */
  lemma {:induction false} RowsArePools(rows: seq<AmountOutResult>, pools: set<string>)
    requires forall k :: 0 <= k < |rows| ==> rows[k].pool in pools
    requires forall id :: id in pools ==> exists k :: 0 <= k < |rows| && rows[k].pool == id
    requires forall k, l :: 0 <= k < l < |rows| ==> rows[k].pool != rows[l].pool
    ensures |rows| == |pools|
    decreases |rows|
  {
    if rows != [] {
      var last := rows[|rows| - 1];
      var init := rows[..|rows| - 1];
      forall id | id in pools - {last.pool} ensures exists k :: 0 <= k < |init| && init[k].pool == id {
        var k :| 0 <= k < |rows| && rows[k].pool == id;
        assert k < |init| && init[k] == rows[k];
      }
      RowsArePools(init, pools - {last.pool});
    }
  }

  /**
   * The lossless flag of `get_u64` is ignored: an amount 2^64 larger is quoted, and
   * fails or succeeds, exactly like the smaller one.
   */
  lemma WideAmountWraps(quote: Quoter, state: PoolState, amount: nat, pair: Pair)
    ensures QuoteOne(quote, state, amount + U64Limit, pair) == QuoteOne(quote, state, amount, pair)
  {
    assert LowWord(amount + U64Limit) == LowWord(amount);
  }
}
