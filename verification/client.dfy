/**
 * The `SimulationClient` object of the native binding: the token table it loaded,
 * the pool table seeded from the first block update, the body of the update
 * processor that merges later updates into it, and the batch quote that walks it.
 */
module Client {
  import opened Wrappers
  import opened Pools
  import opened Quoting
  import Address

  class SimulationClient {
    /** Loaded once at construction, keyed by normalised address, never changed. */
    const tokens: map<string, Token>
    /** Component id to (state, component). */
    var states: Table

    /**
     * `new`, given the first item of the stream: the table is seeded by inserting
     * every new pair of that update that carries a state.
     */
    constructor (tokens: map<string, Token>, first: BlockUpdate)
      ensures this.tokens == tokens
      ensures states == Merged(map[], first)
    {
      this.tokens := tokens;
      states := map[];
      new;
      InsertNewPairs(first);
      SeedIsMergeIntoEmpty(first);
    }

    /**
     * The insertion loop shared by the seed and the update processor: each new pair
     * that has a state is inserted (overwriting), the others are skipped.
     */
    method InsertNewPairs(u: BlockUpdate)
      modifies this
      ensures states == Insert(old(states), u.newPairs, u.states)
    {
      var pending := u.newPairs.Keys;
      while pending != {}
        invariant pending <= u.newPairs.Keys
        invariant states == Insert(old(states), Restrict(u.newPairs, u.newPairs.Keys - pending), u.states)
        decreases pending
      {
        var id :| id in pending;
        InsertStep(old(states), u.newPairs, u.states, u.newPairs.Keys - pending, id);
        assert u.newPairs.Keys - (pending - {id}) == (u.newPairs.Keys - pending) + {id};
        if id in u.states {
          states := states[id := Entry(u.states[id], u.newPairs[id])];
        }
        pending := pending - {id};
      }
      assert Restrict(u.newPairs, u.newPairs.Keys) == u.newPairs;
    }

    /**
     * The body of the update processor: first every known id with a new state gets
     * it (keeping its component), then the new pairs are inserted. Nothing is removed.
     */
    method ApplyUpdate(u: BlockUpdate)
      modifies this
      ensures states == Merged(old(states), u)
    {
      var pending := u.states.Keys;
      while pending != {}
        invariant pending <= u.states.Keys
        invariant states == Refresh(old(states), Restrict(u.states, u.states.Keys - pending))
        decreases pending
      {
        var id :| id in pending;
        RefreshStep(old(states), u.states, u.states.Keys - pending, id);
        assert u.states.Keys - (pending - {id}) == (u.states.Keys - pending) + {id};
        if id in states {
          states := states[id := Entry(u.states[id], states[id].component)];
        }
        pending := pending - {id};
      }
      assert Restrict(u.states, u.states.Keys) == u.states;
      InsertNewPairs(u);
    }

    /**
     * The update processor's loop: the updates are applied in the order received.
     * The processor runs on a runtime local to `new`, so in the source it stops when
     * `new` returns; this is what it does with the updates it gets to.
     */
    method ProcessUpdates(updates: seq<BlockUpdate>)
      modifies this
      ensures states == MergedAll(old(states), updates)
    {
      var i := 0;
      while i < |updates|
        invariant 0 <= i <= |updates|
        invariant states == MergedAll(old(states), updates[..i])
      {
        assert updates[..i + 1][..i] == updates[..i];
        ApplyUpdate(updates[i]);
        i := i + 1;
      }
      assert updates[..i] == updates;
    }

    /**
     * get_amount_out over the current table, visiting the pools in `order` (the
     * HashMap's iteration order): one row per matching pool, one entry per amount,
     * returning at the first error.
     */
    method GetAmountOut(tokenInAddress: string, tokenOutAddress: string, amountsIn: seq<int>,
                        order: seq<string>, quote: Quoter)
      returns (r: Result<seq<AmountOutResult>, ClientError>)
      requires IsEnumeration(order, states)
      ensures r == AmountOut(tokens, states, order, tokenInAddress, tokenOutAddress, amountsIn, quote)
    {
      var tin := Address.Normalize(tokenInAddress);
      var tout := Address.Normalize(tokenOutAddress);
      if tin !in tokens {
        return Err(TokenNotFound(tin));
      }
      if tout !in tokens {
        return Err(TokenNotFound(tout));
      }
      var pair := Pair(tin, tout, tokens[tin], tokens[tout]);
      var results: seq<AmountOutResult> := [];
      var i := 0;
      while i < |order|
        invariant 0 <= i <= |order|
        invariant Collect(states, order[..i], amountsIn, quote, pair) == Ok(results)
      {
        var id := order[i];
        var entry := states[id];
        assert order[..i + 1][..i] == order[..i];
        if HoldsPair(entry.component, tin, tout) {
          var amountsOut: seq<nat> := [];
          var gasUsed: seq<nat> := [];
          var j := 0;
          while j < |amountsIn|
            invariant 0 <= j <= |amountsIn|
            invariant QuoteRow(quote, entry.state, id, amountsIn[..j], pair) == Ok(AmountOutResult(id, amountsOut, gasUsed))
          {
            var amount := amountsIn[j];
            assert amountsIn[..j + 1][..j] == amountsIn[..j];
            if amount < 0 {
              AbortsAt(states, order, i, amountsIn, j, quote, pair);
              return Err(NegativeAmount);
            }
            var answer := quote(entry.state, LowWord(amount), pair.tokenIn, pair.tokenOut);
            if answer.Err? {
              AbortsAt(states, order, i, amountsIn, j, quote, pair);
              return Err(QuoteFailed(answer.error));
            }
            if answer.value.amount >= U64Limit {
              AbortsAt(states, order, i, amountsIn, j, quote, pair);
              return Err(AmountTooLarge);
            }
            if answer.value.gas >= U64Limit {
              AbortsAt(states, order, i, amountsIn, j, quote, pair);
              return Err(GasTooLarge);
            }
            amountsOut := amountsOut + [answer.value.amount];
            gasUsed := gasUsed + [answer.value.gas];
            j := j + 1;
          }
          assert amountsIn[..j] == amountsIn;
          results := results + [AmountOutResult(id, amountsOut, gasUsed)];
        }
        i := i + 1;
      }
      assert order[..i] == order;
      if results == [] {
        return Err(NoPoolFound(tin, tout));
      }
      return Ok(results);
    }
  }

  /**
   * The start of `new`: a stream that ends before its first item is an error; a
   * first item that is a stream error seeds from the empty update, so the client
   * starts with an empty table.
   */
  method Connect(tokens: map<string, Token>, first: Option<Result<BlockUpdate, string>>)
    returns (r: Result<SimulationClient, ClientError>)
    ensures first.None? ==> r == Err(NoInitialState)
    ensures first.Some? ==>
      r.Ok? && fresh(r.value) && r.value.tokens == tokens && r.value.states == Merged(map[], UpdateOf(first.value))
    ensures first.Some? && first.value.Err? ==> r.Ok? && r.value.states == map[]
  {
    if first.None? {
      return Err(NoInitialState);
    }
    var client := new SimulationClient(tokens, UpdateOf(first.value));
    MergedKeys(map[], UpdateOf(first.value));
    return Ok(client);
  }
}
