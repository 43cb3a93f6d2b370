/**
 * `get_spot_price` of the native binding: look both tokens up, take the first pool
 * in the table's iteration order that holds both, and ask it for its spot price.
 * The price itself is a foreign floating-point computation, represented by a Pricer.
 */
module Spot {
  import opened Wrappers
  import opened Pools
  import Address

  type Pricer = (PoolState, Token, Token) -> Result<real, string>

  /**
   * `values().find(..)`: the position in the order of the first pool that holds both
   * addresses; none exactly when no pool of the order does.
   */
  function FirstMatch(table: Table, order: seq<string>, a: string, b: string): (r: Option<nat>)
    requires forall i :: 0 <= i < |order| ==> order[i] in table
    ensures r.None? <==> forall i :: 0 <= i < |order| ==> !HoldsPair(table[order[i]].component, a, b)
    ensures r.Some? ==> r.value < |order| && HoldsPair(table[order[r.value]].component, a, b)
    ensures r.Some? ==> forall j :: 0 <= j < r.value ==> !HoldsPair(table[order[j]].component, a, b)
    decreases |order|
  {
    if order == [] then None
    else if HoldsPair(table[order[0]].component, a, b) then Some(0)
    else
      var rest := FirstMatch(table, order[1..], a, b);
      if rest.None? then None else Some(rest.value + 1)
  }

  /** A failed pricing call becomes a SpotPriceFailed error. */
  function Priced(answer: Result<real, string>): Result<real, ClientError>
  {
    match answer
    case Ok(p) => Ok(p)
    case Err(message) => Err(SpotPriceFailed(message))
  }

  /**
   * get_spot_price: normalise both addresses, look token0 then token1 up, find a
   * matching pool and price it.
   */
  function SpotPrice(tokens: map<string, Token>, table: Table, order: seq<string>,
                     token0Address: string, token1Address: string, price: Pricer): Result<real, ClientError>
    requires IsEnumeration(order, table)
  {
    var t0 := Address.Normalize(token0Address);
    var t1 := Address.Normalize(token1Address);
    if t0 !in tokens then Err(TokenNotFound(t0))
    else if t1 !in tokens then Err(TokenNotFound(t1))
    else
      match FirstMatch(table, order, t0, t1)
      case None => Err(NoPoolFound(t0, t1))
      case Some(i) => Priced(price(table[order[i]].state, tokens[t0], tokens[t1]))
  }

  /** A missing token fails the call before any pool is looked at; token0 is checked first. */
  lemma SpotPriceMissingToken(tokens: map<string, Token>, table: Table, order: seq<string>,
                              token0Address: string, token1Address: string, price: Pricer)
    requires IsEnumeration(order, table)
    ensures var t0, t1 := Address.Normalize(token0Address), Address.Normalize(token1Address);
      (t0 !in tokens ==> SpotPrice(tokens, table, order, token0Address, token1Address, price) == Err(TokenNotFound(t0))) &&
      (t0 in tokens && t1 !in tokens ==>
        SpotPrice(tokens, table, order, token0Address, token1Address, price) == Err(TokenNotFound(t1)))
  {
  }

  /**
   * Once a matching pool is found, the call fails with SpotPriceFailed(m) exactly
   * when pricing that pool fails with m, and otherwise returns that pool's price.
   */
  lemma SpotPriceOfFoundPool(tokens: map<string, Token>, table: Table, order: seq<string>,
                             token0Address: string, token1Address: string, price: Pricer, i: nat, m: string)
    requires IsEnumeration(order, table)
    requires Address.Normalize(token0Address) in tokens && Address.Normalize(token1Address) in tokens
    requires FirstMatch(table, order, Address.Normalize(token0Address), Address.Normalize(token1Address)) == Some(i)
    ensures var t0, t1 := Address.Normalize(token0Address), Address.Normalize(token1Address);
      var answer := price(table[order[i]].state, tokens[t0], tokens[t1]);
      (SpotPrice(tokens, table, order, token0Address, token1Address, price) == Err(SpotPriceFailed(m)) <==>
         answer == Err(m)) &&
      (answer.Ok? ==> SpotPrice(tokens, table, order, token0Address, token1Address, price) == Ok(answer.value))
  {
  }

  /** With both tokens known, the call fails for want of a pool exactly when no pool holds both. */
  lemma SpotPriceNoPoolIff(tokens: map<string, Token>, table: Table, order: seq<string>,
                           token0Address: string, token1Address: string, price: Pricer)
    requires IsEnumeration(order, table)
    requires Address.Normalize(token0Address) in tokens && Address.Normalize(token1Address) in tokens
    ensures var t0, t1 := Address.Normalize(token0Address), Address.Normalize(token1Address);
      SpotPrice(tokens, table, order, token0Address, token1Address, price) == Err(NoPoolFound(t0, t1)) <==>
        Matching(table, t0, t1) == {}
  {
    var t0, t1 := Address.Normalize(token0Address), Address.Normalize(token1Address);
    if Matching(table, t0, t1) != {} {
      var id :| id in Matching(table, t0, t1);
      assert id in table && HoldsPair(table[id].component, t0, t1);
      var i :| 0 <= i < |order| && order[i] == id;
      var found := FirstMatch(table, order, t0, t1);
      assert found.Some?;
      var answer := price(table[order[found.value]].state, tokens[t0], tokens[t1]);
      assert SpotPrice(tokens, table, order, token0Address, token1Address, price) == Priced(answer);
      assert Priced(answer).Ok? || Priced(answer).error.SpotPriceFailed?;
    } else {
      forall i | 0 <= i < |order|
        ensures !HoldsPair(table[order[i]].component, t0, t1)
      {
        assert order[i] !in Matching(table, t0, t1);
      }
    }
  }

  /**
   * With both tokens known and some pool holding both, the answer is the priced
   * answer of one of the matching pools.
   */
  lemma SpotPriceFromMatchingPool(tokens: map<string, Token>, table: Table, order: seq<string>,
                                  token0Address: string, token1Address: string, price: Pricer)
    requires IsEnumeration(order, table)
    requires Address.Normalize(token0Address) in tokens && Address.Normalize(token1Address) in tokens
    requires Matching(table, Address.Normalize(token0Address), Address.Normalize(token1Address)) != {}
    ensures var t0, t1 := Address.Normalize(token0Address), Address.Normalize(token1Address);
      exists id :: id in Matching(table, t0, t1) &&
        SpotPrice(tokens, table, order, token0Address, token1Address, price)
          == Priced(price(table[id].state, tokens[t0], tokens[t1]))
  {
    var t0, t1 := Address.Normalize(token0Address), Address.Normalize(token1Address);
    var some :| some in Matching(table, t0, t1);
    var j :| 0 <= j < |order| && order[j] == some;
    var found := FirstMatch(table, order, t0, t1);
    assert found.Some?;
    assert order[found.value] in Matching(table, t0, t1);
  }

  /** When exactly one pool holds the pair, the iteration order no longer matters. */
  lemma SpotPriceSinglePool(tokens: map<string, Token>, table: Table, order: seq<string>,
                            token0Address: string, token1Address: string, price: Pricer, id: string)
    requires IsEnumeration(order, table)
    requires Address.Normalize(token0Address) in tokens && Address.Normalize(token1Address) in tokens
    requires Matching(table, Address.Normalize(token0Address), Address.Normalize(token1Address)) == {id}
    ensures var t0, t1 := Address.Normalize(token0Address), Address.Normalize(token1Address);
      SpotPrice(tokens, table, order, token0Address, token1Address, price)
        == Priced(price(table[id].state, tokens[t0], tokens[t1]))
  {
    SpotPriceFromMatchingPool(tokens, table, order, token0Address, token1Address, price);
  }
}
