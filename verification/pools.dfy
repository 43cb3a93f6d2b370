/**
 * The pool table of the native binding and the two things done to it: matching a
 * pool against a token pair, and merging a block update into the table.
 *
 * The table maps a component id to the pair (state, component). The protocol state
 * is opaque here: only the foreign quoting and pricing functions look inside it.
 */
module Pools {
  import opened Wrappers
  import Address

  /** A token as loaded from the indexer; the table of tokens is keyed by normalised address. */
  datatype Token = Token(address: string, symbol: string, decimals: nat)

  /** An opaque protocol-simulation state (a `Box<dyn ProtocolSim>`). */
  datatype PoolState = PoolState(protocol: string, snapshot: seq<int>)

  /** A protocol component; `tokens` holds each token address as the component renders it. */
  datatype Component = Component(protocolSystem: string, tokens: seq<string>)

  datatype Entry = Entry(state: PoolState, component: Component)

  type Table = map<string, Entry>

  /** One item of the protocol stream. */
  datatype BlockUpdate = BlockUpdate(
    blockNumber: nat,
    newPairs: map<string, Component>,
    states: map<string, PoolState>,
    removedPairs: map<string, Component>)

  /** Errors the client's calls report. */
  datatype ClientError =
    | NoInitialState
    | TokenNotFound(address: string)
    | NegativeAmount
    | QuoteFailed(reason: string)
    | AmountTooLarge
    | GasTooLarge
    | SpotPriceFailed(reason: string)
    | NoPoolFound(token0: string, token1: string)

  /**
   * The update a stream error is replaced by: block 0, nothing new, nothing changed.
   */
  function EmptyUpdate(): BlockUpdate
  {
    BlockUpdate(0, map[], map[], map[])
  }

  /** A stream item: an error becomes the empty update. */
  function UpdateOf(item: Result<BlockUpdate, string>): BlockUpdate
  {
    match item
    case Ok(update) => update
    case Err(_) => EmptyUpdate()
  }

  // ---------------------------------------------------------------- matching

  /** The component's token addresses, each normalised. */
  function PoolTokens(c: Component): seq<string>
  {
    seq(|c.tokens|, i requires 0 <= i < |c.tokens| => Address.Normalize(c.tokens[i]))
  }

  /**
   * A pool matches a pair of normalised addresses when both occur among its
   * normalised token addresses, in either order.
   */
  predicate HoldsPair(c: Component, a: string, b: string)
  {
    a in PoolTokens(c) && b in PoolTokens(c)
  }

  /** HoldsPair in terms of the raw addresses of the component. */
  lemma HoldsPairIff(c: Component, a: string, b: string)
    ensures HoldsPair(c, a, b) <==>
      (exists i :: 0 <= i < |c.tokens| && Address.Normalize(c.tokens[i]) == a) &&
      (exists j :: 0 <= j < |c.tokens| && Address.Normalize(c.tokens[j]) == b)
    ensures HoldsPair(c, a, b) == HoldsPair(c, b, a)
  {
    var ts := PoolTokens(c);
    forall i | 0 <= i < |c.tokens|
      ensures Address.Normalize(c.tokens[i]) in ts
    {
      assert ts[i] == Address.Normalize(c.tokens[i]);
    }
    if a in ts {
      var i :| 0 <= i < |ts| && ts[i] == a;
      assert Address.Normalize(c.tokens[i]) == a;
    }
    if b in ts {
      var j :| 0 <= j < |ts| && ts[j] == b;
      assert Address.Normalize(c.tokens[j]) == b;
    }
  }

  /** The ids of every pool in the table that matches the pair. */
  function Matching(table: Table, a: string, b: string): set<string>
  {
    set id | id in table && HoldsPair(table[id].component, a, b)
  }

  /**
   * The iteration order of a HashMap is unspecified: an order is any sequence that
   * lists every key of the table exactly once.
   */
  predicate IsEnumeration(order: seq<string>, table: Table)
  {
    (forall i :: 0 <= i < |order| ==> order[i] in table) &&
    (forall id :: id in table ==> id in order) &&
    (forall i, j :: 0 <= i < j < |order| ==> order[i] != order[j])
  }

  // ---------------------------------------------------------------- merging

  function Restrict<K, V>(m: map<K, V>, keys: set<K>): map<K, V>
  {
    map k | k in m && k in keys :: m[k]
  }

  /**
   * The first loop of the update processor: every id already in the table that has
   * a state in `latest` gets that state and keeps its component.
   */
  function Refresh(table: Table, latest: map<string, PoolState>): Table
  {
    map id | id in table :: if id in latest then Entry(latest[id], table[id].component) else table[id]
  }

  /** The ids of the new pairs that also carry a state. */
  function Admitted(pairs: map<string, Component>, latest: map<string, PoolState>): set<string>
  {
    pairs.Keys * latest.Keys
  }

  /**
   * The second loop (and the whole initial seed): each new pair with a state is
   * inserted, replacing whatever the table held under that id.
   */
  function Insert(table: Table, pairs: map<string, Component>, latest: map<string, PoolState>): Table
  {
    map id | id in table.Keys + Admitted(pairs, latest) ::
      if id in pairs && id in latest then Entry(latest[id], pairs[id]) else table[id]
  }

  /** Refreshing one id at a time: the step the first loop of the update processor takes. */
  lemma RefreshStep(table: Table, latest: map<string, PoolState>, done: set<string>, id: string)
    requires id in latest && id !in done
    ensures Refresh(table, Restrict(latest, done)).Keys == table.Keys
    ensures id in table ==> Refresh(table, Restrict(latest, done))[id].component == table[id].component
    ensures Refresh(table, Restrict(latest, done + {id})) ==
      if id in table then Refresh(table, Restrict(latest, done))[id := Entry(latest[id], table[id].component)]
      else Refresh(table, Restrict(latest, done))
  {
  }

  /** Inserting the new pairs one id at a time: the step the insertion loop takes. */
  lemma InsertStep(table: Table, pairs: map<string, Component>, latest: map<string, PoolState>, done: set<string>, id: string)
    requires id in pairs && id !in done
    ensures Insert(table, Restrict(pairs, done + {id}), latest) ==
      if id in latest then Insert(table, Restrict(pairs, done), latest)[id := Entry(latest[id], pairs[id])]
      else Insert(table, Restrict(pairs, done), latest)
  {
    var before := Insert(table, Restrict(pairs, done), latest);
    var after := Insert(table, Restrict(pairs, done + {id}), latest);
    if id in latest {
      assert after.Keys == before.Keys + {id};
    } else {
      assert after.Keys == before.Keys;
    }
  }

  /** The update processor's body: refresh the known pools, then insert the new ones. */
  function Merged(table: Table, u: BlockUpdate): Table
  {
    Insert(Refresh(table, u.states), u.newPairs, u.states)
  }

  /** The updates of a stream, applied in arrival order. */
  function MergedAll(table: Table, updates: seq<BlockUpdate>): Table
    decreases |updates|
  {
    if updates == [] then table
    else Merged(MergedAll(table, updates[..|updates| - 1]), updates[|updates| - 1])
  }

  /** After an update the ids are the old ids plus the new pairs that carry a state. */
  lemma MergedKeys(table: Table, u: BlockUpdate)
    ensures Merged(table, u).Keys == table.Keys + Admitted(u.newPairs, u.states)
  {
  }

  /**
   * What an update does to each id: a new pair with a state is (re)inserted with that
   * state and component; a known id with a state gets the state and keeps its
   * component; a known id without a state is untouched; any other id stays absent
   * (a new pair without a state, or a state for an unknown id, is dropped).
   */
  lemma MergedEntry(table: Table, u: BlockUpdate, id: string)
    ensures id in u.newPairs && id in u.states ==>
      id in Merged(table, u) && Merged(table, u)[id] == Entry(u.states[id], u.newPairs[id])
    ensures id in table && id in u.states && id !in u.newPairs ==>
      id in Merged(table, u) && Merged(table, u)[id] == Entry(u.states[id], table[id].component)
    ensures id in table && id !in u.states ==>
      id in Merged(table, u) && Merged(table, u)[id] == table[id]
    ensures id !in table && !(id in u.newPairs && id in u.states) ==> id !in Merged(table, u)
  {
  }

  /** `removed_pairs` and `block_number` are never consulted. */
  lemma MergeIgnoresRemovalsAndHeight(table: Table, u: BlockUpdate, height: nat, removed: map<string, Component>)
    ensures Merged(table, u.(blockNumber := height, removedPairs := removed)) == Merged(table, u)
  {
  }

  /** Applying the same update twice is the same as applying it once. */
  lemma MergeIdempotent(table: Table, u: BlockUpdate)
    ensures Merged(Merged(table, u), u) == Merged(table, u)
  {
    var once := Merged(table, u);
    MergedKeys(once, u);
    MergedKeys(table, u);
    forall id | id in once
      ensures Merged(once, u)[id] == once[id]
    {
      MergedEntry(table, u, id);
      MergedEntry(once, u, id);
    }
  }

  /** The update that replaces a stream error changes nothing. */
  lemma MergeEmptyIsNoOp(table: Table, message: string)
    ensures Merged(table, UpdateOf(Err(message))) == table
  {
    var u := UpdateOf(Err(message));
    MergedKeys(table, u);
    forall id | id in table ensures Merged(table, u)[id] == table[id] {
      MergedEntry(table, u, id);
    }
  }

  /**
   * The initial seed only runs the insertion loop on an empty table; that is what
   * the update processor would have done with the same update.
   */
  lemma SeedIsMergeIntoEmpty(u: BlockUpdate)
    ensures Insert(map[], u.newPairs, u.states) == Merged(map[], u)
  {
    assert Refresh(map[], u.states) == map[];
  }

  /**
   * Nothing is ever removed: across any sequence of updates the table only grows,
   * and a pool no update gives a state for keeps its entry.
   */
  lemma {:induction false} MergedAllMonotone(table: Table, updates: seq<BlockUpdate>)
    ensures table.Keys <= MergedAll(table, updates).Keys
    ensures forall id :: id in table && (forall k :: 0 <= k < |updates| ==> id !in updates[k].states) ==>
      MergedAll(table, updates)[id] == table[id]
    decreases |updates|
  {
    if updates != [] {
      var init := updates[..|updates| - 1];
      var last := updates[|updates| - 1];
      MergedAllMonotone(table, init);
      var mid := MergedAll(table, init);
      MergedKeys(mid, last);
      forall id | id in table && (forall k :: 0 <= k < |updates| ==> id !in updates[k].states)
        ensures MergedAll(table, updates)[id] == table[id]
      {
        assert forall k :: 0 <= k < |init| ==> init[k] == updates[k];
        MergedEntry(mid, last, id);
      }
    }
  }
}
