/** The moves one edict asks for (src/db/cache/transaction_cache.rs:255-393). */
module Edicts {
  import opened Basics
  import opened Ledger
  import opened Moves
  import opened MoveLaws
  import opened Artifacts

  predicate IsLeast(m: u32, s: set<u32>) {
    m in s && forall x :: x in s ==> m <= x
  }

  lemma {:induction false} LeastExists(s: set<u32>)
    requires s != {}
    ensures exists m :: IsLeast(m, s)
  {
    var m :| m in s;
    var rest := s - {m};
    if rest == {} {
      assert s == {m};
      assert IsLeast(m, s);
    } else {
      LeastExists(rest);
      var k :| IsLeast(k, rest);
      assert s == rest + {m};
      assert IsLeast(if m <= k then m else k, s);
    }
  }

  function Least(s: set<u32>): (m: u32)
    requires s != {}
    ensures IsLeast(m, s)
  {
    LeastExists(s);
    var m :| IsLeast(m, s);
    m
  }

  predicate Ascending(keys: seq<u32>) {
    forall i, j :: 0 <= i < j < |keys| ==> keys[i] < keys[j]
  }

  /** `keys().cloned().collect()` followed by `sort()`. */
  function SortedKeys(s: set<u32>): (keys: seq<u32>)
    ensures |keys| == |s|
    ensures forall x :: x in keys <==> x in s
  {
    if s == {} then
      []
    else
      var m := Least(s);
      assert s == {m} + (s - {m});
      [m] + SortedKeys(s - {m})
  }

  lemma {:induction false} SortedKeysAscend(s: set<u32>)
    ensures Ascending(SortedKeys(s))
  {
    if s != {} {
      var m, keys := Least(s), SortedKeys(s - {Least(s)});
      SortedKeysAscend(s - {m});
      forall j | 0 <= j < |keys| ensures m < keys[j] {
        assert keys[j] in s - {m};
      }
    }
  }

  /** One call of the move: where to (`None` burns) and how much (0 is everything). */
  datatype Order = Order(output: Option<u32>, amount: nat)

  /** The calls an edict makes, given the unallocated balance of its rune. */
  function EdictOrders(edict: Edict, unallocated: nat, outputs: map<u32, Option<Address>>, totalOutputs: u32): seq<Order> {
    if |outputs| == 0 then
      [Order(None, edict.amount)]
    else if edict.output == totalOutputs then
      var keys := SortedKeys(outputs.Keys);
      if edict.amount == 0 then
        SplitOrders(keys, unallocated / |keys|, unallocated % |keys|)
      else
        EqualOrders(keys, Min(edict.amount, unallocated))
    else if edict.output < totalOutputs then
      [Order(Some(edict.output), if edict.amount == 0 then unallocated else edict.amount)]
    else
      [Order(None, edict.amount)]
  }

  /** The first `remainder` outputs get one unit more. */
  function SplitOrders(keys: seq<u32>, share: nat, remainder: nat): (orders: seq<Order>)
    ensures |orders| == |keys|
  {
    if keys == [] then []
    else if remainder > 0 then [Order(Some(keys[0]), share + 1)] + SplitOrders(keys[1..], share, remainder - 1)
    else [Order(Some(keys[0]), share)] + SplitOrders(keys[1..], share, 0)
  }

  function EqualOrders(keys: seq<u32>, amount: nat): (orders: seq<Order>)
    ensures |orders| == |keys|
  {
    if keys == [] then [] else [Order(Some(keys[0]), amount)] + EqualOrders(keys[1..], amount)
  }

  /** The queue left, the rows written and the ownerless units burned without a row, over several moves. */
  datatype Run = Run(rest: seq<Balance>, entries: seq<Entry>, unrecorded: nat)

  function RunOrders(loc: Location, rune: RuneId, q: seq<Balance>, outputs: map<u32, Option<Address>>,
                     orders: seq<Order>, ev: nat): Run
    decreases |orders|
  {
    if orders == [] then
      Run(q, [], 0)
    else
      var m := MoveBalance(loc, orders[0].output, rune, q, outputs, orders[0].amount, ev);
      var r := RunOrders(loc, rune, m.rest, outputs, orders[1..], ev + |m.Entries()|);
      Run(r.rest, m.Entries() + r.entries, m.unrecorded + r.unrecorded)
  }

  // ----- The shapes of an edict -----

  lemma BurningOrders(edict: Edict, unallocated: nat, outputs: map<u32, Option<Address>>, totalOutputs: u32)
    requires |outputs| == 0 || edict.output > totalOutputs
    ensures EdictOrders(edict, unallocated, outputs, totalOutputs) == [Order(None, edict.amount)]
  {
  }

  lemma SendingOrders(edict: Edict, unallocated: nat, outputs: map<u32, Option<Address>>, totalOutputs: u32)
    requires |outputs| > 0 && edict.output < totalOutputs
    ensures EdictOrders(edict, unallocated, outputs, totalOutputs)
         == [Order(Some(edict.output), if edict.amount == 0 then unallocated else edict.amount)]
  {
  }

  lemma SplittingOrders(edict: Edict, unallocated: nat, outputs: map<u32, Option<Address>>, totalOutputs: u32)
    requires |outputs| > 0 && edict.output == totalOutputs
    ensures var keys := SortedKeys(outputs.Keys);
            EdictOrders(edict, unallocated, outputs, totalOutputs)
            == if edict.amount == 0 then SplitOrders(keys, unallocated / |outputs|, unallocated % |outputs|)
               else EqualOrders(keys, Min(edict.amount, unallocated))
  {
    hide SplitOrders, EqualOrders, SortedKeys;
    assert |outputs.Keys| == |outputs|;
  }

  lemma SplitOrdersStep(keys: seq<u32>, share: nat, remainder: nat)
    requires keys != []
    ensures var orders := SplitOrders(keys, share, remainder);
            && orders[0] == Order(Some(keys[0]), share + if remainder > 0 then 1 else 0)
            && orders[1..] == SplitOrders(keys[1..], share, if remainder > 0 then remainder - 1 else 0)
  {
  }

  lemma SplitOrdersEnd(share: nat, remainder: nat)
    ensures SplitOrders([], share, remainder) == [] && EqualOrders([], share) == []
  {
  }

  lemma EqualOrdersStep(keys: seq<u32>, amount: nat)
    requires keys != []
    ensures var orders := EqualOrders(keys, amount);
            orders[0] == Order(Some(keys[0]), amount) && orders[1..] == EqualOrders(keys[1..], amount)
  {
  }
}
