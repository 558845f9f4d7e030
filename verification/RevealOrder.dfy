/** The leader's reveal order: operators by distance between their COS and the hash of all COS values. */
module RevealOrder {
  import opened Words
  import opened Sorting
  import opened Operators

  /** An entry of reveal_orders.json. */
  datatype RevealData = RevealData(rv: Word, order: seq<nat>, nodes: seq<Address>)

  function Rv(keccak: Hash, coses: seq<Word>): Word {
    keccak(Concat(coses))
  }

  /** What DetermineRevealOrder stores for one enumeration of the operators with their COS values. */
  function Reveal(keccak: Hash, sort: Sorter, coses: seq<Word>, addresses: seq<Address>): RevealData
    requires |coses| == |addresses|
  {
    var rv := Rv(keccak, coses);
    var order := sort(Distances(rv, coses));
    assert SortedOrder(Distances(rv, coses), order);
    RevealData(rv, order, Arranged(addresses, order))
  }

  method CalculateRV(keccak: Hash, cosValues: seq<Word>) returns (rv: Word)
    ensures rv == Rv(keccak, cosValues)
  {
    var concatenated: Bytes := [];
    for i := 0 to |cosValues|
      invariant concatenated == Concat(cosValues[..i])
    {
      ConcatAppend(cosValues[..i], cosValues[i]);
      assert cosValues[..i + 1] == cosValues[..i] + [cosValues[i]];
      concatenated := concatenated + cosValues[i];
    }
    assert cosValues[..|cosValues|] == cosValues;
    rv := keccak(concatenated);
  }

  method DetermineOrder(sort: Sorter, rv: Word, cosValues: seq<Word>) returns (order: seq<nat>)
    ensures order == sort(Distances(rv, cosValues))
    ensures SortedOrder(Distances(rv, cosValues), order)
  {
    var values: seq<nat> := [];
    for i := 0 to |cosValues|
      invariant |values| == i && forall k :: 0 <= k < i ==> values[k] == Distance(rv, cosValues[k])
    {
      values := values + [Distance(rv, cosValues[i])];
    }
    assert values == Distances(rv, cosValues);
    order := sort(values);
  }

  method OrderedAddresses(
      keccak: Hash, sort: Sorter, cosValues: seq<Word>, addresses: seq<Address>) returns (data: RevealData)
    requires |cosValues| == |addresses|
    ensures data == Reveal(keccak, sort, cosValues, addresses)
  {
    var rv := CalculateRV(keccak, cosValues);
    var order := DetermineOrder(sort, rv, cosValues);
    var ordered := new Address[|addresses|](i => 0);
    for i := 0 to |order|
      invariant forall k :: 0 <= k < i ==> ordered[k] == addresses[order[k]]
    {
      ordered[i] := addresses[order[i]];
    }
    assert ordered[..] == Arranged(addresses, order);
    data := RevealData(rv, order, ordered[..]);
  }

  /**
   * For any enumeration of distinct operators, ordered_nodes lists each of them exactly
   * once, and the distances of their own COS values do not decrease along it.
   */
  lemma RevealListsEachOnce(keccak: Hash, sort: Sorter, coses: seq<Word>, addresses: seq<Address>)
    requires |coses| == |addresses|
    requires forall i, j :: 0 <= i < j < |addresses| ==> addresses[i] != addresses[j]
    ensures var data := Reveal(keccak, sort, coses, addresses);
            && data.rv == keccak(Concat(coses))
            && |data.order| == |data.nodes| == |addresses|
            && (forall a :: a in data.nodes <==> a in addresses)
            && (forall i, j :: 0 <= i < j < |data.nodes| ==> data.nodes[i] != data.nodes[j])
            && (forall i :: 0 <= i < |data.order| ==>
                data.order[i] < |addresses| && data.nodes[i] == addresses[data.order[i]])
            && (forall i, j :: 0 <= i < j < |data.order| ==>
                  Distance(data.rv, coses[data.order[i]]) <= Distance(data.rv, coses[data.order[j]]))
  {
    var data := Reveal(keccak, sort, coses, addresses);
    var keys := Distances(data.rv, coses);
    assert SortedOrder(keys, data.order);
    forall a | a in addresses ensures a in data.nodes {
      var k :| 0 <= k < |addresses| && addresses[k] == a;
      assert k in data.order;
      var i :| 0 <= i < |data.order| && data.order[i] == k;
      assert data.nodes[i] == a;
    }
  }

  /** Two sorting routines give the same data when no two COS values are equally far. */
  lemma RevealUnique(keccak: Hash, sort: Sorter, other: Sorter, coses: seq<Word>, addresses: seq<Address>)
    requires |coses| == |addresses|
    requires var ds := Distances(Rv(keccak, coses), coses);
             forall i, j :: 0 <= i < j < |ds| ==> ds[i] != ds[j]
    ensures Reveal(keccak, sort, coses, addresses) == Reveal(keccak, other, coses, addresses)
  {
    var ds := Distances(Rv(keccak, coses), coses);
    assert SortedOrder(ds, sort(ds)) && SortedOrder(ds, other(ds));
    UniqueOrder(ds, sort(ds), other(ds));
  }
}
