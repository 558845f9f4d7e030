/** The contract's operator array with its inverse index, and the deposits beside it. */
module Operators {
  import opened Words

  type Address = nat

  /** msg.sender is never address(0). */
  type Sender = a: Address | a != 0 witness 1

  /** Reading a mapping(address => uint256): absent entries are zero. */
  function Of(m: map<Address, nat>, a: Address): nat {
    if a in m then m[a] else 0
  }

  // ---------------------------------------------------------------------
  // Registry

  datatype Registry = Registry(slots: seq<Address>, order: map<Address, nat>)

  ghost predicate Valid(r: Registry, max: nat) {
    && 1 <= |r.slots| <= max + 1
    && r.slots[0] == 0
    && (forall i :: 1 <= i < |r.slots| ==> r.slots[i] != 0 && Of(r.order, r.slots[i]) == i)
    && (forall a {:trigger r.slots[Of(r.order, a)]} :: Of(r.order, a) > 0 ==>
        Of(r.order, a) < |r.slots| && r.slots[Of(r.order, a)] == a)
  }

  ghost function Active(r: Registry): set<Address> {
    set i | 1 <= i < |r.slots| :: r.slots[i]
  }

  /** What Valid gives a reader: the index map decides membership, and slots are pairwise distinct. */
  lemma ValidMeaning(r: Registry, max: nat)
    requires Valid(r, max)
    ensures forall a :: a in Active(r) <==> Of(r.order, a) > 0
    ensures 0 !in Active(r) && Of(r.order, 0) == 0
    ensures forall i, j :: 0 <= i < j < |r.slots| ==> r.slots[i] != r.slots[j]
    ensures |Active(r)| == |r.slots| - 1 <= max
  {
    forall a ensures a in Active(r) <==> Of(r.order, a) > 0 {
      if Of(r.order, a) > 0 {
        assert r.slots[Of(r.order, a)] == a;
      }
    }
    CountSlots(r.slots, |r.slots|);
    assert Active(r) == set i | 1 <= i < |r.slots| :: r.slots[i];
  }

  lemma {:induction false} CountSlots(slots: seq<Address>, n: nat)
    requires 1 <= n <= |slots|
    requires forall i, j :: 1 <= i < j < n ==> slots[i] != slots[j]
    ensures |set i | 1 <= i < n :: slots[i]| == n - 1
  {
    if n > 1 {
      CountSlots(slots, n - 1);
      assert (set i | 1 <= i < n :: slots[i]) == (set i | 1 <= i < n - 1 :: slots[i]) + {slots[n - 1]};
    }
  }

  /** _activate; None is a revert. */
  function Activate(r: Registry, op: Address, max: nat): Option<Registry> {
    if Of(r.order, op) != 0 then None
    else if |r.slots| > max then None
    else Some(Registry(r.slots + [op], r.order[op := |r.slots|]))
  }

  lemma ActivateEffect(r: Registry, op: Sender, max: nat)
    requires Valid(r, max)
    ensures Activate(r, op, max).Some? <==> op !in Active(r) && |Active(r)| < max
    ensures Activate(r, op, max).Some? ==>
              var r' := Activate(r, op, max).value;
              && Valid(r', max) && Active(r') == Active(r) + {op} && r'.slots == r.slots + [op]
              && forall a :: a in Active(r) ==> Of(r'.order, a) == Of(r.order, a)
  {
    ValidMeaning(r, max);
    if Activate(r, op, max).Some? {
      PushEffect(r, op, max);
      hide Valid, Active;
    }
  }

  lemma SlotOf(r: Registry, max: nat, a: Address)
    requires Valid(r, max) && Of(r.order, a) > 0
    ensures Of(r.order, a) < |r.slots| && r.slots[Of(r.order, a)] == a
  {}

  lemma PushEffect(r: Registry, op: Sender, max: nat)
    requires Valid(r, max) && Of(r.order, op) == 0 && |r.slots| <= max
    ensures var r' := Registry(r.slots + [op], r.order[op := |r.slots|]);
            && Valid(r', max) && Active(r') == Active(r) + {op}
            && forall a :: Of(r'.order, a) == if a == op then |r.slots| else Of(r.order, a)
  {
    var r' := Registry(r.slots + [op], r.order[op := |r.slots|]);
    forall i | 1 <= i < |r'.slots| ensures r'.slots[i] == if i == |r.slots| then op else r.slots[i] {}
    forall a | Of(r'.order, a) > 0 ensures Of(r'.order, a) < |r'.slots| && r'.slots[Of(r'.order, a)] == a {
      if a != op { SlotOf(r, max, a); }
    }
    assert Valid(r', max);
    assert op == r'.slots[|r.slots|];
    forall a | a in Active(r) ensures a in Active(r') {
      var i :| 1 <= i < |r.slots| && r.slots[i] == a;
      assert r'.slots[i] == a;
    }
  }

  /** _deactivate: the last slot moves into the freed one. Its caller passes the current index. */
  function Deactivate(r: Registry, index: nat, op: Address): Registry
    requires 0 < index == Of(r.order, op) < |r.slots|
  {
    var last := r.slots[|r.slots| - 1];
    Registry(r.slots[index := last][..|r.slots| - 1], r.order[last := index] - {op})
  }

  lemma DeactivateEffect(r: Registry, op: Address, max: nat)
    requires Valid(r, max) && op in Active(r)
    ensures 0 < Of(r.order, op) < |r.slots|
    ensures var r' := Deactivate(r, Of(r.order, op), op);
            && Valid(r', max)
            && Active(r') == Active(r) - {op}
            && |r'.slots| == |r.slots| - 1
            && (forall i :: 0 <= i < |r'.slots| ==>
                  r'.slots[i] == if r.slots[i] == op then r.slots[|r.slots| - 1] else r.slots[i])
  {
    ValidMeaning(r, max);
    var index := Of(r.order, op);
    var last := r.slots[|r.slots| - 1];
    var r' := Deactivate(r, index, op);
    forall a ensures Of(r'.order, a) == if a == op then 0 else if a == last then index else Of(r.order, a) {}
    forall i | 1 <= i < |r'.slots| ensures r'.slots[i] == if i == index then last else r.slots[i] {}
    assert Valid(r', max);
    ValidMeaning(r', max);
    forall a ensures a in Active(r') <==> a in Active(r) - {op} {}
  }

  // ---------------------------------------------------------------------
  // Deposits

  ghost function Pick(m: map<Address, nat>): Address
    requires m != map[]
    ensures Pick(m) in m
  {
    assert m.Keys != {};
    var a :| a in m; a
  }

  /** Sum over all addresses. */
  ghost function Total(m: map<Address, nat>): nat {
    if m == map[] then 0 else m[Pick(m)] + Total(m - {Pick(m)})
  }

  lemma {:induction false} TotalWithout(m: map<Address, nat>, a: Address)
    requires a in m
    ensures Total(m) == m[a] + Total(m - {a})
    decreases |m|
  {
    var b := Pick(m);
    if a != b {
      TotalWithout(m - {b}, a);
      TotalWithout(m - {a}, b);
      assert m - {a} - {b} == m - {b} - {a};
    }
  }

  lemma TotalUpdate(m: map<Address, nat>, a: Address, v: nat)
    ensures Total(m[a := v]) == Total(m) - Of(m, a) + v
  {
    TotalWithout(m[a := v], a);
    assert m[a := v] - {a} == m - {a};
    if a in m { TotalWithout(m, a); } else { assert m - {a} == m; }
  }

  lemma {:induction false} OneOfTotal(m: map<Address, nat>, a: Address)
    ensures Of(m, a) <= Total(m)
  {
    if a in m { TotalWithout(m, a); }
  }

  // ---------------------------------------------------------------------
  // The two loops over a round's operator list

  /** A list as pushed by _activate: address(0) first, then distinct operators. */
  ghost predicate Roster(ops: seq<Address>) {
    && |ops| > 0 && ops[0] == 0
    && (forall i, j :: 0 <= i < j < |ops| ==> ops[i] != ops[j])
  }

  /** From position i on, every operator is still active. */
  ghost predicate Remaining(r: Registry, max: nat, ops: seq<Address>, i: nat) {
    && Valid(r, max) && Roster(ops) && 1 <= i <= |ops|
    && (forall j :: i <= j < |ops| ==> Of(r.order, ops[j]) > 0)
  }

  lemma RemainingBounds(r: Registry, max: nat, ops: seq<Address>, i: nat)
    requires Remaining(r, max, ops, i)
    ensures 1 <= i <= |ops|
  {}

  datatype Debited = Debited(registry: Registry, deposits: map<Address, nat>, places: map<Address, nat>)

  /** requestRandomNumber's loop from position i; None is an underflow. */
  function DebitAll(d: Debited, ops: seq<Address>, i: nat, value: nat, threshold: nat, ghost max: nat): Option<Debited>
    requires Remaining(d.registry, max, ops, i)
    decreases |ops| - i
  {
    if i == |ops| then Some(d)
    else
      DebitOneEffect(d, ops, i, value, threshold, max);
      var d' := DebitOne(d, ops, i, value, threshold);
      if d'.None? then None else DebitAll(d'.value, ops, i + 1, value, threshold, max)
  }

  /** One iteration: debit, note the position, deactivate when below the threshold. */
  function DebitOne(d: Debited, ops: seq<Address>, i: nat, value: nat, threshold: nat): Option<Debited>
    requires 1 <= i < |ops| && 0 < Of(d.registry.order, ops[i]) < |d.registry.slots|
  {
    var op := ops[i];
    if Of(d.deposits, op) < value then None
    else
      var left := Of(d.deposits, op) - value;
      Some(Debited(
        if left < threshold then Deactivate(d.registry, Of(d.registry.order, op), op) else d.registry,
        d.deposits[op := left],
        d.places[op := i]))
  }

  lemma RemainingStep(r: Registry, max: nat, ops: seq<Address>, i: nat)
    requires Remaining(r, max, ops, i) && i < |ops|
    ensures ops[i] in Active(r) && 0 < Of(r.order, ops[i]) < |r.slots|
    ensures Remaining(r, max, ops, i + 1)
    ensures Remaining(Deactivate(r, Of(r.order, ops[i]), ops[i]), max, ops, i + 1)
  {
    ValidMeaning(r, max);
    DeactivateEffect(r, ops[i], max);
    var r' := Deactivate(r, Of(r.order, ops[i]), ops[i]);
    ValidMeaning(r', max);
    forall j | i + 1 <= j < |ops| ensures Of(r'.order, ops[j]) > 0 {
      assert ops[j] in Active(r');
    }
  }

  /** d' is d after every operator from position i on has paid once. */
  ghost predicate DebitedExactly(
      d: Debited, d': Debited, ops: seq<Address>, i: nat, value: nat, threshold: nat, max: nat)
    requires i <= |ops|
  {
    && Valid(d'.registry, max)
    && (forall a :: a in Active(d'.registry) <==>
          a in Active(d.registry) && (a in ops[i..] ==> Of(d.deposits, a) >= value + threshold))
    && (forall a :: Of(d'.deposits, a) == Of(d.deposits, a) - if a in ops[i..] then value else 0)
    && Total(d'.deposits) == Total(d.deposits) - (|ops| - i) * value
    && (forall a :: a !in ops[i..] ==> Of(d'.places, a) == Of(d.places, a))
    && (forall j :: i <= j < |ops| ==> Of(d'.places, ops[j]) == j)
  }

  ghost predicate CanPay(deposits: map<Address, nat>, ops: seq<Address>, i: nat, value: nat)
    requires i <= |ops|
  {
    forall a :: a in ops[i..] ==> Of(deposits, a) >= value
  }

  lemma CanPayFirst(deposits: map<Address, nat>, ops: seq<Address>, i: nat, value: nat)
    requires i < |ops|
    ensures CanPay(deposits, ops, i, value) ==> Of(deposits, ops[i]) >= value
  {
    assert ops[i] in ops[i..];
  }

  lemma CanPayStep(deposits: map<Address, nat>, after: map<Address, nat>, ops: seq<Address>, i: nat, value: nat)
    requires Roster(ops) && 1 <= i < |ops| && Of(deposits, ops[i]) >= value
    requires forall a :: a != ops[i] ==> Of(after, a) == Of(deposits, a)
    ensures CanPay(after, ops, i + 1, value) <==> CanPay(deposits, ops, i, value)
  {
    Listed(ops, i);
    if CanPay(deposits, ops, i, value) {
      forall a | a in ops[i + 1..] ensures Of(after, a) >= value { assert a in ops[i..]; }
    }
  }

  lemma Listed(ops: seq<Address>, i: nat)
    requires Roster(ops) && 1 <= i < |ops|
    ensures forall a :: a in ops[i..] <==> a == ops[i] || a in ops[i + 1..]
    ensures ops[i] !in ops[i + 1..] && ops[i] != 0
  {
    assert ops[i..] == [ops[i]] + ops[i + 1..];
  }

  lemma DebitOneEffect(d: Debited, ops: seq<Address>, i: nat, value: nat, threshold: nat, max: nat)
    requires Remaining(d.registry, max, ops, i) && i < |ops|
    ensures 0 < Of(d.registry.order, ops[i]) < |d.registry.slots|
    ensures DebitOne(d, ops, i, value, threshold).Some? <==> Of(d.deposits, ops[i]) >= value
    ensures DebitOne(d, ops, i, value, threshold).Some? ==>
              var d', op := DebitOne(d, ops, i, value, threshold).value, ops[i];
              && Remaining(d'.registry, max, ops, i + 1)
              && (forall a :: a in Active(d'.registry) <==>
                    a in Active(d.registry) && (a == op ==> Of(d.deposits, a) >= value + threshold))
              && (forall a :: Of(d'.deposits, a) == Of(d.deposits, a) - if a == op then value else 0)
              && Total(d'.deposits) == Total(d.deposits) - value
              && (forall a :: Of(d'.places, a) == if a == op then i else Of(d.places, a))
  {
    RemainingStep(d.registry, max, ops, i);
    DeactivateEffect(d.registry, ops[i], max);
    hide Valid, Remaining, Active, Deactivate, Total;
    if Of(d.deposits, ops[i]) >= value {
      TotalUpdate(d.deposits, ops[i], Of(d.deposits, ops[i]) - value);
    }
  }

  lemma DebitCompose(
      d: Debited, d1: Debited, d': Debited, ops: seq<Address>, i: nat, value: nat, threshold: nat, max: nat)
    requires Remaining(d.registry, max, ops, i) && i < |ops|
    requires 0 < Of(d.registry.order, ops[i]) < |d.registry.slots|
    requires DebitOne(d, ops, i, value, threshold) == Some(d1)
    requires DebitedExactly(d1, d', ops, i + 1, value, threshold, max)
    ensures DebitedExactly(d, d', ops, i, value, threshold, max)
  {
    Listed(ops, i);
    DebitOneEffect(d, ops, i, value, threshold, max);
    hide Valid, Active, DebitOne, Roster, Total;
    Times(|ops| - i, value);
  }

  /** The loop completes exactly when every listed operator can pay. */
  lemma {:induction false} DebitAllSucceeds(d: Debited, ops: seq<Address>, i: nat, value: nat, threshold: nat, max: nat)
    requires Remaining(d.registry, max, ops, i)
    ensures DebitAll(d, ops, i, value, threshold, max).Some? <==> CanPay(d.deposits, ops, i, value)
    decreases |ops| - i
  {
    if i < |ops| {
      hide Valid, Active, DebitOne, Roster, CanPay, Total;
      DebitOneEffect(d, ops, i, value, threshold, max);
      CanPayFirst(d.deposits, ops, i, value);
      if Of(d.deposits, ops[i]) >= value {
        var d1 := DebitOne(d, ops, i, value, threshold).value;
        DebitAllSucceeds(d1, ops, i + 1, value, threshold, max);
        CanPayStep(d.deposits, d1.deposits, ops, i, value);
      }
    }
  }

  /** Each listed operator pays once, and exactly those left below the threshold are removed. */
  lemma {:induction false} DebitAllEffect(d: Debited, ops: seq<Address>, i: nat, value: nat, threshold: nat, max: nat)
    requires Remaining(d.registry, max, ops, i)
    requires DebitAll(d, ops, i, value, threshold, max).Some?
    ensures DebitedExactly(d, DebitAll(d, ops, i, value, threshold, max).value, ops, i, value, threshold, max)
    decreases |ops| - i
  {
    if i < |ops| {
      hide Valid, Active, DebitOne, DebitedExactly, Roster, Total;
      DebitOneEffect(d, ops, i, value, threshold, max);
      var d1 := DebitOne(d, ops, i, value, threshold).value;
      DebitAllEffect(d1, ops, i + 1, value, threshold, max);
      DebitCompose(d, d1, DebitAll(d, ops, i, value, threshold, max).value, ops, i, value, threshold, max);
    }
  }

  lemma Times(n: nat, v: nat)
    requires n > 0
    ensures n * v == v + (n - 1) * v
  {}

  datatype Credited = Credited(registry: Registry, deposits: map<Address, nat>)

  /** generateRandomNumber's loop from position i; None is an overflow or a full registry. */
  function CreditAll(
      c: Credited, forced: set<Address>, ops: seq<Address>, i: nat, amount: nat, threshold: nat, max: nat):
    Option<Credited>
    requires i <= |ops|
    decreases |ops| - i
  {
    if i == |ops| then Some(c)
    else
      var c' := CreditOne(c, forced, ops[i], amount, threshold, max);
      if c'.None? then None else CreditAll(c'.value, forced, ops, i + 1, amount, threshold, max)
  }

  predicate Returns(order: nat, deposit: nat, threshold: nat, forced: bool) {
    order == 0 && deposit >= threshold && !forced
  }

  function CreditOne(
      c: Credited, forced: set<Address>, op: Address, amount: nat, threshold: nat, max: nat): Option<Credited> {
    var updated := Of(c.deposits, op) + amount;
    if updated >= TWO_256 then None
    else if Returns(Of(c.registry.order, op), updated, threshold, op in forced) then
      var r := Activate(c.registry, op, max);
      if r.None? then None else Some(Credited(r.value, c.deposits[op := updated]))
    else Some(c.(deposits := c.deposits[op := updated]))
  }

  /** The operators that the loop brings back from position i on. */
  ghost function Returning(
      c: Credited, forced: set<Address>, ops: seq<Address>, i: nat, amount: nat, threshold: nat): set<Address>
    requires i <= |ops|
  {
    set a | a in ops[i..] && WillReturn(c, forced, a, amount, threshold)
  }

  /** c' is c after every operator from position i on has been credited once. */
  ghost predicate CreditedExactly(
      c: Credited, c': Credited, back: set<Address>, ops: seq<Address>, i: nat, amount: nat, max: nat)
    requires i <= |ops|
  {
    && Valid(c'.registry, max)
    && Active(c'.registry) == Active(c.registry) + back
    && (forall a :: a in Active(c.registry) ==> Of(c'.registry.order, a) == Of(c.registry.order, a))
    && (forall a :: Of(c'.deposits, a) == Of(c.deposits, a) + if a in ops[i..] then amount else 0)
    && Total(c'.deposits) == Total(c.deposits) + (|ops| - i) * amount
  }

  ghost predicate NoOverflow(deposits: map<Address, nat>, ops: seq<Address>, i: nat, amount: nat)
    requires i <= |ops|
  {
    forall a :: a in ops[i..] ==> Of(deposits, a) + amount < TWO_256
  }

  lemma CreditOneEffect(c: Credited, forced: set<Address>, op: Sender, amount: nat, threshold: nat, max: nat)
    requires Valid(c.registry, max)
    ensures var one, back := CreditOne(c, forced, op, amount, threshold, max),
                             Returns(Of(c.registry.order, op), Of(c.deposits, op) + amount, threshold, op in forced);
            && (one.Some? <==> Of(c.deposits, op) + amount < TWO_256 && (back ==> |Active(c.registry)| < max))
            && (one.Some? ==>
                 && Valid(one.value.registry, max)
                 && Active(one.value.registry) == Active(c.registry) + (if back then {op} else {})
                 && (back ==> op !in Active(c.registry))
                 && (forall a :: a in Active(c.registry) ==> Of(one.value.registry.order, a) == Of(c.registry.order, a))
                 && (forall a :: Of(one.value.deposits, a) == Of(c.deposits, a) + if a == op then amount else 0)
                 && Total(one.value.deposits) == Total(c.deposits) + amount)
  {
    ValidMeaning(c.registry, max);
    ActivateEffect(c.registry, op, max);
    CreditOneParts(c, forced, op, amount, threshold, max);
    TotalUpdate(c.deposits, op, Of(c.deposits, op) + amount);
    hide Valid, Active, Activate, Total, CreditOne, Returns;
  }

  lemma CreditOneParts(c: Credited, forced: set<Address>, op: Sender, amount: nat, threshold: nat, max: nat)
    ensures var one, updated := CreditOne(c, forced, op, amount, threshold, max), Of(c.deposits, op) + amount;
            var back, pushed := Returns(Of(c.registry.order, op), updated, threshold, op in forced),
                                Activate(c.registry, op, max);
            && (one.Some? <==> updated < TWO_256 && (back ==> pushed.Some?))
            && (one.Some? ==>
                one.value == Credited(if back then pushed.value else c.registry, c.deposits[op := updated]))
  {
    hide Activate;
  }

  lemma ReturnsByOrder(x: nat, y: nat, deposit: nat, threshold: nat, forced: bool)
    requires x > 0 <==> y > 0
    ensures Returns(x, deposit, threshold, forced) <==> Returns(y, deposit, threshold, forced)
  {}

  ghost predicate WillReturn(c: Credited, forced: set<Address>, a: Address, amount: nat, threshold: nat) {
    Returns(Of(c.registry.order, a), Of(c.deposits, a) + amount, threshold, a in forced)
  }

  lemma OthersReturnAlike(
      c: Credited, c1: Credited, forced: set<Address>, op: Sender, a: Address, amount: nat, threshold: nat, max: nat)
    requires Valid(c.registry, max) && a != op
    requires CreditOne(c, forced, op, amount, threshold, max) == Some(c1)
    ensures WillReturn(c1, forced, a, amount, threshold) <==> WillReturn(c, forced, a, amount, threshold)
  {
    hide Valid, Active, CreditOne, Total, Returns;
    CreditOneEffect(c, forced, op, amount, threshold, max);
    ValidMeaning(c.registry, max);
    ValidMeaning(c1.registry, max);
    assert a in Active(c1.registry) <==> a in Active(c.registry);
    ReturnsByOrder(Of(c1.registry.order, a), Of(c.registry.order, a), Of(c.deposits, a) + amount, threshold,
                   a in forced);
  }

  /** After one iteration, the operators still to return are the others that were to return. */
  lemma ReturningStep(
      c: Credited, c1: Credited, forced: set<Address>, ops: seq<Address>, i: nat, amount: nat, threshold: nat, max: nat)
    requires Valid(c.registry, max) && Roster(ops) && 1 <= i < |ops|
    requires CreditOne(c, forced, ops[i], amount, threshold, max) == Some(c1)
    ensures Returning(c1, forced, ops, i + 1, amount, threshold)
         == Returning(c, forced, ops, i, amount, threshold) - {ops[i]}
    ensures ops[i] in Returning(c, forced, ops, i, amount, threshold)
         <==> WillReturn(c, forced, ops[i], amount, threshold)
  {
    hide Valid, Active, CreditOne, WillReturn, Roster;
    Listed(ops, i);
    forall a | a in ops[i + 1..]
      ensures WillReturn(c1, forced, a, amount, threshold) <==> WillReturn(c, forced, a, amount, threshold)
    {
      OthersReturnAlike(c, c1, forced, ops[i], a, amount, threshold, max);
    }
  }

  /** No deposit overflows, and the registry has room for those who return. */
  ghost predicate Fits(
      c: Credited, forced: set<Address>, ops: seq<Address>, i: nat, amount: nat, threshold: nat, max: nat)
    requires i <= |ops|
  {
    NoOverflow(c.deposits, ops, i, amount)
    && |Active(c.registry)| + |Returning(c, forced, ops, i, amount, threshold)| <= max
  }

  lemma FitsStep(
      c: Credited, c1: Credited, forced: set<Address>, ops: seq<Address>, i: nat, amount: nat, threshold: nat, max: nat)
    requires Valid(c.registry, max) && Roster(ops) && 1 <= i < |ops|
    requires CreditOne(c, forced, ops[i], amount, threshold, max) == Some(c1)
    ensures Valid(c1.registry, max)
    ensures Fits(c1, forced, ops, i + 1, amount, threshold, max) <==> Fits(c, forced, ops, i, amount, threshold, max)
  {
    hide Valid, Active, CreditOne, Returning, NoOverflow, Roster;
    RoomStep(c, c1, forced, ops, i, amount, threshold, max);
    SumsStep(c, c1, forced, ops, i, amount, threshold, max);
  }

  lemma RoomStep(
      c: Credited, c1: Credited, forced: set<Address>, ops: seq<Address>, i: nat, amount: nat, threshold: nat, max: nat)
    requires Valid(c.registry, max) && Roster(ops) && 1 <= i < |ops|
    requires CreditOne(c, forced, ops[i], amount, threshold, max) == Some(c1)
    ensures Valid(c1.registry, max)
    ensures |Active(c1.registry)| + |Returning(c1, forced, ops, i + 1, amount, threshold)|
         == |Active(c.registry)| + |Returning(c, forced, ops, i, amount, threshold)|
  {
    Listed(ops, i);
    CreditOneEffect(c, forced, ops[i], amount, threshold, max);
    ReturningStep(c, c1, forced, ops, i, amount, threshold, max);
    hide Valid, Active, CreditOne, Total, Returning, Returns, Roster;
    Budget(Active(c.registry), Active(c1.registry), Returning(c, forced, ops, i, amount, threshold),
           Returning(c1, forced, ops, i + 1, amount, threshold), ops[i]);
  }

  lemma SumsStep(
      c: Credited, c1: Credited, forced: set<Address>, ops: seq<Address>, i: nat, amount: nat, threshold: nat, max: nat)
    requires Valid(c.registry, max) && Roster(ops) && 1 <= i < |ops|
    requires CreditOne(c, forced, ops[i], amount, threshold, max) == Some(c1)
    ensures NoOverflow(c1.deposits, ops, i + 1, amount) <==> NoOverflow(c.deposits, ops, i, amount)
  {
    CreditOneEffect(c, forced, ops[i], amount, threshold, max);
    hide Valid, Active, CreditOne, Total, Returns, NoOverflow, Roster;
    NoOverflowStep(c.deposits, c1.deposits, ops, i, amount);
  }

  lemma FitsFirst(c: Credited, forced: set<Address>, ops: seq<Address>, i: nat, amount: nat, threshold: nat, max: nat)
    requires Valid(c.registry, max) && Roster(ops) && 1 <= i < |ops|
    requires CreditOne(c, forced, ops[i], amount, threshold, max).None?
    ensures !Fits(c, forced, ops, i, amount, threshold, max)
  {
    var op := ops[i];
    NoOverflowFirst(c.deposits, ops, i, amount);
    hide Valid, Active, Total, Returning, NoOverflow, Roster, CreditOne;
    Listed(ops, i);
    CreditOneEffect(c, forced, op, amount, threshold, max);
    if Of(c.deposits, op) + amount < TWO_256 {
      FirstReturns(c, forced, ops, i, amount, threshold);
      CardinalitySubset({op}, Returning(c, forced, ops, i, amount, threshold));
    }
  }

  /** The loop completes exactly when no deposit overflows and the returning operators fit. */
  lemma {:induction false} CreditAllSucceeds(
      c: Credited, forced: set<Address>, ops: seq<Address>, i: nat, amount: nat, threshold: nat, max: nat)
    requires Valid(c.registry, max) && Roster(ops) && 1 <= i <= |ops|
    ensures CreditAll(c, forced, ops, i, amount, threshold, max).Some?
         <==> Fits(c, forced, ops, i, amount, threshold, max)
    decreases |ops| - i
  {
    if i == |ops| {
      ValidMeaning(c.registry, max);
      assert Returning(c, forced, ops, i, amount, threshold) == {};
    } else {
      hide Valid, CreditOne, Roster, Fits;
      var one := CreditOne(c, forced, ops[i], amount, threshold, max);
      if one.Some? {
        FitsStep(c, one.value, forced, ops, i, amount, threshold, max);
        CreditAllSucceeds(one.value, forced, ops, i + 1, amount, threshold, max);
      } else {
        FitsFirst(c, forced, ops, i, amount, threshold, max);
      }
    }
  }

  /** Each listed operator is credited once, the returning ones join, and active operators keep their index. */
  lemma {:induction false} CreditAllEffect(
      c: Credited, forced: set<Address>, ops: seq<Address>, i: nat, amount: nat, threshold: nat, max: nat)
    requires Valid(c.registry, max) && Roster(ops) && 1 <= i <= |ops|
    requires CreditAll(c, forced, ops, i, amount, threshold, max).Some?
    ensures CreditedExactly(c, CreditAll(c, forced, ops, i, amount, threshold, max).value,
                            Returning(c, forced, ops, i, amount, threshold), ops, i, amount, max)
    decreases |ops| - i
  {
    if i == |ops| {
      assert Returning(c, forced, ops, i, amount, threshold) == {};
    } else {
      hide Valid, Active, CreditOne, CreditedExactly, Roster, Total, Returning, Returns;
      Listed(ops, i);
      CreditOneEffect(c, forced, ops[i], amount, threshold, max);
      var c1 := CreditOne(c, forced, ops[i], amount, threshold, max).value;
      CreditAllEffect(c1, forced, ops, i + 1, amount, threshold, max);
      CreditCompose(c, c1, CreditAll(c, forced, ops, i, amount, threshold, max).value, forced, ops, i, amount,
                    threshold, max);
    }
  }

  lemma FirstReturns(c: Credited, forced: set<Address>, ops: seq<Address>, i: nat, amount: nat, threshold: nat)
    requires i < |ops|
    requires Returns(Of(c.registry.order, ops[i]), Of(c.deposits, ops[i]) + amount, threshold, ops[i] in forced)
    ensures ops[i] in Returning(c, forced, ops, i, amount, threshold)
  {
    assert ops[i] in ops[i..];
  }

  lemma NoOverflowFirst(deposits: map<Address, nat>, ops: seq<Address>, i: nat, amount: nat)
    requires i < |ops|
    ensures NoOverflow(deposits, ops, i, amount) ==> Of(deposits, ops[i]) + amount < TWO_256
  {
    assert ops[i] in ops[i..];
  }

  lemma NoOverflowStep(deposits: map<Address, nat>, after: map<Address, nat>, ops: seq<Address>, i: nat, amount: nat)
    requires Roster(ops) && 1 <= i < |ops| && Of(deposits, ops[i]) + amount < TWO_256
    requires forall a :: a != ops[i] ==> Of(after, a) == Of(deposits, a)
    ensures NoOverflow(after, ops, i + 1, amount) <==> NoOverflow(deposits, ops, i, amount)
  {
    Listed(ops, i);
    if NoOverflow(deposits, ops, i, amount) {
      forall a | a in ops[i + 1..] ensures Of(after, a) + amount < TWO_256 { assert a in ops[i..]; }
    }
  }

  /** Places taken plus places still to take do not change when one operator returns or stays. */
  lemma Budget(before: set<Address>, after: set<Address>, back: set<Address>, later: set<Address>, op: Address)
    requires after == before + (if op in back then {op} else {}) && later == back - {op}
    requires op in back ==> op !in before
    ensures |after| + |later| == |before| + |back|
  {
    if op !in back { assert later == back; }
  }

  lemma CreditCompose(
      c: Credited, c1: Credited, c': Credited, forced: set<Address>, ops: seq<Address>, i: nat, amount: nat,
      threshold: nat, max: nat)
    requires Valid(c.registry, max) && Roster(ops) && 1 <= i < |ops|
    requires CreditOne(c, forced, ops[i], amount, threshold, max) == Some(c1)
    requires CreditedExactly(c1, c', Returning(c1, forced, ops, i + 1, amount, threshold), ops, i + 1, amount, max)
    ensures CreditedExactly(c, c', Returning(c, forced, ops, i, amount, threshold), ops, i, amount, max)
  {
    hide Valid, Active, CreditOne, Total, Returning, Returns, Roster;
    Listed(ops, i);
    CreditOneEffect(c, forced, ops[i], amount, threshold, max);
    ReturningStep(c, c1, forced, ops, i, amount, threshold, max);
    Times(|ops| - i, amount);
  }

  lemma {:induction false} CardinalitySubset(xs: set<Address>, ys: set<Address>)
    requires xs <= ys
    ensures |xs| <= |ys|
  {
    assert ys == xs + (ys - xs);
  }
}
