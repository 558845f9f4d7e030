/** The coordinator contract as an object: storage updated in place, every external call all or nothing. */
module Coordinators {
  import opened Words
  import opened Operators
  import opened Sorting
  import opened Contract
  import Merkle

  class Coordinator {
    const chain: Chain
    const activationThreshold: nat
    const maxActivatedOperators: nat
    const maxCallbackGasLimit: nat
    var activatedOperators: seq<Address>
    var activatedOperatorOrder: map<Address, nat>
    var depositAmount: map<Address, nat>
    var forceDeactivated: set<Address>
    var nextRound: nat
    var requestInfo: map<nat, RequestInfo>
    var activatedOperatorsAtRound: map<nat, seq<Address>>
    var activatedOperatorOrderAtRound: map<nat, map<Address, nat>>
    var roundInfo: map<nat, RoundInfo>
    var balance: nat

    function View(): Storage
      reads this
    {
      Storage(activationThreshold, maxActivatedOperators, maxCallbackGasLimit,
              Registry(activatedOperators, activatedOperatorOrder), depositAmount, forceDeactivated, nextRound,
              requestInfo, activatedOperatorsAtRound, activatedOperatorOrderAtRound, roundInfo, balance)
    }

    /** The call either succeeds with the state that Apply gives, or leaves no trace. */
    ghost predicate Outcome(before: Storage, call: Call, ok: bool)
      requires Sound(before)
      reads this
    {
      var after := Apply(chain, before, call);
      ok == after.Some? && View() == if ok then after.value else before
    }

    constructor (chain: Chain, activationThreshold: nat, maxActivatedOperators: nat, maxCallbackGasLimit: nat)
      ensures View() == Deployed(activationThreshold, maxActivatedOperators, maxCallbackGasLimit)
      ensures Sound(View()) && this.chain == chain
    {
      this.chain := chain;
      this.activationThreshold := activationThreshold;
      this.maxActivatedOperators := maxActivatedOperators;
      this.maxCallbackGasLimit := maxCallbackGasLimit;
      activatedOperators := [0];
      activatedOperatorOrder := map[];
      depositAmount := map[];
      forceDeactivated := {};
      nextRound := 0;
      requestInfo := map[];
      activatedOperatorsAtRound := map[];
      activatedOperatorOrderAtRound := map[];
      roundInfo := map[];
      balance := 0;
      new;
      DeployedSound(activationThreshold, maxActivatedOperators, maxCallbackGasLimit);
    }

    // -------------------------------------------------------------------
    // Deposits

    method Deposit(sender: Sender, value: nat) returns (ok: bool)
      requires Sound(View())
      modifies this`depositAmount, this`balance
      ensures Outcome(old(View()), Call.Deposit(sender, value), ok)
    {
      var updated := Of(depositAmount, sender) + value;
      if updated >= TWO_256 {
        return false;
      }
      depositAmount := depositAmount[sender := updated];
      balance := balance + value;
      return true;
    }

    method Activate(sender: Sender) returns (ok: bool)
      requires Sound(View())
      modifies this`forceDeactivated, this`activatedOperators, this`activatedOperatorOrder
      ensures Outcome(old(View()), Activation(sender), ok)
    {
      if Of(depositAmount, sender) < activationThreshold {
        return false;
      }
      var saved := forceDeactivated;
      if sender in forceDeactivated {
        forceDeactivated := forceDeactivated - {sender};
      }
      ok := PushOperator(sender);
      if !ok {
        forceDeactivated := saved;
      }
    }

    method DepositAndActivate(sender: Sender, value: nat) returns (ok: bool)
      requires Sound(View())
      modifies this
      ensures Outcome(old(View()), Call.DepositAndActivate(sender, value), ok)
    {
      var savedDeposits, savedBalance := depositAmount, balance;
      ok := Deposit(sender, value);
      if ok {
        ok := Of(depositAmount, sender) >= activationThreshold;
        if ok {
          ok := PushOperator(sender);
        }
        if !ok {
          depositAmount, balance := savedDeposits, savedBalance;
        }
      }
    }

    method Deactivate(sender: Sender) returns (ok: bool)
      requires Sound(View())
      modifies this`forceDeactivated, this`activatedOperators, this`activatedOperatorOrder
      ensures Outcome(old(View()), Deactivation(sender), ok)
    {
      var index := Of(activatedOperatorOrder, sender);
      if index == 0 || sender in forceDeactivated {
        return false;
      }
      ValidMeaning(View().registry, maxActivatedOperators);
      forceDeactivated := forceDeactivated + {sender};
      RemoveOperator(index, sender);
      return true;
    }

    method Withdraw(sender: Sender, amount: nat, accepts: bool) returns (ok: bool)
      requires Sound(View())
      modifies this`depositAmount, this`balance, this`activatedOperators, this`activatedOperatorOrder
      ensures Outcome(old(View()), Call.Withdraw(sender, amount, accepts), ok)
    {
      if Of(depositAmount, sender) < amount {
        return false;
      }
      assert Apply(chain, View(), Call.Withdraw(sender, amount, accepts))
          == WithdrawBy(View(), sender, amount, accepts);
      hide Sound, LeaveIfShort, Apply;
      var savedSlots, savedOrder, savedDeposits := activatedOperators, activatedOperatorOrder, depositAmount;
      DebitSender(sender, Of(depositAmount, sender) - amount);
      ok := accepts && amount <= balance;
      if ok {
        balance := balance - amount;
      } else {
        activatedOperators, activatedOperatorOrder, depositAmount := savedSlots, savedOrder, savedDeposits;
      }
    }

    /** What withdraw writes before the transfer. */
    method DebitSender(sender: Sender, left: nat)
      requires Sound(View())
      modifies this`depositAmount, this`activatedOperators, this`activatedOperatorOrder
      ensures View() == LeaveIfShort(old(View()), sender, left).(deposits := old(depositAmount)[sender := left])
    {
      ValidMeaning(View().registry, maxActivatedOperators);
      hide Sound, Valid, Active, Operators.Deactivate;
      depositAmount := depositAmount[sender := left];
      var index := Of(activatedOperatorOrder, sender);
      if index != 0 && left < activationThreshold {
        assert index < |activatedOperators|;
        RemoveOperator(index, sender);
      }
    }

    method PushOperator(op: Address) returns (ok: bool)
      modifies this`activatedOperators, this`activatedOperatorOrder
      ensures var after := Operators.Activate(old(View()).registry, op, maxActivatedOperators);
              ok == after.Some? && View().registry == if ok then after.value else old(View()).registry
    {
      if Of(activatedOperatorOrder, op) != 0 {
        return false;
      }
      var length := |activatedOperators|;
      if length > maxActivatedOperators {
        return false;
      }
      activatedOperatorOrder := activatedOperatorOrder[op := length];
      activatedOperators := activatedOperators + [op];
      return true;
    }

    method RemoveOperator(index: nat, op: Address)
      requires 0 < index == Of(activatedOperatorOrder, op) < |activatedOperators|
      modifies this`activatedOperators, this`activatedOperatorOrder
      ensures View().registry == Operators.Deactivate(old(View()).registry, index, op)
    {
      var last := activatedOperators[|activatedOperators| - 1];
      activatedOperators := activatedOperators[index := last];
      activatedOperators := activatedOperators[..|activatedOperators| - 1];
      activatedOperatorOrder := activatedOperatorOrder[last := index];
      activatedOperatorOrder := activatedOperatorOrder - {op};
    }

    // -------------------------------------------------------------------
    // Requests

    method RequestRandomNumber(
        sender: Sender, value: nat, callbackGasLimit: nat, price: nat, time: nat) returns (ok: bool)
      requires Sound(View())
      modifies this
      ensures Outcome(old(View()), Call.RequestRandomNumber(sender, value, callbackGasLimit, price, time), ok)
    {
      if callbackGasLimit > maxCallbackGasLimit {
        return false;
      }
      var length := |activatedOperators|;
      if length <= 2 || value < price {
        return false;
      }
      RosterRemaining(View());
      hide Sound, DebitAll, Remaining;
      var ops := activatedOperators;
      var places;
      ok, places := ChargeOperators(ops, value);
      if ok {
        RecordRound(ops, places, RequestInfo(sender, time, value, callbackGasLimit));
      }
    }

    /** Debits every operator, or no one. */
    method ChargeOperators(ops: seq<Address>, value: nat) returns (ok: bool, places: map<Address, nat>)
      requires Remaining(View().registry, maxActivatedOperators, ops, 1)
      modifies this`activatedOperators, this`activatedOperatorOrder, this`depositAmount
      ensures var start := Debited(old(View()).registry, old(depositAmount), PlacesAt(old(View()), nextRound));
              var d := DebitAll(start, ops, 1, value, activationThreshold, maxActivatedOperators);
              && ok == d.Some?
              && View() == (if ok then old(View()).(registry := d.value.registry, deposits := d.value.deposits)
                            else old(View()))
              && (ok ==> places == d.value.places)
    {
      hide Remaining, DebitAll;
      var savedSlots, savedOrder, savedDeposits := activatedOperators, activatedOperatorOrder, depositAmount;
      ok, places := DebitOperators(ops, PlacesAt(View(), nextRound), value);
      if !ok {
        activatedOperators, activatedOperatorOrder, depositAmount := savedSlots, savedOrder, savedDeposits;
      }
    }

    method RecordRound(ops: seq<Address>, places: map<Address, nat>, info: RequestInfo)
      modifies this`nextRound, this`requestInfo, this`balance
      modifies this`activatedOperatorsAtRound, this`activatedOperatorOrderAtRound
      ensures View() == Record(old(View()).(registry := Registry(ops, activatedOperatorOrder)),
                               Debited(old(View()).registry, depositAmount, places), info)
    {
      var round := nextRound;
      nextRound := (round + 1) % TWO_256;
      requestInfo := requestInfo[round := info];
      activatedOperatorsAtRound := activatedOperatorsAtRound[round := ops];
      activatedOperatorOrderAtRound := activatedOperatorOrderAtRound[round := places];
      balance := balance + info.cost;
    }

    /** The loop over the snapshot, which removes from the storage array while it goes. */
    method DebitOperators(ops: seq<Address>, initial: map<Address, nat>, value: nat)
      returns (ok: bool, places: map<Address, nat>)
      requires Remaining(View().registry, maxActivatedOperators, ops, 1)
      modifies this`activatedOperators, this`activatedOperatorOrder, this`depositAmount
      ensures var d := DebitAll(Debited(old(View()).registry, old(depositAmount), initial), ops, 1, value,
                                activationThreshold, maxActivatedOperators);
              ok == d.Some? && (ok ==> d.value == Debited(View().registry, depositAmount, places))
    {
      RemainingBounds(View().registry, maxActivatedOperators, ops, 1);
      hide Remaining, DebitOne;
      places := initial;
      ghost var start := Debited(View().registry, depositAmount, initial);
      var i := 1;
      while i < |ops|
        invariant 1 <= i <= |ops|
        invariant Remaining(View().registry, maxActivatedOperators, ops, i)
        invariant DebitAll(start, ops, 1, value, activationThreshold, maxActivatedOperators)
               == DebitAll(Debited(View().registry, depositAmount, places), ops, i, value, activationThreshold,
                           maxActivatedOperators)
      {
        ok, places := DebitOperator(ops, i, places, value);
        if !ok {
          return;
        }
        i := i + 1;
      }
      ok := true;
    }

    /** One pass of the loop, which reads the operator's current index. */
    method DebitOperator(ops: seq<Address>, i: nat, before: map<Address, nat>, value: nat)
      returns (ok: bool, places: map<Address, nat>)
      requires i < |ops| && Remaining(View().registry, maxActivatedOperators, ops, i)
      modifies this`activatedOperators, this`activatedOperatorOrder, this`depositAmount
      ensures 0 < Of(old(View()).registry.order, ops[i]) < |old(View()).registry.slots|
      ensures var d := DebitOne(Debited(old(View()).registry, old(depositAmount), before), ops, i, value,
                                activationThreshold);
              && ok == d.Some?
              && (ok ==> d.value == Debited(View().registry, depositAmount, places))
              && (ok ==> Remaining(View().registry, maxActivatedOperators, ops, i + 1))
    {
      DebitOneEffect(Debited(View().registry, depositAmount, before), ops, i, value, activationThreshold,
                     maxActivatedOperators);
      hide Remaining, Valid, Active, Total, Operators.Deactivate;
      var operator := ops[i];
      var index := Of(activatedOperatorOrder, operator);
      if Of(depositAmount, operator) < value {
        return false, before;
      }
      places := before[operator := i];
      depositAmount := depositAmount[operator := Of(depositAmount, operator) - value];
      if Of(depositAmount, operator) < activationThreshold {
        RemoveOperator(index, operator);
      }
      ok := true;
    }

    // -------------------------------------------------------------------
    // Commit-reveal

    method SubmitMerkleRoot(sender: Sender, round: nat, root: Word) returns (ok: bool)
      requires Sound(View())
      modifies this`roundInfo
      ensures Outcome(old(View()), Call.SubmitMerkleRoot(sender, round, root), ok)
    {
      if Of(PlacesAt(View(), round), sender) == 0 {
        return false;
      }
      roundInfo := roundInfo[round := RoundAt(View(), round).(merkleRoot := root)];
      return true;
    }

    method GenerateRandomNumber(
      round: nat, secrets: seq<Word>, vs: seq<Byte>, rs: seq<Word>, ss: seq<Word>, callback: Option<bool>)
      returns (ok: bool)
      requires Sound(View())
      modifies this
      ensures Outcome(old(View()), Call.GenerateRandomNumber(round, secrets, vs, rs, ss, callback), ok)
    {
      hide Sound;
      var order;
      ok, order := VerifySecrets(round, secrets, vs, rs, ss);
      if !ok || callback.None? {
        return false;
      }
      hide Verified, Settle;
      var savedRounds := roundInfo;
      var number := Uint(chain.keccak(Concat(Arranged(secrets, order))));
      roundInfo := roundInfo[round := RoundInfo(RoundAt(View(), round).merkleRoot, number, callback.value)];
      assert View() == Fulfilled(chain, old(View()), round, secrets, callback.value);
      hide Fulfilled;
      ok := SettleRound(round);
      if !ok {
        roundInfo := savedRounds;
      }
    }

    /** The root and signature checks, with the order in which the secrets are hashed. */
    method VerifySecrets(round: nat, secrets: seq<Word>, vs: seq<Byte>, rs: seq<Word>, ss: seq<Word>)
      returns (ok: bool, order: seq<nat>)
      ensures ok == Verified(chain, View(), round, secrets, vs, rs, ss)
      ensures order == chain.sort(LeafDistances(chain.keccak, secrets))
      ensures SortedOrder(LeafDistances(chain.keccak, secrets), order)
    {
      var cos, cvs := HashSecrets(secrets);
      order := RevealOrder(cos, cvs, secrets);
      hide LeafDistances, SignaturesOk, Merkle.Root;
      var root := Merkle.CreateMerkleRoot(chain.keccak, cvs);
      ok := root.Some? && root.value == RoundAt(View(), round).merkleRoot;
      if ok {
        ok := CheckSignatures(round, cvs, vs, rs, ss);
      }
    }

    method HashSecrets(secrets: seq<Word>) returns (cos: seq<Word>, cvs: seq<Word>)
      ensures cos == Merkle.Hashed(chain.keccak, secrets) && cvs == Leaves(chain.keccak, secrets)
    {
      cos, cvs := [], [];
      for i := 0 to |secrets|
        invariant |cos| == |cvs| == i
        invariant forall k :: 0 <= k < i ==> cos[k] == chain.keccak(secrets[k]) && cvs[k] == chain.keccak(cos[k])
      {
        cos := cos + [chain.keccak(secrets[i])];
        cvs := cvs + [chain.keccak(cos[i])];
      }
    }

    method RevealOrder(cos: seq<Word>, cvs: seq<Word>, secrets: seq<Word>) returns (order: seq<nat>)
      requires cos == Merkle.Hashed(chain.keccak, secrets) && cvs == Leaves(chain.keccak, secrets)
      ensures order == chain.sort(LeafDistances(chain.keccak, secrets))
      ensures SortedOrder(LeafDistances(chain.keccak, secrets), order)
    {
      var rv := chain.keccak(Concat(cos));
      var diffs: seq<nat> := [];
      for i := 0 to |cvs|
        invariant |diffs| == i
        invariant forall k :: 0 <= k < i ==> diffs[k] == Distance(rv, cvs[k])
      {
        diffs := diffs + [Distance(rv, cvs[i])];
      }
      assert diffs == LeafDistances(chain.keccak, secrets);
      order := chain.sort(diffs);
    }

    method CheckSignatures(
        round: nat, leaves: seq<Word>, vs: seq<Byte>, rs: seq<Word>, ss: seq<Word>) returns (ok: bool)
      ensures ok == SignaturesOk(chain, PlacesAt(View(), round), round, leaves, vs, rs, ss)
    {
      var places := PlacesAt(View(), round);
      for i := 0 to |leaves|
        invariant i <= |vs| && i <= |rs| && i <= |ss|
        invariant forall k :: 0 <= k < i ==> SignatureOk(chain, places, round, leaves[k], vs[k], rs[k], ss[k])
      {
        if i >= |ss| || Uint(ss[i]) > MAX_S {
          return false;
        }
        if i >= |vs| || i >= |rs| || Of(places, chain.recover(round, leaves[i], vs[i], rs[i], ss[i])) == 0 {
          return false;
        }
      }
      return true;
    }

    method SettleRound(round: nat) returns (ok: bool)
      modifies this`activatedOperators, this`activatedOperatorOrder, this`depositAmount
      ensures var after := Settle(old(View()), round);
              ok == after.Some? && View() == if ok then after.value else old(View())
    {
      var ops := SnapshotAt(View(), round);
      if |ops| < 2 {
        return false;
      }
      var cost := CostOf(View(), round);
      var costWithReward := cost + cost / (|ops| - 1);
      if costWithReward >= TWO_256 {
        return false;
      }
      var savedSlots, savedOrder, savedDeposits := activatedOperators, activatedOperatorOrder, depositAmount;
      ok := CreditOperators(ops, costWithReward);
      if !ok {
        activatedOperators, activatedOperatorOrder, depositAmount := savedSlots, savedOrder, savedDeposits;
      }
    }

    method CreditOperators(ops: seq<Address>, amount: nat) returns (ok: bool)
      requires |ops| >= 1
      modifies this`activatedOperators, this`activatedOperatorOrder, this`depositAmount
      ensures var c := CreditAll(Credited(old(View()).registry, old(depositAmount)), forceDeactivated, ops, 1, amount,
                                 activationThreshold, maxActivatedOperators);
              ok == c.Some? && (ok ==> c.value == Credited(View().registry, depositAmount))
    {
      ghost var start := Credited(View().registry, depositAmount);
      for i := 1 to |ops|
        invariant CreditAll(start, forceDeactivated, ops, 1, amount, activationThreshold, maxActivatedOperators)
               == CreditAll(Credited(View().registry, depositAmount), forceDeactivated, ops, i, amount,
                            activationThreshold, maxActivatedOperators)
      {
        var operator := ops[i];
        var index := Of(activatedOperatorOrder, operator);
        var updated := Of(depositAmount, operator) + amount;
        if updated >= TWO_256 {
          return false;
        }
        depositAmount := depositAmount[operator := updated];
        hide Operators.Activate, Returns;
        ok := CheckAndActivateIfNotForceDeactivated(index, updated, operator);
        if !ok {
          return;
        }
      }
      return true;
    }

    method CheckAndActivateIfNotForceDeactivated(index: nat, updated: nat, operator: Address) returns (ok: bool)
      modifies this`activatedOperators, this`activatedOperatorOrder
      ensures var before := old(View()).registry;
              var pushed := Operators.Activate(before, operator, maxActivatedOperators);
              var back := Returns(index, updated, activationThreshold, operator in forceDeactivated);
              && ok == (back ==> pushed.Some?)
              && View().registry == if back && ok then pushed.value else before
    {
      hide Operators.Activate;
      ok := true;
      if index == 0 && updated >= activationThreshold && operator !in forceDeactivated {
        ok := PushOperator(operator);
      }
    }
  }
}
