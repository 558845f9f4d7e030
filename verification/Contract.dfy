/** Storage of the coordinator contract and the effect of each external call on it. */
module Contract {
  import opened Words
  import opened Operators
  import opened Sorting
  import Merkle

  datatype RequestInfo = RequestInfo(consumer: Address, requestedTime: nat, cost: nat, callbackGasLimit: nat)

  datatype RoundInfo = RoundInfo(merkleRoot: Word, randomNumber: nat, fulfillSucceeded: bool)

  /** Mappings hold only the entries ever written; reads go through defaults. */
  datatype Storage = Storage(
    threshold: nat,
    maxOperators: nat,
    maxCallbackGas: nat,
    registry: Registry,
    deposits: map<Address, nat>,
    forced: set<Address>,
    nextRound: nat,
    requests: map<nat, RequestInfo>,
    snapshots: map<nat, seq<Address>>,
    places: map<nat, map<Address, nat>>,
    rounds: map<nat, RoundInfo>,
    balance: nat)

  /** What the contract calls and this model does not define. */
  datatype Chain = Chain(
    keccak: Hash,
    recover: (nat, Word, Byte, Word, Word) -> Address, // EIP-712 digest of (round, cv), then ecrecover
    sort: Sorter)

  datatype Call =
    | Deposit(sender: Sender, value: nat)
    | Activation(sender: Sender)
    | DepositAndActivate(sender: Sender, value: nat)
    | Deactivation(sender: Sender)
    | Withdraw(sender: Sender, amount: nat, accepts: bool)
    | RequestRandomNumber(sender: Sender, value: nat, callbackGasLimit: nat, price: nat, time: nat)
    | SubmitMerkleRoot(sender: Sender, round: nat, root: Word)
    | GenerateRandomNumber(
        round: nat, secrets: seq<Word>, vs: seq<Byte>, rs: seq<Word>, ss: seq<Word>, callback: Option<bool>)

  /** Largest accepted signature s: half the order of secp256k1. */
  const MAX_S: nat := 0x7FFFFFFFFFFFFFFFFFFFFFFFFFFFFFFF5D576E7357A4501DDFE92F46681B20A0

  function Deployed(threshold: nat, maxOperators: nat, maxCallbackGas: nat): Storage {
    Storage(threshold, maxOperators, maxCallbackGas, Registry([0], map[]), map[], {}, 0, map[], map[], map[], map[], 0)
  }

  function PlacesAt(s: Storage, round: nat): map<Address, nat> {
    if round in s.places then s.places[round] else map[]
  }

  function SnapshotAt(s: Storage, round: nat): seq<Address> {
    if round in s.snapshots then s.snapshots[round] else []
  }

  function RoundAt(s: Storage, round: nat): RoundInfo {
    if round in s.rounds then s.rounds[round] else RoundInfo(ZERO, 0, false)
  }

  function CostOf(s: Storage, round: nat): nat {
    if round in s.requests then s.requests[round].cost else 0
  }

  // ---------------------------------------------------------------------
  // Invariant

  /** Every active operator covers the threshold. */
  ghost predicate Covered(s: Storage) {
    forall a :: a in Active(s.registry) ==> Of(s.deposits, a) >= s.threshold
  }

  /** A roster of two operators or more, each findable at its position, and no one at address(0). */
  ghost predicate Indexed(ops: seq<Address>, places: map<Address, nat>) {
    && Roster(ops) && |ops| > 2
    && Of(places, 0) == 0
    && forall j :: 1 <= j < |ops| ==> Of(places, ops[j]) == j
  }

  ghost predicate RoundRecorded(s: Storage, round: nat)
    requires round in s.snapshots
  {
    round in s.requests && round in s.places && Indexed(s.snapshots[round], s.places[round])
  }

  ghost predicate RoundsRecorded(s: Storage) {
    && (forall round :: round in s.snapshots ==> RoundRecorded(s, round))
    && (forall round :: round in s.places || round in s.requests ==> round in s.snapshots)
  }

  ghost predicate Sound(s: Storage) {
    && Valid(s.registry, s.maxOperators)
    && Covered(s)
    && RoundsRecorded(s)
    && s.nextRound < TWO_256
  }

  // ---------------------------------------------------------------------
  // The calls; None is a revert, which undoes everything

  function ActivateSender(s: Storage, sender: Sender): Option<Storage> {
    var r := Activate(s.registry, sender, s.maxOperators);
    if r.None? then None else Some(s.(registry := r.value))
  }

  function DeactivateSender(s: Storage, sender: Sender): Storage
    requires Sound(s) && Of(s.registry.order, sender) > 0
  {
    ValidMeaning(s.registry, s.maxOperators);
    DeactivateEffect(s.registry, sender, s.maxOperators);
    s.(registry := Deactivate(s.registry, Of(s.registry.order, sender), sender))
  }

  function DepositBy(s: Storage, sender: Sender, value: nat): Option<Storage> {
    var updated := Of(s.deposits, sender) + value;
    if updated >= TWO_256 then None
    else Some(s.(deposits := s.deposits[sender := updated], balance := s.balance + value))
  }

  function DeactivateBy(s: Storage, sender: Sender): Option<Storage>
    requires Sound(s)
  {
    if Of(s.registry.order, sender) == 0 then None
    else if sender in s.forced then None
    else Some(DeactivateSender(s, sender).(forced := s.forced + {sender}))
  }

  function WithdrawBy(s: Storage, sender: Sender, amount: nat, accepts: bool): Option<Storage>
    requires Sound(s)
  {
    if Of(s.deposits, sender) < amount then None
    else if s.balance < amount || !accepts then None
    else
      var left := Of(s.deposits, sender) - amount;
      Some(LeaveIfShort(s, sender, left).(deposits := s.deposits[sender := left], balance := s.balance - amount))
  }

  /** An active sender with less than the threshold left is removed. */
  function LeaveIfShort(s: Storage, sender: Sender, left: nat): Storage
    requires Sound(s)
  {
    if Of(s.registry.order, sender) != 0 && left < s.threshold then DeactivateSender(s, sender) else s
  }

  lemma LeaveEffect(s: Storage, sender: Sender, left: nat)
    requires Sound(s)
    ensures var s' := LeaveIfShort(s, sender, left);
            && s' == s.(registry := s'.registry) && Valid(s'.registry, s.maxOperators)
            && Active(s'.registry) == Active(s.registry) - (if left < s.threshold then {sender} else {})
  {
    ValidMeaning(s.registry, s.maxOperators);
    if sender in Active(s.registry) { DeactivateEffect(s.registry, sender, s.maxOperators); }
    hide Valid, Active, Deactivate;
  }

  lemma RosterRemaining(s: Storage)
    requires Sound(s)
    ensures Roster(s.registry.slots) && Remaining(s.registry, s.maxOperators, s.registry.slots, 1)
  {
    ValidMeaning(s.registry, s.maxOperators);
  }

  /** The new round's tables: the paid request, the operators that stood by, and their positions. */
  function Record(s: Storage, d: Debited, info: RequestInfo): Storage {
    var round := s.nextRound;
    s.(registry := d.registry,
       deposits := d.deposits,
       nextRound := (round + 1) % TWO_256,
       requests := s.requests[round := info],
       snapshots := s.snapshots[round := s.registry.slots],
       places := s.places[round := d.places],
       balance := s.balance + info.cost)
  }

  function RequestBy(
      s: Storage, sender: Sender, value: nat, callbackGasLimit: nat, price: nat, time: nat): Option<Storage>
    requires Sound(s)
  {
    if callbackGasLimit > s.maxCallbackGas || |s.registry.slots| <= 2 || value < price then None
    else
      RosterRemaining(s);
      var start := Debited(s.registry, s.deposits, PlacesAt(s, s.nextRound));
      var d := DebitAll(start, s.registry.slots, 1, value, s.threshold, s.maxOperators);
      if d.None? then None else Some(Record(s, d.value, RequestInfo(sender, time, value, callbackGasLimit)))
  }

  function SubmitRootBy(s: Storage, sender: Sender, round: nat, root: Word): Option<Storage> {
    if Of(PlacesAt(s, round), sender) == 0 then None
    else Some(s.(rounds := s.rounds[round := RoundAt(s, round).(merkleRoot := root)]))
  }

  /** The recomputed leaves: each secret hashed twice. */
  function Leaves(keccak: Hash, secrets: seq<Word>): (ws: seq<Word>)
    ensures |ws| == |secrets|
    ensures forall i :: 0 <= i < |ws| ==> ws[i] == keccak(keccak(secrets[i]))
  {
    Merkle.Hashed(keccak, Merkle.Hashed(keccak, secrets))
  }

  /** How far each leaf is from the hash of all COS values. */
  function LeafDistances(keccak: Hash, secrets: seq<Word>): (ds: seq<nat>)
    ensures |ds| == |secrets|
  {
    Distances(keccak(Concat(Merkle.Hashed(keccak, secrets))), Leaves(keccak, secrets))
  }

  function InRevealOrder(chain: Chain, secrets: seq<Word>): seq<Word> {
    var ds := LeafDistances(chain.keccak, secrets);
    assert SortedOrder(ds, chain.sort(ds));
    Arranged(secrets, chain.sort(ds))
  }

  /** Signature i is low-s and recovers to an operator of the round. */
  predicate SignatureOk(chain: Chain, places: map<Address, nat>, round: nat, leaf: Word, v: Byte, r: Word, s: Word) {
    Uint(s) <= MAX_S && Of(places, chain.recover(round, leaf, v, r, s)) > 0
  }

  predicate SignaturesOk(
    chain: Chain, places: map<Address, nat>, round: nat, leaves: seq<Word>, vs: seq<Byte>, rs: seq<Word>, ss: seq<Word>)
  {
    && |leaves| <= |vs| && |leaves| <= |rs| && |leaves| <= |ss|
    && forall i :: 0 <= i < |leaves| ==> SignatureOk(chain, places, round, leaves[i], vs[i], rs[i], ss[i])
  }

  predicate Verified(
      chain: Chain, s: Storage, round: nat, secrets: seq<Word>, vs: seq<Byte>, rs: seq<Word>, ss: seq<Word>) {
    var leaves := Leaves(chain.keccak, secrets);
    && Merkle.Root(chain.keccak, leaves) == Some(RoundAt(s, round).merkleRoot)
    && SignaturesOk(chain, PlacesAt(s, round), round, leaves, vs, rs, ss)
  }

  /** cost + cost / N. */
  function Reward(cost: nat, operators: nat): nat
    requires operators > 0
  {
    cost + cost / operators
  }

  function Settle(s: Storage, round: nat): Option<Storage> {
    var ops, cost := SnapshotAt(s, round), CostOf(s, round);
    if |ops| < 2 then None // length - 1 underflows, or the division is by zero
    else
      var amount := Reward(cost, |ops| - 1);
      if amount >= TWO_256 then None
      else
        var c := CreditAll(Credited(s.registry, s.deposits), s.forced, ops, 1, amount, s.threshold, s.maxOperators);
        if c.None? then None else Some(s.(registry := c.value.registry, deposits := c.value.deposits))
  }

  function Fulfilled(chain: Chain, s: Storage, round: nat, secrets: seq<Word>, success: bool): Storage {
    s.(rounds := s.rounds[round := RoundInfo(
      RoundAt(s, round).merkleRoot, Uint(chain.keccak(Concat(InRevealOrder(chain, secrets)))), success)])
  }

  function GenerateBy(
    chain: Chain, s: Storage, round: nat, secrets: seq<Word>, vs: seq<Byte>, rs: seq<Word>, ss: seq<Word>,
    callback: Option<bool>):
    Option<Storage>
  {
    if !Verified(chain, s, round, secrets, vs, rs, ss) || callback.None? then None
    else Settle(Fulfilled(chain, s, round, secrets, callback.value), round)
  }

  function Apply(chain: Chain, s: Storage, c: Call): Option<Storage>
    requires Sound(s)
  {
    match c
    case Deposit(sender, value) => DepositBy(s, sender, value)
    case Activation(sender) =>
      if Of(s.deposits, sender) < s.threshold then None
      else ActivateSender(s.(forced := s.forced - {sender}), sender)
    case DepositAndActivate(sender, value) =>
      var paid := DepositBy(s, sender, value);
      if paid.None? || Of(paid.value.deposits, sender) < s.threshold then None
      else ActivateSender(paid.value, sender)
    case Deactivation(sender) => DeactivateBy(s, sender)
    case Withdraw(sender, amount, accepts) => WithdrawBy(s, sender, amount, accepts)
    case RequestRandomNumber(sender, value, gas, price, time) => RequestBy(s, sender, value, gas, price, time)
    case SubmitMerkleRoot(sender, round, root) => SubmitRootBy(s, sender, round, root)
    case GenerateRandomNumber(round, secrets, vs, rs, ss, callback) =>
      GenerateBy(chain, s, round, secrets, vs, rs, ss, callback)
  }

  // ---------------------------------------------------------------------
  // What each call does to a sound storage

  lemma DeployedSound(threshold: nat, maxOperators: nat, maxCallbackGas: nat)
    ensures Sound(Deployed(threshold, maxOperators, maxCallbackGas))
    ensures Total(Deployed(threshold, maxOperators, maxCallbackGas).deposits) == 0
  {
    assert forall a :: Of(map[], a) == 0;
  }

  /**
   * requestRandomNumber goes through exactly when its three guards pass and every
   * active operator can pay; then each active operator, and no one else, pays once,
   * and exactly those left below the threshold leave the active set.
   */
  lemma RequestEffect(s: Storage, sender: Sender, value: nat, gas: nat, price: nat, time: nat)
    requires Sound(s)
    ensures RequestBy(s, sender, value, gas, price, time).Some?
       <==> && gas <= s.maxCallbackGas && |Active(s.registry)| >= 2 && value >= price
            && forall a :: a in Active(s.registry) ==> Of(s.deposits, a) >= value
    ensures RequestBy(s, sender, value, gas, price, time).Some? ==>
              var s' := RequestBy(s, sender, value, gas, price, time).value;
              && Sound(s')
              && Active(s'.registry) == (set a | a in Active(s.registry) && Of(s.deposits, a) - value >= s.threshold)
              && (forall a :: Of(s'.deposits, a) == Of(s.deposits, a) - if a in Active(s.registry) then value else 0)
              && Total(s'.deposits) == Total(s.deposits) - |Active(s.registry)| * value
              && s'.balance == s.balance + value
  {
    RequestSucceeds(s, sender, value, gas, price, time);
    if RequestBy(s, sender, value, gas, price, time).Some? {
      hide Sound, Valid, Active, Total, RequestBy;
      RequestDebits(s, sender, value, gas, price, time);
      RequestSound(s, sender, value, gas, price, time);
    }
  }

  lemma RequestSucceeds(s: Storage, sender: Sender, value: nat, gas: nat, price: nat, time: nat)
    requires Sound(s)
    ensures RequestBy(s, sender, value, gas, price, time).Some?
       <==> && gas <= s.maxCallbackGas && |Active(s.registry)| >= 2 && value >= price
            && forall a :: a in Active(s.registry) ==> Of(s.deposits, a) >= value
  {
    RosterRemaining(s);
    ValidMeaning(s.registry, s.maxOperators);
    ActiveIsTail(s.registry);
    var start := Debited(s.registry, s.deposits, PlacesAt(s, s.nextRound));
    hide Sound, Valid, Active, DebitAll, Roster, Remaining, PlacesAt, Record;
    DebitAllSucceeds(start, s.registry.slots, 1, value, s.threshold, s.maxOperators);
  }

  lemma SlotsCountActive(s: Storage)
    requires Sound(s)
    ensures |s.registry.slots| > 0 && |Active(s.registry)| == |s.registry.slots| - 1
  {
    ValidMeaning(s.registry, s.maxOperators);
  }

  lemma RequestDebits(s: Storage, sender: Sender, value: nat, gas: nat, price: nat, time: nat)
    requires Sound(s) && RequestBy(s, sender, value, gas, price, time).Some?
    ensures var s' := RequestBy(s, sender, value, gas, price, time).value;
            && (forall a :: a in Active(s'.registry) <==>
                  a in Active(s.registry) && Of(s.deposits, a) - value >= s.threshold)
            && (forall a :: Of(s'.deposits, a) == Of(s.deposits, a) - if a in Active(s.registry) then value else 0)
            && Total(s'.deposits) == Total(s.deposits) - |Active(s.registry)| * value
            && s'.balance == s.balance + value
  {
    RosterRemaining(s);
    var ops := s.registry.slots;
    var start := Debited(s.registry, s.deposits, PlacesAt(s, s.nextRound));
    DebitAllEffect(start, ops, 1, value, s.threshold, s.maxOperators);
    hide Sound, Valid, Active, Total, DebitAll, Roster, Remaining, PlacesAt;
    assert |Active(s.registry)| == |ops| - 1 by { SlotsCountActive(s); }
    ActiveIsTail(s.registry);
  }

  /** The request takes the next round number and writes the tables of that round only. */
  lemma RequestTables(s: Storage, sender: Sender, value: nat, gas: nat, price: nat, time: nat)
    requires Sound(s) && RequestBy(s, sender, value, gas, price, time).Some?
    ensures var s', round := RequestBy(s, sender, value, gas, price, time).value, s.nextRound;
            && s'.nextRound == (round + 1) % TWO_256
            && s'.requests == s.requests[round := RequestInfo(sender, time, value, gas)]
            && s'.snapshots == s.snapshots[round := s.registry.slots]
            && round in s'.places && s'.places == s.places[round := s'.places[round]]
            && s'.forced == s.forced && s'.rounds == s.rounds
            && forall j :: 1 <= j < |s.registry.slots| ==> Of(PlacesAt(s', round), s.registry.slots[j]) == j
  {
    RequestRecorded(s, sender, value, gas, price, time);
    hide Sound, DebitAll, Remaining;
  }

  lemma ActiveIsTail(r: Registry)
    requires |r.slots| > 0
    ensures forall a :: a in Active(r) <==> a in r.slots[1..]
  {
    forall a | a in Active(r) ensures a in r.slots[1..] {
      var i :| 1 <= i < |r.slots| && r.slots[i] == a;
      assert r.slots[1..][i - 1] == a;
    }
    forall a | a in r.slots[1..] ensures a in Active(r) {
      var i :| 0 <= i < |r.slots[1..]| && r.slots[1..][i] == a;
      assert r.slots[i + 1] == a;
    }
  }

  lemma RequestSound(s: Storage, sender: Sender, value: nat, gas: nat, price: nat, time: nat)
    requires Sound(s) && RequestBy(s, sender, value, gas, price, time).Some?
    ensures Sound(RequestBy(s, sender, value, gas, price, time).value)
  {
    RequestKeepsRegistry(s, sender, value, gas, price, time);
    RequestRecorded(s, sender, value, gas, price, time);
    var s' := RequestBy(s, sender, value, gas, price, time).value;
    hide Valid, Covered, Indexed, DebitAll, Remaining;
    forall r | r in s'.snapshots ensures RoundRecorded(s', r) {
      if r != s.nextRound { assert RoundRecorded(s, r); }
    }
  }

  lemma RequestKeepsRegistry(s: Storage, sender: Sender, value: nat, gas: nat, price: nat, time: nat)
    requires Sound(s) && RequestBy(s, sender, value, gas, price, time).Some?
    ensures var s' := RequestBy(s, sender, value, gas, price, time).value;
            Valid(s'.registry, s.maxOperators) && s'.maxOperators == s.maxOperators && Covered(s')
  {
    RosterRemaining(s);
    ActiveIsTail(s.registry);
    var start := Debited(s.registry, s.deposits, PlacesAt(s, s.nextRound));
    DebitAllEffect(start, s.registry.slots, 1, value, s.threshold, s.maxOperators);
    hide Sound, Valid, Active, Total, DebitAll, Roster, Remaining, PlacesAt;
  }

  lemma RequestRecorded(s: Storage, sender: Sender, value: nat, gas: nat, price: nat, time: nat)
    requires Sound(s) && RequestBy(s, sender, value, gas, price, time).Some?
    ensures var s' := RequestBy(s, sender, value, gas, price, time).value;
            s.nextRound in s'.snapshots && RoundRecorded(s', s.nextRound)
  {
    RosterRemaining(s);
    var ops, round := s.registry.slots, s.nextRound;
    assert round in s.snapshots ==> RoundRecorded(s, round);
    assert Of(PlacesAt(s, round), 0) == 0;
    var start := Debited(s.registry, s.deposits, PlacesAt(s, round));
    DebitAllEffect(start, ops, 1, value, s.threshold, s.maxOperators);
    RosterTail(ops);
    hide Sound, Valid, Active, Total, DebitAll, Roster, Remaining, PlacesAt;
  }

  lemma RosterTail(ops: seq<Address>)
    requires Roster(ops)
    ensures 0 !in ops[1..]
  {}

  /** What a round's settlement credits to each of its operators. */
  function AmountOf(s: Storage, round: nat): nat
    requires |SnapshotAt(s, round)| >= 2
  {
    Reward(CostOf(s, round), |SnapshotAt(s, round)| - 1)
  }

  /** The snapshot operators that are inactive, will cover the threshold and are not force-deactivated. */
  ghost function ComingBack(s: Storage, round: nat): set<Address>
    requires |SnapshotAt(s, round)| >= 2
  {
    set a | a in SnapshotAt(s, round)[1..] && a !in Active(s.registry)
            && Of(s.deposits, a) + AmountOf(s, round) >= s.threshold && a !in s.forced
  }

  lemma ComingBackIsReturning(s: Storage, round: nat)
    requires Sound(s) && |SnapshotAt(s, round)| >= 2
    ensures ComingBack(s, round)
         == Returning(Credited(s.registry, s.deposits), s.forced, SnapshotAt(s, round), 1, AmountOf(s, round),
                      s.threshold)
  {
    ValidMeaning(s.registry, s.maxOperators);
    hide Valid, Active;
  }

  lemma SnapshotRoster(s: Storage, round: nat)
    requires Sound(s) && round in s.snapshots
    ensures Roster(s.snapshots[round]) && |s.snapshots[round]| > 2 && round in s.requests
  {
    assert RoundRecorded(s, round);
  }

  /**
   * A settlement goes through exactly when the round was requested, no sum overflows
   * and the returning operators fit.
   */
  lemma SettleSucceeds(s: Storage, round: nat)
    requires Sound(s)
    ensures Settle(s, round).Some?
       <==> && round in s.snapshots
            && |SnapshotAt(s, round)| > 2
            && AmountOf(s, round) < TWO_256
            && (forall a :: a in s.snapshots[round][1..] ==> Of(s.deposits, a) + AmountOf(s, round) < TWO_256)
            && |Active(s.registry)| + |ComingBack(s, round)| <= s.maxOperators
  {
    if round in s.snapshots {
      SnapshotRoster(s, round);
      ComingBackIsReturning(s, round);
      CreditAllSucceeds(Credited(s.registry, s.deposits), s.forced, s.snapshots[round], 1, AmountOf(s, round),
                        s.threshold, s.maxOperators);
      hide Sound, Valid, Active, CreditAll, Roster, ComingBack, Returning;
    }
  }

  /**
   * After it, each snapshot operator, and no one else, is credited once; the active set
   * gains exactly the operators coming back; active operators keep their index.
   */
  lemma SettleEffect(s: Storage, round: nat)
    requires Sound(s) && Settle(s, round).Some?
    ensures round in s.snapshots && |s.snapshots[round]| > 2
    ensures var ops, s' := s.snapshots[round], Settle(s, round).value;
            && Sound(s')
            && Active(s'.registry) == Active(s.registry) + ComingBack(s, round)
            && (forall a :: a in Active(s.registry) ==> Of(s'.registry.order, a) == Of(s.registry.order, a))
            && (forall a :: Of(s'.deposits, a) == Of(s.deposits, a) + if a in ops[1..] then AmountOf(s, round) else 0)
            && Total(s'.deposits) == Total(s.deposits) + (|ops| - 1) * AmountOf(s, round)
            && s' == s.(registry := s'.registry, deposits := s'.deposits)
  {
    SnapshotRoster(s, round);
    ComingBackIsReturning(s, round);
    CreditAllEffect(Credited(s.registry, s.deposits), s.forced, s.snapshots[round], 1, AmountOf(s, round),
                    s.threshold, s.maxOperators);
    hide Valid, Active, CreditAll, Roster, Returning, Total, Reward, Indexed;
    var s' := Settle(s, round).value;
    assert Covered(s');
    forall r | r in s'.snapshots ensures RoundRecorded(s', r) { assert RoundRecorded(s, r); }
  }

  /**
   * generateRandomNumber succeeds exactly when the secrets and signatures verify, the callback was
   * possible and the settlement goes through. It then sets the number of this round only, keeps its
   * root, and settles: active now are the operators active before and those coming back.
   */
  lemma GenerateEffect(
      chain: Chain, s: Storage, round: nat, secrets: seq<Word>, vs: seq<Byte>, rs: seq<Word>, ss: seq<Word>,
      callback: Option<bool>)
    requires Sound(s)
    ensures GenerateBy(chain, s, round, secrets, vs, rs, ss, callback).Some?
       <==> Verified(chain, s, round, secrets, vs, rs, ss) && callback.Some? && Settle(s, round).Some?
    ensures GenerateBy(chain, s, round, secrets, vs, rs, ss, callback).Some? ==>
              var s' := GenerateBy(chain, s, round, secrets, vs, rs, ss, callback).value;
              && round in s.snapshots && |SnapshotAt(s, round)| > 2
              && Active(s'.registry) == Active(s.registry) + ComingBack(s, round)
              && (forall a :: a in Active(s.registry) ==> Of(s'.registry.order, a) == Of(s.registry.order, a))
              && (forall a :: Of(s'.deposits, a) ==
                    Of(s.deposits, a) + if a in SnapshotAt(s, round)[1..] then AmountOf(s, round) else 0)
              && s' == s.(registry := s'.registry, deposits := s'.deposits, rounds := s'.rounds)
              && RoundAt(s', round).merkleRoot == RoundAt(s, round).merkleRoot
              && RoundAt(s', round).fulfillSucceeded == callback.value
              && (forall r :: r != round ==> RoundAt(s', r) == RoundAt(s, r))
  {
    if callback.Some? {
      var f := Fulfilled(chain, s, round, secrets, callback.value);
      SameSound(s, f);
      SettleIgnoresRounds(s, f, round);
      if Settle(s, round).Some? {
        SettleEffect(s, round);
      }
    }
    hide Sound, Settle, Verified, Active, InRevealOrder;
  }

  /**
   * A settlement in terms of the round's tables: with N operators and cost c, each of the operators is
   * credited c + c / N, and is active afterwards if it was before, or if it then covers the threshold
   * without being force-deactivated; no one else changes.
   */
  lemma SettlementExactly(chain: Chain, s: Storage, g: Call, a: Address)
    requires Sound(s) && g.GenerateRandomNumber? && Apply(chain, s, g).Some?
    ensures g.round in s.snapshots && g.round in s.requests && |s.snapshots[g.round]| > 2
    ensures var s', ops, cost := Apply(chain, s, g).value, s.snapshots[g.round][1..], s.requests[g.round].cost;
            && Of(s'.deposits, a) == Of(s.deposits, a) + (if a in ops then cost + cost / |ops| else 0)
            && (Of(s'.registry.order, a) > 0
                <==> Of(s.registry.order, a) > 0
                     || (a in ops && Of(s'.deposits, a) >= s.threshold && a !in s.forced))
            && (Of(s.registry.order, a) > 0 ==> Of(s'.registry.order, a) == Of(s.registry.order, a))
  {
    GenerateEffect(chain, s, g.round, g.secrets, g.vs, g.rs, g.ss, g.callback);
    SnapshotRoster(s, g.round);
    ApplySound(chain, s, g);
    var s' := Apply(chain, s, g).value;
    ValidMeaning(s.registry, s.maxOperators);
    ValidMeaning(s'.registry, s'.maxOperators);
    hide Valid, Covered, RoundsRecorded, Active, Apply, GenerateBy, Verified, Settle, Roster;
  }

  lemma SettleIgnoresRounds(s: Storage, f: Storage, round: nat)
    requires f == s.(rounds := f.rounds)
    ensures Settle(f, round)
         == if Settle(s, round).None? then None else Some(Settle(s, round).value.(rounds := f.rounds))
  {
    hide CreditAll;
  }

  lemma GeneratedNumber(chain: Chain, s: Storage, g: Call)
    requires Sound(s) && g.GenerateRandomNumber? && Apply(chain, s, g).Some?
    ensures g.round in Apply(chain, s, g).value.rounds
    ensures Apply(chain, s, g).value.rounds[g.round].randomNumber
         == Uint(chain.keccak(Concat(InRevealOrder(chain, g.secrets))))
  {
    hide Sound, Verified, CreditAll, InRevealOrder;
  }

  /**
   * What is hashed into the random number: all secrets, in an order that sorts them by the
   * distance of their double hash from the hash of all COS values.
   */
  lemma RandomNumberHashesAll(chain: Chain, s: Storage, g: Call, cos: seq<Word>, ds: seq<nat>)
    requires Sound(s) && g.GenerateRandomNumber? && Apply(chain, s, g).Some?
    requires |cos| == |ds| == |g.secrets|
    requires forall i :: 0 <= i < |cos| ==> cos[i] == chain.keccak(g.secrets[i])
    requires forall i :: 0 <= i < |ds| ==>
               ds[i] == Distance(chain.keccak(Concat(cos)), chain.keccak(chain.keccak(g.secrets[i])))
    ensures g.round in Apply(chain, s, g).value.rounds
    ensures exists order, hashed: seq<Word> ::
              && SortedOrder(ds, order) && |hashed| == |g.secrets|
              && (forall i :: 0 <= i < |hashed| ==> hashed[i] == g.secrets[order[i]])
              && Apply(chain, s, g).value.rounds[g.round].randomNumber == Uint(chain.keccak(Concat(hashed)))
  {
    GeneratedNumber(chain, s, g);
    hide Sound, Apply;
    assert cos == Merkle.Hashed(chain.keccak, g.secrets);
    assert ds == LeafDistances(chain.keccak, g.secrets);
    var order, hashed := chain.sort(ds), InRevealOrder(chain, g.secrets);
    assert SortedOrder(ds, order);
    assert forall i :: 0 <= i < |hashed| ==> hashed[i] == g.secrets[order[i]];
  }

  /** When no two of these distances are equal there is one such order, whatever the sort routine. */
  lemma RandomNumberUnique(
      chain: Chain, s: Storage, g: Call, cos: seq<Word>, ds: seq<nat>, order: seq<nat>, hashed: seq<Word>)
    requires Sound(s) && g.GenerateRandomNumber? && Apply(chain, s, g).Some?
    requires |cos| == |ds| == |hashed| == |g.secrets|
    requires forall i :: 0 <= i < |cos| ==> cos[i] == chain.keccak(g.secrets[i])
    requires forall i :: 0 <= i < |ds| ==>
               ds[i] == Distance(chain.keccak(Concat(cos)), chain.keccak(chain.keccak(g.secrets[i])))
    requires SortedOrder(ds, order) && forall i, j :: 0 <= i < j < |ds| ==> ds[i] != ds[j]
    requires forall i :: 0 <= i < |hashed| ==> hashed[i] == g.secrets[order[i]]
    ensures g.round in Apply(chain, s, g).value.rounds
    ensures Apply(chain, s, g).value.rounds[g.round].randomNumber == Uint(chain.keccak(Concat(hashed)))
  {
    RandomNumberHashesAll(chain, s, g, cos, ds);
    var other, found: seq<Word> :|
      && SortedOrder(ds, other) && |found| == |g.secrets|
      && (forall i :: 0 <= i < |found| ==> found[i] == g.secrets[other[i]])
      && Apply(chain, s, g).value.rounds[g.round].randomNumber == Uint(chain.keccak(Concat(found)));
    UniqueOrder(ds, order, other);
    hide Apply, Sound, SortedOrder;
    assert found == hashed;
  }

  /**
   * The checks of generateRandomNumber: the root of the doubly hashed secrets is the round's root, and
   * each leaf has a signature with s in the lower half that recovers to someone with a place in the round.
   */
  lemma VerifiedExactly(
      chain: Chain, s: Storage, round: nat, secrets: seq<Word>, vs: seq<Byte>, rs: seq<Word>, ss: seq<Word>,
      leaves: seq<Word>)
    requires |leaves| == |secrets|
    requires forall i :: 0 <= i < |leaves| ==> leaves[i] == chain.keccak(chain.keccak(secrets[i]))
    ensures Verified(chain, s, round, secrets, vs, rs, ss)
       <==> && Merkle.Root(chain.keccak, leaves) == Some(if round in s.rounds then s.rounds[round].merkleRoot else ZERO)
            && |leaves| <= |vs| && |leaves| <= |rs| && |leaves| <= |ss|
            && forall i :: 0 <= i < |leaves| ==>
                 && Uint(ss[i]) <= 0x7FFFFFFFFFFFFFFFFFFFFFFFFFFFFFFF5D576E7357A4501DDFE92F46681B20A0
                 && round in s.places
                 && Of(s.places[round], chain.recover(round, leaves[i], vs[i], rs[i], ss[i])) > 0
  {
    hide Merkle.Root;
    assert leaves == Leaves(chain.keccak, secrets);
  }

  /** deposit fails only on overflow, and adds to the sender's deposit and no one else's. */
  lemma DepositEffect(s: Storage, sender: Sender, value: nat)
    ensures DepositBy(s, sender, value).Some? <==> Of(s.deposits, sender) + value < TWO_256
    ensures DepositBy(s, sender, value).Some? ==>
              var s' := DepositBy(s, sender, value).value;
              && (forall a :: Of(s'.deposits, a) == Of(s.deposits, a) + if a == sender then value else 0)
              && Total(s'.deposits) == Total(s.deposits) + value
              && s' == s.(deposits := s'.deposits, balance := s.balance + value)
  {
    TotalUpdate(s.deposits, sender, Of(s.deposits, sender) + value);
    hide Total;
  }

  /**
   * withdraw succeeds exactly when deposit and balance cover it and the sender takes it; dropping
   * below the threshold deactivates.
   */
  lemma WithdrawEffect(s: Storage, sender: Sender, amount: nat, accepts: bool)
    requires Sound(s)
    ensures WithdrawBy(s, sender, amount, accepts).Some?
         <==> amount <= Of(s.deposits, sender) && amount <= s.balance && accepts
    ensures WithdrawBy(s, sender, amount, accepts).Some? ==>
              var s' := WithdrawBy(s, sender, amount, accepts).value;
              && s' == s.(registry := s'.registry, deposits := s'.deposits, balance := s.balance - amount)
              && Total(s'.deposits) + amount == Total(s.deposits)
              && (forall a :: Of(s'.deposits, a) + (if a == sender then amount else 0) == Of(s.deposits, a))
              && Active(s'.registry)
                == Active(s.registry) - (if Of(s'.deposits, sender) < s.threshold then {sender} else {})
  {
    if Of(s.deposits, sender) >= amount {
      LeaveEffect(s, sender, Of(s.deposits, sender) - amount);
      TotalUpdate(s.deposits, sender, Of(s.deposits, sender) - amount);
    }
    hide Sound, Active, Total, LeaveIfShort;
  }

  /** deactivate works exactly for an active sender that is not flagged, and flags it; only activate clears the flag. */
  lemma DeactivationEffect(s: Storage, sender: Sender)
    requires Sound(s)
    ensures DeactivateBy(s, sender).Some? <==> sender in Active(s.registry) && sender !in s.forced
    ensures DeactivateBy(s, sender).Some? ==>
              var s' := DeactivateBy(s, sender).value;
              && Active(s'.registry) == Active(s.registry) - {sender}
              && s' == s.(registry := s'.registry, forced := s.forced + {sender})
  {
    ValidMeaning(s.registry, s.maxOperators);
    if sender in Active(s.registry) { DeactivateEffect(s.registry, sender, s.maxOperators); }
    hide Valid, Active, Deactivate, Covered, RoundsRecorded;
  }

  lemma ActivateSenderEffect(s: Storage, sender: Sender)
    requires Valid(s.registry, s.maxOperators)
    ensures ActivateSender(s, sender).Some? <==> sender !in Active(s.registry) && |Active(s.registry)| < s.maxOperators
    ensures ActivateSender(s, sender).Some? ==>
              var s' := ActivateSender(s, sender).value;
              && s'.registry.slots == s.registry.slots + [sender]
              && Active(s'.registry) == Active(s.registry) + {sender} && s' == s.(registry := s'.registry)
  {
    ActivateEffect(s.registry, sender, s.maxOperators);
    hide Valid, Active, Activate;
  }

  /** activate admits exactly a covered, inactive sender while there is room, and clears the flag. */
  lemma ActivationEffect(chain: Chain, s: Storage, sender: Sender)
    requires Sound(s)
    ensures Apply(chain, s, Activation(sender)).Some? <==>
              Of(s.deposits, sender) >= s.threshold && sender !in Active(s.registry)
              && |Active(s.registry)| < s.maxOperators
    ensures Apply(chain, s, Activation(sender)).Some? ==>
              var s' := Apply(chain, s, Activation(sender)).value;
              && s'.registry.slots == s.registry.slots + [sender]
              && Active(s'.registry) == Active(s.registry) + {sender}
              && s' == s.(registry := s'.registry, forced := s.forced - {sender})
  {
    ActivateSenderEffect(s.(forced := s.forced - {sender}), sender);
    hide Valid, Covered, RoundsRecorded, Active, ActivateSender;
  }

  /** depositAndActivate counts the payment first, and leaves the flag as it was. */
  lemma DepositAndActivateEffect(chain: Chain, s: Storage, sender: Sender, value: nat)
    requires Sound(s)
    ensures Apply(chain, s, DepositAndActivate(sender, value)).Some? <==>
              && s.threshold <= Of(s.deposits, sender) + value < TWO_256
              && sender !in Active(s.registry) && |Active(s.registry)| < s.maxOperators
    ensures Apply(chain, s, DepositAndActivate(sender, value)).Some? ==>
              var s' := Apply(chain, s, DepositAndActivate(sender, value)).value;
              && s'.registry.slots == s.registry.slots + [sender]
              && Active(s'.registry) == Active(s.registry) + {sender}
              && s' == s.(registry := s'.registry, deposits := s.deposits[sender := Of(s.deposits, sender) + value],
                          balance := s.balance + value)
  {
    var paid := DepositBy(s, sender, value);
    hide Valid, Covered, RoundsRecorded, Active, ActivateSender;
    if paid.Some? {
      assert paid.value == s.(deposits := s.deposits[sender := Of(s.deposits, sender) + value],
                              balance := s.balance + value);
      assert Of(paid.value.deposits, sender) == Of(s.deposits, sender) + value;
      hide DepositBy;
      ActivateSenderEffect(paid.value, sender);
    }
  }

  /** So a flagged sender can be active: then deactivate is refused, and only activate could clear the flag. */
  lemma FlaggedAndActive(chain: Chain, s: Storage, sender: Sender, value: nat)
    requires Sound(s) && sender in s.forced && Apply(chain, s, DepositAndActivate(sender, value)).Some?
    ensures var s' := Apply(chain, s, DepositAndActivate(sender, value)).value;
            && Sound(s') && sender in Active(s'.registry) && sender in s'.forced
            && DeactivateBy(s', sender).None? && Apply(chain, s', Activation(sender)).None?
  {
    var s' := Apply(chain, s, DepositAndActivate(sender, value)).value;
    ApplySound(chain, s, DepositAndActivate(sender, value));
    DepositAndActivateEffect(chain, s, sender, value);
    hide Sound, Active, Apply;
    DeactivationEffect(s', sender);
    ActivationEffect(chain, s', sender);
  }

  lemma ActivateSound(s: Storage, sender: Sender)
    requires Sound(s) && Of(s.deposits, sender) >= s.threshold
    ensures ActivateSender(s, sender).Some? ==> Sound(ActivateSender(s, sender).value)
  {
    ActivateEffect(s.registry, sender, s.maxOperators);
    if ActivateSender(s, sender).Some? {
      var s' := ActivateSender(s, sender).value;
      hide Valid, Active;
      forall r | r in s'.snapshots ensures RoundRecorded(s', r) { assert RoundRecorded(s, r); }
    }
  }

  lemma WithdrawSound(s: Storage, sender: Sender, amount: nat, accepts: bool)
    requires Sound(s) && WithdrawBy(s, sender, amount, accepts).Some?
    ensures Sound(WithdrawBy(s, sender, amount, accepts).value)
  {
    var s' := WithdrawBy(s, sender, amount, accepts).value;
    LeaveEffect(s, sender, Of(s.deposits, sender) - amount);
    hide Valid, Active, LeaveIfShort, Indexed;
    forall r | r in s'.snapshots ensures RoundRecorded(s', r) { assert RoundRecorded(s, r); }
  }

  lemma DeactivateSound(s: Storage, sender: Sender)
    requires Sound(s) && DeactivateBy(s, sender).Some?
    ensures Sound(DeactivateBy(s, sender).value)
  {
    var s' := DeactivateBy(s, sender).value;
    ValidMeaning(s.registry, s.maxOperators);
    DeactivateEffect(s.registry, sender, s.maxOperators);
    forall r | r in s'.snapshots ensures RoundRecorded(s', r) { assert RoundRecorded(s, r); }
  }

  /** Replacing fields that the invariant does not mention keeps it. */
  lemma SameSound(s: Storage, s': Storage)
    requires Sound(s)
    requires s'.registry == s.registry && s'.threshold == s.threshold && s'.maxOperators == s.maxOperators
    requires forall a :: Of(s'.deposits, a) >= Of(s.deposits, a)
    requires s'.requests == s.requests && s'.snapshots == s.snapshots && s'.places == s.places
             && s'.nextRound == s.nextRound
    ensures Sound(s')
  {
    hide Valid, Active;
    forall r | r in s'.snapshots ensures RoundRecorded(s', r) { assert RoundRecorded(s, r); }
  }

  /** Every call keeps the invariant. */
  lemma ApplySound(chain: Chain, s: Storage, c: Call)
    requires Sound(s) && Apply(chain, s, c).Some?
    ensures Sound(Apply(chain, s, c).value)
  {
    hide Sound, Activate, RequestBy, Settle, Verified, DeactivateBy, WithdrawBy;
    match c
    case Deposit(sender, value) => SameSound(s, DepositBy(s, sender, value).value);
    case Activation(sender) =>
      SameSound(s, s.(forced := s.forced - {sender}));
      ActivateSound(s.(forced := s.forced - {sender}), sender);
    case DepositAndActivate(sender, value) =>
      SameSound(s, DepositBy(s, sender, value).value);
      ActivateSound(DepositBy(s, sender, value).value, sender);
    case Deactivation(sender) => DeactivateSound(s, sender);
    case Withdraw(sender, amount, accepts) => WithdrawSound(s, sender, amount, accepts);
    case RequestRandomNumber(sender, value, gas, price, time) => RequestSound(s, sender, value, gas, price, time);
    case SubmitMerkleRoot(sender, round, root) => SameSound(s, Apply(chain, s, c).value);
    case GenerateRandomNumber(round, secrets, vs, rs, ss, callback) =>
      var f := Fulfilled(chain, s, round, secrets, callback.value);
      SameSound(s, f);
      SettledOnlyIfRequested(f, round);
      SettleEffect(f, round);
  }

  lemma SettledOnlyIfRequested(s: Storage, round: nat)
    ensures Settle(s, round).Some? ==> round in s.snapshots
  {}
}
