/** A run of the contract that ends with less than it owes. */
module DoubleSettlement {
  import opened Words
  import opened Operators
  import opened Contract
  import opened ContractRuns
  import Merkle

  /** Operators 1 and 2 deposit 10 each, a consumer makes the request, and a root is submitted. */
  function Prepared(request: Call, root: Word): seq<Call> {
    [DepositAndActivate(1, 10), DepositAndActivate(2, 10), request, SubmitMerkleRoot(1, 0, root)]
  }

  /** A request that pays 4, whatever price up to that and whatever callback limit the contract allows. */
  ghost predicate PaysFour(request: Call, maxCallbackGas: nat) {
    && request.RequestRandomNumber? && request.value == 4 && request.price <= 4
    && request.callbackGasLimit <= maxCallbackGas
  }

  /** The operators {1, 2} are active with the same deposit each. */
  ghost predicate TwoActive(s: Storage, deposit: nat) {
    && s.threshold == 1 && s.maxOperators == 5
    && Active(s.registry) == {1, 2}
    && forall a :: Of(s.deposits, a) == if a == 1 || a == 2 then deposit else 0
  }

  /** Secrets for round 0 that the two operators signed. */
  ghost predicate SignedByBoth(chain: Chain, g: Call) {
    && g.GenerateRandomNumber? && g.round == 0 && g.callback.Some?
    && |g.secrets| == |g.vs| == |g.rs| == |g.ss| == 2
    && Uint(g.ss[0]) <= MAX_S && Uint(g.ss[1]) <= MAX_S
    && SignerOf(chain, g, 0) == 1 && SignerOf(chain, g, 1) == 2
  }

  lemma BothActivated(chain: Chain, gas: nat)
    ensures var st := Step(chain, Step(chain, Start(1, 5, gas), DepositAndActivate(1, 10)), DepositAndActivate(2, 10));
            && TwoActive(st.storage, 10) && st.book == Book([], map[])
            && st.storage.nextRound == 0 && st.storage.maxCallbackGas == gas
  {
    var start := Start(1, 5, gas);
    var first, second := DepositAndActivate(1, 10), DepositAndActivate(2, 10);
    assert Active(start.storage.registry) == {};
    DepositAndActivateEffect(chain, start.storage, 1, 10);
    hide Sound, Active, Activate;
    var st1 := Step(chain, start, first);
    assert Active(st1.storage.registry) == {1};
    DepositAndActivateEffect(chain, st1.storage, 2, 10);
  }

  lemma ThreeSlots(s: Storage)
    requires Sound(s) && Active(s.registry) == {1, 2}
    ensures |s.registry.slots| == 3
    ensures forall a :: a in s.registry.slots[1..] <==> a == 1 || a == 2
  {
    ValidMeaning(s.registry, s.maxOperators);
    ActiveIsTail(s.registry);
    hide Valid, Active, RoundsRecorded, Covered;
    assert |{1, 2}| == 2;
  }

  lemma RequestOfFour(s: Storage, r: Call)
    requires Sound(s) && TwoActive(s, 10) && s.nextRound == 0 && PaysFour(r, s.maxCallbackGas)
    ensures RequestBy(s, r.sender, r.value, r.callbackGasLimit, r.price, r.time).Some?
    ensures var s' := RequestBy(s, r.sender, r.value, r.callbackGasLimit, r.price, r.time).value;
            TwoActive(s', 6) && 0 in s'.snapshots && s'.snapshots[0] == s.registry.slots && CostOf(s', 0) == 4
  {
    ThreeSlots(s);
    hide Sound, Active, DebitAll, Remaining;
    assert |{1, 2}| == 2;
    RequestEffect(s, r.sender, r.value, r.callbackGasLimit, r.price, r.time);
    RequestTables(s, r.sender, r.value, r.callbackGasLimit, r.price, r.time);
    var s' := RequestBy(s, r.sender, r.value, r.callbackGasLimit, r.price, r.time).value;
    assert s'.threshold == s.threshold && s'.maxOperators == s.maxOperators;
    hide RequestBy, PlacesAt;
  }

  lemma BothDebited(chain: Chain, st: State, r: Call)
    requires Sound(st.storage) && TwoActive(st.storage, 10) && st.book == Book([], map[])
    requires st.storage.nextRound == 0 && PaysFour(r, st.storage.maxCallbackGas)
    ensures var st' := Step(chain, st, r);
            TwoActive(st'.storage, 6) && st'.book == Book([Entry(4, 2, 0)], map[0 := 0]) && RoundOfBoth(st'.storage)
  {
    ThreeSlots(st.storage);
    RequestOfFour(st.storage, r);
    hide Sound, Active, RequestBy, TwoActive;
  }

  /** Round 0 was requested for 4 and debited operators 1 and 2. */
  ghost predicate RoundOfBoth(s: Storage) {
    && 0 in s.snapshots && |s.snapshots[0]| == 3 && CostOf(s, 0) == 4
    && forall a :: a in s.snapshots[0][1..] <==> a == 1 || a == 2
  }

  lemma RootOfBoth(chain: Chain, st: State, root: Word)
    requires Good(st) && AllInverse(st) && |st.book.entries| == 1 && TwoActive(st.storage, 6) && RoundOfBoth(st.storage)
    ensures var st' := Step(chain, st, SubmitMerkleRoot(1, 0, root));
            && TwoActive(st'.storage, 6) && RoundOfBoth(st'.storage) && st'.book == st.book
            && RoundAt(st'.storage, 0).merkleRoot == root
            && Of(PlacesAt(st'.storage, 0), 1) > 0 && Of(PlacesAt(st'.storage, 0), 2) > 0
  {
    BothHavePlaces(st);
    RootChangesOneRound(chain, st.storage, 1, 0, root);
    hide Good, AllInverse, Sound, Active, RoundAt, Apply;
  }

  lemma BothHavePlaces(st: State)
    requires Good(st) && AllInverse(st) && |st.book.entries| == 1 && RoundOfBoth(st.storage)
    ensures Of(PlacesAt(st.storage, 0), 1) > 0 && Of(PlacesAt(st.storage, 0), 2) > 0
  {
    var ops := st.storage.snapshots[0];
    assert ops == [ops[0]] + ops[1..];
    assert 1 in ops[1..] && 2 in ops[1..];
    hide Good, AllInverse, Of, PlacesAt;
    OperatorsHavePlaces(st, 1, 0);
    OperatorsHavePlaces(st, 2, 0);
  }

  lemma NothingComesBack(s: Storage, deposit: nat)
    requires TwoActive(s, deposit) && RoundOfBoth(s)
    ensures AmountOf(s, 0) == 6 && ComingBack(s, 0) == {} && |Active(s.registry)| == 2
  {
    assert |{1, 2}| == 2;
  }

  lemma BothSettle(s: Storage, deposit: nat)
    requires Sound(s) && TwoActive(s, deposit) && RoundOfBoth(s) && deposit < 1000
    ensures Settle(s, 0).Some?
  {
    NothingComesBack(s, deposit);
    hide Sound, Active, ComingBack, AmountOf, Settle;
    SettleSucceeds(s, 0);
  }

  /** A settlement of round 0 credits 4 + 4 / 2 to each operator. */
  lemma BothCredited(chain: Chain, s: Storage, g: Call, deposit: nat)
    requires Sound(s) && TwoActive(s, deposit) && RoundOfBoth(s) && deposit < 1000
    requires g.GenerateRandomNumber? && g.round == 0 && g.callback.Some?
    requires Verified(chain, s, 0, g.secrets, g.vs, g.rs, g.ss)
    ensures Apply(chain, s, g).Some?
    ensures TwoActive(Apply(chain, s, g).value, deposit + 6) && RoundOfBoth(Apply(chain, s, g).value)
  {
    BothSettle(s, deposit);
    hide Sound, Active, ComingBack, Verified, AmountOf, Settle, RoundAt, TwoActive, RoundOfBoth;
    GenerateEffect(chain, s, 0, g.secrets, g.vs, g.rs, g.ss, g.callback);
    hide GenerateBy;
    CreditsBoth(s, GenerateBy(chain, s, 0, g.secrets, g.vs, g.rs, g.ss, g.callback).value, deposit);
  }

  lemma CreditsBoth(s: Storage, s': Storage, deposit: nat)
    requires TwoActive(s, deposit) && RoundOfBoth(s)
    requires s' == s.(registry := s'.registry, deposits := s'.deposits, rounds := s'.rounds)
    requires Active(s'.registry) == Active(s.registry) + ComingBack(s, 0)
    requires forall a ::
               Of(s'.deposits, a) == Of(s.deposits, a) + if a in SnapshotAt(s, 0)[1..] then AmountOf(s, 0) else 0
    ensures TwoActive(s', deposit + 6) && RoundOfBoth(s')
  {
    NothingComesBack(s, deposit);
    hide Active, ComingBack, AmountOf;
  }

  lemma SettledOnceMoreInBook(chain: Chain, st: State, g: Call, deposit: nat, k: nat)
    requires Sound(st.storage) && TwoActive(st.storage, deposit) && RoundOfBoth(st.storage) && deposit < 1000
    requires g.GenerateRandomNumber? && g.round == 0 && g.callback.Some?
    requires Verified(chain, st.storage, 0, g.secrets, g.vs, g.rs, g.ss)
    requires st.book == Book([Entry(4, 2, k)], map[0 := 0])
    ensures var st' := Step(chain, st, g);
            && TwoActive(st'.storage, deposit + 6) && RoundOfBoth(st'.storage)
            && Verified(chain, st'.storage, 0, g.secrets, g.vs, g.rs, g.ss)
            && st'.book == Book([Entry(4, 2, k + 1)], map[0 := 0])
  {
    hide Sound, TwoActive, RoundOfBoth, Apply, Verified;
    BothCredited(chain, st.storage, g, deposit);
    SettlementLeavesVerification(chain, st.storage, g);
  }

  lemma BothVerified(chain: Chain, s: Storage, g: Call)
    requires SignedByBoth(chain, g)
    requires Merkle.Root(chain.keccak, Leaves(chain.keccak, g.secrets)) == Some(RoundAt(s, 0).merkleRoot)
    requires Of(PlacesAt(s, 0), 1) > 0 && Of(PlacesAt(s, 0), 2) > 0
    ensures Verified(chain, s, 0, g.secrets, g.vs, g.rs, g.ss)
  {
    hide Merkle.Root, PlacesAt, RoundAt;
  }

  /** The round is requested and has its root, and both operators are known to it. */
  ghost predicate Ready(st: State, root: Word) {
    && Sound(st.storage) && TwoActive(st.storage, 6) && RoundOfBoth(st.storage)
    && st.book == Book([Entry(4, 2, 0)], map[0 := 0])
    && RoundAt(st.storage, 0).merkleRoot == root
    && Of(PlacesAt(st.storage, 0), 1) > 0 && Of(PlacesAt(st.storage, 0), 2) > 0
  }

  lemma RunPrepared(chain: Chain, r: Call, root: Word, gas: nat)
    ensures var start := Start(1, 5, gas);
            var debited := Run(chain, start, Prepared(r, root)[..3]);
            && Run(chain, start, Prepared(r, root)) == Step(chain, debited, Prepared(r, root)[3])
            && debited == Step(chain, Step(chain, Step(chain, start, Prepared(r, root)[0]), Prepared(r, root)[1]),
                               Prepared(r, root)[2])
  {
    var start, calls := Start(1, 5, gas), Prepared(r, root);
    hide Sound, Step, Prepared, Start;
    assert calls[..0] == [] && Run(chain, start, calls[..0]) == start;
    assert calls[..1] == calls[..0] + [calls[0]] && calls[..2] == calls[..1] + [calls[1]];
    assert calls[..3] == calls[..2] + [calls[2]] && calls == calls[..3] + [calls[3]];
    RunOneMore(chain, start, calls[..0], calls[0]);
    RunOneMore(chain, start, calls[..1], calls[1]);
    RunOneMore(chain, start, calls[..2], calls[2]);
    RunOneMore(chain, start, calls[..3], calls[3]);
  }

  lemma PreparedIsReady(chain: Chain, r: Call, root: Word, gas: nat)
    requires PaysFour(r, gas)
    ensures Ready(Run(chain, Start(1, 5, gas), Prepared(r, root)), root)
  {
    var start := Start(1, 5, gas);
    var debited := Run(chain, start, Prepared(r, root)[..3]);
    RunPrepared(chain, r, root, gas);
    StartGood(1, 5, gas);
    RunKeepsGood(chain, start, Prepared(r, root)[..3]);
    RunKeepsInverse(chain, start, Prepared(r, root)[..3]);
    hide Good, AllInverse, Sound, Step, Run, TwoActive, RoundOfBoth, PlacesAt, RoundAt, Start;
    BothActivated(chain, gas);
    BothDebited(chain, Step(chain, Step(chain, start, DepositAndActivate(1, 10)), DepositAndActivate(2, 10)), r);
    RootOfBoth(chain, debited, root);
  }

  /**
   * The failing side is reached: for any hash, any price up to the payment of 4, and any recovery that
   * gives operators 1 and 2 on the two leaves, this run of six calls settles its one request twice, and
   * the contract then holds 12 wei less than the deposits.
   */
  lemma DepositsOutgrowBalance(chain: Chain, r: Call, g: Call, root: Word, gas: nat)
    requires PaysFour(r, gas)
    requires SignedByBoth(chain, g) && Merkle.Root(chain.keccak, Leaves(chain.keccak, g.secrets)) == Some(root)
    ensures var st := Run(chain, Start(1, 5, gas), Prepared(r, root) + [g] + [g]);
            st.book.entries == [Entry(4, 2, 2)] && st.storage.balance == Total(st.storage.deposits) - 12
  {
    var start := Start(1, 5, gas);
    var calls := Prepared(r, root);
    PreparedIsReady(chain, r, root, gas);
    LedgerLaw(chain, 1, 5, gas, calls + [g] + [g]);
    RunOneMore(chain, start, calls, g);
    RunOneMore(chain, start, calls + [g], g);
    hide Ready, Prepared, Run, Start;
    SettledTwice(chain, Run(chain, start, calls), g, root);
    assert Contributions([Entry(4, 2, 2)]) == -12;
  }

  lemma SettledTwice(chain: Chain, st: State, g: Call, root: Word)
    requires Ready(st, root) && SignedByBoth(chain, g)
    requires Merkle.Root(chain.keccak, Leaves(chain.keccak, g.secrets)) == Some(root)
    ensures Step(chain, Step(chain, st, g), g).book.entries == [Entry(4, 2, 2)]
  {
    BothVerified(chain, st.storage, g);
    hide Sound, Step, TwoActive, RoundOfBoth, Verified, Merkle.Root, Leaves, SignerOf;
    SettledOnceMoreInBook(chain, st, g, 6, 0);
    SettledOnceMoreInBook(chain, Step(chain, st, g), g, 12, 1);
  }
}
