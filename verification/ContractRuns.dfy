/** Whole runs of the contract: the exact ledger law, solvency, and what stays frozen. */
module ContractRuns {
  import opened Words
  import opened Operators
  import opened Contract

  // ---------------------------------------------------------------------
  // Bookkeeping beside the storage

  type Positive = n: nat | n > 0 witness 1

  /** One request: what it paid, how many operators it debited, how often it was settled. */
  datatype Entry = Entry(cost: nat, operators: Positive, settled: nat)

  /** All requests in order; `live` maps a round number to the last request that took it. */
  datatype Book = Book(entries: seq<Entry>, live: map<nat, nat>)

  datatype State = State(storage: Storage, book: Book)

  /** Wei that a request leaves in the contract beyond the deposits. */
  function Contribution(e: Entry): int {
    (e.operators + 1) * e.cost - e.settled * (e.operators * Reward(e.cost, e.operators))
  }

  function Contributions(entries: seq<Entry>): int {
    if entries == [] then 0 else Contributions(entries[..|entries| - 1]) + Contribution(entries[|entries| - 1])
  }

  function Booked(b: Book, s: Storage, c: Call): Book {
    match c
    case RequestRandomNumber(_, value, _, _, _) =>
      if |s.registry.slots| <= 1 then b
      else Book(b.entries + [Entry(value, |s.registry.slots| - 1, 0)], b.live[s.nextRound := |b.entries|])
    case GenerateRandomNumber(round, _, _, _, _, _) =>
      if round !in b.live || b.live[round] >= |b.entries| then b
      else
        var q := b.live[round];
        b.(entries := b.entries[q := b.entries[q].(settled := b.entries[q].settled + 1)])
    case _ => b
  }

  /** One call: a revert leaves everything as it was. */
  function Step(chain: Chain, st: State, c: Call): (st': State)
    requires Sound(st.storage)
    ensures Sound(st'.storage)
  {
    match Apply(chain, st.storage, c)
    case None => st
    case Some(s') =>
      ApplySound(chain, st.storage, c);
      State(s', Booked(st.book, st.storage, c))
  }

  function Run(chain: Chain, st: State, calls: seq<Call>): (st': State)
    requires Sound(st.storage)
    ensures Sound(st'.storage)
    decreases |calls|
  {
    if calls == [] then st else Run(chain, Step(chain, st, calls[0]), calls[1..])
  }

  function Start(threshold: nat, maxOperators: nat, maxCallbackGas: nat): (st: State)
    ensures Sound(st.storage)
  {
    DeployedSound(threshold, maxOperators, maxCallbackGas);
    State(Deployed(threshold, maxOperators, maxCallbackGas), Book([], map[]))
  }

  // ---------------------------------------------------------------------
  // The ledger law

  ghost predicate Law(st: State) {
    st.storage.balance - Total(st.storage.deposits) == Contributions(st.book.entries)
  }

  /** A round's storage describes the request that the book says is live. */
  ghost predicate EntryMatches(st: State, round: nat) {
    && round in st.book.live && st.book.live[round] < |st.book.entries|
    && round in st.storage.requests
    && var e := st.book.entries[st.book.live[round]];
       e.cost == st.storage.requests[round].cost && e.operators == |SnapshotAt(st.storage, round)| - 1
  }

  ghost predicate Matched(st: State) {
    && st.storage.nextRound == |st.book.entries| % TWO_256
    && (forall round :: round in st.storage.snapshots ==> EntryMatches(st, round))
    && (forall round :: round in st.book.live ==> round in st.storage.snapshots)
  }

  /** Until the round counter wraps, round r is request r, so no two requests share a round. */
  ghost predicate Unwrapped(st: State) {
    |st.book.entries| <= TWO_256 ==>
      && (forall round: nat :: round in st.book.live <==> round < |st.book.entries|)
      && (forall round :: round in st.book.live ==> st.book.live[round] == round)
  }

  ghost predicate Good(st: State) {
    Sound(st.storage) && Law(st) && Matched(st) && Unwrapped(st)
  }

  lemma ContributionsAppend(entries: seq<Entry>, e: Entry)
    ensures Contributions(entries + [e]) == Contributions(entries) + Contribution(e)
  {
    assert (entries + [e])[..|entries|] == entries;
  }

  lemma {:induction false} ContributionsUpdate(entries: seq<Entry>, q: nat, e: Entry)
    requires q < |entries|
    ensures Contributions(entries[q := e]) == Contributions(entries) - Contribution(entries[q]) + Contribution(e)
  {
    var n := |entries| - 1;
    if q == n {
      assert entries[q := e][..n] == entries[..n];
    } else {
      ContributionsUpdate(entries[..n], q, e);
      assert entries[q := e][..n] == entries[..n][q := e];
    }
  }

  lemma SettledOnceMore(e: Entry)
    ensures Contribution(e.(settled := e.settled + 1)) == Contribution(e) - e.operators * Reward(e.cost, e.operators)
  {
    var x := e.operators * Reward(e.cost, e.operators);
    assert (e.settled + 1) * x == e.settled * x + x;
  }

  lemma FreshContribution(cost: nat, operators: Positive)
    ensures Contribution(Entry(cost, operators, 0)) == operators * cost + cost
  {
    assert (operators + 1) * cost == operators * cost + cost;
  }

  /** How a successful request changes the round tables and the book. */
  ghost predicate NewRound(st: State, st': State, info: RequestInfo) {
    var s, s', b, round := st.storage, st'.storage, st.book, st.storage.nextRound;
    && |s.registry.slots| > 2
    && s'.requests == s.requests[round := info]
    && s'.snapshots == s.snapshots[round := s.registry.slots]
    && s'.nextRound == (round + 1) % TWO_256
    && st'.book == Book(b.entries + [Entry(info.cost, |s.registry.slots| - 1, 0)], b.live[round := |b.entries|])
  }

  lemma RequestMatched(st: State, st': State, info: RequestInfo)
    requires NewRound(st, st', info) && Matched(st) && Unwrapped(st)
    ensures Matched(st') && Unwrapped(st')
  {
    NextRound(|st.book.entries|);
    forall round | round in st'.storage.snapshots ensures EntryMatches(st', round) {
      if round != st.storage.nextRound { assert EntryMatches(st, round); }
    }
  }

  lemma RequestLaw(st: State, s': Storage, entries: seq<Entry>, n: Positive, value: nat)
    requires Law(st)
    requires s'.balance == st.storage.balance + value
    requires Total(s'.deposits) == Total(st.storage.deposits) - n * value
    requires entries == st.book.entries + [Entry(value, n, 0)]
    ensures s'.balance - Total(s'.deposits) == Contributions(entries)
  {
    hide Total, Contribution;
    ContributionsAppend(st.book.entries, Entry(value, n, 0));
    FreshContribution(value, n);
  }

  lemma RequestKeepsLaw(st: State, sender: Sender, value: nat, gas: nat, price: nat, time: nat)
    requires Good(st) && RequestBy(st.storage, sender, value, gas, price, time).Some?
    ensures Law(State(RequestBy(st.storage, sender, value, gas, price, time).value,
                      Booked(st.book, st.storage, RequestRandomNumber(sender, value, gas, price, time))))
  {
    var s := st.storage;
    var s' := RequestBy(s, sender, value, gas, price, time).value;
    var book := Booked(st.book, s, RequestRandomNumber(sender, value, gas, price, time));
    RequestEffect(s, sender, value, gas, price, time);
    ValidMeaning(s.registry, s.maxOperators);
    hide Sound, RequestBy, Valid, Active, Total, Contributions, Matched, Unwrapped;
    RequestLaw(st, s', book.entries, |s.registry.slots| - 1, value);
  }

  lemma RequestKeepsMatch(st: State, sender: Sender, value: nat, gas: nat, price: nat, time: nat)
    requires Good(st) && RequestBy(st.storage, sender, value, gas, price, time).Some?
    ensures var st' := State(RequestBy(st.storage, sender, value, gas, price, time).value,
                             Booked(st.book, st.storage, RequestRandomNumber(sender, value, gas, price, time)));
            Matched(st') && Unwrapped(st')
  {
    var s, info := st.storage, RequestInfo(sender, time, value, gas);
    var st' := State(RequestBy(s, sender, value, gas, price, time).value,
                     Booked(st.book, s, RequestRandomNumber(sender, value, gas, price, time)));
    assert |s.registry.slots| > 2;
    RequestTables(s, sender, value, gas, price, time);
    hide Sound, RequestBy, Law, Matched, Unwrapped;
    assert NewRound(st, st', info);
    hide Booked, NewRound;
    RequestMatched(st, st', info);
  }

  lemma RequestKeepsGood(st: State, sender: Sender, value: nat, gas: nat, price: nat, time: nat)
    requires Good(st) && RequestBy(st.storage, sender, value, gas, price, time).Some?
    ensures Good(State(RequestBy(st.storage, sender, value, gas, price, time).value,
                       Booked(st.book, st.storage, RequestRandomNumber(sender, value, gas, price, time))))
  {
    RequestSound(st.storage, sender, value, gas, price, time);
    RequestKeepsLaw(st, sender, value, gas, price, time);
    RequestKeepsMatch(st, sender, value, gas, price, time);
    hide Sound, RequestBy, Booked, Law, Matched, Unwrapped;
  }

  lemma NextRound(n: nat)
    ensures (n % TWO_256 + 1) % TWO_256 == (n + 1) % TWO_256
    ensures n < TWO_256 ==> n % TWO_256 == n
  {}

  /** A settlement of a round moves its amount, once per operator, into the deposits. */
  lemma SettleLaw(st: State, s': Storage, q: nat)
    requires Law(st) && q < |st.book.entries| && s'.balance == st.storage.balance
    requires var e := st.book.entries[q];
             Total(s'.deposits) == Total(st.storage.deposits) + e.operators * Reward(e.cost, e.operators)
    ensures var e := st.book.entries[q];
            s'.balance - Total(s'.deposits) == Contributions(st.book.entries[q := e.(settled := e.settled + 1)])
  {
    hide Total, Reward;
    var e := st.book.entries[q];
    ContributionsUpdate(st.book.entries, q, e.(settled := e.settled + 1));
    SettledOnceMore(e);
  }

  lemma SettleMatched(st: State, st': State, q: nat)
    requires Matched(st) && Unwrapped(st) && q < |st.book.entries|
    requires var e := st.book.entries[q];
             st'.book == st.book.(entries := st.book.entries[q := e.(settled := e.settled + 1)])
    requires st'.storage.snapshots == st.storage.snapshots && st'.storage.requests == st.storage.requests
    requires st'.storage.nextRound == st.storage.nextRound
    ensures Matched(st') && Unwrapped(st')
  {
    forall round | round in st'.storage.snapshots ensures EntryMatches(st', round) { assert EntryMatches(st, round); }
  }

  /** What the book expects a settlement of the round to credit is what it credits. */
  lemma LiveEntry(st: State, round: nat)
    requires Good(st) && round in st.storage.snapshots && |st.storage.snapshots[round]| > 2
    ensures round in st.book.live && st.book.live[round] < |st.book.entries|
    ensures var e := st.book.entries[st.book.live[round]];
            e.operators * Reward(e.cost, e.operators)
              == (|st.storage.snapshots[round]| - 1) * AmountOf(st.storage, round)
  {
    assert EntryMatches(st, round);
    hide Sound, Law, Unwrapped, Reward;
  }

  lemma SettleKeepsGood(st: State, f: Storage, c: Call)
    requires Good(st) && c.GenerateRandomNumber?
    requires f == st.storage.(rounds := f.rounds) && Sound(f)
    requires Settle(f, c.round).Some?
    ensures Good(State(Settle(f, c.round).value, Booked(st.book, st.storage, c)))
  {
    var s' := Settle(f, c.round).value;
    SettleEffect(f, c.round);
    LiveEntry(st, c.round);
    var q := st.book.live[c.round];
    hide Sound, Settle, Total, Active, ComingBack, Contributions, Contribution, AmountOf, Matched, Unwrapped;
    SettleLaw(st, s', q);
    SettleMatched(st, State(s', Booked(st.book, st.storage, c)), q);
  }

  lemma SenderCallKeepsGood(st: State, s': Storage)
    requires Good(st) && Sound(s')
    requires s'.balance - Total(s'.deposits) == st.storage.balance - Total(st.storage.deposits)
    requires s'.snapshots == st.storage.snapshots && s'.requests == st.storage.requests
             && s'.nextRound == st.storage.nextRound
    ensures Good(State(s', st.book))
  {
    hide Sound, Total;
    forall round | round in s'.snapshots ensures EntryMatches(State(s', st.book), round) {
      assert EntryMatches(st, round);
    }
  }

  lemma DepositBalanced(s: Storage, sender: Sender, value: nat)
    requires DepositBy(s, sender, value).Some?
    ensures var s' := DepositBy(s, sender, value).value;
            s'.balance - Total(s'.deposits) == s.balance - Total(s.deposits)
  {
    TotalUpdate(s.deposits, sender, Of(s.deposits, sender) + value);
  }

  lemma WithdrawBalanced(s: Storage, sender: Sender, amount: nat, accepts: bool)
    requires Sound(s) && WithdrawBy(s, sender, amount, accepts).Some?
    ensures var s' := WithdrawBy(s, sender, amount, accepts).value;
            && s'.balance - Total(s'.deposits) == s.balance - Total(s.deposits)
            && s'.snapshots == s.snapshots && s'.requests == s.requests && s'.nextRound == s.nextRound
            && s'.places == s.places && s'.rounds == s.rounds
  {
    var left := Of(s.deposits, sender) - amount;
    TotalUpdate(s.deposits, sender, left);
    LeaveEffect(s, sender, left);
    hide Sound, LeaveIfShort, Active, Total;
  }

  lemma {:induction false} StepKeepsGood(chain: Chain, st: State, c: Call)
    requires Good(st)
    ensures Good(Step(chain, st, c))
  {
    var s := st.storage;
    if Apply(chain, s, c).Some? {
      var s' := Apply(chain, s, c).value;
      ApplySound(chain, s, c);
      hide Sound, RequestBy, Settle, Total, Verified, Activate, Deactivate, Good;
      assert Good(Step(chain, st, c)) by {
        match c
        case Deposit(sender, value) => DepositBalanced(s, sender, value); SenderCallKeepsGood(st, s');
        case Activation(sender) => SenderCallKeepsGood(st, s');
        case DepositAndActivate(sender, value) => DepositBalanced(s, sender, value); SenderCallKeepsGood(st, s');
        case Deactivation(sender) => SenderCallKeepsGood(st, s');
        case Withdraw(sender, amount, accepts) =>
          WithdrawBalanced(s, sender, amount, accepts);
          SenderCallKeepsGood(st, s');
        case RequestRandomNumber(sender, value, gas, price, time) =>
          RequestKeepsGood(st, sender, value, gas, price, time);
        case SubmitMerkleRoot(sender, round, root) => SenderCallKeepsGood(st, s');
        case GenerateRandomNumber(round, secrets, vs, rs, ss, callback) =>
          var f := Fulfilled(chain, s, round, secrets, callback.value);
          SameSound(s, f);
          SettleKeepsGood(st, f, c);
      }
    }
  }

  lemma {:induction false} RunOneMore(chain: Chain, st: State, calls: seq<Call>, c: Call)
    requires Sound(st.storage)
    ensures Run(chain, st, calls + [c]) == Step(chain, Run(chain, st, calls), c)
    decreases |calls|
  {
    hide Sound, Step;
    if calls == [] {
      assert (calls + [c])[1..] == [];
    } else {
      assert (calls + [c])[1..] == calls[1..] + [c];
      RunOneMore(chain, Step(chain, st, calls[0]), calls[1..], c);
    }
  }

  lemma StartGood(threshold: nat, maxOperators: nat, maxCallbackGas: nat)
    ensures Good(Start(threshold, maxOperators, maxCallbackGas))
  {
    DeployedSound(threshold, maxOperators, maxCallbackGas);
  }

  lemma {:induction false} RunKeepsGood(chain: Chain, st: State, calls: seq<Call>)
    requires Good(st)
    ensures Good(Run(chain, st, calls))
    decreases |calls|
  {
    hide Step, Law, Matched, Unwrapped, Sound;
    if calls != [] {
      StepKeepsGood(chain, st, calls[0]);
      RunKeepsGood(chain, Step(chain, st, calls[0]), calls[1..]);
    }
  }

  /** In every reachable state, whatever was called and whatever reverted, the law holds and the registry is sound. */
  lemma LedgerLaw(chain: Chain, threshold: nat, maxOperators: nat, maxCallbackGas: nat, calls: seq<Call>)
    ensures var st := Run(chain, Start(threshold, maxOperators, maxCallbackGas), calls);
            && Sound(st.storage)
            && st.storage.balance - Total(st.storage.deposits) == Contributions(st.book.entries)
  {
    StartGood(threshold, maxOperators, maxCallbackGas);
    RunKeepsGood(chain, Start(threshold, maxOperators, maxCallbackGas), calls);
    hide Sound, Run;
  }

  /** And the registry is what its readers take it for. */
  lemma ReachableRegistry(chain: Chain, threshold: nat, maxOperators: nat, maxCallbackGas: nat, calls: seq<Call>)
    ensures var s := Run(chain, Start(threshold, maxOperators, maxCallbackGas), calls).storage;
            var r := s.registry;
            && |r.slots| > 0 && r.slots[0] == 0 && Of(r.order, 0) == 0
            && (forall i, j :: 0 <= i < j < |r.slots| ==> r.slots[i] != r.slots[j])
            && (forall a: Address, i: nat :: i > 0 ==> (Of(r.order, a) == i <==> i < |r.slots| && r.slots[i] == a))
            && |Active(r)| == |r.slots| - 1 <= s.maxOperators
            && (forall a :: a in Active(r) ==> Of(s.deposits, a) >= s.threshold)
  {
    LedgerLaw(chain, threshold, maxOperators, maxCallbackGas, calls);
    var s := Run(chain, Start(threshold, maxOperators, maxCallbackGas), calls).storage;
    hide Run, RoundsRecorded;
    ValidMeaning(s.registry, s.maxOperators);
    forall a: Address, i: nat | i > 0
      ensures Of(s.registry.order, a) == i <==> i < |s.registry.slots| && s.registry.slots[i] == a
    {
      if Of(s.registry.order, a) == i { assert s.registry.slots[Of(s.registry.order, a)] == a; }
    }
  }

  // ---------------------------------------------------------------------
  // Solvency

  /** Settling k times pays out k times cost * N plus the rounded share; two times is already too much. */
  lemma SettledTwice(e: Entry)
    requires e.operators >= 2 && e.settled >= 2
    ensures Contribution(e) >= 0 <==> e.cost == 0
  {
    var n, c, share := e.operators, e.cost, e.cost / e.operators;
    assert n * Reward(c, n) == n * c + n * share by { Distribute(n, c, share); }
    assert (n + 1) * c == n * c + c;
    hide Reward;
    AtLeastTwice(e.settled, n * Reward(c, n));
    if c > 0 {
      AtLeastTwice(n, c);
      NonNegative(n, share);
    } else {
      Division(c, n);
      assert n * Reward(c, n) == 0;
      TimesZero(n, e.settled);
    }
  }

  lemma NonNegative(a: nat, b: nat)
    ensures a * b >= 0
  {}

  lemma TimesZero(n: nat, k: nat)
    ensures (n + 1) * 0 == 0 && k * 0 == 0
  {}

  lemma SettledAtMost(e: Entry)
    ensures e.settled == 0 ==> Contribution(e) == (e.operators + 1) * e.cost
    ensures e.settled == 1 ==> Contribution(e) == e.cost % e.operators < e.operators
  {
    var n, c := e.operators, e.cost;
    Division(c, n);
    Distribute(n, c, c / n);
    assert (n + 1) * c == n * c + c;
  }

  /**
   * What an entry leaves: everything before settlement, the rounding remainder after the first,
   * never enough after a second.
   */
  lemma ContributionValues(e: Entry)
    ensures e.settled == 0 ==> Contribution(e) == (e.operators + 1) * e.cost
    ensures e.settled == 1 ==> Contribution(e) == e.cost % e.operators < e.operators
    ensures e.operators >= 2 ==> (Contribution(e) >= 0 <==> e.settled <= 1 || e.cost == 0)
  {
    SettledAtMost(e);
    if e.operators >= 2 && e.settled >= 2 { SettledTwice(e); }
    NonNegative(e.operators + 1, e.cost);
    hide Contribution;
  }

  lemma Division(c: nat, n: Positive)
    ensures n * (c / n) + c % n == c && 0 <= c % n < n
  {}

  lemma Distribute(n: nat, a: nat, b: nat)
    ensures n * (a + b) == n * a + n * b
  {}

  lemma AtLeastTwice(k: nat, x: nat)
    requires k >= 2
    ensures k * x >= 2 * x
  {
    assert k * x == 2 * x + (k - 2) * x;
    assert (k - 2) * x >= 0;
  }

  ghost predicate SettledAtMostOnce(entries: seq<Entry>) {
    forall q :: 0 <= q < |entries| ==> entries[q].settled <= 1
  }

  /** Wei still held for requests never settled, and rounding left by the settled ones. */
  function Held(entries: seq<Entry>): nat {
    if entries == [] then 0
    else
      var e := entries[|entries| - 1];
      Held(entries[..|entries| - 1]) + if e.settled == 0 then (e.operators + 1) * e.cost else e.cost % e.operators
  }

  lemma {:induction false} HeldIsContributions(entries: seq<Entry>)
    requires SettledAtMostOnce(entries)
    ensures Contributions(entries) == Held(entries)
  {
    if entries != [] {
      HeldIsContributions(entries[..|entries| - 1]);
      ContributionValues(entries[|entries| - 1]);
    }
  }

  /**
   * On runs that settle no request twice the contract holds the deposits plus what is
   * held for open requests plus remainders, so every withdrawal within one's deposit goes through.
   */
  lemma Solvent(
      chain: Chain, threshold: nat, maxOperators: nat, maxCallbackGas: nat, calls: seq<Call>, sender: Sender,
      amount: nat)
    requires SettledAtMostOnce(Run(chain, Start(threshold, maxOperators, maxCallbackGas), calls).book.entries)
    ensures var st := Run(chain, Start(threshold, maxOperators, maxCallbackGas), calls);
            && st.storage.balance == Total(st.storage.deposits) + Held(st.book.entries)
            && (Apply(chain, st.storage, Withdraw(sender, amount, true)).Some?
                <==> amount <= Of(st.storage.deposits, sender))
  {
    LedgerLaw(chain, threshold, maxOperators, maxCallbackGas, calls);
    var st := Run(chain, Start(threshold, maxOperators, maxCallbackGas), calls);
    HeldIsContributions(st.book.entries);
    hide Sound, Run, DeactivateSender, SettledAtMostOnce;
    OneOfTotal(st.storage.deposits, sender);
  }

  /**
   * The hypothesis is needed: with one request made, the contract covers its deposits
   * exactly when that request was settled at most once, or was free.
   */
  lemma OneRequestSolvency(st: State)
    requires Good(st) && |st.book.entries| == 1
    ensures st.storage.balance >= Total(st.storage.deposits)
       <==> st.book.entries[0].settled <= 1 || st.book.entries[0].cost == 0
  {
    assert 0 in st.book.live;
    assert EntryMatches(st, 0);
    SnapshotRoster(st.storage, 0);
    hide Sound, Contribution, Total;
    assert Contributions(st.book.entries) == Contribution(st.book.entries[0]);
    ContributionValues(st.book.entries[0]);
  }

  /**
   * The exact condition for every state: a settlement leaves the deposits covered if and only if
   * what the contract holds beyond them before the call is at least what the call credits.
   */
  lemma SettlementSolvency(chain: Chain, s: Storage, g: Call)
    requires Sound(s) && g.GenerateRandomNumber? && Apply(chain, s, g).Some?
    ensures |SnapshotAt(s, g.round)| >= 2
    ensures var s1 := Apply(chain, s, g).value;
            (s1.balance >= Total(s1.deposits)
             <==> s.balance - Total(s.deposits) >= (|SnapshotAt(s, g.round)| - 1) * AmountOf(s, g.round))
  {
    var f := Fulfilled(chain, s, g.round, g.secrets, g.callback.value);
    SameSound(s, f);
    SettleEffect(f, g.round);
    hide Sound, Settle, Verified, Total, Active, ComingBack, Reward;
  }

  /** Secrets and signatures that were accepted once pass every check again. */
  lemma SettlementLeavesVerification(chain: Chain, s: Storage, g: Call)
    requires Sound(s) && g.GenerateRandomNumber? && Apply(chain, s, g).Some?
    ensures Verified(chain, Apply(chain, s, g).value, g.round, g.secrets, g.vs, g.rs, g.ss)
  {
    var f := Fulfilled(chain, s, g.round, g.secrets, g.callback.value);
    hide Sound, CreditAll, SignaturesOk, Leaves, AmountOf;
  }

  lemma SettlementKeepsTables(chain: Chain, s: Storage, g: Call)
    requires Sound(s) && g.GenerateRandomNumber? && Apply(chain, s, g).Some?
    ensures var s1 := Apply(chain, s, g).value;
            && s1.snapshots == s.snapshots && s1.requests == s.requests && s1.maxOperators == s.maxOperators
            && g.round in s1.snapshots && |SnapshotAt(s1, g.round)| > 2 && AmountOf(s1, g.round) < TWO_256
  {
    OnlySettledIfRequested(chain, s, g);
    SnapshotRoster(s, g.round);
    hide Sound, Verified, CreditAll, Roster, Reward;
  }

  /**
   * Nothing else stands between a settled round and its second settlement: the same call goes
   * through again if and only if no credit overflows and the operators coming back fit.
   */
  lemma SecondSettlement(chain: Chain, s: Storage, g: Call)
    requires Sound(s) && g.GenerateRandomNumber? && Apply(chain, s, g).Some?
    ensures var s1 := Apply(chain, s, g).value;
            && Sound(s1) && |SnapshotAt(s1, g.round)| > 2
            && (Apply(chain, s1, g).Some? <==>
                  && (forall a :: a in SnapshotAt(s1, g.round)[1..] ==>
                      Of(s1.deposits, a) + AmountOf(s1, g.round) < TWO_256)
                  && |Active(s1.registry)| + |ComingBack(s1, g.round)| <= s1.maxOperators)
  {
    var s1 := Apply(chain, s, g).value;
    ApplySound(chain, s, g);
    SettlementLeavesVerification(chain, s, g);
    SettlementKeepsTables(chain, s, g);
    assert Apply(chain, s1, g) == GenerateBy(chain, s1, g.round, g.secrets, g.vs, g.rs, g.ss, g.callback);
    assert g.callback.Some? by { hide Verified, Settle; }
    hide Sound, Verified, Settle, Active, ComingBack, AmountOf, Apply, GenerateBy;
    GenerateEffect(chain, s1, g.round, g.secrets, g.vs, g.rs, g.ss, g.callback);
    SettleSucceeds(s1, g.round);
  }

  // ---------------------------------------------------------------------
  // An operator both active and flagged

  /** Three calls from deployment make any operator active and flagged. */
  lemma FlaggedAndActiveReachable(
      chain: Chain, threshold: nat, maxOperators: nat, maxCallbackGas: nat, op: Sender, value: nat)
    requires threshold <= value < TWO_256 && maxOperators >= 1
    ensures var calls := [DepositAndActivate(op, value), Deactivation(op), DepositAndActivate(op, 0)];
            var s := Run(chain, Start(threshold, maxOperators, maxCallbackGas), calls).storage;
            op in Active(s.registry) && op in s.forced
  {
    var start := Start(threshold, maxOperators, maxCallbackGas);
    var c1, c2, c3 := DepositAndActivate(op, value), Deactivation(op), DepositAndActivate(op, 0);
    var s0 := start.storage;
    assert Active(s0.registry) == {};
    RunOneMore(chain, start, [], c1);
    RunOneMore(chain, start, [c1], c2);
    RunOneMore(chain, start, [c1, c2], c3);
    assert [] + [c1] == [c1] && [c1] + [c2] == [c1, c2] && [c1, c2] + [c3] == [c1, c2, c3];
    DepositAndActivateEffect(chain, s0, op, value);
    var s1 := Step(chain, start, c1).storage;
    DeactivationEffect(s1, op);
    var s2 := Step(chain, Step(chain, start, c1), c2).storage;
    DepositAndActivateEffect(chain, s2, op, 0);
    hide Sound, Active, DepositBy, Activate, Deactivate, Booked;
  }

  // ---------------------------------------------------------------------
  // What a request freezes

  ghost predicate SameRound(s: Storage, s': Storage, round: nat)
    requires round in s.snapshots && round in s.requests && round in s.places
  {
    && round in s'.snapshots && s'.snapshots[round] == s.snapshots[round]
    && round in s'.requests && s'.requests[round] == s.requests[round]
    && round in s'.places && s'.places[round] == s.places[round]
  }

  lemma OnlyRequestsRecord(chain: Chain, s: Storage, c: Call)
    requires Sound(s) && Apply(chain, s, c).Some? && !c.RequestRandomNumber?
    ensures var s' := Apply(chain, s, c).value;
            s'.snapshots == s.snapshots && s'.requests == s.requests && s'.places == s.places
            && s'.nextRound == s.nextRound
  {
    hide Sound, Verified, Activate, Deactivate, CreditAll, AmountOf;
  }

  /** The only call that can change a requested round is a request that takes its number again. */
  lemma OnlyItsRequestRewrites(chain: Chain, s: Storage, c: Call, round: nat)
    requires Sound(s) && round in s.snapshots && Apply(chain, s, c).Some?
    ensures round in s.requests && round in s.places
    ensures !(c.RequestRandomNumber? && s.nextRound == round) ==> SameRound(s, Apply(chain, s, c).value, round)
    ensures c.RequestRandomNumber? && s.nextRound == round ==>
              var s' := Apply(chain, s, c).value;
              && round in s'.snapshots && s'.snapshots[round] == s.registry.slots
              && round in s'.requests
              && s'.requests[round] == RequestInfo(c.sender, c.time, c.value, c.callbackGasLimit)
  {
    assert RoundRecorded(s, round);
    if c.RequestRandomNumber? {
      RequestTables(s, c.sender, c.value, c.callbackGasLimit, c.price, c.time);
      hide Sound, RequestBy;
    } else {
      OnlyRequestsRecord(chain, s, c);
      hide Sound, Apply;
    }
  }

  lemma ApplyKeepsRound(chain: Chain, st: State, c: Call, round: nat)
    requires Good(st) && |st.book.entries| < TWO_256 && round in st.storage.snapshots
    requires Apply(chain, st.storage, c).Some?
    ensures round in st.storage.requests && round in st.storage.places
    ensures SameRound(st.storage, Apply(chain, st.storage, c).value, round)
  {
    assert EntryMatches(st, round);
    assert round != st.storage.nextRound by { NextRound(|st.book.entries|); }
    hide Good, Sound, Apply, EntryMatches;
    OnlyItsRequestRewrites(chain, st.storage, c, round);
  }

  lemma StepKeepsRound(chain: Chain, st: State, c: Call, round: nat)
    requires Good(st) && |st.book.entries| < TWO_256 && round in st.storage.snapshots
    ensures round in st.storage.requests && round in st.storage.places
    ensures SameRound(st.storage, Step(chain, st, c).storage, round)
  {
    assert RoundRecorded(st.storage, round);
    hide Good, Sound, Apply, Booked;
    if Apply(chain, st.storage, c).Some? {
      ApplyKeepsRound(chain, st, c, round);
    }
  }

  lemma StepGrows(chain: Chain, st: State, c: Call)
    requires Sound(st.storage)
    ensures |Step(chain, st, c).book.entries| >= |st.book.entries|
  {
    hide Sound, Apply;
  }

  lemma {:induction false} RunGrows(chain: Chain, st: State, calls: seq<Call>)
    requires Sound(st.storage)
    ensures |Run(chain, st, calls).book.entries| >= |st.book.entries|
    decreases |calls|
  {
    if calls != [] {
      hide Sound, Step;
      StepGrows(chain, st, calls[0]);
      RunGrows(chain, Step(chain, st, calls[0]), calls[1..]);
    }
  }

  /**
   * Until the round counter has wrapped, no later call changes a requested round's
   * operator snapshot, index map or request info.
   */
  lemma {:induction false} RequestedRoundsAreFrozen(chain: Chain, st: State, calls: seq<Call>, round: nat)
    requires Good(st) && round in st.storage.snapshots
    requires |Run(chain, st, calls).book.entries| < TWO_256
    ensures round in st.storage.requests && round in st.storage.places
    ensures SameRound(st.storage, Run(chain, st, calls).storage, round)
    decreases |calls|
  {
    assert RoundRecorded(st.storage, round);
    if calls != [] {
      var next := Step(chain, st, calls[0]);
      StepKeepsGood(chain, st, calls[0]);
      hide Good, Sound, Step;
      StepGrows(chain, st, calls[0]);
      RunGrows(chain, next, calls[1..]);
      StepKeepsRound(chain, st, calls[0], round);
      RequestedRoundsAreFrozen(chain, next, calls[1..], round);
    }
  }

  /** The index map of a requested round inverts its snapshot. */
  ghost predicate Inverse(s: Storage, round: nat)
    requires round in s.snapshots && round in s.places
  {
    var ops, places := s.snapshots[round], s.places[round];
    && |ops| > 0
    && (forall j :: 1 <= j < |ops| ==> Of(places, ops[j]) == j)
    && (forall a :: Of(places, a) > 0 ==> a in ops[1..])
  }

  ghost predicate AllInverse(st: State) {
    |st.book.entries| < TWO_256 ==>
      forall round :: round in st.storage.snapshots && round in st.storage.places ==> Inverse(st.storage, round)
  }

  lemma RequestInverse(st: State, c: Call)
    requires Good(st) && c.RequestRandomNumber? && |st.book.entries| < TWO_256
    requires RequestBy(st.storage, c.sender, c.value, c.callbackGasLimit, c.price, c.time).Some?
    ensures var s' := RequestBy(st.storage, c.sender, c.value, c.callbackGasLimit, c.price, c.time).value;
            var round := st.storage.nextRound;
            round in s'.snapshots && round in s'.places && Inverse(s', round)
  {
    var s := st.storage;
    var round, ops := s.nextRound, s.registry.slots;
    NextRound(|st.book.entries|);
    assert round !in s.snapshots;
    assert PlacesAt(s, round) == map[];
    var start := Debited(s.registry, s.deposits, PlacesAt(s, round));
    RosterRemaining(s);
    DebitAllEffect(start, ops, 1, c.value, s.threshold, s.maxOperators);
    hide Valid, Active, Total, DebitAll, Roster, Remaining;
  }

  lemma StepKeepsInverse(chain: Chain, st: State, c: Call)
    requires Good(st) && AllInverse(st)
    ensures AllInverse(Step(chain, st, c))
  {
    var st' := Step(chain, st, c);
    StepGrows(chain, st, c);
    if Apply(chain, st.storage, c).Some? && |st'.book.entries| < TWO_256 {
      var s, s' := st.storage, st'.storage;
      forall round | round in s'.snapshots && round in s'.places ensures Inverse(s', round) {
        if round in s.snapshots {
          StepKeepsRound(chain, st, c, round);
          assert Inverse(s, round);
        } else if c.RequestRandomNumber? {
          RequestInverse(st, c);
        } else {
          OnlyRequestsRecord(chain, s, c);
        }
      }
    }
  }

  lemma {:induction false} RunKeepsInverse(chain: Chain, st: State, calls: seq<Call>)
    requires Good(st) && AllInverse(st)
    ensures AllInverse(Run(chain, st, calls))
    decreases |calls|
  {
    if calls != [] {
      hide Step, Law, Matched, Unwrapped, Sound, AllInverse;
      StepKeepsInverse(chain, st, calls[0]);
      StepKeepsGood(chain, st, calls[0]);
      RunKeepsInverse(chain, Step(chain, st, calls[0]), calls[1..]);
    }
  }

  /**
   * In every reachable state a root is accepted exactly from an operator that the round debited,
   * active still or not; the random number, and every other round, stay.
   */
  lemma OnlyOperatorsSubmitRoots(
      chain: Chain, threshold: nat, maxOperators: nat, maxCallbackGas: nat, calls: seq<Call>, sender: Sender,
      round: nat, root: Word)
    requires |Run(chain, Start(threshold, maxOperators, maxCallbackGas), calls).book.entries| < TWO_256
    ensures var s := Run(chain, Start(threshold, maxOperators, maxCallbackGas), calls).storage;
            var after := Apply(chain, s, SubmitMerkleRoot(sender, round, root));
            && (after.Some? <==> round in s.snapshots && sender in s.snapshots[round])
            && (after.Some? ==>
                  && RoundAt(after.value, round) == RoundAt(s, round).(merkleRoot := root)
                  && (forall r :: r != round ==> RoundAt(after.value, r) == RoundAt(s, r))
                  && after.value == s.(rounds := after.value.rounds))
  {
    var start := Start(threshold, maxOperators, maxCallbackGas);
    StartGood(threshold, maxOperators, maxCallbackGas);
    RunKeepsGood(chain, start, calls);
    RunKeepsInverse(chain, start, calls);
    hide Run, Good, AllInverse, Sound, RoundAt;
    var st := Run(chain, start, calls);
    OperatorsHavePlaces(st, sender, round);
    RootChangesOneRound(chain, st.storage, sender, round, root);
    hide Apply;
  }

  lemma RootChangesOneRound(chain: Chain, s: Storage, sender: Sender, round: nat, root: Word)
    requires Sound(s)
    ensures var after := Apply(chain, s, SubmitMerkleRoot(sender, round, root));
            && (after.Some? <==> Of(PlacesAt(s, round), sender) > 0)
            && (after.Some? ==>
                  && RoundAt(after.value, round) == RoundAt(s, round).(merkleRoot := root)
                  && (forall r :: r != round ==> RoundAt(after.value, r) == RoundAt(s, r))
                  && after.value == s.(rounds := after.value.rounds))
  {
    hide Sound;
  }

  lemma OperatorsHavePlaces(st: State, sender: Sender, round: nat)
    requires Good(st) && AllInverse(st) && |st.book.entries| < TWO_256
    ensures Of(PlacesAt(st.storage, round), sender) > 0
       <==> round in st.storage.snapshots && sender in st.storage.snapshots[round]
  {
    var s := st.storage;
    if round in s.snapshots {
      assert RoundRecorded(s, round) && Inverse(s, round);
      var ops := s.snapshots[round];
      assert ops == [ops[0]] + ops[1..];
      if sender in ops {
        var j :| 0 <= j < |ops| && ops[j] == sender;
        assert Of(s.places[round], ops[j]) == j;
      }
    }
  }

  /** Whoever signature i recovers to, over leaf i. */
  function SignerOf(chain: Chain, g: Call, i: nat): Address
    requires g.GenerateRandomNumber? && i < |g.secrets| && i < |g.vs| && i < |g.rs| && i < |g.ss|
  {
    chain.recover(g.round, chain.keccak(chain.keccak(g.secrets[i])), g.vs[i], g.rs[i], g.ss[i])
  }

  lemma SignerHasPlace(chain: Chain, s: Storage, g: Call, i: nat)
    requires Sound(s) && g.GenerateRandomNumber? && i < |g.secrets| && Apply(chain, s, g).Some?
    ensures i < |g.vs| && i < |g.rs| && i < |g.ss|
    ensures SignerOf(chain, g, i) != 0 && Of(PlacesAt(s, g.round), SignerOf(chain, g, i)) > 0
  {
    OnlySettledIfRequested(chain, s, g);
    assert RoundRecorded(s, g.round);
    hide Sound, Settle, Roster, Apply;
    var leaves := Leaves(chain.keccak, g.secrets);
    assert SignatureOk(chain, PlacesAt(s, g.round), g.round, leaves[i], g.vs[i], g.rs[i], g.ss[i]);
  }

  /**
   * In every reachable state a failed recovery, which yields address(0), is never accepted, and
   * until the round counter wraps whoever signs is an operator that the round debited.
   */
  lemma AcceptedSignersAreOperators(
      chain: Chain, threshold: nat, maxOperators: nat, maxCallbackGas: nat, calls: seq<Call>, g: Call, i: nat)
    requires g.GenerateRandomNumber? && i < |g.secrets|
    requires Apply(chain, Run(chain, Start(threshold, maxOperators, maxCallbackGas), calls).storage, g).Some?
    ensures var st := Run(chain, Start(threshold, maxOperators, maxCallbackGas), calls);
            && i < |g.vs| && i < |g.rs| && i < |g.ss|
            && SignerOf(chain, g, i) != 0
            && (|st.book.entries| < TWO_256 ==>
                  g.round in st.storage.snapshots && SignerOf(chain, g, i) in st.storage.snapshots[g.round])
  {
    var start := Start(threshold, maxOperators, maxCallbackGas);
    StartGood(threshold, maxOperators, maxCallbackGas);
    RunKeepsGood(chain, start, calls);
    RunKeepsInverse(chain, start, calls);
    var st := Run(chain, start, calls);
    SignerHasPlace(chain, st.storage, g, i);
    hide Good, Sound, Run, Apply, AllInverse, SignerOf;
    if |st.book.entries| < TWO_256 {
      OperatorsHavePlaces(st, SignerOf(chain, g, i), g.round);
    }
  }

  lemma OnlySettledIfRequested(chain: Chain, s: Storage, g: Call)
    requires Sound(s) && g.GenerateRandomNumber? && Apply(chain, s, g).Some?
    ensures g.round in s.snapshots && Verified(chain, s, g.round, g.secrets, g.vs, g.rs, g.ss)
  {
    hide Sound, CreditAll, Verified;
  }
}
