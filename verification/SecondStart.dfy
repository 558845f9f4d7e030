/** A run of the leader that starts the requests of one round twice. */
module SecondStart {
  import opened Words
  import opened Operators
  import opened LeaderStore
  import opened Leader
  import opened LeaderTraces
  import opened LeaderHandlers
  import LeaderSafety

  // ---------------------------------------------------------------------
  // Two threads, one after the other

  /** Some schedule from empty files brings threads 0 and 1 to these points. */
  ghost predicate Reached(env: Env, sh: Shared, p0: Pc, p1: Pc) {
    exists schedule :: At(Run(env, LeaderSafety.Started(map[], map[]), schedule), sh, p0, p1)
  }

  predicate At(s: State, sh: Shared, p0: Pc, p1: Pc) {
    s.shared == sh && PcOf(s, 0) == p0 && PcOf(s, 1) == p1
  }

  function ScheduleOf(t: nat, os: seq<Outcome>): seq<(nat, Outcome)> {
    seq(|os|, i requires 0 <= i < |os| => (t, os[i]))
  }

  lemma {:induction false} RunOfMoves(env: Env, s: State, t: nat, os: seq<Outcome>)
    ensures var s' := Run(env, s, ScheduleOf(t, os));
            && (s'.shared, PcOf(s', t)) == Moves(env, s.shared, t, PcOf(s, t), os)
            && forall u :: u != t ==> PcOf(s', u) == PcOf(s, u)
    decreases |os|
  {
    hide Move;
    if os != [] {
      assert ScheduleOf(t, os)[1..] == ScheduleOf(t, os[1..]);
      RunOfMoves(env, Step(env, s, t, os[0]), t, os[1..]);
    }
  }

  lemma Next0(env: Env, sh: Shared, p0: Pc, p1: Pc, sh': Shared, p': Pc)
    requires Reached(env, sh, p0, p1) && Leads(env, 0, sh, p0, sh', p')
    ensures Reached(env, sh', p', p1)
  {
    var start := LeaderSafety.Started(map[], map[]);
    var schedule :| At(Run(env, start, schedule), sh, p0, p1);
    var os :| Moves(env, sh, 0, p0, os) == (sh', p');
    RunOfMoves(env, Run(env, start, schedule), 0, os);
    LeaderSafety.RunConcat(env, start, schedule, ScheduleOf(0, os));
    hide Run, Moves;
    assert At(Run(env, start, schedule + ScheduleOf(0, os)), sh', p', p1);
  }

  lemma Next1(env: Env, sh: Shared, p0: Pc, p1: Pc, sh': Shared, p': Pc)
    requires Reached(env, sh, p0, p1) && Leads(env, 1, sh, p1, sh', p')
    ensures Reached(env, sh', p0, p')
  {
    var start := LeaderSafety.Started(map[], map[]);
    var schedule :| At(Run(env, start, schedule), sh, p0, p1);
    var os :| Moves(env, sh, 1, p1, os) == (sh', p');
    RunOfMoves(env, Run(env, start, schedule), 1, os);
    LeaderSafety.RunConcat(env, start, schedule, ScheduleOf(1, os));
    hide Run, Moves;
    assert At(Run(env, start, schedule + ScheduleOf(1, os)), sh', p0, p');
  }

  // ---------------------------------------------------------------------
  // Handlers

  /** A message reaches an idle thread, which then does what the handler does. */
  lemma FromIdle(env: Env, t: nat, sh: Shared, arrived: Pc, sh': Shared, pc': Pc)
    requires IsMessage(arrived) && Leads(env, t, sh, arrived, sh', pc')
    ensures Leads(env, t, sh, Idle, sh', pc')
  {
    hide Leads;
    OneMove(env, t, sh, Idle, Arrival(arrived), sh, arrived);
    LeadsOn(env, t, sh, Idle, sh, arrived, sh', pc');
  }

  /** A root that is not yet marked is sought again; the operator list does not arrive. */
  lemma FetchFails(env: Env, t: nat, sh: Shared, round: string, caller: Caller)
    requires sh.lock.None? && !RootSubmitted(sh.memory, round)
    ensures Leads(env, t, sh, RootChecking(round, caller), sh, Returning(caller))
  {
    hide RootSubmitted;
    OneMove(env, t, sh, RootChecking(round, caller), Success, sh, RootFetching(round, caller));
    OneMove(env, t, sh, RootFetching(round, caller), Failure, sh, Returning(caller));
    LeadsOn(env, t, sh, RootChecking(round, caller), sh, RootFetching(round, caller), sh, Returning(caller));
  }

  /** A COS handler that waited in generateMerkleRoot goes on to the reveal order. */
  lemma WaitingGoesOn(env: Env, t: nat, sh: Shared, round: string)
    requires sh.lock.None? && AllReceived(sh.memory, sh.activated, round)
    ensures Leads(env, t, sh, Returning(FromCos(round)), sh.(lock := Some(t)), OrderStarting(round))
  {
    hide AllReceived;
    OneMove(env, t, sh, Returning(FromCos(round)), Success, sh.(lock := Some(t)), OrderStarting(round));
  }

  /** If another handler has stored the order meanwhile, the waiting one starts the requests again. */
  lemma WaitingStartsAgain(env: Env, t: nat, sh: Shared, round: string)
    requires sh.lock.None? && AllReceived(sh.memory, sh.activated, round) && round in sh.orders
    ensures Leads(env, t, sh, Returning(FromCos(round)), WithStart(sh, round), Idle)
  {
    var locked := sh.(lock := Some(t));
    WaitingGoesOn(env, t, sh, round);
    StoredOrderIsThread(env, t, locked, round);
    assert Unlock(WithStart(locked, round)) == WithStart(sh, round);
    hide Leads;
    LeadsOn(env, t, sh, Returning(FromCos(round)), locked, OrderStarting(round), WithStart(sh, round), Idle);
  }

  // ---------------------------------------------------------------------
  // The run

  function CommittedRecord(key: Key, cvs: Word): Record {
    NewRecord(key).(cvs := cvs, cvsHex := Some(cvs))
  }

  /** A round of two operators, each with a COS. */
  datatype Round = Round(name: string, a: Address, b: Address, cosA: Word, cosB: Word)

  ghost predicate Usable(env: Env, r: Round) {
    && r.a != r.b && r.cosA != ZERO && r.cosB != ZERO
    && env.keccak(r.cosA) != ZERO && env.keccak(r.cosB) != ZERO
  }

  function RecordA(env: Env, r: Round, revealed: bool): Record {
    CommittedRecord(Key(r.name, r.a), env.keccak(r.cosA)).(cos := if revealed then r.cosA else ZERO)
  }

  function RecordB(env: Env, r: Round, revealed: bool): Record {
    CommittedRecord(Key(r.name, r.b), env.keccak(r.cosB)).(cos := if revealed then r.cosB else ZERO)
  }

  /** Both operators known, these records in memory and in the file, and nothing else. */
  function Holding(r: Round, records: Records): Shared {
    Shared(None, records, map[r.name := {r.a, r.b}], records, map[], [], map[], map[], [])
  }

  function OneRecord(env: Env, r: Round): Records {
    map[Key(r.name, r.a) := RecordA(env, r, false)]
  }

  function TwoRecords(env: Env, r: Round, revealedA: bool, revealedB: bool): Records {
    map[Key(r.name, r.a) := RecordA(env, r, revealedA), Key(r.name, r.b) := RecordB(env, r, revealedB)]
  }

  lemma NotSubmitted(env: Env, r: Round, revealedA: bool, revealedB: bool)
    requires Usable(env, r)
    ensures var records := TwoRecords(env, r, revealedA, revealedB);
            && Unmarked(records, r.name) && EveryCvs(records, map[r.name := {r.a, r.b}], r.name)
            && !RootSubmitted(records, r.name) && AllReceived(records, map[r.name := {r.a, r.b}], r.name)
  {
    var records := TwoRecords(env, r, revealedA, revealedB);
    assert Key(r.name, r.a) in records;
    EveryCvsIsReceived(records, map[r.name := {r.a, r.b}], r.name);
  }

  lemma CommitHolding(env: Env, t: nat, r: Round, records: Records, key: Key, cvs: Word)
    requires key.round == r.name && key !in records && cvs != ZERO
    requires Unmarked(records[key := CommittedRecord(key, cvs)], r.name)
    ensures var records' := records[key := CommittedRecord(key, cvs)];
            Leads(env, t, Holding(r, records), Idle, Holding(r, records'),
                  if EveryCvs(records', Holding(r, records).activated, r.name)
                  then RootChecking(r.name, FromCommit) else Idle)
  {
    var records' := records[key := CommittedRecord(key, cvs)];
    var next := if EveryCvs(records', Holding(r, records).activated, r.name)
                then RootChecking(r.name, FromCommit) else Idle;
    CommitHandled(env, t, Holding(r, records), key, cvs, Sign("", "", ""));
    hide Leads, Unmarked, EveryCvs;
    FromIdle(env, t, Holding(r, records), CommitArrived(key, cvs, Sign("", "", "")), Holding(r, records'), next);
  }

  lemma CosHolding(env: Env, t: nat, r: Round, records: Records, key: Key, cos: Word)
    requires key.round == r.name && OpensHeld(env, Holding(r, records), key, cos)
    requires records[key].cvsHex == Some(records[key].cvs)
    requires var records' := records[key := records[key].(cos := cos)];
             Unmarked(records', r.name) && EveryCvs(records', Holding(r, records).activated, r.name)
    ensures Leads(env, t, Holding(r, records), Idle, Holding(r, records[key := records[key].(cos := cos)]),
                  RootChecking(r.name, FromCos(r.name)))
  {
    CosHandled(env, t, Holding(r, records), key, cos);
    hide Leads, Unmarked, EveryCvs;
    FromIdle(env, t, Holding(r, records), CosArrived(key, cos), Holding(r, records[key := records[key].(cos := cos)]),
             RootChecking(r.name, FromCos(r.name)));
  }

  lemma Polled(env: Env, r: Round)
    ensures Reached(env, Holding(r, map[]), Idle, Idle)
  {
    var start := LeaderSafety.Started(map[], map[]);
    var polled := RoundPolled(r.name, {r.a, r.b}, false);
    assert At(Run(env, start, []), start.shared, Idle, Idle);
    OneMove(env, 0, start.shared, Idle, Arrival(polled), start.shared, polled);
    var none: set<Address> := {};
    assert none + {r.a, r.b} == {r.a, r.b};
    assert start.shared.activated[r.name := {r.a, r.b}] == map[r.name := {r.a, r.b}];
    OneMove(env, 0, start.shared, polled, Success, Holding(r, map[]), Idle);
    LeadsOn(env, 0, start.shared, Idle, start.shared, polled, Holding(r, map[]), Idle);
    Next0(env, start.shared, Idle, Idle, Holding(r, map[]), Idle);
  }

  lemma FirstCommit(env: Env, r: Round)
    requires Usable(env, r)
    ensures Leads(env, 0, Holding(r, map[]), Idle, Holding(r, OneRecord(env, r)), Idle)
  {
    var key := Key(r.name, r.a);
    assert map[][key := RecordA(env, r, false)] == OneRecord(env, r);
    CommitHolding(env, 0, r, map[], key, env.keccak(r.cosA));
    assert Key(r.name, r.b) !in OneRecord(env, r);
    assert r.b in Holding(r, map[]).activated[r.name];
    hide Leads;
  }

  lemma SecondCommit(env: Env, r: Round)
    requires Usable(env, r)
    ensures Leads(env, 1, Holding(r, OneRecord(env, r)), Idle, Holding(r, TwoRecords(env, r, false, false)), Idle)
  {
    var one, two := Holding(r, OneRecord(env, r)), Holding(r, TwoRecords(env, r, false, false));
    var key := Key(r.name, r.b);
    NotSubmitted(env, r, false, false);
    assert OneRecord(env, r)[key := RecordB(env, r, false)] == TwoRecords(env, r, false, false);
    hide Leads, RootSubmitted, AllReceived, Unmarked, EveryCvs;
    CommitHolding(env, 1, r, OneRecord(env, r), key, env.keccak(r.cosB));
    FetchFails(env, 1, two, r.name, FromCommit);
    OneMove(env, 1, two, Returning(FromCommit), Success, two, Idle);
    LeadsOn(env, 1, one, Idle, two, RootChecking(r.name, FromCommit), two, Returning(FromCommit));
    LeadsOn(env, 1, one, Idle, two, Returning(FromCommit), two, Idle);
  }

  lemma FirstCos(env: Env, r: Round)
    requires Usable(env, r)
    ensures Leads(env, 0, Holding(r, TwoRecords(env, r, false, false)), Idle,
                  Holding(r, TwoRecords(env, r, true, false)), Returning(FromCos(r.name)))
  {
    var two, next := TwoRecords(env, r, false, false), TwoRecords(env, r, true, false);
    var key := Key(r.name, r.a);
    NotSubmitted(env, r, true, false);
    assert two[key := two[key].(cos := r.cosA)] == next;
    hide Leads, RootSubmitted, AllReceived, Unmarked, EveryCvs;
    CosHolding(env, 0, r, two, key, r.cosA);
    FetchFails(env, 0, Holding(r, next), r.name, FromCos(r.name));
    LeadsOn(env, 0, Holding(r, two), Idle, Holding(r, next), RootChecking(r.name, FromCos(r.name)),
            Holding(r, next), Returning(FromCos(r.name)));
  }

  lemma SecondCos(env: Env, r: Round)
    requires Usable(env, r)
    ensures Leads(env, 1, Holding(r, TwoRecords(env, r, true, false)), Idle,
                  Holding(r, TwoRecords(env, r, true, true)), Returning(FromCos(r.name)))
  {
    var two, next := TwoRecords(env, r, true, false), TwoRecords(env, r, true, true);
    var key := Key(r.name, r.b);
    NotSubmitted(env, r, true, true);
    assert two[key := two[key].(cos := r.cosB)] == next;
    hide Leads, RootSubmitted, AllReceived, Unmarked, EveryCvs;
    CosHolding(env, 1, r, two, key, r.cosB);
    FetchFails(env, 1, Holding(r, next), r.name, FromCos(r.name));
    LeadsOn(env, 1, Holding(r, two), Idle, Holding(r, next), RootChecking(r.name, FromCos(r.name)),
            Holding(r, next), Returning(FromCos(r.name)));
  }

  lemma BothWaiting(env: Env, r: Round)
    requires Usable(env, r)
    ensures Reached(env, Holding(r, TwoRecords(env, r, true, true)),
                    Returning(FromCos(r.name)), Returning(FromCos(r.name)))
  {
    var zero, one := Holding(r, map[]), Holding(r, OneRecord(env, r));
    var two := Holding(r, TwoRecords(env, r, false, false));
    var three, four := Holding(r, TwoRecords(env, r, true, false)), Holding(r, TwoRecords(env, r, true, true));
    Polled(env, r);
    FirstCommit(env, r);
    SecondCommit(env, r);
    FirstCos(env, r);
    SecondCos(env, r);
    hide Reached, Leads, Holding, OneRecord, TwoRecords;
    Next0(env, zero, Idle, Idle, one, Idle);
    Next1(env, one, Idle, Idle, two, Idle);
    Next0(env, two, Idle, Idle, three, Returning(FromCos(r.name)));
    Next1(env, three, Returning(FromCos(r.name)), Idle, four, Returning(FromCos(r.name)));
  }

  lemma FirstStart(env: Env, r: Round)
    requires Usable(env, r)
    ensures var four := Holding(r, TwoRecords(env, r, true, true));
            && InFile(four.file, r.name, [r.a, r.b])
            && Leads(env, 0, four, Returning(FromCos(r.name)), Ordered(env, four, r.name, [r.a, r.b]), Idle)
  {
    var four := Holding(r, TwoRecords(env, r, true, true));
    var locked := four.(lock := Some(0));
    NotSubmitted(env, r, true, true);
    WaitingGoesOn(env, 0, four, r.name);
    assert Enumerates(four.activated, r.name, [r.a, r.b]);
    assert AllRevealed(four.file, four.activated, r.name);
    hide Leads, AllReceived, AllRevealed, Enumerates;
    OrderIsThread(env, 0, locked, r.name, [r.a, r.b]);
    assert Ordered(env, locked, r.name, [r.a, r.b]) == Ordered(env, four, r.name, [r.a, r.b]);
    LeadsOn(env, 0, four, Returning(FromCos(r.name)), locked, OrderStarting(r.name),
            Ordered(env, four, r.name, [r.a, r.b]), Idle);
  }

  /**
   * For every round of two operators some schedule starts its requests twice: both COS handlers wait
   * in generateMerkleRoot, the first stores the order and starts, and the second finds it stored.
   */
  lemma RequestsStartTwice(env: Env, r: Round)
    requires Usable(env, r)
    ensures exists schedule ::
              Run(env, LeaderSafety.Started(map[], map[]), schedule).shared.starts == [r.name, r.name]
  {
    var four := Holding(r, TwoRecords(env, r, true, true));
    BothWaiting(env, r);
    FirstStart(env, r);
    NotSubmitted(env, r, true, true);
    var five := Ordered(env, four, r.name, [r.a, r.b]);
    assert five.starts == [r.name] && five.memory == four.memory && five.activated == four.activated;
    assert r.name in five.orders && five.lock.None?;
    hide Leads, Ordered, AllReceived, RootSubmitted, TwoRecords;
    Next0(env, four, Returning(FromCos(r.name)), Returning(FromCos(r.name)), five, Idle);
    WaitingStartsAgain(env, 1, five, r.name);
    Next1(env, five, Idle, Returning(FromCos(r.name)), WithStart(five, r.name), Idle);
    hide Run;
    var schedule :| At(Run(env, LeaderSafety.Started(map[], map[]), schedule), WithStart(five, r.name), Idle, Idle);
  }
}
