/** A run of the leader as it is meant to go: commits, a root that is marked, COS values, and the reveal order. */
module OrdinaryRun {
  import opened Words
  import opened Operators
  import opened LeaderStore
  import opened Leader
  import opened LeaderTraces
  import opened LeaderHandlers
  import opened SecondStart
  import LeaderSafety
  import Merkle

  /** The root over the two CVS values, in the order of the operator list. */
  function RootOf(env: Env, r: Round): Submission {
    Submission(r.name, [r.a, r.b], env.keccak(env.keccak(r.cosA)[..] + env.keccak(r.cosB)))
  }

  function Marked(env: Env, r: Round, revealedA: bool, revealedB: bool): Records {
    map[Key(r.name, r.a) := RecordA(env, r, revealedA).(submitted := true),
        Key(r.name, r.b) := RecordB(env, r, revealedB).(submitted := true)]
  }

  /** The root has been handed over, and these records are in memory and in the file. */
  function Rooted(env: Env, r: Round, records: Records): Shared {
    Holding(r, records).(roots := [RootOf(env, r)])
  }

  lemma CommitsLeadToRoot(env: Env, r: Round)
    requires Usable(env, r)
    ensures Leads(env, 1, Holding(r, OneRecord(env, r)), Idle,
                  Holding(r, TwoRecords(env, r, false, false)), RootChecking(r.name, FromCommit))
  {
    NotSubmitted(env, r, false, false);
    assert OneRecord(env, r)[Key(r.name, r.b) := RecordB(env, r, false)] == TwoRecords(env, r, false, false);
    hide Leads, Unmarked, EveryCvs;
    CommitHolding(env, 1, r, OneRecord(env, r), Key(r.name, r.b), env.keccak(r.cosB));
  }

  lemma RootAccepts(env: Env, r: Round)
    requires Usable(env, r) && r.a != 0 && r.b != 0
    ensures Leads(env, 1, Holding(r, TwoRecords(env, r, false, false)), RootChecking(r.name, FromCommit),
                  Rooted(env, r, TwoRecords(env, r, false, false)), RootAccepted(r.name, FromCommit))
  {
    var sh := Holding(r, TwoRecords(env, r, false, false));
    var leaves := [env.keccak(r.cosA), env.keccak(r.cosB)];
    NotSubmitted(env, r, false, false);
    NonZeroKeeps([r.a, r.b]);
    Merkle.TwoLeaves(env.keccak, env.keccak(r.cosA), env.keccak(r.cosB));
    assert sh.roots + [RootOf(env, r)] == [RootOf(env, r)];
    assert Merkle.Root(env.keccak, leaves) == Some(RootOf(env, r).root);
    hide Leads, Unmarked, EveryCvs, NonZero, Merkle.Root;
    RootHandedOver(env, 1, sh, r.name, FromCommit, [r.a, r.b], [r.a, r.b], leaves, true);
  }

  lemma RootIsMarked(env: Env, r: Round)
    requires Usable(env, r)
    ensures Leads(env, 1, Rooted(env, r, TwoRecords(env, r, false, false)), RootAccepted(r.name, FromCommit),
                  Rooted(env, r, Marked(env, r, false, false)), Idle)
  {
    var sh, marked := Rooted(env, r, TwoRecords(env, r, false, false)), Marked(env, r, false, false);
    RoundMarked(env, 1, sh, r.name, FromCommit, (k: Key) => true, marked, marked);
    OneMove(env, 1, Rooted(env, r, marked), Returning(FromCommit), Success, Rooted(env, r, marked), Idle);
    hide Leads;
    LeadsOn(env, 1, sh, RootAccepted(r.name, FromCommit), Rooted(env, r, marked), Returning(FromCommit),
            Rooted(env, r, marked), Idle);
  }

  lemma MarkedFacts(env: Env, r: Round, revealedA: bool, revealedB: bool)
    requires Usable(env, r)
    ensures var records := Marked(env, r, revealedA, revealedB);
            !Unmarked(records, r.name) && EveryCvs(records, map[r.name := {r.a, r.b}], r.name)
  {
    var records := Marked(env, r, revealedA, revealedB);
    assert Key(r.name, r.a) in records && records[Key(r.name, r.a)].submitted;
  }

  /** The first COS finds the root marked and the other COS missing: no order yet. */
  lemma FirstReveal(env: Env, r: Round)
    requires Usable(env, r)
    ensures Leads(env, 0, Rooted(env, r, Marked(env, r, false, false)), Idle,
                  Rooted(env, r, Marked(env, r, true, false)), Idle)
  {
    var sh, next := Rooted(env, r, Marked(env, r, false, false)), Rooted(env, r, Marked(env, r, true, false));
    var key, locked := Key(r.name, r.a), next.(lock := Some(0));
    MarkedFacts(env, r, true, false);
    assert sh.memory[key := sh.memory[key].(cos := r.cosA)] == next.memory;
    CosHandled(env, 0, sh, key, r.cosA);
    assert r.b in locked.activated[r.name] && locked.file[Key(r.name, r.b)].cos == ZERO;
    NoOrderIsThread(env, 0, locked, r.name);
    hide Leads, Unmarked, EveryCvs;
    LeadsOn(env, 0, sh, CosArrived(key, r.cosA), locked, OrderStarting(r.name), next, Idle);
    FromIdle(env, 0, sh, CosArrived(key, r.cosA), next, Idle);
  }

  /** The second one stores the order and starts the requests. */
  lemma SecondReveal(env: Env, r: Round) returns (sh': Shared)
    requires Usable(env, r)
    ensures Leads(env, 1, Rooted(env, r, Marked(env, r, true, false)), Idle, sh', Idle)
    ensures sh'.starts == [r.name] && sh'.roots == [RootOf(env, r)] && sh'.file == Marked(env, r, true, true)
    ensures r.name in sh'.orders && InFile(sh'.file, r.name, [r.a, r.b])
    ensures OrderedByCos(env.keccak, sh'.orders[r.name], sh'.file, r.name, [r.a, r.b])
  {
    var sh, file := Rooted(env, r, Marked(env, r, true, false)), Marked(env, r, true, true);
    var key := Key(r.name, r.b);
    MarkedFacts(env, r, true, false);
    assert file == sh.file[key := sh.memory[key].(cos := r.cosB, cvsHex := Some(sh.memory[key].cvs))];
    assert Enumerates(sh.activated, r.name, [r.a, r.b]);
    assert Key(r.name, r.a) in sh.memory && sh.memory[Key(r.name, r.a)].submitted;
    CosAfterRoot(env, 1, sh, key, r.cosB, Key(r.name, r.a), [r.a, r.b], file);
    hide Leads, EveryCvs, OrderedByCos;
    sh' :|
      && Leads(env, 1, sh, CosArrived(key, r.cosB), sh', Idle)
      && r.name in sh'.orders && sh'.starts == sh.starts + [r.name] && sh'.lock.None?
      && sh'.file == file && sh'.roots == sh.roots
      && InFile(file, r.name, [r.a, r.b])
      && OrderedByCos(env.keccak, sh'.orders[r.name], file, r.name, [r.a, r.b]);
    FromIdle(env, 1, sh, CosArrived(key, r.cosB), sh', Idle);
  }

  /**
   * For every round of two operators some schedule from empty files hands one root over, of the CVS values
   * in the order of the operator list, marks it, and after the two COS messages stores the reveal order by
   * the COS values and starts the requests once.
   */
  lemma OrdinaryPath(env: Env, r: Round)
    requires Usable(env, r) && r.a != 0 && r.b != 0
    ensures exists schedule ::
              var sh := Run(env, LeaderSafety.Started(map[], map[]), schedule).shared;
              && sh.roots == [RootOf(env, r)] && sh.starts == [r.name] && r.name in sh.orders
              && sh.file == Marked(env, r, true, true) && InFile(sh.file, r.name, [r.a, r.b])
              && OrderedByCos(env.keccak, sh.orders[r.name], sh.file, r.name, [r.a, r.b])
  {
    var zero, one := Holding(r, map[]), Holding(r, OneRecord(env, r));
    var two, accepted := Holding(r, TwoRecords(env, r, false, false)), Rooted(env, r, TwoRecords(env, r, false, false));
    var marked, revealed := Rooted(env, r, Marked(env, r, false, false)), Rooted(env, r, Marked(env, r, true, false));
    Polled(env, r);
    FirstCommit(env, r);
    CommitsLeadToRoot(env, r);
    RootAccepts(env, r);
    RootIsMarked(env, r);
    FirstReveal(env, r);
    var end := SecondReveal(env, r);
    hide Leads, Holding, Rooted, OneRecord, TwoRecords, Marked, RootOf, OrderedByCos, Usable, Run, Reached;
    Next0(env, zero, Idle, Idle, one, Idle);
    Next1(env, one, Idle, Idle, two, RootChecking(r.name, FromCommit));
    Next1(env, two, Idle, RootChecking(r.name, FromCommit), accepted, RootAccepted(r.name, FromCommit));
    Next1(env, accepted, Idle, RootAccepted(r.name, FromCommit), marked, Idle);
    Next0(env, marked, Idle, Idle, revealed, Idle);
    Next1(env, revealed, Idle, Idle, end, Idle);
    ReachedByRun(env, end, Idle, Idle);
  }

  lemma ReachedByRun(env: Env, sh: Shared, p0: Pc, p1: Pc)
    requires Reached(env, sh, p0, p1)
    ensures exists schedule :: Run(env, LeaderSafety.Started(map[], map[]), schedule).shared == sh
  {
    var schedule :| At(Run(env, LeaderSafety.Started(map[], map[]), schedule), sh, p0, p1);
  }
}
