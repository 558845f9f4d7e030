/** The loops of LeaderNode, run by one thread of Leader without interruption. */
module LeaderTraces {
  import opened Words
  import opened Operators
  import opened LeaderStore
  import opened RevealOrder
  import opened Leader

  /** Steps of thread t alone. */
  function Moves(env: Env, sh: Shared, t: nat, pc: Pc, os: seq<Outcome>): (Shared, Pc)
    decreases |os|
  {
    if os == [] then (sh, pc)
    else
      var (sh', pc') := Move(env, sh, t, pc, os[0]);
      Moves(env, sh', t, pc', os[1..])
  }

  /** Some steps of thread t alone lead from one point to another. */
  ghost predicate Leads(env: Env, t: nat, sh: Shared, pc: Pc, sh': Shared, pc': Pc) {
    exists os :: Moves(env, sh, t, pc, os) == (sh', pc')
  }

  lemma OneMove(env: Env, t: nat, sh: Shared, pc: Pc, o: Outcome, sh': Shared, pc': Pc)
    requires Move(env, sh, t, pc, o) == (sh', pc')
    ensures Leads(env, t, sh, pc, sh', pc')
  {
    hide Move;
    assert [o][1..] == [];
    assert Moves(env, sh, t, pc, [o]) == (sh', pc');
  }

  lemma Stay(env: Env, t: nat, sh: Shared, pc: Pc)
    ensures Leads(env, t, sh, pc, sh, pc)
  {
    assert Moves(env, sh, t, pc, []) == (sh, pc);
  }

  lemma {:induction false} MovesAppend(env: Env, sh: Shared, t: nat, pc: Pc, os: seq<Outcome>, more: seq<Outcome>)
    ensures var (sh', pc') := Moves(env, sh, t, pc, os);
            Moves(env, sh, t, pc, os + more) == Moves(env, sh', t, pc', more)
    decreases |os|
  {
    hide Move;
    if os == [] {
      assert os + more == more;
    } else {
      var (sh', pc') := Move(env, sh, t, pc, os[0]);
      assert (os + more)[0] == os[0] && (os + more)[1..] == os[1..] + more;
      MovesAppend(env, sh', t, pc', os[1..], more);
    }
  }

  lemma LeadsOn(env: Env, t: nat, sh: Shared, pc: Pc, sh1: Shared, pc1: Pc, sh2: Shared, pc2: Pc)
    requires Leads(env, t, sh, pc, sh1, pc1) && Leads(env, t, sh1, pc1, sh2, pc2)
    ensures Leads(env, t, sh, pc, sh2, pc2)
  {
    var os :| Moves(env, sh, t, pc, os) == (sh1, pc1);
    var more :| Moves(env, sh1, t, pc1, more) == (sh2, pc2);
    MovesAppend(env, sh, t, pc, os, more);
    hide Moves;
  }

  // ---------------------------------------------------------------------
  // updateCommitDataAfterSubmit

  function Marked(sh: Shared, keys: set<Key>, saves: Key -> bool): Shared
    requires keys <= sh.memory.Keys
  {
    sh.(memory := MarkedMemory(sh.memory, keys, saves), file := MarkedFile(sh.memory, sh.file, keys, saves))
  }

  /** One record: taken up, decoded beside the file, and written to both, or left alone. */
  lemma MarkOne(env: Env, t: nat, sh: Shared, round: string, todo: set<Key>, caller: Caller, k: Key, ok: bool)
    requires k in todo && k in sh.memory && sh.memory[k].key == k
    ensures var rec := MarkedIf(sh.memory[k], true);
            Leads(env, t, sh, Marking(round, todo, caller),
                  if ok then sh.(memory := sh.memory[k := rec], file := sh.file[k := Prepared(rec)]) else sh,
                  Marking(round, todo - {k}, caller))
  {
    hide Prepared;
    var rec, after := MarkedIf(sh.memory[k], true), AfterMark(round, todo - {k}, caller);
    OneMove(env, t, sh, Marking(round, todo, caller), PickKey(k), sh, Saving(rec, after));
    if ok {
      var sh' := sh.(memory := sh.memory[k := rec], file := sh.file[k := Prepared(rec)]);
      OneMove(env, t, sh, Saving(rec, after), Success, sh, Decoded(rec, sh.file, after));
      OneMove(env, t, sh, Decoded(rec, sh.file, after), Success, sh', Marking(round, todo - {k}, caller));
      LeadsOn(env, t, sh, Saving(rec, after), sh, Decoded(rec, sh.file, after), sh',
              Marking(round, todo - {k}, caller));
      LeadsOn(env, t, sh, Marking(round, todo, caller), sh, Saving(rec, after), sh',
              Marking(round, todo - {k}, caller));
    } else {
      OneMove(env, t, sh, Saving(rec, after), Failure, sh, Marking(round, todo - {k}, caller));
      LeadsOn(env, t, sh, Marking(round, todo, caller), sh, Saving(rec, after), sh, Marking(round, todo - {k}, caller));
    }
  }

  lemma MarkNext(
      env: Env, t: nat, sh: Shared, round: string, done: set<Key>, todo: set<Key>, caller: Caller, k: Key,
      saves: Key -> bool)
    requires done <= sh.memory.Keys && k in todo && k !in done && k in sh.memory && sh.memory[k].key == k
    ensures Leads(env, t, Marked(sh, done, saves), Marking(round, todo, caller),
                  Marked(sh, done + {k}, saves), Marking(round, todo - {k}, caller))
  {
    MarkedOneMore(sh.memory, sh.file, done, k, saves);
    hide Leads, Prepared, MarkedIf, MarkedMemory, MarkedFile;
    MarkOne(env, t, Marked(sh, done, saves), round, todo, caller, k, saves(k));
  }

  lemma {:induction false} MarkAll(
      env: Env, t: nat, sh: Shared, round: string, all: set<Key>, todo: set<Key>, caller: Caller, saves: Key -> bool)
    requires todo <= all <= sh.memory.Keys
    requires forall k :: k in all ==> sh.memory[k].key == k
    ensures Leads(env, t, Marked(sh, all - todo, saves), Marking(round, todo, caller),
                  Marked(sh, all, saves), Marking(round, {}, caller))
    decreases |todo|
  {
    hide Marked, Leads;
    if todo == {} {
      assert all - todo == all;
      Stay(env, t, Marked(sh, all, saves), Marking(round, todo, caller));
    } else {
      var k :| k in todo;
      var rest := todo - {k};
      assert all - todo + {k} == all - rest;
      MarkNext(env, t, sh, round, all - todo, todo, caller, k, saves);
      MarkAll(env, t, sh, round, all, rest, caller, saves);
      LeadsOn(env, t, Marked(sh, all - todo, saves), Marking(round, todo, caller), Marked(sh, all - rest, saves),
              Marking(round, rest, caller), Marked(sh, all, saves), Marking(round, {}, caller));
    }
  }

  /** What UpdateCommitDataAfterSubmit computes is what a thread does from an accepted root to its return. */
  lemma UpdateIsThread(env: Env, t: nat, sh: Shared, round: string, caller: Caller, saves: Key -> bool)
    requires sh.lock.None? && forall k :: k in sh.memory ==> sh.memory[k].key == k
    ensures Leads(env, t, sh, RootAccepted(round, caller), Marked(sh, OfRound(sh.memory, round), saves),
                  Returning(caller))
  {
    var all := OfRound(sh.memory, round);
    var locked := sh.(lock := Some(t));
    var marked := Marked(locked, all, saves);
    OneMove(env, t, sh, RootAccepted(round, caller), Success, locked, Marking(round, all, caller));
    OneMove(env, t, marked, Marking(round, {}, caller), Success, Marked(sh, all, saves), Returning(caller));
    MarkedNone(sh.memory, sh.file, saves);
    assert Marked(locked, all - all, saves) == locked;
    hide Leads, MarkedMemory, MarkedFile, Marked, OfRound;
    MarkAll(env, t, locked, round, all, all, caller, saves);
    LeadsOn(env, t, sh, RootAccepted(round, caller), locked, Marking(round, all, caller), marked,
            Marking(round, {}, caller));
    LeadsOn(env, t, sh, RootAccepted(round, caller), marked, Marking(round, {}, caller), Marked(sh, all, saves),
            Returning(caller));
  }

  // ---------------------------------------------------------------------
  // DetermineRevealOrder

  /** Where a thread stands that has loaded the first i records. */
  function LoadedSoFar(sh: Shared, round: string, ops: seq<Address>, i: nat): Pc
    requires i <= |ops| && InFile(sh.file, round, ops)
  {
    OrderLoading(round, sh.orders, (set a | a in ops[i..]), FileRecords(sh.file, round, ops[..i]))
  }

  lemma LoadNext(env: Env, t: nat, sh: Shared, round: string, ops: seq<Address>, i: nat)
    requires i < |ops| && InFile(sh.file, round, ops) && Loaded(sh.file[Key(round, ops[i])]).cos != ZERO
    requires forall j, k :: 0 <= j < k < |ops| ==> ops[j] != ops[k]
    ensures Leads(env, t, sh, LoadedSoFar(sh, round, ops, i), sh, LoadedSoFar(sh, round, ops, i + 1))
  {
    hide Loaded;
    assert ops[i] in ops[i..];
    assert ops[i..] == [ops[i]] + ops[i + 1..] && ops[..i + 1] == ops[..i] + [ops[i]];
    var pc, pc' := LoadedSoFar(sh, round, ops, i), LoadedSoFar(sh, round, ops, i + 1);
    assert pc'.left == pc.left - {ops[i]};
    assert pc'.loaded == pc.loaded + [Loaded(sh.file[Key(round, ops[i])])];
    assert ops[i] in pc.left;
    assert OrderLoadStep(sh, pc, ops[i]) == (sh, pc');
    OneMove(env, t, sh, pc, PickOperator(ops[i]), sh, pc');
  }

  lemma {:induction false} LoadAll(env: Env, t: nat, sh: Shared, round: string, ops: seq<Address>, i: nat)
    requires i <= |ops| && InFile(sh.file, round, ops)
    requires forall j :: 0 <= j < |ops| ==> Loaded(sh.file[Key(round, ops[j])]).cos != ZERO
    requires forall j, k :: 0 <= j < k < |ops| ==> ops[j] != ops[k]
    ensures Leads(env, t, sh, LoadedSoFar(sh, round, ops, i), sh, LoadedSoFar(sh, round, ops, |ops|))
    decreases |ops| - i
  {
    hide Leads, LoadedSoFar;
    if i == |ops| {
      Stay(env, t, sh, LoadedSoFar(sh, round, ops, i));
    } else {
      LoadNext(env, t, sh, round, ops, i);
      LoadAll(env, t, sh, round, ops, i + 1);
      LeadsOn(env, t, sh, LoadedSoFar(sh, round, ops, i), sh, LoadedSoFar(sh, round, ops, i + 1),
              sh, LoadedSoFar(sh, round, ops, |ops|));
    }
  }

  /** The shared state once the order of these records is stored and the lock given back. */
  function Ordered(env: Env, sh: Shared, round: string, ops: seq<Address>): Shared
    requires InFile(sh.file, round, ops)
  {
    var records := FileRecords(sh.file, round, ops);
    Unlock(WithStart(sh.(orders := sh.orders[round := Reveal(env.keccak, env.sort, CosOf(records), ops)],
                       evidence := sh.evidence[round := Evidence((set a | a in ops), records)]), round))
  }

  /**
   * What DetermineRevealOrder stores for an enumeration of the operators is what a thread stores that
   * picks them in this order; it does not when one has no COS in the file.
   */
  lemma OrderIsThread(env: Env, t: nat, sh: Shared, round: string, ops: seq<Address>)
    requires round !in sh.orders && Enumerates(sh.activated, round, ops) && AllRevealed(sh.file, sh.activated, round)
    requires forall k :: k in sh.file ==> sh.file[k].key == k
    ensures InFile(sh.file, round, ops)
    ensures Leads(env, t, sh, OrderStarting(round), Ordered(env, sh, round, ops), Idle)
  {
    forall i | 0 <= i < |ops| ensures Key(round, ops[i]) in sh.file && Loaded(sh.file[Key(round, ops[i])]).cos != ZERO {
      assert ops[i] in sh.activated[round];
    }
    var pc, end := LoadedSoFar(sh, round, ops, 0), LoadedSoFar(sh, round, ops, |ops|);
    StartLoading(env, t, sh, round, ops);
    LoadAll(env, t, sh, round, ops, 0);
    StoreLoaded(env, t, sh, round, ops);
    hide Leads, Ordered, LoadedSoFar, AllRevealed, Enumerates, Loaded;
    LeadsOn(env, t, sh, OrderStarting(round), sh, pc, sh, end);
    LeadsOn(env, t, sh, OrderStarting(round), sh, end, Ordered(env, sh, round, ops), Idle);
  }

  lemma StartLoading(env: Env, t: nat, sh: Shared, round: string, ops: seq<Address>)
    requires round !in sh.orders && Enumerates(sh.activated, round, ops) && InFile(sh.file, round, ops)
    requires sh.activated[round] != {}
    ensures Leads(env, t, sh, OrderStarting(round), sh, LoadedSoFar(sh, round, ops, 0))
  {
    assert ops[0..] == ops && ops[..0] == [];
    var pc := LoadedSoFar(sh, round, ops, 0);
    assert pc.left == sh.activated[round] && pc.loaded == [];
    OneMove(env, t, sh, OrderStarting(round), Success, sh, LoadedSoFar(sh, round, ops, 0));
  }

  lemma StoreLoaded(env: Env, t: nat, sh: Shared, round: string, ops: seq<Address>)
    requires InFile(sh.file, round, ops) && forall k :: k in sh.file ==> sh.file[k].key == k
    ensures Leads(env, t, sh, LoadedSoFar(sh, round, ops, |ops|), Ordered(env, sh, round, ops), Idle)
  {
    hide Reveal;
    var records := FileRecords(sh.file, round, ops);
    assert ops[|ops|..] == [] && ops[..|ops|] == ops;
    assert EoasOf(records) == ops;
    OneMove(env, t, sh, LoadedSoFar(sh, round, ops, |ops|), Success, Ordered(env, sh, round, ops), Idle);
  }

  /** A stored round is left alone, and its requests are started all the same. */
  lemma StoredOrderIsThread(env: Env, t: nat, sh: Shared, round: string)
    requires round in sh.orders
    ensures Leads(env, t, sh, OrderStarting(round), Unlock(WithStart(sh, round)), Idle)
  {
    OneMove(env, t, sh, OrderStarting(round), Success, Unlock(WithStart(sh, round)), Idle);
  }

  /** What the method fails on, a thread fails on too: files, no operators, or an operator without a COS. */
  lemma NoOrderIsThread(env: Env, t: nat, sh: Shared, round: string)
    requires round !in sh.orders && !AllRevealed(sh.file, sh.activated, round)
    ensures Leads(env, t, sh, OrderStarting(round), Unlock(sh), Idle)
  {
    if round !in sh.activated || sh.activated[round] == {} {
      OneMove(env, t, sh, OrderStarting(round), Success, Unlock(sh), Idle);
    } else {
      var op :| op in sh.activated[round]
             && (Key(round, op) !in sh.file || Loaded(sh.file[Key(round, op)]).cos == ZERO);
      var pc := OrderLoading(round, sh.orders, sh.activated[round], []);
      OneMove(env, t, sh, OrderStarting(round), Success, sh, pc);
      OneMove(env, t, sh, pc, PickOperator(op), Unlock(sh), Idle);
      LeadsOn(env, t, sh, OrderStarting(round), sh, pc, Unlock(sh), Idle);
    }
  }

  /** A file error ends it before or during the loading, with nothing stored and nothing started. */
  lemma FailedOrderIsThread(env: Env, t: nat, sh: Shared, pc: Pc)
    requires pc.OrderStarting? || pc.OrderLoading?
    ensures Leads(env, t, sh, pc, Unlock(sh), Idle)
  {
    OneMove(env, t, sh, pc, Failure, Unlock(sh), Idle);
  }
}
