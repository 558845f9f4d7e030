/** What every interleaving of the leader's threads keeps. */
module LeaderSafety {
  import opened Words
  import opened Operators
  import opened LeaderStore
  import opened RevealOrder
  import opened Leader
  import Merkle

  // ---------------------------------------------------------------------
  // Invariant

  /** A submitted root is the root of the CVS values that memory still holds. */
  ghost predicate RootMatches(env: Env, memory: Records, sub: Submission) {
    && AllCvs(memory, sub.round, sub.operators)
    && Merkle.Root(env.keccak, CvsOf(memory, sub.round, sub.operators)) == Some(sub.root)
  }

  ghost predicate Revealing(env: Env, round: string, rec: Record) {
    rec.key.round == round && rec.cos != ZERO && env.keccak(rec.cos) == rec.cvs
  }

  ghost predicate DistinctEoas(records: seq<Record>) {
    forall i, j :: 0 <= i < j < |records| ==> records[i].key.eoa != records[j].key.eoa
  }

  /** The stored order of a round comes from one opened COS for each operator of the round. */
  ghost predicate Justified(env: Env, round: string, data: RevealData, e: Evidence) {
    && data == Reveal(env.keccak, env.sort, CosOf(e.records), EoasOf(e.records))
    && (forall i :: 0 <= i < |e.records| ==> Revealing(env, round, e.records[i]))
    && DistinctEoas(e.records)
    && e.operators == set a | a in EoasOf(e.records)
  }

  ghost predicate OrdersOk(env: Env, sh: Shared) {
    forall round :: round in sh.orders ==>
      || (round in sh.stored && sh.orders[round] == sh.stored[round])
      || (&& round in sh.evidence && Justified(env, round, sh.orders[round], sh.evidence[round])
          && round in sh.activated && sh.evidence[round].operators <= sh.activated[round])
  }

  ghost predicate SharedOk(env: Env, sh: Shared) {
    && AllOpen(env.keccak, sh.memory)
    && AllOpen(env.keccak, sh.file)
    && (forall i :: 0 <= i < |sh.roots| ==> RootMatches(env, sh.memory, sh.roots[i]))
    && OrdersOk(env, sh)
  }

  /** A record on its way to memory extends the record that memory holds. */
  ghost predicate Extends(memory: Records, rec: Record) {
    rec.key in memory && Forward(memory[rec.key], rec)
  }

  /** What the record carries by the reason for saving it. */
  ghost predicate Carries(rec: Record, after: After) {
    && (after.AfterCos? ==> rec.cvs != ZERO)
    && (after.AfterMark? ==> rec.submitted)
  }

  ghost predicate LoadingOk(env: Env, sh: Shared, pc: Pc)
    requires pc.OrderLoading?
  {
    && pc.seenOrders == sh.orders
    && pc.round !in sh.orders
    && pc.round in sh.activated
    && (forall i :: 0 <= i < |pc.loaded| ==> Revealing(env, pc.round, pc.loaded[i]))
    && (forall i :: 0 <= i < |pc.loaded| ==> pc.loaded[i].key.eoa !in pc.left)
    && DistinctEoas(pc.loaded)
    && sh.activated[pc.round] == pc.left + set a | a in EoasOf(pc.loaded)
  }

  ghost predicate ThreadOk(env: Env, sh: Shared, t: nat, pc: Pc) {
    && (Holds(pc) ==> sh.lock == Some(t))
    && match pc
       case Saving(rec, after) =>
         Opens(env.keccak, rec) && Carries(rec, after) && (after.AfterSecret? || Extends(sh.memory, rec))
       case Decoded(rec, seen, after) =>
         Opens(env.keccak, rec) && Carries(rec, after) && AllOpen(env.keccak, seen)
         && (after.AfterSecret? || Extends(sh.memory, rec))
       case RootReady(round, ops, leaves, _) => AllCvs(sh.memory, round, ops) && leaves == CvsOf(sh.memory, round, ops)
       case OrderLoading(_, _, _, _) => LoadingOk(env, sh, pc)
       case MonitorRead(seen) => AllOpen(env.keccak, seen)
       case _ => true
  }

  ghost predicate Inv(env: Env, s: State) {
    SharedOk(env, s.shared) && forall t :: t in s.threads ==> ThreadOk(env, s.shared, t, s.threads[t])
  }

  ghost predicate OrdersKept(a: map<string, RevealData>, b: map<string, RevealData>) {
    forall round :: round in a ==> round in b && b[round] == a[round]
  }

  /** What a step of thread t may do to the others: memory moves forward, and only the lock holder moves it. */
  ghost predicate Evolves(sh: Shared, sh': Shared, t: nat) {
    && AllForward(sh.memory, sh'.memory)
    && OrdersKept(sh.orders, sh'.orders)
    && sh.roots <= sh'.roots
    && sh'.stored == sh.stored
    && (sh.lock.Some? && sh.lock.value != t ==>
          sh'.lock == sh.lock && sh'.memory == sh.memory && sh'.orders == sh.orders && sh'.activated == sh.activated)
  }

  lemma OthersKept(env: Env, sh: Shared, sh': Shared, t: nat, u: nat, pc: Pc)
    requires u != t && ThreadOk(env, sh, u, pc) && Evolves(sh, sh', t)
    ensures ThreadOk(env, sh', u, pc)
  {
    if pc.RootReady? {
      LeavesStay(sh.memory, sh'.memory, pc.round, pc.ops);
    }
  }

  // ---------------------------------------------------------------------
  // One lemma per kind of step

  /** The goal of each: the step keeps shared state and its own thread right, and respects the others. */
  ghost predicate Kept(env: Env, sh: Shared, t: nat, r: (Shared, Pc)) {
    SharedOk(env, r.0) && ThreadOk(env, r.0, t, r.1) && Evolves(sh, r.0, t)
  }

  lemma MemoryChange(env: Env, sh: Shared, memory: Records)
    requires SharedOk(env, sh) && AllForward(sh.memory, memory) && AllOpen(env.keccak, memory)
    ensures SharedOk(env, sh.(memory := memory))
  {
    forall i | 0 <= i < |sh.roots| ensures RootMatches(env, memory, sh.roots[i]) {
      assert RootMatches(env, sh.memory, sh.roots[i]);
      LeavesStay(sh.memory, memory, sh.roots[i].round, sh.roots[i].operators);
    }
  }

  lemma CommitKept(env: Env, sh: Shared, t: nat, pc: Pc)
    requires SharedOk(env, sh) && sh.lock.None? && pc.CommitArrived?
    ensures Kept(env, sh, t, CommitStep(sh, t, pc))
  {
    MemoryChange(env, sh, GetOrCreate(sh.memory, pc.key));
  }

  lemma CosKept(env: Env, sh: Shared, t: nat, pc: Pc)
    requires SharedOk(env, sh) && sh.lock.None? && pc.CosArrived?
    ensures Kept(env, sh, t, CosStep(env, sh, t, pc))
  {
    MemoryChange(env, sh, GetOrCreate(sh.memory, pc.key));
  }

  /** The record reaches memory; the thread keeps or drops the lock and goes on with no record in hand. */
  lemma StoredKept(env: Env, sh: Shared, t: nat, rec: Record, lock: Option<nat>, pc': Pc)
    requires SharedOk(env, sh) && Opens(env.keccak, rec) && sh.lock == Some(t) && Extends(sh.memory, rec)
    requires pc'.Idle? || pc'.RootChecking? || pc'.OrderStarting? || pc'.Marking?
    requires Holds(pc') ==> lock == Some(t)
    ensures Kept(env, sh, t, (sh.(memory := sh.memory[rec.key := rec], lock := lock), pc'))
  {
    var memory := sh.memory[rec.key := rec];
    assert AllForward(sh.memory, memory) && AllOpen(env.keccak, memory);
    MemoryChange(env, sh, memory);
    hide Opens, AllOpen, Forward, Extends, RootMatches, Justified;
  }

  lemma SavedKept(env: Env, sh: Shared, t: nat, rec: Record, after: After, ok: bool)
    requires SharedOk(env, sh) && Opens(env.keccak, rec)
    requires after.AfterSecret? || (sh.lock == Some(t) && Extends(sh.memory, rec))
    ensures Kept(env, sh, t, SavedStep(sh, t, rec, after, ok))
  {
    var (sh', pc') := SavedStep(sh, t, rec, after, ok);
    hide SharedOk, Kept, Opens, Extends, RootSubmitted, AllReceived;
    if ok && !after.AfterSecret? {
      StoredKept(env, sh, t, rec, sh'.lock, pc');
    } else {
      QuietKept(env, sh, t, sh', pc');
    }
  }

  lemma SecretKept(env: Env, sh: Shared, t: nat, pc: Pc, ok: bool)
    requires SharedOk(env, sh) && pc.SecretArrived?
    ensures Kept(env, sh, t, SecretStep(sh, pc, ok))
  {}

  lemma DecodeKept(env: Env, sh: Shared, t: nat, rec: Record, after: After, o: Outcome)
    requires SharedOk(env, sh) && ThreadOk(env, sh, t, Saving(rec, after))
    ensures Kept(env, sh, t, Move(env, sh, t, Saving(rec, after), o))
  {
    SavedKept(env, sh, t, rec, after, false);
    hide SavedStep, RootMatches, OrdersOk;
  }

  lemma WriteKept(env: Env, sh: Shared, t: nat, pc: Pc, o: Outcome)
    requires SharedOk(env, sh) && pc.Decoded? && ThreadOk(env, sh, t, pc)
    ensures Kept(env, sh, t, Move(env, sh, t, pc, o))
  {
    var rec := pc.rec;
    if o.Success? {
      var written := sh.(file := pc.seen[rec.key := Prepared(rec)]);
      assert SharedOk(env, written) by { hide RootMatches; }
      SavedKept(env, written, t, rec, pc.after, true);
    } else {
      SavedKept(env, sh, t, rec, pc.after, false);
    }
    hide SavedStep, SharedOk, ThreadOk;
  }

  lemma CollectKept(env: Env, sh: Shared, t: nat, pc: Pc, operators: seq<Address>)
    requires SharedOk(env, sh) && pc.RootFetching?
    ensures Kept(env, sh, t, CollectStep(sh, pc, operators))
  {
    hide RootMatches, OrdersOk, AllOpen, NonZero;
  }

  lemma RootAdded(env: Env, sh: Shared, sub: Submission)
    requires SharedOk(env, sh) && RootMatches(env, sh.memory, sub)
    ensures SharedOk(env, sh.(roots := sh.roots + [sub]))
  {
    hide Justified, AllOpen;
    var roots := sh.roots + [sub];
    forall i | 0 <= i < |roots| ensures RootMatches(env, sh.memory, roots[i]) {
      if i < |sh.roots| { assert RootMatches(env, sh.memory, sh.roots[i]); }
    }
  }

  lemma SubmitKept(env: Env, sh: Shared, t: nat, pc: Pc, ok: bool)
    requires SharedOk(env, sh) && pc.RootReady? && ThreadOk(env, sh, t, pc)
    ensures Kept(env, sh, t, SubmitStep(env, sh, pc, ok))
  {
    var root := Merkle.Root(env.keccak, pc.leaves);
    if root.Some? {
      RootAdded(env, sh, Submission(pc.round, pc.ops, root.value));
    }
    hide SharedOk, RootMatches, Merkle.Root, AllCvs, CvsOf;
  }

  lemma MarkKept(env: Env, sh: Shared, t: nat, pc: Pc, key: Key)
    requires SharedOk(env, sh) && pc.Marking? && key in pc.todo && sh.lock == Some(t)
    ensures Kept(env, sh, t, MarkStep(sh, pc, key))
  {
    hide RootMatches, OrdersOk;
  }

  lemma PollKept(env: Env, sh: Shared, t: nat, pc: Pc)
    requires SharedOk(env, sh) && pc.RoundPolled? && sh.lock.None?
    ensures Kept(env, sh, t, PollStep(sh, pc))
  {
    hide RootMatches, Justified;
  }

  lemma OrderLoadKept(env: Env, sh: Shared, t: nat, pc: Pc, op: Address)
    requires SharedOk(env, sh) && pc.OrderLoading? && op in pc.left && ThreadOk(env, sh, t, pc)
    ensures Kept(env, sh, t, OrderLoadStep(sh, pc, op))
  {
    var r := OrderLoadStep(sh, pc, op);
    if r.1.OrderLoading? {
      LoadedOneMore(env, sh, pc, op, Loaded(sh.file[Key(pc.round, op)]));
    }
    hide LoadingOk, RootMatches, OrdersOk, AllOpen, Loaded;
  }

  lemma LoadedOneMore(env: Env, sh: Shared, pc: Pc, op: Address, rec: Record)
    requires pc.OrderLoading? && op in pc.left && LoadingOk(env, sh, pc)
    requires Revealing(env, pc.round, rec) && rec.key.eoa == op
    ensures LoadingOk(env, sh, pc.(left := pc.left - {op}, loaded := pc.loaded + [rec]))
  {
    hide Revealing;
    assert EoasOf(pc.loaded + [rec]) == EoasOf(pc.loaded) + [op];
  }

  lemma OrderEvolves(env: Env, sh: Shared, t: nat, pc: Pc)
    requires pc.OrderLoading? && LoadingOk(env, sh, pc) && sh.lock == Some(t)
    ensures Evolves(sh, OrderStoreStep(env, sh, pc).0, t) && OrderStoreStep(env, sh, pc).1 == Idle
  {
    hide Reveal, Revealing, DistinctEoas, EoasOf, CosOf;
  }

  lemma OrderAdded(env: Env, sh: Shared, pc: Pc)
    requires SharedOk(env, sh) && pc.OrderLoading? && pc.left == {} && LoadingOk(env, sh, pc)
    ensures SharedOk(env, OrderStoreStep(env, sh, pc).0)
  {
    var sh' := OrderStoreStep(env, sh, pc).0;
    OrderJustified(env, sh, pc);
    hide RootMatches, AllOpen, Reveal, Justified, EoasOf, Revealing;
    forall round | round in sh'.orders && round != pc.round
      ensures (round in sh'.stored && sh'.orders[round] == sh'.stored[round])
           || (&& round in sh'.evidence && Justified(env, round, sh'.orders[round], sh'.evidence[round])
               && round in sh'.activated && sh'.evidence[round].operators <= sh'.activated[round])
    {
      assert round in sh.orders;
    }
  }

  lemma OrderJustified(env: Env, sh: Shared, pc: Pc)
    requires pc.OrderLoading? && pc.left == {} && LoadingOk(env, sh, pc)
    ensures var sh' := OrderStoreStep(env, sh, pc).0;
            && pc.round in sh'.orders && pc.round in sh'.evidence
            && Justified(env, pc.round, sh'.orders[pc.round], sh'.evidence[pc.round])
            && sh'.evidence[pc.round].operators <= sh'.activated[pc.round]
  {
    hide Reveal, Revealing;
  }

  lemma OrderStoreKept(env: Env, sh: Shared, t: nat, pc: Pc)
    requires SharedOk(env, sh) && pc.OrderLoading? && pc.left == {} && ThreadOk(env, sh, t, pc)
    ensures Kept(env, sh, t, OrderStoreStep(env, sh, pc))
  {
    OrderAdded(env, sh, pc);
    OrderEvolves(env, sh, t, pc);
    hide SharedOk, Evolves, LoadingOk, OrderStoreStep;
    assert ThreadOk(env, OrderStoreStep(env, sh, pc).0, t, Idle);
  }

  lemma MonitorKept(env: Env, sh: Shared, t: nat, seen: Records, o: Outcome)
    requires SharedOk(env, sh) && AllOpen(env.keccak, seen)
    ensures Kept(env, sh, t, Move(env, sh, t, MonitorRead(seen), o))
  {
    hide RootMatches, Justified;
  }

  lemma QuietKept(env: Env, sh: Shared, t: nat, sh': Shared, pc': Pc)
    requires SharedOk(env, sh) && sh' == sh.(lock := sh'.lock)
    requires sh.lock == None || sh.lock == Some(t) || sh'.lock == sh.lock
    requires ThreadOk(env, sh', t, pc')
    ensures Kept(env, sh, t, (sh', pc'))
  {
    hide RootMatches, Justified, AllOpen;
  }

  lemma IdleKept(env: Env, sh: Shared, t: nat, o: Outcome)
    requires SharedOk(env, sh)
    ensures Kept(env, sh, t, Move(env, sh, t, Idle, o))
  {
    hide RootMatches, OrdersOk;
  }

  lemma OrderStartKept(env: Env, sh: Shared, t: nat, pc: Pc)
    requires SharedOk(env, sh) && pc.OrderStarting? && sh.lock == Some(t)
    ensures Kept(env, sh, t, OrderStartStep(sh, pc))
  {
    hide RootMatches, Justified, AllOpen;
    assert EoasOf([]) == [];
  }

  lemma MoveKept(env: Env, sh: Shared, t: nat, pc: Pc, o: Outcome)
    requires SharedOk(env, sh) && ThreadOk(env, sh, t, pc)
    ensures Kept(env, sh, t, Move(env, sh, t, pc, o))
  {
    var free := sh.lock.None?;
    hide SharedOk, Kept, CommitStep, CosStep, SecretStep, SavedStep, CollectStep, SubmitStep, MarkStep, PollStep,
         OrderStartStep, OrderLoadStep, OrderStoreStep, AllReceived, RootSubmitted, LoadingOk, Extends, Opens,
         AllOpen, AllCvs, CvsOf;
    var (sh', pc') := Move(env, sh, t, pc, o);
    if pc.Idle? { IdleKept(env, sh, t, o); }
    else if pc.OrderStarting? && o.Success? { OrderStartKept(env, sh, t, pc); }
    else if pc.CommitArrived? && free { CommitKept(env, sh, t, pc); }
    else if pc.CosArrived? && free { CosKept(env, sh, t, pc); }
    else if pc.SecretArrived? { SecretKept(env, sh, t, pc, o.Success?); }
    else if pc.RoundPolled? && free { PollKept(env, sh, t, pc); }
    else if pc.Saving? { DecodeKept(env, sh, t, pc.rec, pc.after, o); }
    else if pc.Decoded? { WriteKept(env, sh, t, pc, o); }
    else if pc.RootFetching? && o.Fetched? && free { CollectKept(env, sh, t, pc, o.operators); }
    else if pc.RootReady? { SubmitKept(env, sh, t, pc, o.Success?); }
    else if pc.Marking? && pc.todo != {} && o.PickKey? && o.key in pc.todo { MarkKept(env, sh, t, pc, o.key); }
    else if pc.OrderLoading? && !o.Failure? && pc.left == {} { OrderStoreKept(env, sh, t, pc); }
    else if pc.OrderLoading? && !o.Failure? && o.PickOperator? && o.op in pc.left {
      OrderLoadKept(env, sh, t, pc, o.op);
    }
    else if pc.MonitorRead? { MonitorKept(env, sh, t, pc.seen, o); }
    else { QuietKept(env, sh, t, sh', pc'); }
  }

  // ---------------------------------------------------------------------
  // Every schedule

  lemma StepKept(env: Env, s: State, t: nat, o: Outcome)
    requires Inv(env, s)
    ensures Inv(env, Step(env, s, t, o))
    ensures Evolves(s.shared, Step(env, s, t, o).shared, t)
  {
    var pc := PcOf(s, t);
    var s' := Step(env, s, t, o);
    assert ThreadOk(env, s.shared, t, pc);
    MoveKept(env, s.shared, t, pc, o);
    hide SharedOk, ThreadOk, Evolves, Move;
    forall u | u in s'.threads ensures ThreadOk(env, s'.shared, u, s'.threads[u]) {
      if u != t {
        OthersKept(env, s.shared, s'.shared, t, u, s.threads[u]);
      }
    }
  }

  /** What a whole run keeps of its start. */
  ghost predicate Later(sh: Shared, sh': Shared) {
    && AllForward(sh.memory, sh'.memory)
    && OrdersKept(sh.orders, sh'.orders)
    && sh.roots <= sh'.roots
    && sh'.stored == sh.stored
  }

  lemma {:induction false} RunKept(env: Env, s: State, schedule: seq<(nat, Outcome)>)
    requires Inv(env, s)
    ensures Inv(env, Run(env, s, schedule)) && Later(s.shared, Run(env, s, schedule).shared)
    decreases |schedule|
  {
    if schedule != [] {
      var s1 := Step(env, s, schedule[0].0, schedule[0].1);
      StepKept(env, s, schedule[0].0, schedule[0].1);
      RunKept(env, s1, schedule[1..]);
      ForwardTransitive(s.shared.memory, s1.shared.memory, Run(env, s1, schedule[1..]).shared.memory);
      hide Inv, AllForward, Step;
    }
  }

  /** A leader that starts finds two files and has nothing in memory. */
  function Started(file: Records, orders: map<string, RevealData>): State {
    State(Shared(None, map[], map[], file, orders, [], map[], orders, []), map[])
  }

  lemma StartedInv(env: Env, file: Records, orders: map<string, RevealData>)
    requires AllOpen(env.keccak, file)
    ensures Inv(env, Started(file, orders))
  {}

  /**
   * Under every interleaving, stale whole-file writes included, every record in memory
   * and in the file that holds a COS holds the CVS that this COS opens.
   */
  lemma StoredCosOpensCvs(
      env: Env, file: Records, orders: map<string, RevealData>, schedule: seq<(nat, Outcome)>, key: Key)
    requires AllOpen(env.keccak, file)
    ensures var sh := Run(env, Started(file, orders), schedule).shared;
            && (key in sh.memory && sh.memory[key].cos != ZERO ==> env.keccak(sh.memory[key].cos) == sh.memory[key].cvs)
            && (key in sh.file && sh.file[key].cos != ZERO ==> env.keccak(sh.file[key].cos) == sh.file[key].cvs)
  {
    StartedInv(env, file, orders);
    RunKept(env, Started(file, orders), schedule);
    hide Run, OrdersOk, RootMatches, ThreadOk;
  }

  /** In memory a CVS or COS once set never changes, and a submitted mark never resets. */
  lemma MemoryMovesForward(
      env: Env, file: Records, orders: map<string, RevealData>,
      first: seq<(nat, Outcome)>, rest: seq<(nat, Outcome)>, key: Key)
    requires AllOpen(env.keccak, file)
    requires key in Run(env, Started(file, orders), first).shared.memory
    ensures var m, m' := Run(env, Started(file, orders), first).shared.memory,
                         Run(env, Started(file, orders), first + rest).shared.memory;
            && key in m' && Forward(m[key], m'[key])
            && (m[key].cvs != ZERO ==> m'[key].cvs == m[key].cvs)
            && (m[key].cos != ZERO ==> m'[key].cos == m[key].cos)
            && (m[key].submitted ==> m'[key].submitted)
  {
    StartedInv(env, file, orders);
    RunKept(env, Started(file, orders), first);
    RunKept(env, Run(env, Started(file, orders), first), rest);
    RunConcat(env, Started(file, orders), first, rest);
    hide Run, Inv;
  }

  lemma {:induction false} RunConcat(env: Env, s: State, first: seq<(nat, Outcome)>, rest: seq<(nat, Outcome)>)
    ensures Run(env, s, first + rest) == Run(env, Run(env, s, first), rest)
    decreases |first|
  {
    if first == [] {
      assert first + rest == rest;
    } else {
      assert (first + rest)[0] == first[0] && (first + rest)[1..] == first[1..] + rest;
      hide Step;
      RunConcat(env, Step(env, s, first[0].0, first[0].1), first[1..], rest);
    }
  }

  /**
   * All roots handed to the contract for one round and one operator list in one leader run
   * are the same value, even when several threads pass the "already submitted" check.
   */
  lemma OneRootPerRound(
      env: Env, file: Records, orders: map<string, RevealData>, schedule: seq<(nat, Outcome)>, i: nat, j: nat)
    requires AllOpen(env.keccak, file)
    requires var roots := Run(env, Started(file, orders), schedule).shared.roots;
             i < |roots| && j < |roots| && roots[i].round == roots[j].round && roots[i].operators == roots[j].operators
    ensures var roots := Run(env, Started(file, orders), schedule).shared.roots; roots[i] == roots[j]
  {
    StartedInv(env, file, orders);
    RunKept(env, Started(file, orders), schedule);
    var sh := Run(env, Started(file, orders), schedule).shared;
    hide Run, OrdersOk, ThreadOk, AllOpen;
    assert RootMatches(env, sh.memory, sh.roots[i]) && RootMatches(env, sh.memory, sh.roots[j]);
  }

  /**
   * For any two roots handed over in a run, over equally many operators, with a hash that is collision
   * free on what the two trees hash: they are equal if and only if the CVS lists are.
   */
  lemma RootsEqualExactly(
      env: Env, file: Records, orders: map<string, RevealData>, schedule: seq<(nat, Outcome)>, i: nat, j: nat)
    requires AllOpen(env.keccak, file)
    requires var roots := Run(env, Started(file, orders), schedule).shared.roots;
             i < |roots| && j < |roots| && |roots[i].operators| == |roots[j].operators|
    ensures var sh := Run(env, Started(file, orders), schedule).shared;
            var x, y := sh.roots[i], sh.roots[j];
            && AllCvs(sh.memory, x.round, x.operators) && AllCvs(sh.memory, y.round, y.operators)
            && |x.operators| >= 2
            && var xs, ys := CvsOf(sh.memory, x.round, x.operators), CvsOf(sh.memory, y.round, y.operators);
               var inputs := Merkle.PairInputs(env.keccak, xs) + Merkle.PairInputs(env.keccak, ys);
               && (xs == ys ==> x.root == y.root)
               && (x.root == y.root && CollisionFree(env.keccak, inputs) ==> xs == ys)
  {
    StartedInv(env, file, orders);
    RunKept(env, Started(file, orders), schedule);
    var sh := Run(env, Started(file, orders), schedule).shared;
    var x, y := sh.roots[i], sh.roots[j];
    hide Run, OrdersOk, ThreadOk, AllOpen;
    assert RootMatches(env, sh.memory, x) && RootMatches(env, sh.memory, y);
    var xs, ys := CvsOf(sh.memory, x.round, x.operators), CvsOf(sh.memory, y.round, y.operators);
    hide Merkle.PairInputs, CollisionFree, CvsOf;
    var inputs := Merkle.PairInputs(env.keccak, xs) + Merkle.PairInputs(env.keccak, ys);
    if x.root == y.root && CollisionFree(env.keccak, inputs) {
      Merkle.EqualRootsEqualLeaves(env.keccak, xs, ys);
    }
  }

  /**
   * A round's reveal order is never rewritten, and one stored during the run comes from
   * exactly one opened, nonzero COS for each operator then known for the round.
   */
  lemma RevealOrderWrittenOnce(
      env: Env, file: Records, orders: map<string, RevealData>,
      first: seq<(nat, Outcome)>, rest: seq<(nat, Outcome)>, round: string)
    requires AllOpen(env.keccak, file)
    requires round in Run(env, Started(file, orders), first).shared.orders
    ensures var sh, sh' := Run(env, Started(file, orders), first).shared,
                           Run(env, Started(file, orders), first + rest).shared;
            && round in sh'.orders && sh'.orders[round] == sh.orders[round]
            && (round !in orders ==>
                round in sh.evidence && Justified(env, round, sh.orders[round], sh.evidence[round]))
  {
    StartedInv(env, file, orders);
    RunKept(env, Started(file, orders), first);
    RunKept(env, Run(env, Started(file, orders), first), rest);
    RunConcat(env, Started(file, orders), first, rest);
    hide Run, ThreadOk, AllOpen, RootMatches, Justified, AllForward;
  }

  lemma JustifiedInWords(env: Env, round: string, data: RevealData, e: Evidence, cs: seq<Word>)
    requires Justified(env, round, data, e)
    requires |cs| == |e.records| && forall i :: 0 <= i < |cs| ==> cs[i] == e.records[i].cos
    ensures data.rv == env.keccak(Concat(cs)) && |data.order| == |data.nodes| == |cs|
    ensures forall i :: 0 <= i < |cs| ==> data.order[i] < |cs| && data.nodes[i] == e.records[data.order[i]].key.eoa
    ensures forall i, j :: 0 <= i < j < |cs| ==>
              && data.nodes[i] != data.nodes[j]
              && Distance(data.rv, cs[data.order[i]]) <= Distance(data.rv, cs[data.order[j]])
    ensures forall i :: 0 <= i < |cs| ==>
              && e.records[i].key.round == round && cs[i] != ZERO && env.keccak(cs[i]) == e.records[i].cvs
  {
    assert cs == CosOf(e.records);
    RevealListsEachOnce(env.keccak, env.sort, cs, EoasOf(e.records));
    hide Reveal;
    forall i | 0 <= i < |cs|
      ensures e.records[i].key.round == round && cs[i] != ZERO && env.keccak(cs[i]) == e.records[i].cvs
    {
      assert Revealing(env, round, e.records[i]);
    }
  }

  /**
   * An order stored during a run, in terms of the records it was made from: rv hashes their COS values, each
   * nonzero and opening the CVS beside it, and the nodes are their operators by distance of these values from rv.
   */
  lemma StoredOrderIsByCos(
      env: Env, file: Records, orders: map<string, RevealData>, schedule: seq<(nat, Outcome)>, round: string,
      cs: seq<Word>)
    requires AllOpen(env.keccak, file) && round !in orders
    requires var sh := Run(env, Started(file, orders), schedule).shared;
             && round in sh.orders
             && (round in sh.evidence ==>
                   && |cs| == |sh.evidence[round].records|
                   && forall i :: 0 <= i < |cs| ==> cs[i] == sh.evidence[round].records[i].cos)
    ensures var sh := Run(env, Started(file, orders), schedule).shared;
            && round in sh.evidence
            && var data, records := sh.orders[round], sh.evidence[round].records;
               && data.rv == env.keccak(Concat(cs)) && |data.order| == |data.nodes| == |cs| == |records|
               && (forall i :: 0 <= i < |cs| ==>
                     data.order[i] < |cs| && data.nodes[i] == records[data.order[i]].key.eoa)
               && (forall i, j :: 0 <= i < j < |cs| ==>
                     && data.nodes[i] != data.nodes[j]
                     && Distance(data.rv, cs[data.order[i]]) <= Distance(data.rv, cs[data.order[j]]))
               && (forall i :: 0 <= i < |cs| ==>
                     && records[i].key.round == round && cs[i] != ZERO && env.keccak(cs[i]) == records[i].cvs)
  {
    RevealOrderWrittenOnce(env, file, orders, schedule, [], round);
    var sh := Run(env, Started(file, orders), schedule).shared;
    hide Run, Justified, AllOpen;
    JustifiedInWords(env, round, sh.orders[round], sh.evidence[round], cs);
  }

  lemma LoadedFromThread(env: Env, sh: Shared, t: nat, pc: Pc)
    requires pc.OrderLoading? && ThreadOk(env, sh, t, pc)
    ensures pc.seenOrders == sh.orders && pc.round !in sh.orders
  {}

  lemma OthersAddNoOrders(env: Env, sh: Shared, t: nat, pc: Pc, o: Outcome)
    requires !pc.OrderLoading?
    ensures Move(env, sh, t, pc, o).0.orders == sh.orders
  {
    hide GetOrCreate, AllReceived, RootSubmitted, AllCvs, CvsOf, NonZero, Merkle.Root, Prepared, Loaded, Completed,
         OfRound;
    if pc.Saving? || pc.Decoded? {
      SavingAddsNoOrders(env, sh, t, pc, o);
    }
  }

  lemma SavingAddsNoOrders(env: Env, sh: Shared, t: nat, pc: Pc, o: Outcome)
    requires pc.Saving? || pc.Decoded?
    ensures Move(env, sh, t, pc, o).0.orders == sh.orders
  {
    SavedFrame(sh, t, pc.rec, pc.after, false);
    if pc.Decoded? {
      SavedFrame(sh.(file := pc.seen[pc.rec.key := Prepared(pc.rec)]), t, pc.rec, pc.after, true);
    }
    hide SavedStep, Prepared;
  }

  /** The thread goes on with no record in hand. */
  predicate NoRecord(pc: Pc) {
    !pc.Saving? && !pc.Decoded? && !pc.MonitorRead? && !pc.CommitArrived? && !pc.CosArrived? && !pc.SecretArrived?
  }

  lemma StoreFrame(sh: Shared, t: nat, rec: Record, cos: bool)
    ensures var r := StoreStep(sh, t, rec, cos);
            && r.0 == sh.(memory := r.0.memory, lock := r.0.lock)
            && r.0.memory == sh.memory[rec.key := rec] && NoRecord(r.1)
  {
    hide RootSubmitted, AllReceived;
  }

  /** After a save a record may have reached memory and the lock may be free; nothing else changed. */
  lemma SavedFrame(sh: Shared, t: nat, rec: Record, after: After, ok: bool)
    ensures var r := SavedStep(sh, t, rec, after, ok);
            && r.0 == sh.(memory := r.0.memory, lock := r.0.lock) && NoRecord(r.1)
            && r.0.memory == if ok && !after.AfterSecret? then sh.memory[rec.key := rec] else sh.memory
  {
    if after.AfterCommit? || after.AfterCos? {
      StoreFrame(sh, t, rec, after.AfterCos?);
    }
    hide StoreStep;
  }

  lemma OnlyOrderStoreAddsOrders(env: Env, sh: Shared, t: nat, pc: Pc, o: Outcome, round: string)
    requires round !in sh.orders && round in Move(env, sh, t, pc, o).0.orders
    requires ThreadOk(env, sh, t, pc)
    ensures pc.OrderLoading? && pc.left == {} && pc.round == round
            && Move(env, sh, t, pc, o) == OrderStoreStep(env, sh, pc)
  {
    hide AllReceived, RootSubmitted, AllCvs, CvsOf, NonZero, Opens, AllOpen, Extends, Reveal, Completed;
    if pc.OrderLoading? {
      LoadedFromThread(env, sh, t, pc);
      hide ThreadOk;
    } else {
      OthersAddNoOrders(env, sh, t, pc, o);
    }
  }

  lemma StoredListsEveryOperator(env: Env, sh: Shared, pc: Pc)
    requires pc.OrderLoading? && pc.left == {} && LoadingOk(env, sh, pc)
    ensures var nodes := OrderStoreStep(env, sh, pc).0.orders[pc.round].nodes;
            && pc.round in sh.activated
            && (forall a :: a in nodes <==> a in sh.activated[pc.round])
            && (forall i, j :: 0 <= i < j < |nodes| ==> nodes[i] != nodes[j])
  {
    hide Reveal, Revealing;
    RevealListsEachOnce(env.keccak, env.sort, CosOf(pc.loaded), EoasOf(pc.loaded));
  }

  lemma OrderStoredNow(env: Env, s: State, t: nat, o: Outcome, round: string)
    requires Inv(env, s) && round !in s.shared.orders && round in Step(env, s, t, o).shared.orders
    ensures var nodes := Step(env, s, t, o).shared.orders[round].nodes;
            && round in s.shared.activated
            && (forall a :: a in nodes <==> a in s.shared.activated[round])
            && (forall i, j :: 0 <= i < j < |nodes| ==> nodes[i] != nodes[j])
  {
    var pc := PcOf(s, t);
    assert ThreadOk(env, s.shared, t, pc);
    hide Move, SharedOk, LoadingOk, OrderStoreStep;
    OnlyOrderStoreAddsOrders(env, s.shared, t, pc, o, round);
    StoredListsEveryOperator(env, s.shared, pc);
  }

  /** At the moment it is stored, the order lists every operator known for the round exactly once, and no one else. */
  lemma OrderListsEveryOperator(
      env: Env, file: Records, orders: map<string, RevealData>, schedule: seq<(nat, Outcome)>, t: nat, o: Outcome,
      round: string)
    requires AllOpen(env.keccak, file)
    requires var s := Run(env, Started(file, orders), schedule);
             round !in s.shared.orders && round in Step(env, s, t, o).shared.orders
    ensures var s := Run(env, Started(file, orders), schedule);
            var nodes := Step(env, s, t, o).shared.orders[round].nodes;
            && round in s.shared.activated
            && (forall a :: a in nodes <==> a in s.shared.activated[round])
            && (forall i, j :: 0 <= i < j < |nodes| ==> nodes[i] != nodes[j])
  {
    StartedInv(env, file, orders);
    RunKept(env, Started(file, orders), schedule);
    hide Run, Move, SharedOk, ThreadOk;
    OrderStoredNow(env, Run(env, Started(file, orders), schedule), t, o, round);
  }
}
