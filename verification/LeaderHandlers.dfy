/** What each handler of the leader does when its steps run without interruption, written out on records and keys. */
module LeaderHandlers {
  import opened Words
  import opened Operators
  import opened Sorting
  import opened LeaderStore
  import opened RevealOrder
  import opened Leader
  import opened LeaderTraces
  import Merkle

  // ---------------------------------------------------------------------
  // Saves

  /** A save that goes through is a decoding and a write. */
  lemma SaveThread(env: Env, t: nat, sh: Shared, pc: Pc, made: Shared, rec: Record, after: After)
    requires Leads(env, t, sh, pc, made, Saving(rec, after))
    ensures var r := SavedStep(made.(file := made.file[rec.key := Prepared(rec)]), t, rec, after, true);
            Leads(env, t, sh, pc, r.0, r.1)
  {
    var written := made.(file := made.file[rec.key := Prepared(rec)]);
    var r := SavedStep(written, t, rec, after, true);
    hide SavedStep, Prepared, Leads;
    OneMove(env, t, made, Saving(rec, after), Success, made, Decoded(rec, made.file, after));
    OneMove(env, t, made, Decoded(rec, made.file, after), Success, r.0, r.1);
    LeadsOn(env, t, made, Saving(rec, after), made, Decoded(rec, made.file, after), r.0, r.1);
    LeadsOn(env, t, sh, pc, made, Saving(rec, after), r.0, r.1);
  }

  /** One that fails leaves the file as it was. */
  lemma FailedSaveThread(env: Env, t: nat, sh: Shared, pc: Pc, made: Shared, rec: Record, after: After)
    requires Leads(env, t, sh, pc, made, Saving(rec, after))
    ensures var r := SavedStep(made, t, rec, after, false); Leads(env, t, sh, pc, r.0, r.1)
  {
    var r := SavedStep(made, t, rec, after, false);
    hide SavedStep, Leads;
    OneMove(env, t, made, Saving(rec, after), Failure, r.0, r.1);
    LeadsOn(env, t, sh, pc, made, Saving(rec, after), r.0, r.1);
  }

  // ---------------------------------------------------------------------
  // handleCommitRequest

  lemma CommitMade(env: Env, t: nat, sh: Shared, key: Key, cvs: Word, sign: Sign)
    requires sh.lock.None?
    ensures var held := if key in sh.memory then sh.memory[key]
                        else Record(key, ZERO, None, ZERO, ZERO, Sign("", "", ""), false, false);
            var rec := if held.cvs == ZERO then held.(cvs := cvs, cvsHex := Some(cvs), sign := sign) else held;
            Leads(env, t, sh, CommitArrived(key, cvs, sign),
                  sh.(lock := Some(t), memory := sh.memory[key := held]), Saving(rec, AfterCommit))
  {
    var r := CommitStep(sh, t, CommitArrived(key, cvs, sign));
    OneMove(env, t, sh, CommitArrived(key, cvs, sign), Success, r.0, r.1);
    if key in sh.memory { assert sh.memory[key := sh.memory[key]] == sh.memory; }
    hide Leads;
  }

  /**
   * A commit message: the first CVS and signature of the key are kept, in memory and file alike, and a root
   * is sought exactly when none is marked and every operator of the round has a CVS.
   */
  lemma CommitHandled(env: Env, t: nat, sh: Shared, key: Key, cvs: Word, sign: Sign)
    requires sh.lock.None? && (key in sh.memory ==> sh.memory[key].key == key)
    ensures var held := if key in sh.memory then sh.memory[key]
                        else Record(key, ZERO, None, ZERO, ZERO, Sign("", "", ""), false, false);
            var rec := if held.cvs == ZERO then held.(cvs := cvs, cvsHex := Some(cvs), sign := sign) else held;
            var written := rec.(cvsHex := if rec.cvs != ZERO then Some(rec.cvs) else rec.cvsHex);
            var memory := sh.memory[key := rec];
            Leads(env, t, sh, CommitArrived(key, cvs, sign), sh.(memory := memory, file := sh.file[key := written]),
                  if Unmarked(memory, key.round) && EveryCvs(memory, sh.activated, key.round)
                  then RootChecking(key.round, FromCommit) else Idle)
  {
    var held := if key in sh.memory then sh.memory[key]
                else Record(key, ZERO, None, ZERO, ZERO, Sign("", "", ""), false, false);
    var rec := if held.cvs == ZERO then held.(cvs := cvs, cvsHex := Some(cvs), sign := sign) else held;
    var made := sh.(lock := Some(t), memory := sh.memory[key := held]);
    CommitMade(env, t, sh, key, cvs, sign);
    SaveThread(env, t, sh, CommitArrived(key, cvs, sign), made, rec, AfterCommit);
    assert sh.memory[key := held][key := rec] == sh.memory[key := rec];
    EveryCvsIsReceived(sh.memory[key := rec], sh.activated, key.round);
    hide Leads, AllReceived;
  }

  /** When the record cannot be saved, only an empty record may have been made, and nothing follows. */
  lemma CommitNotSaved(env: Env, t: nat, sh: Shared, key: Key, cvs: Word, sign: Sign)
    requires sh.lock.None?
    ensures var held := if key in sh.memory then sh.memory[key]
                        else Record(key, ZERO, None, ZERO, ZERO, Sign("", "", ""), false, false);
            Leads(env, t, sh, CommitArrived(key, cvs, sign), sh.(memory := sh.memory[key := held]), Idle)
  {
    var held := if key in sh.memory then sh.memory[key]
                else Record(key, ZERO, None, ZERO, ZERO, Sign("", "", ""), false, false);
    var rec := if held.cvs == ZERO then held.(cvs := cvs, cvsHex := Some(cvs), sign := sign) else held;
    CommitMade(env, t, sh, key, cvs, sign);
    FailedSaveThread(env, t, sh, CommitArrived(key, cvs, sign),
                     sh.(lock := Some(t), memory := sh.memory[key := held]), rec, AfterCommit);
    hide Leads;
  }

  // ---------------------------------------------------------------------
  // handleCOSRequest

  /** The leader holds a CVS for the key that the COS opens, and no COS yet. */
  ghost predicate OpensHeld(env: Env, sh: Shared, key: Key, cos: Word) {
    && key in sh.memory && sh.memory[key].key == key
    && sh.memory[key].cvs != ZERO && env.keccak(cos) == sh.memory[key].cvs && sh.memory[key].cos == ZERO
  }

  lemma CosMade(env: Env, t: nat, sh: Shared, key: Key, cos: Word)
    requires sh.lock.None? && OpensHeld(env, sh, key, cos)
    ensures Leads(env, t, sh, CosArrived(key, cos), sh.(lock := Some(t)),
                  Saving(sh.memory[key].(cos := cos), AfterCos))
  {
    OneMove(env, t, sh, CosArrived(key, cos), Success, sh.(lock := Some(t)),
            Saving(sh.memory[key].(cos := cos), AfterCos));
    hide Leads;
  }

  /** The file's form of a record. */
  function Written(rec: Record): Record {
    rec.(cvsHex := if rec.cvs != ZERO then Some(rec.cvs) else rec.cvsHex)
  }

  /**
   * A COS that opens the CVS held: it is stored in memory and file. Then, with every CVS received, a root is
   * sought if none is marked, and the reveal order is determined, under the same lock, if one is.
   */
  lemma CosHandled(env: Env, t: nat, sh: Shared, key: Key, cos: Word)
    requires sh.lock.None? && OpensHeld(env, sh, key, cos)
    ensures var rec := sh.memory[key].(cos := cos);
            var written := rec.(cvsHex := Some(rec.cvs));
            var memory := sh.memory[key := rec];
            var all, stored := EveryCvs(memory, sh.activated, key.round),
                               sh.(memory := memory, file := sh.file[key := written]);
            && (all && !Unmarked(memory, key.round) ==>
                  Leads(env, t, sh, CosArrived(key, cos), stored.(lock := Some(t)), OrderStarting(key.round)))
            && (all && Unmarked(memory, key.round) ==>
                  Leads(env, t, sh, CosArrived(key, cos), stored, RootChecking(key.round, FromCos(key.round))))
            && (!all ==> Leads(env, t, sh, CosArrived(key, cos), stored, Idle))
  {
    var rec := sh.memory[key].(cos := cos);
    CosMade(env, t, sh, key, cos);
    SaveThread(env, t, sh, CosArrived(key, cos), sh.(lock := Some(t)), rec, AfterCos);
    EveryCvsIsReceived(sh.memory[key := rec], sh.activated, key.round);
    hide Leads, AllReceived, EveryCvs;
  }

  lemma CosNotSaved(env: Env, t: nat, sh: Shared, key: Key, cos: Word)
    requires sh.lock.None? && OpensHeld(env, sh, key, cos)
    ensures Leads(env, t, sh, CosArrived(key, cos), sh, Idle)
  {
    CosMade(env, t, sh, key, cos);
    FailedSaveThread(env, t, sh, CosArrived(key, cos), sh.(lock := Some(t)), sh.memory[key].(cos := cos), AfterCos);
    hide Leads;
  }

  /** Any other COS is rejected; only an empty record may have been made. */
  lemma CosRejected(env: Env, t: nat, sh: Shared, key: Key, cos: Word)
    requires sh.lock.None?
    requires key !in sh.memory || sh.memory[key].cvs == ZERO || env.keccak(cos) != sh.memory[key].cvs
             || sh.memory[key].cos != ZERO
    ensures var held := if key in sh.memory then sh.memory[key]
                        else Record(key, ZERO, None, ZERO, ZERO, Sign("", "", ""), false, false);
            Leads(env, t, sh, CosArrived(key, cos), sh.(memory := sh.memory[key := held]), Idle)
  {
    if key in sh.memory { assert sh.memory[key := sh.memory[key]] == sh.memory; }
    OneMove(env, t, sh, CosArrived(key, cos), Success, CosStep(env, sh, t, CosArrived(key, cos)).0, Idle);
    hide Leads;
  }

  // ---------------------------------------------------------------------
  // AcceptSecretValue

  /** A secret for a record in the file: the secret is set, and all else that the record holds stays. */
  lemma SecretHandled(env: Env, t: nat, sh: Shared, key: Key, secret: Word)
    requires key in sh.file && sh.file[key].key == key
    ensures var stored := sh.file[key];
            var cvs := if stored.cvsHex.Some? then stored.cvsHex.value else stored.cvs;
            var hex := if cvs != ZERO then Some(cvs) else stored.cvsHex;
            Leads(env, t, sh, SecretArrived(key, secret),
                  sh.(file := sh.file[key := stored.(secret := secret, cvs := cvs, cvsHex := hex)]), Idle)
  {
    var rec := Loaded(sh.file[key]).(secret := secret);
    OneMove(env, t, sh, SecretArrived(key, secret), Success, sh, Saving(rec, AfterSecret));
    SaveThread(env, t, sh, SecretArrived(key, secret), sh, rec, AfterSecret);
    hide Leads;
  }

  /** Without a record, or without one that can be read, the file's record holds the secret and nothing else. */
  lemma SecretWithoutRecord(env: Env, t: nat, sh: Shared, key: Key, secret: Word)
    ensures Leads(env, t, sh, SecretArrived(key, secret),
                  sh.(file := sh.file[key := Record(key, ZERO, None, ZERO, secret, Sign("", "", ""), false, false)]),
                  Idle)
  {
    var rec := NewRecord(key).(secret := secret);
    OneMove(env, t, sh, SecretArrived(key, secret), Failure, sh, Saving(rec, AfterSecret));
    SaveThread(env, t, sh, SecretArrived(key, secret), sh, rec, AfterSecret);
    hide Leads;
  }

  // ---------------------------------------------------------------------
  // The monitor, and polls

  /** The monitor decodes the file, and later writes its copy back with the round's records completed. */
  lemma MonitorReads(env: Env, t: nat, sh: Shared)
    ensures Leads(env, t, sh, Idle, sh, MonitorRead(sh.file))
  {
    OneMove(env, t, sh, Idle, Success, sh, MonitorRead(sh.file));
  }

  lemma MonitorWrites(env: Env, t: nat, sh: Shared, seen: Records, round: string, file: Records)
    requires file.Keys == seen.Keys
    requires forall k :: k in file ==>
               file[k] == if seen[k].key.round == round then seen[k].(generated := true) else seen[k]
    ensures Leads(env, t, sh, MonitorRead(seen), sh.(file := file), Idle)
  {
    assert file == Completed(seen, round);
    OneMove(env, t, sh, MonitorRead(seen), RoundDone(round), sh.(file := file), Idle);
  }

  /** A polled round's operators join those known; a pending round whose CVS are all there has its root sought. */
  lemma RoundHandled(env: Env, t: nat, sh: Shared, round: string, operators: set<Address>, pending: bool)
    requires sh.lock.None?
    ensures var known := (if round in sh.activated then sh.activated[round] else {}) + operators;
            var activated := sh.activated[round := known];
            Leads(env, t, sh, RoundPolled(round, operators, pending), sh.(activated := activated),
                  if pending && EveryCvs(sh.memory, activated, round) then RootChecking(round, FromPoll) else Idle)
  {
    var known := (if round in sh.activated then sh.activated[round] else {}) + operators;
    var polled := sh.(activated := sh.activated[round := known]);
    EveryCvsIsReceived(sh.memory, polled.activated, round);
    hide AllReceived, EveryCvs;
    assert PollStep(sh, RoundPolled(round, operators, pending)).0 == polled;
    OneMove(env, t, sh, RoundPolled(round, operators, pending), Success, polled,
            if pending then PollChecking(round) else Idle);
    if pending {
      var next := if EveryCvs(sh.memory, polled.activated, round) then RootChecking(round, FromPoll) else Idle;
      OneMove(env, t, polled, PollChecking(round), Success, polled, next);
      hide Leads;
      LeadsOn(env, t, sh, RoundPolled(round, operators, pending), polled, PollChecking(round), polled, next);
    }
  }

  // ---------------------------------------------------------------------
  // generateMerkleRoot

  /**
   * With no root marked, a list of at least two operators and a CVS for each, one root is handed over: that of
   * the CVS values in the order of the list without address(0).
   */
  lemma RootHandedOver(
      env: Env, t: nat, sh: Shared, round: string, caller: Caller, operators: seq<Address>, ops: seq<Address>,
      leaves: seq<Word>, accepted: bool)
    requires sh.lock.None? && Unmarked(sh.memory, round)
    requires ops == NonZero(operators) && |ops| == |leaves| >= 2
    requires forall i :: 0 <= i < |ops| ==>
               && Key(round, ops[i]) in sh.memory && sh.memory[Key(round, ops[i])].cvs != ZERO
               && leaves[i] == sh.memory[Key(round, ops[i])].cvs
    ensures Merkle.Root(env.keccak, leaves).Some?
    ensures var root := Merkle.Root(env.keccak, leaves).value;
            Leads(env, t, sh, RootChecking(round, caller),
                  sh.(roots := sh.roots + [Submission(round, ops, root)]),
                  if accepted then RootAccepted(round, caller) else Returning(caller))
  {
    var root := Merkle.Root(env.keccak, leaves).value;
    var handed := sh.(roots := sh.roots + [Submission(round, ops, root)]);
    var next := if accepted then RootAccepted(round, caller) else Returning(caller);
    assert AllCvs(sh.memory, round, ops);
    assert leaves == CvsOf(sh.memory, round, ops);
    hide Merkle.Reduce, AllCvs, CvsOf, NonZero;
    OneMove(env, t, sh, RootChecking(round, caller), Success, sh, RootFetching(round, caller));
    OneMove(env, t, sh, RootFetching(round, caller), Fetched(operators), sh, RootReady(round, ops, leaves, caller));
    OneMove(env, t, sh, RootReady(round, ops, leaves, caller), if accepted then Success else Failure, handed, next);
    hide Leads;
    LeadsOn(env, t, sh, RootChecking(round, caller), sh, RootFetching(round, caller),
            sh, RootReady(round, ops, leaves, caller));
    LeadsOn(env, t, sh, RootChecking(round, caller), sh, RootReady(round, ops, leaves, caller), handed, next);
  }

  /** With a marked root, or without a list, or with a CVS missing, none is. */
  lemma NoRootHandedOver(
      env: Env, t: nat, sh: Shared, round: string, caller: Caller, k: Key, operators: seq<Address>, op: Address)
    requires sh.lock.None? && k in sh.memory && k.round == round
    requires sh.memory[k].submitted
             || (op in operators && op != 0
                 && (Key(round, op) !in sh.memory || sh.memory[Key(round, op)].cvs == ZERO))
    ensures Leads(env, t, sh, RootChecking(round, caller), sh, Returning(caller))
  {
    if RootSubmitted(sh.memory, round) {
      OneMove(env, t, sh, RootChecking(round, caller), Success, sh, Returning(caller));
    } else {
      NonZeroKeeps(operators);
      var ops := NonZero(operators);
      var i :| 0 <= i < |ops| && ops[i] == op;
      assert !HasCvs(sh.memory, Key(round, ops[i]));
      assert !AllCvs(sh.memory, round, ops);
      OneMove(env, t, sh, RootChecking(round, caller), Success, sh, RootFetching(round, caller));
      OneMove(env, t, sh, RootFetching(round, caller), Fetched(operators), sh, Returning(caller));
      hide Leads;
      LeadsOn(env, t, sh, RootChecking(round, caller), sh, RootFetching(round, caller), sh, Returning(caller));
    }
  }

  lemma MarkedMemoryInWords(was: Records, round: string, saves: Key -> bool, memory: Records)
    requires memory.Keys == was.Keys
    requires forall k :: k in memory ==>
               memory[k] == if k.round == round && saves(k) then was[k].(submitted := true) else was[k]
    ensures memory == MarkedMemory(was, OfRound(was, round), saves)
  {}

  lemma MarkedFileInWords(
      was: Records, before: Records, round: string, saves: Key -> bool, memory: Records, file: Records)
    requires memory == MarkedMemory(was, OfRound(was, round), saves)
    requires forall k :: k in file <==> k in before || (k in memory && k.round == round && saves(k))
    requires forall k :: k in file ==>
               file[k] == if k in memory && k.round == round && saves(k) then Written(memory[k]) else before[k]
    ensures file == MarkedFile(was, before, OfRound(was, round), saves)
  {}

  /** After an accepted root exactly its round's records are marked, in memory and file, where the write succeeds. */
  lemma RoundMarked(
      env: Env, t: nat, sh: Shared, round: string, caller: Caller, saves: Key -> bool, memory: Records, file: Records)
    requires sh.lock.None? && forall k :: k in sh.memory ==> sh.memory[k].key == k
    requires memory.Keys == sh.memory.Keys
    requires forall k :: k in memory ==>
               memory[k] == if k.round == round && saves(k) then sh.memory[k].(submitted := true) else sh.memory[k]
    requires forall k :: k in file <==> k in sh.file || (k in memory && k.round == round && saves(k))
    requires forall k :: k in file ==>
               file[k] == if k in memory && k.round == round && saves(k) then Written(memory[k]) else sh.file[k]
    ensures Leads(env, t, sh, RootAccepted(round, caller), sh.(memory := memory, file := file), Returning(caller))
  {
    UpdateIsThread(env, t, sh, round, caller, saves);
    MarkedMemoryInWords(sh.memory, round, saves, memory);
    MarkedFileInWords(sh.memory, sh.file, round, saves, memory, file);
    hide Leads, MarkedMemory, MarkedFile, OfRound, Written;
  }

  // ---------------------------------------------------------------------
  // DetermineRevealOrder

  /** rv hashes the given COS values, and the nodes are the operators by distance of their own from it. */
  ghost predicate Ranks(keccak: Hash, data: RevealData, cs: seq<Word>, ops: seq<Address>) {
    && |cs| == |ops| == |data.order| == |data.nodes|
    && data.rv == keccak(Concat(cs))
    && (forall i :: 0 <= i < |ops| ==> data.order[i] < |ops| && data.nodes[i] == ops[data.order[i]])
    && (forall i, j :: 0 <= i < j < |ops| ==> data.nodes[i] != data.nodes[j])
    && (forall i, j :: 0 <= i < j < |ops| ==>
          Distance(data.rv, cs[data.order[i]]) <= Distance(data.rv, cs[data.order[j]]))
  }

  /** The order is by the COS values that the file holds for the operators. */
  ghost predicate OrderedByCos(keccak: Hash, data: RevealData, file: Records, round: string, ops: seq<Address>)
    requires InFile(file, round, ops)
  {
    exists cs: seq<Word> ::
      Ranks(keccak, data, cs, ops) && forall i :: 0 <= i < |cs| ==> cs[i] == file[Key(round, ops[i])].cos
  }

  lemma RevealIsByCos(keccak: Hash, sort: Sorter, file: Records, round: string, ops: seq<Address>)
    requires InFile(file, round, ops) && forall i, j :: 0 <= i < j < |ops| ==> ops[i] != ops[j]
    ensures OrderedByCos(keccak, Reveal(keccak, sort, CosOf(FileRecords(file, round, ops)), ops), file, round, ops)
  {
    var cs := CosOf(FileRecords(file, round, ops));
    RevealListsEachOnce(keccak, sort, cs, ops);
    hide Reveal;
    assert Ranks(keccak, Reveal(keccak, sort, cs, ops), cs, ops);
  }

  lemma OrderInWords(env: Env, sh: Shared, round: string, ops: seq<Address>)
    requires InFile(sh.file, round, ops) && forall i, j :: 0 <= i < j < |ops| ==> ops[i] != ops[j]
    ensures var sh' := Ordered(env, sh, round, ops);
            && round in sh'.orders && OrderedByCos(env.keccak, sh'.orders[round], sh.file, round, ops)
            && sh'.orders == sh.orders[round := sh'.orders[round]]
            && sh'.starts == sh.starts + [round] && sh'.lock.None? && sh'.file == sh.file && sh'.roots == sh.roots
            && sh'.memory == sh.memory && sh'.activated == sh.activated
  {
    RevealIsByCos(env.keccak, env.sort, sh.file, round, ops);
    hide Reveal, OrderedByCos, CosOf, FileRecords;
  }

  // ---------------------------------------------------------------------
  // The ordinary path of a COS: the root is marked

  /**
   * With the root marked, every CVS received, and with this message every COS in the file, the handler stores
   * the reveal order of the round and starts its requests, in any order in which it may go through the operators.
   */
  lemma CosAfterRoot(env: Env, t: nat, sh: Shared, key: Key, cos: Word, k: Key, ops: seq<Address>, file: Records)
    requires sh.lock.None? && OpensHeld(env, sh, key, cos)
    requires k in sh.memory && k.round == key.round && sh.memory[k].submitted
    requires EveryCvs(sh.memory, sh.activated, key.round) && Enumerates(sh.activated, key.round, ops)
    requires key.round !in sh.orders
    requires file == sh.file[key := sh.memory[key].(cos := cos, cvsHex := Some(sh.memory[key].cvs))]
    requires forall f :: f in file ==> file[f].key == f
    requires forall op :: op in sh.activated[key.round] ==>
               Key(key.round, op) in file && file[Key(key.round, op)].cos != ZERO
    ensures exists sh' ::
              && Leads(env, t, sh, CosArrived(key, cos), sh', Idle)
              && key.round in sh'.orders && sh'.starts == sh.starts + [key.round] && sh'.lock.None?
              && sh'.file == file && sh'.roots == sh.roots
              && InFile(file, key.round, ops)
              && OrderedByCos(env.keccak, sh'.orders[key.round], file, key.round, ops)
  {
    CosHandled(env, t, sh, key, cos);
    var memory := sh.memory[key := sh.memory[key].(cos := cos)];
    var stored := sh.(lock := Some(t), memory := memory, file := file);
    assert k in memory && memory[k].submitted;
    assert EveryCvs(memory, sh.activated, key.round);
    OrderIsThread(env, t, stored, key.round, ops);
    var sh' := Ordered(env, stored, key.round, ops);
    OrderInWords(env, stored, key.round, ops);
    hide Leads, EveryCvs, Ordered, OrderedByCos, Enumerates;
    LeadsOn(env, t, sh, CosArrived(key, cos), stored, OrderStarting(key.round), sh', Idle);
  }
}
