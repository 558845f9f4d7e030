/** Where the values in the leader's records come from, and where its secrets go. */
module LeaderSources {
  import opened Words
  import opened LeaderStore
  import opened RevealOrder
  import opened Leader
  import opened Commitments
  import opened LeaderSafety
  import Merkle

  // ---------------------------------------------------------------------
  // Every value comes from the operator's one commitment

  /** The commitment that the operator of the key made for the round. */
  type Source = Key -> Commit

  predicate Part(w: Word, whole: Word) {
    w == ZERO || w == whole
  }

  predicate FromSource(source: Source, rec: Record) {
    var c := source(rec.key);
    && Part(rec.cvs, c.cvs) && Part(rec.cos, c.cos) && Part(rec.secret, c.secret)
    && (rec.cvsHex.Some? ==> Part(rec.cvsHex.value, c.cvs))
  }

  ghost predicate AllFrom(source: Source, records: Records) {
    forall k :: k in records ==> records[k].key == k && FromSource(source, records[k])
  }

  /** A message carries the part of the commitment that it claims to carry. */
  predicate Delivers(source: Source, pc: Pc) {
    match pc
    case CommitArrived(key, cvs, _) => cvs == source(key).cvs
    case CosArrived(key, cos) => cos == source(key).cos
    case SecretArrived(key, secret) => secret == source(key).secret
    case _ => true
  }

  ghost predicate PcFrom(source: Source, pc: Pc) {
    && Delivers(source, pc)
    && match pc
       case Saving(rec, _) => FromSource(source, rec)
       case Decoded(rec, seen, _) => FromSource(source, rec) && AllFrom(source, seen)
       case MonitorRead(seen) => AllFrom(source, seen)
       case _ => true
  }

  ghost predicate SharedFrom(source: Source, sh: Shared) {
    AllFrom(source, sh.memory) && AllFrom(source, sh.file)
  }

  ghost predicate StateFrom(source: Source, s: State) {
    SharedFrom(source, s.shared) && forall t :: t in s.threads ==> PcFrom(source, s.threads[t])
  }

  ghost predicate StepFrom(source: Source, r: (Shared, Pc)) {
    SharedFrom(source, r.0) && PcFrom(source, r.1)
  }

  /** Elsewhere a thread without a record touches neither memory nor the file. */
  lemma QuietFrame(env: Env, sh: Shared, t: nat, pc: Pc, o: Outcome)
    requires NoRecord(pc) && !pc.Idle? && !pc.Marking?
    ensures var r := Move(env, sh, t, pc, o); r.0.memory == sh.memory && r.0.file == sh.file && NoRecord(r.1)
  {
    hide AllReceived, RootSubmitted, AllCvs, CvsOf, NonZero, Merkle.Root, Reveal, Loaded, OfRound;
  }

  lemma SavedFrom(source: Source, sh: Shared, t: nat, rec: Record, after: After, ok: bool)
    requires SharedFrom(source, sh) && FromSource(source, rec)
    ensures StepFrom(source, SavedStep(sh, t, rec, after, ok))
  {
    SavedFrame(sh, t, rec, after, ok);
    hide FromSource, SavedStep;
  }

  lemma CreatedFrom(source: Source, memory: Records, key: Key)
    requires AllFrom(source, memory)
    ensures AllFrom(source, GetOrCreate(memory, key))
  {}

  lemma CommitFrom(source: Source, sh: Shared, t: nat, pc: Pc)
    requires SharedFrom(source, sh) && pc.CommitArrived? && Delivers(source, pc)
    ensures StepFrom(source, CommitStep(sh, t, pc))
  {
    CreatedFrom(source, sh.memory, pc.key);
    hide GetOrCreate;
  }

  lemma CosFrom(env: Env, source: Source, sh: Shared, t: nat, pc: Pc)
    requires SharedFrom(source, sh) && pc.CosArrived? && Delivers(source, pc)
    ensures StepFrom(source, CosStep(env, sh, t, pc))
  {
    CreatedFrom(source, sh.memory, pc.key);
    var data := GetOrCreate(sh.memory, pc.key)[pc.key];
    assert FromSource(source, data.(cos := pc.cos));
    hide GetOrCreate, FromSource;
  }

  lemma SecretFrom(source: Source, sh: Shared, pc: Pc, ok: bool)
    requires SharedFrom(source, sh) && pc.SecretArrived? && Delivers(source, pc)
    ensures StepFrom(source, SecretStep(sh, pc, ok))
  {}

  lemma WriteFrom(source: Source, sh: Shared, t: nat, pc: Pc, ok: bool)
    requires SharedFrom(source, sh) && pc.Decoded? && PcFrom(source, pc)
    ensures StepFrom(source, SavedStep(if ok then sh.(file := pc.seen[pc.rec.key := Prepared(pc.rec)]) else sh,
                                       t, pc.rec, pc.after, ok))
  {
    var written := sh.(file := pc.seen[pc.rec.key := Prepared(pc.rec)]);
    assert SharedFrom(source, written);
    SavedFrom(source, if ok then written else sh, t, pc.rec, pc.after, ok);
  }

  lemma MarkFrom(source: Source, sh: Shared, pc: Pc, key: Key)
    requires SharedFrom(source, sh) && pc.Marking? && key in pc.todo
    ensures StepFrom(source, MarkStep(sh, pc, key))
  {}

  lemma CompletedFrom(source: Source, seen: Records, round: string)
    requires AllFrom(source, seen)
    ensures AllFrom(source, Completed(seen, round))
  {}

  lemma MoveFrom(env: Env, source: Source, sh: Shared, t: nat, pc: Pc, o: Outcome)
    requires SharedFrom(source, sh) && PcFrom(source, pc) && (o.Arrival? ==> Delivers(source, o.pc))
    ensures StepFrom(source, Move(env, sh, t, pc, o))
  {
    if NoRecord(pc) && !pc.Idle? && !pc.Marking? {
      QuietFrame(env, sh, t, pc, o);
      hide Move, AllFrom;
    } else {
      RecordMoveFrom(env, source, sh, t, pc, o);
    }
  }

  lemma RecordMoveFrom(env: Env, source: Source, sh: Shared, t: nat, pc: Pc, o: Outcome)
    requires SharedFrom(source, sh) && PcFrom(source, pc) && (o.Arrival? ==> Delivers(source, o.pc))
    requires !NoRecord(pc) || pc.Idle? || pc.Marking?
    ensures StepFrom(source, Move(env, sh, t, pc, o))
  {
    hide FromSource, AllFrom, CommitStep, CosStep, SecretStep, SavedStep, MarkStep, Prepared, Completed;
    if pc.CommitArrived? { CommitFrom(source, sh, t, pc); }
    else if pc.CosArrived? { CosFrom(env, source, sh, t, pc); }
    else if pc.SecretArrived? { SecretFrom(source, sh, pc, o.Success?); }
    else if pc.Saving? { SavedFrom(source, sh, t, pc.rec, pc.after, false); }
    else if pc.Decoded? { WriteFrom(source, sh, t, pc, o.Success?); }
    else if pc.Marking? && o.PickKey? && o.key in pc.todo { MarkFrom(source, sh, pc, o.key); }
    else if pc.MonitorRead? && o.RoundDone? { CompletedFrom(source, pc.seen, o.round); }
  }

  lemma StepKeepsSource(env: Env, source: Source, s: State, t: nat, o: Outcome)
    requires StateFrom(source, s) && (o.Arrival? ==> Delivers(source, o.pc))
    ensures StateFrom(source, Step(env, s, t, o))
  {
    MoveFrom(env, source, s.shared, t, PcOf(s, t), o);
    hide Move, SharedFrom, PcFrom;
    assert PcFrom(source, PcOf(s, t)) by { IdleFrom(source); }
  }

  lemma IdleFrom(source: Source)
    ensures PcFrom(source, Idle)
  {}

  /**
   * When every message brings its part of its operator's commitment, every CVS, COS and secret
   * ever held, in memory or in the file, is that part, under every interleaving.
   */
  lemma {:induction false} ValuesComeFromSource(env: Env, source: Source, s: State, schedule: seq<(nat, Outcome)>)
    requires StateFrom(source, s)
    requires forall i :: 0 <= i < |schedule| && schedule[i].1.Arrival? ==> Delivers(source, schedule[i].1.pc)
    ensures StateFrom(source, Run(env, s, schedule))
    decreases |schedule|
  {
    if schedule != [] {
      StepKeepsSource(env, source, s, schedule[0].0, schedule[0].1);
      hide StateFrom, Step, Delivers;
      assert forall i :: 0 <= i < |schedule[1..]| ==> schedule[1..][i] == schedule[i + 1];
      ValuesComeFromSource(env, source, Step(env, s, schedule[0].0, schedule[0].1), schedule[1..]);
    }
  }

  // ---------------------------------------------------------------------
  // Memory holds no secret

  ghost predicate NoSecrets(memory: Records) {
    forall k :: k in memory ==> memory[k].key == k && memory[k].secret == ZERO
  }

  /** Only a secret handler carries one. */
  ghost predicate PcPlain(pc: Pc) {
    && (pc.Saving? && !pc.after.AfterSecret? ==> pc.rec.secret == ZERO)
    && (pc.Decoded? && !pc.after.AfterSecret? ==> pc.rec.secret == ZERO)
  }

  ghost predicate StatePlain(s: State) {
    NoSecrets(s.shared.memory) && forall t :: t in s.threads ==> PcPlain(s.threads[t])
  }

  lemma SavedPlain(sh: Shared, t: nat, rec: Record, after: After, ok: bool)
    requires NoSecrets(sh.memory) && (after.AfterSecret? || rec.secret == ZERO)
    ensures var r := SavedStep(sh, t, rec, after, ok); NoSecrets(r.0.memory) && PcPlain(r.1)
  {
    SavedFrame(sh, t, rec, after, ok);
    hide SavedStep;
  }

  lemma MovePlain(env: Env, sh: Shared, t: nat, pc: Pc, o: Outcome)
    requires NoSecrets(sh.memory) && PcPlain(pc)
    ensures var r := Move(env, sh, t, pc, o); NoSecrets(r.0.memory) && PcPlain(r.1)
  {
    if NoRecord(pc) && !pc.Idle? && !pc.Marking? {
      QuietFrame(env, sh, t, pc, o);
      hide Move;
    } else if pc.Decoded? {
      SavedPlain(sh, t, pc.rec, pc.after, false);
      SavedPlain(sh.(file := pc.seen[pc.rec.key := Prepared(pc.rec)]), t, pc.rec, pc.after, true);
      hide SavedStep, NoSecrets;
    } else if pc.Saving? {
      SavedPlain(sh, t, pc.rec, pc.after, false);
      hide SavedStep, NoSecrets;
    } else {
      ArrivalPlain(env, sh, t, pc, o);
    }
  }

  lemma CreatedPlain(memory: Records, key: Key)
    requires NoSecrets(memory)
    ensures NoSecrets(GetOrCreate(memory, key)) && GetOrCreate(memory, key)[key].secret == ZERO
  {}

  lemma ArrivalPlain(env: Env, sh: Shared, t: nat, pc: Pc, o: Outcome)
    requires NoSecrets(sh.memory)
    requires pc.Idle? || pc.Marking? || pc.MonitorRead? || pc.CommitArrived? || pc.CosArrived? || pc.SecretArrived?
    ensures var r := Move(env, sh, t, pc, o); NoSecrets(r.0.memory) && PcPlain(r.1)
  {
    if pc.CommitArrived? || pc.CosArrived? {
      CreatedPlain(sh.memory, pc.key);
      hide GetOrCreate, NoSecrets, Loaded, Completed, Prepared;
    } else {
      hide Loaded, Completed, Prepared, GetOrCreate;
    }
  }

  lemma {:induction false} MemoryHoldsNoSecret(env: Env, s: State, schedule: seq<(nat, Outcome)>)
    requires StatePlain(s)
    ensures StatePlain(Run(env, s, schedule))
    decreases |schedule|
  {
    if schedule != [] {
      MovePlain(env, s.shared, schedule[0].0, PcOf(s, schedule[0].0), schedule[0].1);
      hide Move, PcPlain, NoSecrets;
      assert PcPlain(Idle) by { IdlePlain(); }
      assert StatePlain(Step(env, s, schedule[0].0, schedule[0].1));
      hide StatePlain, Step;
      MemoryHoldsNoSecret(env, Step(env, s, schedule[0].0, schedule[0].1), schedule[1..]);
    }
  }

  lemma IdlePlain()
    ensures PcPlain(Idle)
  {}

  /** So in every reachable state a commit, COS or mark save that goes through leaves no secret under its key. */
  lemma SavesDropSecrets(
      env: Env, file: Records, orders: map<string, RevealData>, schedule: seq<(nat, Outcome)>, t: nat)
    requires var s := Run(env, Started(file, orders), schedule);
             PcOf(s, t).Decoded? && !PcOf(s, t).after.AfterSecret?
    ensures var s := Run(env, Started(file, orders), schedule);
            var key, file' := PcOf(s, t).rec.key, Step(env, s, t, Success).shared.file;
            key in file' && file'[key].secret == ZERO
  {
    var s := Run(env, Started(file, orders), schedule);
    MemoryHoldsNoSecret(env, Started(file, orders), schedule);
    hide Run, SavedStep, Prepared, NoSecrets;
    var pc := PcOf(s, t);
    assert PcPlain(pc);
    PreparedKeeps(pc.rec);
    SavedFrame(s.shared.(file := pc.seen[pc.rec.key := Prepared(pc.rec)]), t, pc.rec, pc.after, true);
  }

  /** A run that loses a stored secret: the commitment of the same key is saved after it. */
  lemma SecretLost(env: Env, key: Key, cvs: Word, sign: Sign, secret: Word)
    requires secret != ZERO
    ensures var before := Run(env, Started(map[], map[]), SecretStored(key, secret)).shared.file;
            key in before && before[key].secret == secret
    ensures var after := Run(env, Started(map[], map[]),
                             SecretStored(key, secret) + CommitSaved(key, cvs, sign)).shared.file;
            key in after && after[key].secret == ZERO
  {
    var start := Started(map[], map[]);
    var stored, committed := SecretStored(key, secret), CommitSaved(key, cvs, sign);
    var middle := Run(env, start, stored);
    StoredSecret(env, start, key, secret);
    CommitAfter(env, middle, key, cvs, sign);
    RunConcat(env, start, stored, committed);
    hide Run, SecretStored, CommitSaved;
  }

  /** One handler alone: a message arrives, its record is made, decoded beside the file, and written. */
  function SecretStored(key: Key, secret: Word): seq<(nat, Outcome)> {
    [(0, Arrival(SecretArrived(key, secret))), (0, Success), (0, Success), (0, Success)]
  }

  function CommitSaved(key: Key, cvs: Word, sign: Sign): seq<(nat, Outcome)> {
    [(0, Arrival(CommitArrived(key, cvs, sign))), (0, Success), (0, Success), (0, Success)]
  }

  lemma RunFirst(env: Env, s: State, first: (nat, Outcome), rest: seq<(nat, Outcome)>)
    ensures Run(env, s, [first] + rest) == Run(env, Step(env, s, first.0, first.1), rest)
  {
    hide Step;
    assert ([first] + rest)[1..] == rest;
  }

  lemma RunOfFour(env: Env, s: State, a: (nat, Outcome), b: (nat, Outcome), c: (nat, Outcome), d: (nat, Outcome))
    ensures Run(env, s, [a, b, c, d])
         == Step(env, Step(env, Step(env, Step(env, s, a.0, a.1), b.0, b.1), c.0, c.1), d.0, d.1)
  {
    hide Step;
    assert [a, b, c, d] == [a] + [b, c, d] && [b, c, d] == [b] + [c, d] && [c, d] == [c] + [d] && [d] == [d] + [];
    RunFirst(env, s, a, [b, c, d]);
    RunFirst(env, Step(env, s, a.0, a.1), b, [c, d]);
    RunFirst(env, Step(env, Step(env, s, a.0, a.1), b.0, b.1), c, [d]);
    RunFirst(env, Step(env, Step(env, Step(env, s, a.0, a.1), b.0, b.1), c.0, c.1), d, []);
  }

  lemma StoredSecret(env: Env, s: State, key: Key, secret: Word)
    requires s == Started(map[], map[])
    ensures var s' := Run(env, s, SecretStored(key, secret));
            && key in s'.shared.file && s'.shared.file[key].secret == secret
            && PcOf(s', 0).Idle? && s'.shared.lock.None? && s'.shared.memory == map[]
  {
    RunOfFour(env, s, (0, Arrival(SecretArrived(key, secret))), (0, Success), (0, Success), (0, Success));
    var rec := NewRecord(key).(secret := secret);
    var s1 := Step(env, s, 0, Arrival(SecretArrived(key, secret)));
    assert PcOf(s1, 0) == SecretArrived(key, secret) && s1.shared == s.shared;
    var s2 := Step(env, s1, 0, Success);
    assert PcOf(s2, 0) == Saving(rec, AfterSecret) && s2.shared == s.shared;
    var s3 := Step(env, s2, 0, Success);
    assert PcOf(s3, 0) == Decoded(rec, map[], AfterSecret) && s3.shared == s.shared;
    var s4 := Step(env, s3, 0, Success);
    assert s4.shared == s.shared.(file := map[key := Prepared(rec)]);
    hide Run;
  }

  lemma PreparedKeeps(rec: Record)
    ensures Prepared(rec).key == rec.key && Prepared(rec).secret == rec.secret
  {}

  lemma CommitMade(env: Env, s: State, arrived: Pc)
    requires PcOf(s, 0).Idle? && s.shared.lock.None? && s.shared.memory == map[] && arrived.CommitArrived?
    ensures var pc := PcOf(Step(env, Step(env, s, 0, Arrival(arrived)), 0, Success), 0);
            pc.Saving? && pc.after == AfterCommit && pc.rec.key == arrived.key && pc.rec.secret == ZERO
  {
    var s1 := Step(env, s, 0, Arrival(arrived));
    assert PcOf(s1, 0) == arrived && s1.shared == s.shared;
  }

  lemma CommitAfter(env: Env, s: State, key: Key, cvs: Word, sign: Sign)
    requires PcOf(s, 0).Idle? && s.shared.lock.None? && s.shared.memory == map[]
    ensures var s' := Run(env, s, CommitSaved(key, cvs, sign));
            key in s'.shared.file && s'.shared.file[key].secret == ZERO
  {
    var arrived := CommitArrived(key, cvs, sign);
    RunOfFour(env, s, (0, Arrival(arrived)), (0, Success), (0, Success), (0, Success));
    CommitMade(env, s, arrived);
    var s2 := Step(env, Step(env, s, 0, Arrival(arrived)), 0, Success);
    hide Run, SavedStep, Prepared;
    var rec := PcOf(s2, 0).rec;
    var s3 := Step(env, s2, 0, Success);
    assert PcOf(s3, 0) == Decoded(rec, s2.shared.file, AfterCommit);
    SavedFrame(s3.shared.(file := s2.shared.file[key := Prepared(rec)]), 0, rec, AfterCommit, true);
    PreparedKeeps(rec);
  }
}
