/** The leader's maps as an object: the loops and critical sections that the threads of Leader are made of. */
module LeaderNodes {
  import opened Words
  import opened Operators
  import opened Sorting
  import opened LeaderStore
  import opened RevealOrder
  import opened Leader

  class LeaderNode {
    const env: Env
    var committedNodes: Records
    var activatedOperators: map<string, set<Address>>
    var file: Records
    var orders: map<string, RevealData>

    constructor (env: Env, file: Records, orders: map<string, RevealData>)
      ensures committedNodes == map[] && activatedOperators == map[]
      ensures this.env == env && this.file == file && this.orders == orders
    {
      this.env := env;
      this.file := file;
      this.orders := orders;
      committedNodes := map[];
      activatedOperators := map[];
    }

    /** The shared state of the thread model, without its history. */
    ghost function View(lock: Option<nat>): Shared
      reads this
    {
      Shared(lock, committedNodes, activatedOperators, file, orders, [], map[], map[], [])
    }

    method GetOrCreateLeaderCommitData(key: Key) returns (data: Record)
      modifies this`committedNodes
      ensures committedNodes == GetOrCreate(old(committedNodes), key)
      ensures key in committedNodes && data == committedNodes[key]
      ensures key in old(committedNodes) ==> committedNodes == old(committedNodes)
      ensures key !in old(committedNodes) ==>
                && data == Record(key, ZERO, None, ZERO, ZERO, Sign("", "", ""), false, false)
                && committedNodes == old(committedNodes)[key := data]
    {
      if key !in committedNodes {
        committedNodes := committedNodes[key := NewRecord(key)];
      }
      data := committedNodes[key];
    }

    method IsMerkleRootSubmitted(round: string) returns (submitted: bool)
      ensures submitted == RootSubmitted(committedNodes, round)
      ensures submitted == !Unmarked(committedNodes, round)
      ensures submitted <==> exists k :: k in committedNodes && k.round == round && committedNodes[k].submitted
    {
      var keys := committedNodes.Keys;
      while keys != {}
        invariant keys <= committedNodes.Keys
        invariant forall k :: k in committedNodes && k !in keys ==> !(k.round == round && committedNodes[k].submitted)
        decreases |keys|
      {
        var k :| k in keys;
        if k.round == round && committedNodes[k].submitted {
          return true;
        }
        keys := keys - {k};
      }
      return false;
    }

    method AllCommitsReceived(round: string) returns (all: bool)
      ensures all == AllReceived(committedNodes, activatedOperators, round)
      ensures all == EveryCvs(committedNodes, activatedOperators, round)
      ensures all <==>
                && round in activatedOperators && activatedOperators[round] != {}
                && forall op :: op in activatedOperators[round] ==>
                     Key(round, op) in committedNodes && committedNodes[Key(round, op)].cvs != ZERO
    {
      if round !in activatedOperators || activatedOperators[round] == {} {
        return false;
      }
      if !exists k :: k in committedNodes && k.round == round {
        return false;
      }
      var ops := activatedOperators[round];
      while ops != {}
        invariant ops <= activatedOperators[round]
        invariant forall op :: op in activatedOperators[round] && op !in ops ==> HasCvs(committedNodes, Key(round, op))
        decreases |ops|
      {
        var op :| op in ops;
        var key := Key(round, op);
        if key !in committedNodes || committedNodes[key].cvs == ZERO {
          return false;
        }
        ops := ops - {op};
      }
      return true;
    }

    /** SaveLeaderCommitData: decode the file, replace one record, write it back; `saves` is false on any file error. */
    method SaveLeaderCommitData(rec: Record, saves: bool) returns (ok: bool)
      modifies this`file
      ensures ok == saves
      ensures file == if saves then old(file)[rec.key := Prepared(rec)] else old(file)
      ensures saves ==> rec.key in file && file[rec.key].cvs == rec.cvs && file[rec.key].(cvsHex := rec.cvsHex) == rec
      ensures saves && rec.cvs != ZERO ==> file[rec.key].cvsHex == Some(rec.cvs)
    {
      if !saves {
        return false;
      }
      var commits := file;
      var data := rec;
      if data.cvs != ZERO {
        data := data.(cvsHex := Some(data.cvs));
      }
      commits := commits[data.key := data];
      file := commits;
      return true;
    }

    /** LoadLeaderCommitData; `readable` is false when the file or the hex form cannot be decoded. */
    method LoadLeaderCommitData(key: Key, readable: bool) returns (rec: Option<Record>)
      ensures rec == if readable && key in file then Some(Loaded(file[key])) else None
      ensures rec.Some? ==>
                && rec.value.cvs == (if file[key].cvsHex.Some? then file[key].cvsHex.value else file[key].cvs)
                && rec.value.(cvs := file[key].cvs) == file[key]
    {
      if !readable || key !in file {
        return None;
      }
      var data := file[key];
      if data.cvsHex.Some? {
        data := data.(cvs := data.cvsHex.value);
      }
      return Some(data);
    }

    /** generateMerkleRoot's critical section on the filtered list; None when a CVS is missing. */
    method CollectLeaves(round: string, operators: seq<Address>) returns (leaves: Option<seq<Word>>)
      ensures leaves.Some? <==> AllCvs(committedNodes, round, NonZero(operators))
      ensures leaves.Some? ==> leaves.value == CvsOf(committedNodes, round, NonZero(operators))
      ensures leaves.Some? <==>
                forall op :: op in operators && op != 0 ==>
                  Key(round, op) in committedNodes && committedNodes[Key(round, op)].cvs != ZERO
    {
      var filtered := FilterOperators(operators);
      NonZeroKeeps(operators);
      var found: seq<Word> := [];
      for i := 0 to |filtered|
        invariant |found| == i
        invariant forall k :: 0 <= k < i ==>
          HasCvs(committedNodes, Key(round, filtered[k])) && found[k] == committedNodes[Key(round, filtered[k])].cvs
      {
        var key := Key(round, filtered[i]);
        if key !in committedNodes || committedNodes[key].cvs == ZERO {
          assert !HasCvs(committedNodes, Key(round, filtered[i]));
          return None;
        }
        found := found + [committedNodes[key].cvs];
      }
      assert AllCvs(committedNodes, round, filtered);
      assert found == CvsOf(committedNodes, round, filtered);
      return Some(found);
    }

    /** processRounds: the operators of a polled round join those already known. */
    method AddActivated(round: string, operators: seq<Address>)
      modifies this`activatedOperators
      ensures round in activatedOperators
      ensures forall a :: a in activatedOperators[round] <==>
                (round in old(activatedOperators) && a in old(activatedOperators)[round]) || (a != 0 && a in operators)
      ensures forall r :: r != round ==>
                (r in activatedOperators <==> r in old(activatedOperators)) &&
                (r in activatedOperators ==> activatedOperators[r] == old(activatedOperators)[r])
    {
      if round !in activatedOperators {
        activatedOperators := activatedOperators[round := {}];
      }
      for i := 0 to |operators|
        invariant round in activatedOperators
        invariant forall a :: a in activatedOperators[round] <==>
                    (round in old(activatedOperators) && a in old(activatedOperators)[round])
                    || (a != 0 && a in operators[..i])
        invariant forall r :: r != round ==>
                    (r in activatedOperators <==> r in old(activatedOperators)) &&
                    (r in activatedOperators ==> activatedOperators[r] == old(activatedOperators)[r])
      {
        assert operators[..i + 1] == operators[..i] + [operators[i]];
        if operators[i] != 0 {
          activatedOperators := activatedOperators[round := activatedOperators[round] + {operators[i]}];
        }
      }
      assert operators[..|operators|] == operators;
    }

    /** updateCommitDataAfterSubmit without interruption; `saves` says which file writes succeed. */
    method UpdateCommitDataAfterSubmit(round: string, saves: Key -> bool)
      requires forall k :: k in committedNodes ==> committedNodes[k].key == k
      modifies this`committedNodes, this`file
      ensures var all := OfRound(old(committedNodes), round);
              && committedNodes == MarkedMemory(old(committedNodes), all, saves)
              && file == MarkedFile(old(committedNodes), old(file), all, saves)
      ensures committedNodes.Keys == old(committedNodes).Keys
      ensures forall k :: k in committedNodes ==>
                committedNodes[k].submitted == (old(committedNodes)[k].submitted || (k.round == round && saves(k)))
                && committedNodes[k].(submitted := old(committedNodes)[k].submitted) == old(committedNodes)[k]
      ensures forall k :: k in committedNodes && k.round == round && saves(k) ==>
                k in file && file[k].submitted && file[k].(cvsHex := committedNodes[k].cvsHex) == committedNodes[k]
      ensures forall k :: k in old(file) && !(k in committedNodes && k.round == round && saves(k)) ==>
                k in file && file[k] == old(file)[k]
    {
      ghost var was, before := committedNodes, file;
      var keys := OfRound(committedNodes, round);
      ghost var done: set<Key> := {};
      MarkedNone(was, before, saves);
      hide MarkedMemory, MarkedFile, OfRound;
      assert MarkedTo(was, before, done, saves);
      while keys != {}
        invariant keys !! done && keys + done == OfRound(was, round)
        invariant MarkedTo(was, before, done, saves)
        decreases |keys|
      {
        hide MarkedTo;
        var k :| k in keys;
        MarkOne(k, was, before, done, saves);
        done := done + {k};
        keys := keys - {k};
      }
      assert done == OfRound(was, round);
      MarkedInWords(was, before, round, saves);
    }

    ghost predicate MarkedTo(was: Records, before: Records, done: set<Key>, saves: Key -> bool)
      reads this
      requires done <= was.Keys
    {
      committedNodes == MarkedMemory(was, done, saves) && file == MarkedFile(was, before, done, saves)
    }

    /** One pass of the loop. */
    method MarkOne(k: Key, ghost was: Records, ghost before: Records, ghost done: set<Key>, saves: Key -> bool)
      requires done <= was.Keys && k in was && was[k].key == k && k !in done
      requires MarkedTo(was, before, done, saves)
      modifies this`committedNodes, this`file
      ensures MarkedTo(was, before, done + {k}, saves)
    {
      MarkedOneMore(was, before, done, k, saves);
      hide MarkedMemory, MarkedFile;
      var data := committedNodes[k].(submitted := true);
      var ok := SaveLeaderCommitData(data, saves(k));
      if ok {
        committedNodes := committedNodes[k := data];
      }
    }

    /** Every operator of the round has a record that can be read and holds a COS. */
    ghost predicate AllReadable(round: string, readable: Key -> bool)
      reads this
    {
      && AllRevealed(file, activatedOperators, round)
      && forall op :: op in activatedOperators[round] ==> readable(Key(round, op))
    }

    /**
     * DetermineRevealOrder without interruption: an existing round is left alone; otherwise it succeeds
     * exactly when every operator's record can be read and holds a COS and the orders can be saved, and
     * stores the order for some enumeration of the operators. `addresses` is that enumeration.
     */
    method DetermineRevealOrder(round: string, loads: bool, readable: Key -> bool, saves: bool)
      returns (ok: bool, addresses: seq<Address>)
      modifies this`orders
      ensures ok <==> loads && (round in old(orders) || (saves && AllReadable(round, readable)))
      ensures !ok || round in old(orders) ==> orders == old(orders)
      ensures ok && round !in old(orders) ==>
                && Enumerates(activatedOperators, round, addresses) && InFile(file, round, addresses)
                && var coses := CosOf(FileRecords(file, round, addresses));
                   orders == old(orders)[round := Reveal(env.keccak, env.sort, coses, addresses)]
      ensures ok && round !in old(orders) ==>
                && round in orders
                && forall cs: seq<Word> :: CosInFile(file, round, addresses, cs) ==>
                     && orders[round].rv == env.keccak(Concat(cs))
                     && |orders[round].order| == |orders[round].nodes| == |cs|
                     && (forall i :: 0 <= i < |cs| ==>
                           && orders[round].order[i] < |cs|
                           && orders[round].nodes[i] == addresses[orders[round].order[i]])
                     && forall i, j :: 0 <= i < j < |cs| ==>
                          && orders[round].nodes[i] != orders[round].nodes[j]
                          && Distance(orders[round].rv, cs[orders[round].order[i]])
                             <= Distance(orders[round].rv, cs[orders[round].order[j]])
    {
      addresses := [];
      if !loads {
        return false, addresses;
      }
      if round in orders {
        return true, addresses;
      }
      if round !in activatedOperators || activatedOperators[round] == {} {
        return false, addresses;
      }
      var read, cosValues;
      read, addresses, cosValues := CollectCos(round, readable);
      if !read {
        return false, addresses;
      }
      hide AllRevealed, Reveal, CosOf, FileRecords;
      var data := OrderedAddresses(env.keccak, env.sort, cosValues, addresses);
      if !saves {
        return false, addresses;
      }
      orders := orders[round := data];
      RevealInWords(env.keccak, env.sort, file, round, cosValues, addresses);
      return true, addresses;
    }

    /** The loop over the operator map: the operators in the order taken, each with the COS that the file holds. */
    method CollectCos(round: string, readable: Key -> bool)
      returns (ok: bool, addresses: seq<Address>, cosValues: seq<Word>)
      requires round in activatedOperators && activatedOperators[round] != {}
      ensures ok <==> AllReadable(round, readable)
      ensures ok ==> Enumerates(activatedOperators, round, addresses) && CosInFile(file, round, addresses, cosValues)
      ensures ok ==> InFile(file, round, addresses) && cosValues == CosOf(FileRecords(file, round, addresses))
    {
      addresses, cosValues := [], [];
      var left := activatedOperators[round];
      while left != {}
        invariant left <= activatedOperators[round] && |cosValues| == |addresses|
        invariant forall a :: a in addresses <==> a in activatedOperators[round] - left
        invariant forall i, j :: 0 <= i < j < |addresses| ==> addresses[i] != addresses[j]
        invariant forall i :: 0 <= i < |addresses| ==>
                    var key := Key(round, addresses[i]);
                    readable(key) && key in file && file[key].cos == cosValues[i] != ZERO
        decreases |left|
      {
        var op :| op in left;
        var data := LoadLeaderCommitData(Key(round, op), readable(Key(round, op)));
        if data.None? || data.value.cos == ZERO {
          return false, addresses, cosValues;
        }
        assert op !in addresses;
        cosValues := cosValues + [data.value.cos];
        addresses := addresses + [op];
        left := left - {op};
      }
      forall op | op in activatedOperators[round]
        ensures readable(Key(round, op)) && Key(round, op) in file && file[Key(round, op)].cos != ZERO
      {
        assert op in addresses;
      }
      return true, addresses, cosValues;
    }

    /**
     * AcceptSecretValue up to the next request: the secret joins what the file holds for the key, or a new
     * record when nothing can be read.
     */
    method AcceptSecretValue(key: Key, secret: Word, readable: bool, saves: bool) returns (ok: bool)
      requires key in file ==> file[key].key == key
      modifies this`file
      ensures ok == saves
      ensures var r := SecretStep(old(View(None)), SecretArrived(key, secret), readable);
              (View(None), Idle) == SaveMoves(env, r.0, 0, r.1, saves)
      ensures saves ==> key in file && file[key].secret == secret && file == old(file)[key := file[key]]
      ensures saves && readable && key in old(file) ==>
                var was := old(file)[key];
                && file[key].cvs == (if was.cvsHex.Some? then was.cvsHex.value else was.cvs)
                && file[key].cos == was.cos && file[key].sign == was.sign
                && file[key].submitted == was.submitted && file[key].generated == was.generated
      ensures !saves ==> file == old(file)
    {
      var data := LoadLeaderCommitData(key, readable);
      var rec := if data.Some? then data.value else NewRecord(key);
      rec := rec.(secret := secret);
      SaveMovesResult(env, View(None), 0, rec, AfterSecret, saves);
      ok := SaveLeaderCommitData(rec, saves);
    }

    /** handleCommitRequest without interruption: the steps of one thread of Leader, one after another. */
    method HandleCommitRequest(key: Key, cvs: Word, sign: Sign, saves: bool) returns (next: Pc)
      modifies this`committedNodes, this`file
      ensures var r := CommitStep(old(View(None)), 0, CommitArrived(key, cvs, sign));
              (View(None), next) == SaveMoves(env, r.0, 0, r.1, saves)
      ensures var held := old(GetOrCreate(committedNodes, key)[key]);
              saves && held.key == key ==>
                && key in committedNodes && key in file
                && committedNodes[key].cvs == file[key].cvs == (if held.cvs == ZERO then cvs else held.cvs)
                && committedNodes[key].sign == file[key].sign == (if held.cvs == ZERO then sign else held.sign)
      ensures saves && old(GetOrCreate(committedNodes, key)[key]).key == key ==>
                next == if Unmarked(committedNodes, key.round)
                           && EveryCvs(committedNodes, activatedOperators, key.round)
                        then RootChecking(key.round, FromCommit) else Idle
    {
      hide RootSubmitted, AllReceived, SaveMoves, Unmarked, EveryCvs;
      var data := GetOrCreateLeaderCommitData(key);
      if data.cvs == ZERO {
        data := data.(cvs := cvs, cvsHex := Some(cvs), sign := sign);
      }
      SaveMovesResult(env, View(Some(0)), 0, data, AfterCommit, saves);
      var ok := SaveLeaderCommitData(data, saves);
      if !ok {
        return Idle;
      }
      committedNodes := committedNodes[data.key := data];
      var submitted := IsMerkleRootSubmitted(data.key.round);
      var all := AllCommitsReceived(data.key.round);
      return if !submitted && all then RootChecking(data.key.round, FromCommit) else Idle;
    }

    /** handleCOSRequest without interruption, up to the root or the reveal order. */
    method HandleCOSRequest(key: Key, cos: Word, saves: bool) returns (next: Pc)
      modifies this`committedNodes, this`file
      ensures var r := CosStep(env, old(View(None)), 0, CosArrived(key, cos));
              var end := if r.1.Idle? then r else SaveMoves(env, r.0, 0, r.1, saves);
              (View(end.0.lock), next) == end
      ensures var held := old(GetOrCreate(committedNodes, key)[key]);
              var accepted := saves && held.cvs != ZERO && env.keccak(cos) == held.cvs && held.cos == ZERO;
              && (accepted && held.key == key ==>
                    && key in committedNodes && key in file && committedNodes[key].cos == file[key].cos == cos
                    && (if !EveryCvs(committedNodes, activatedOperators, key.round) then next == Idle
                        else if Unmarked(committedNodes, key.round) then
                          next == RootChecking(key.round, FromCos(key.round))
                        else
                          next == OrderStarting(key.round)))
              && (!accepted ==> file == old(file) && committedNodes == old(GetOrCreate(committedNodes, key)))
    {
      hide RootSubmitted, AllReceived, SaveMoves, Unmarked, EveryCvs;
      var data := GetOrCreateLeaderCommitData(key);
      if data.cvs == ZERO {
        return Idle;
      }
      if env.keccak(cos) != data.cvs {
        return Idle;
      }
      if data.cos != ZERO {
        return Idle;
      }
      data := data.(cos := cos);
      SaveMovesResult(env, View(Some(0)), 0, data, AfterCos, saves);
      var ok := SaveLeaderCommitData(data, saves);
      if !ok {
        return Idle;
      }
      committedNodes := committedNodes[data.key := data];
      var submitted := IsMerkleRootSubmitted(data.key.round);
      var all := AllCommitsReceived(data.key.round);
      if !submitted && all {
        return RootChecking(data.key.round, FromCos(data.key.round));
      }
      return if all then OrderStarting(data.key.round) else Idle;
    }
  }

  lemma RevealInWords(
      keccak: Hash, sort: Sorter, file: Records, round: string, cosValues: seq<Word>, addresses: seq<Address>)
    requires CosInFile(file, round, addresses, cosValues)
    requires forall i, j :: 0 <= i < j < |addresses| ==> addresses[i] != addresses[j]
    ensures var data := Reveal(keccak, sort, cosValues, addresses);
            forall cs: seq<Word> :: CosInFile(file, round, addresses, cs) ==>
              && data.rv == keccak(Concat(cs))
              && |data.order| == |data.nodes| == |cs|
              && (forall i :: 0 <= i < |cs| ==> data.order[i] < |cs| && data.nodes[i] == addresses[data.order[i]])
              && forall i, j :: 0 <= i < j < |cs| ==>
                   && data.nodes[i] != data.nodes[j]
                   && Distance(data.rv, cs[data.order[i]]) <= Distance(data.rv, cs[data.order[j]])
  {
    RevealListsEachOnce(keccak, sort, cosValues, addresses);
    hide Reveal;
    forall cs: seq<Word> | CosInFile(file, round, addresses, cs) ensures cs == cosValues {}
  }

  /** The steps of a save: decode the file and write it back, or fail. */
  function SaveMoves(env: Env, sh: Shared, t: nat, pc: Pc, saves: bool): (Shared, Pc) {
    if !saves then Move(env, sh, t, pc, Failure)
    else
      var (sh', pc') := Move(env, sh, t, pc, Success);
      Move(env, sh', t, pc', Success)
  }

  lemma SaveMovesResult(env: Env, sh: Shared, t: nat, rec: Record, after: After, saves: bool)
    ensures SaveMoves(env, sh, t, Saving(rec, after), saves)
         == SavedStep(if saves then sh.(file := sh.file[rec.key := Prepared(rec)]) else sh, t, rec, after, saves)
  {
    hide SavedStep, Prepared;
  }

  /** filterOperators. */
  method FilterOperators(operators: seq<Address>) returns (filtered: seq<Address>)
    ensures filtered == NonZero(operators)
  {
    filtered := [];
    for i := 0 to |operators|
      invariant filtered == NonZero(operators[..i])
    {
      NonZeroOfBoth(operators[..i], [operators[i]]);
      assert operators[..i + 1] == operators[..i] + [operators[i]];
      hide NonZero;
      NonZeroOfOne(operators[i]);
      if operators[i] != 0 {
        filtered := filtered + [operators[i]];
      }
    }
    assert operators[..|operators|] == operators;
  }

  /** markRoundCompleted on the monitor's copy of the file. */
  method MarkRoundCompleted(records: Records, round: string) returns (marked: Records)
    ensures marked == Completed(records, round)
    ensures marked.Keys == records.Keys
    ensures forall k :: k in records ==>
              && marked[k].generated == (records[k].generated || records[k].key.round == round)
              && marked[k].(generated := records[k].generated) == records[k]
  {
    marked := records;
    var keys := records.Keys;
    while keys != {}
      invariant keys <= records.Keys && marked.Keys == records.Keys
      invariant forall k :: k in records ==>
        marked[k] == if k !in keys && records[k].key.round == round then records[k].(generated := true) else records[k]
      decreases |keys|
    {
      var k :| k in keys;
      if marked[k].key.round == round {
        marked := marked[k := marked[k].(generated := true)];
      }
      keys := keys - {k};
    }
  }
}
