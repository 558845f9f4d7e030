/** The leader's records, in memory and in leader_commits.json, and the checks made on them. */
module LeaderStore {
  import opened Words
  import opened Operators

  /** Key of a record: a round and the operator's address. */
  datatype Key = Key(round: string, eoa: Address)

  datatype Sign = Sign(v: string, r: string, s: string)

  datatype Record = Record(
    key: Key, cvs: Word, cvsHex: Option<Word>, cos: Word, secret: Word, sign: Sign, submitted: bool, generated: bool)

  type Records = map<Key, Record>

  function NewRecord(key: Key): Record {
    Record(key, ZERO, None, ZERO, ZERO, Sign("", "", ""), false, false)
  }

  /** SaveLeaderCommitData's last step before writing: the hex form follows a nonzero CVS. */
  function Prepared(rec: Record): Record {
    if rec.cvs != ZERO then rec.(cvsHex := Some(rec.cvs)) else rec
  }

  /** LoadLeaderCommitData: the hex form, when present, overrides the bytes. */
  function Loaded(rec: Record): Record {
    if rec.cvsHex.Some? then rec.(cvs := rec.cvsHex.value) else rec
  }

  function GetOrCreate(memory: Records, key: Key): Records {
    if key in memory then memory else memory[key := NewRecord(key)]
  }

  /** isMerkleRootSubmitted of the leader: some record of the round is marked. */
  predicate RootSubmitted(memory: Records, round: string) {
    exists k :: k in memory && k.round == round && memory[k].submitted
  }

  predicate HasCvs(memory: Records, key: Key) {
    key in memory && memory[key].cvs != ZERO
  }

  /** allCommitsReceivedUnlocked. */
  predicate AllReceived(memory: Records, activated: map<string, set<Address>>, round: string) {
    && round in activated && activated[round] != {}
    && (exists k :: k in memory && k.round == round)
    && forall op :: op in activated[round] ==> HasCvs(memory, Key(round, op))
  }

  /** No record of the round is marked as submitted. */
  ghost predicate Unmarked(memory: Records, round: string) {
    forall k :: k in memory && k.round == round ==> !memory[k].submitted
  }

  /** Every operator of the round, and there is one, has a CVS. */
  ghost predicate EveryCvs(memory: Records, activated: map<string, set<Address>>, round: string) {
    && round in activated && activated[round] != {}
    && forall op :: op in activated[round] ==> Key(round, op) in memory && memory[Key(round, op)].cvs != ZERO
  }

  lemma EveryCvsIsReceived(memory: Records, activated: map<string, set<Address>>, round: string)
    ensures AllReceived(memory, activated, round) <==> EveryCvs(memory, activated, round)
  {
    if EveryCvs(memory, activated, round) {
      var op :| op in activated[round];
      assert Key(round, op) in memory && HasCvs(memory, Key(round, op));
    }
  }

  predicate AllCvs(memory: Records, round: string, ops: seq<Address>) {
    forall i :: 0 <= i < |ops| ==> HasCvs(memory, Key(round, ops[i]))
  }

  /** The leaves, in the order of the operator list. */
  function CvsOf(memory: Records, round: string, ops: seq<Address>): (leaves: seq<Word>)
    requires AllCvs(memory, round, ops)
    ensures |leaves| == |ops|
    ensures forall i :: 0 <= i < |leaves| ==> leaves[i] == memory[Key(round, ops[i])].cvs
  {
    seq(|ops|, i requires 0 <= i < |ops| => memory[Key(round, ops[i])].cvs)
  }

  /** The records of the listed operators in the file. */
  predicate InFile(file: Records, round: string, ops: seq<Address>) {
    forall i :: 0 <= i < |ops| ==> Key(round, ops[i]) in file
  }

  function FileRecords(file: Records, round: string, ops: seq<Address>): (recs: seq<Record>)
    requires InFile(file, round, ops)
    ensures |recs| == |ops|
    ensures forall i :: 0 <= i < |recs| ==> recs[i] == Loaded(file[Key(round, ops[i])])
  {
    seq(|ops|, i requires 0 <= i < |ops| => Loaded(file[Key(round, ops[i])]))
  }

  function CosOf(records: seq<Record>): (ws: seq<Word>)
    ensures |ws| == |records|
    ensures forall i :: 0 <= i < |ws| ==> ws[i] == records[i].cos
  {
    seq(|records|, i requires 0 <= i < |records| => records[i].cos)
  }

  function EoasOf(records: seq<Record>): (eoas: seq<Address>)
    ensures |eoas| == |records|
    ensures forall i :: 0 <= i < |eoas| ==> eoas[i] == records[i].key.eoa
  {
    seq(|records|, i requires 0 <= i < |records| => records[i].key.eoa)
  }

  /** These are the COS values that the file holds for the listed operators. */
  ghost predicate CosInFile(file: Records, round: string, ops: seq<Address>, cs: seq<Word>) {
    && |cs| == |ops|
    && forall i :: 0 <= i < |ops| ==> Key(round, ops[i]) in file && cs[i] == file[Key(round, ops[i])].cos
  }

  /** The operators' records in the file hold a COS each. */
  ghost predicate AllRevealed(file: Records, activated: map<string, set<Address>>, round: string) {
    && round in activated && activated[round] != {}
    && forall op :: op in activated[round] ==> Key(round, op) in file && Loaded(file[Key(round, op)]).cos != ZERO
  }

  /** The list enumerates the round's operators, each once. */
  ghost predicate Enumerates(activated: map<string, set<Address>>, round: string, ops: seq<Address>) {
    && round in activated
    && (forall a :: a in ops <==> a in activated[round])
    && forall i, j :: 0 <= i < j < |ops| ==> ops[i] != ops[j]
  }

  /** The list without address(0), in order. */
  function NonZero(ops: seq<Address>): seq<Address> {
    if ops == [] then []
    else (if ops[0] != 0 then [ops[0]] else []) + NonZero(ops[1..])
  }

  /** What filtering keeps: exactly the nonzero entries. */
  lemma {:induction false} NonZeroKeeps(operators: seq<Address>)
    ensures forall a :: a in NonZero(operators) <==> a != 0 && a in operators
    ensures 0 !in operators ==> NonZero(operators) == operators
  {
    if operators != [] {
      NonZeroKeeps(operators[1..]);
      assert operators == [operators[0]] + operators[1..];
      if 0 !in operators {
        assert operators[0] in operators && 0 !in operators[1..];
      }
    }
  }

  /** And their order: what is filtered of two parts follows one another. */
  lemma {:induction false} NonZeroOfBoth(a: seq<Address>, b: seq<Address>)
    ensures NonZero(a + b) == NonZero(a) + NonZero(b)
  {
    if a == [] {
      assert a + b == b;
    } else {
      var head := if a[0] != 0 then [a[0]] else [];
      assert (a + b)[0] == a[0] && (a + b)[1..] == a[1..] + b;
      NonZeroOfBoth(a[1..], b);
      assert head + (NonZero(a[1..]) + NonZero(b)) == (head + NonZero(a[1..])) + NonZero(b);
    }
  }

  lemma NonZeroOfOne(op: Address)
    ensures NonZero([op]) == if op != 0 then [op] else []
  {
    assert [op][1..] == [];
  }

  function Completed(records: Records, round: string): Records {
    map k | k in records :: if records[k].key.round == round then records[k].(generated := true) else records[k]
  }

  // ---------------------------------------------------------------------
  // Marking a round as submitted

  function OfRound(memory: Records, round: string): (keys: set<Key>)
    ensures keys <= memory.Keys
  {
    set k | k in memory && k.round == round
  }

  function MarkedIf(rec: Record, marked: bool): Record {
    if marked then rec.(submitted := true) else rec
  }

  /** Memory after updateCommitDataAfterSubmit went over `done`; `saves` says which file writes succeed. */
  function MarkedMemory(memory: Records, done: set<Key>, saves: Key -> bool): Records {
    map k | k in memory :: MarkedIf(memory[k], k in done && saves(k))
  }

  /** And the file. */
  function MarkedFile(memory: Records, file: Records, done: set<Key>, saves: Key -> bool): Records
    requires done <= memory.Keys
  {
    map k | k in file.Keys + done && (k in file || saves(k)) ::
      if k in done && saves(k) then Prepared(MarkedIf(memory[k], true)) else file[k]
  }

  lemma MarkedOneMore(memory: Records, file: Records, done: set<Key>, k: Key, saves: Key -> bool)
    requires done <= memory.Keys && k in memory && k !in done
    ensures var memory1, file1 := MarkedMemory(memory, done, saves), MarkedFile(memory, file, done, saves);
            var rec := MarkedIf(memory[k], true);
            && k in memory1 && memory1[k] == memory[k]
            && MarkedMemory(memory, done + {k}, saves) == (if saves(k) then memory1[k := rec] else memory1)
            && MarkedFile(memory, file, done + {k}, saves) == (if saves(k) then file1[k := Prepared(rec)] else file1)
  {
    hide Prepared;
    assert MarkedMemory(memory, done, saves)[k] == memory[k];
  }

  lemma MarkedNone(memory: Records, file: Records, saves: Key -> bool)
    ensures MarkedMemory(memory, {}, saves) == memory && MarkedFile(memory, file, {}, saves) == file
  {}

  /** Exactly the round's records whose write succeeds are marked, in memory and file; all else stays. */
  lemma MarkedInWords(memory: Records, file: Records, round: string, saves: Key -> bool)
    ensures var all := OfRound(memory, round);
            var memory1, file1 := MarkedMemory(memory, all, saves), MarkedFile(memory, file, all, saves);
            && memory1.Keys == memory.Keys
            && (forall k :: k in memory1 ==>
                  && memory1[k].submitted == (memory[k].submitted || (k.round == round && saves(k)))
                  && memory1[k].(submitted := memory[k].submitted) == memory[k])
            && (forall k :: k in memory1 && k.round == round && saves(k) ==>
                  k in file1 && file1[k].submitted && file1[k].(cvsHex := memory1[k].cvsHex) == memory1[k])
            && (forall k :: k in file && !(k in memory1 && k.round == round && saves(k)) ==>
                  k in file1 && file1[k] == file[k])
  {}

  // ---------------------------------------------------------------------
  // What holds of a record, and how a record may change

  /** A stored COS opens the stored CVS, and the hex form agrees with the bytes. */
  predicate Opens(keccak: Hash, rec: Record) {
    && (rec.cos != ZERO ==> rec.cvs != ZERO && keccak(rec.cos) == rec.cvs)
    && (rec.cvsHex.Some? ==> rec.cvsHex.value == rec.cvs)
  }

  ghost predicate AllOpen(keccak: Hash, records: Records) {
    forall k :: k in records ==> records[k].key == k && Opens(keccak, records[k])
  }

  /** Once set, CVS, COS and the submitted mark stay. */
  ghost predicate Forward(rec: Record, rec': Record) {
    && rec'.key == rec.key
    && (rec.cvs != ZERO ==> rec'.cvs == rec.cvs)
    && (rec.cos != ZERO ==> rec'.cos == rec.cos)
    && (rec.submitted ==> rec'.submitted)
  }

  ghost predicate AllForward(memory: Records, memory': Records) {
    forall k :: k in memory ==> k in memory' && Forward(memory[k], memory'[k])
  }

  lemma ForwardTransitive(a: Records, b: Records, c: Records)
    requires AllForward(a, b) && AllForward(b, c)
    ensures AllForward(a, c)
  {
    forall k | k in a ensures k in c && Forward(a[k], c[k]) {
      assert Forward(a[k], b[k]) && Forward(b[k], c[k]);
    }
  }

  /** Leaves read once stay the leaves of every later memory. */
  lemma LeavesStay(memory: Records, memory': Records, round: string, ops: seq<Address>)
    requires AllForward(memory, memory') && AllCvs(memory, round, ops)
    ensures AllCvs(memory', round, ops) && CvsOf(memory', round, ops) == CvsOf(memory, round, ops)
  {
    forall i | 0 <= i < |ops|
      ensures HasCvs(memory', Key(round, ops[i])) && memory'[Key(round, ops[i])].cvs == memory[Key(round, ops[i])].cvs
    {
      assert HasCvs(memory, Key(round, ops[i]));
    }
  }
}
