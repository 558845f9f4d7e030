/**
 * The leader as a set of threads over shared state. A step is one critical section, one
 * decode or one write of a file, or one transaction; a schedule picks the thread and the
 * outcome of each step, so every schedule is an interleaving. A step that is not possible
 * (the lock is taken, the outcome does not fit) changes nothing.
 */
module Leader {
  import opened Words
  import opened Operators
  import opened Sorting
  import opened LeaderStore
  import opened RevealOrder
  import Merkle

  datatype Env = Env(keccak: Hash, sort: Sorter)

  datatype Submission = Submission(round: string, operators: seq<Address>, root: Word)

  /** What one run of DetermineRevealOrder read before it stored a round. */
  datatype Evidence = Evidence(operators: set<Address>, records: seq<Record>)

  /**
   * `roots`, `evidence`, `stored` (the reveal orders found at the beginning) and `starts` (the rounds
   * whose requests were started, in order) are history.
   */
  datatype Shared = Shared(
    lock: Option<nat>,
    memory: Records,
    activated: map<string, set<Address>>,
    file: Records,
    orders: map<string, RevealData>,
    roots: seq<Submission>,
    evidence: map<string, Evidence>,
    stored: map<string, RevealData>,
    starts: seq<string>)

  /** Who called generateMerkleRoot. */
  datatype Caller = FromCommit | FromCos(round: string) | FromPoll

  /** What follows a SaveLeaderCommitData. */
  datatype After = AfterCommit | AfterCos | AfterMark(round: string, todo: set<Key>, caller: Caller) | AfterSecret

  datatype Pc =
    | Idle
    | CommitArrived(key: Key, cvs: Word, sign: Sign)
    | CosArrived(key: Key, cos: Word)
    | SecretArrived(key: Key, secret: Word)
    | RoundPolled(round: string, operators: set<Address>, pending: bool)
    | PollChecking(round: string)
    | Saving(rec: Record, after: After)
    | Decoded(rec: Record, seen: Records, after: After)
    | RootChecking(round: string, caller: Caller)
    | RootFetching(round: string, caller: Caller)
    | RootReady(round: string, ops: seq<Address>, leaves: seq<Word>, caller: Caller)
    | RootAccepted(round: string, caller: Caller)
    | Marking(round: string, todo: set<Key>, caller: Caller)
    | Returning(caller: Caller)
    | OrderStarting(round: string)
    | OrderLoading(round: string, seenOrders: map<string, RevealData>, left: set<Address>, loaded: seq<Record>)
    | MonitorRead(seen: Records)

  datatype Outcome =
    | Success
    | Failure
    | Arrival(pc: Pc)
    | Fetched(operators: seq<Address>)
    | PickKey(key: Key)
    | PickOperator(op: Address)
    | RoundDone(round: string)

  datatype State = State(shared: Shared, threads: map<nat, Pc>)

  function PcOf(s: State, t: nat): Pc {
    if t in s.threads then s.threads[t] else Idle
  }

  predicate Holds(pc: Pc) {
    || (pc.Saving? && !pc.after.AfterSecret?)
    || (pc.Decoded? && !pc.after.AfterSecret?)
    || pc.Marking? || pc.OrderStarting? || pc.OrderLoading?
  }

  /** What may reach an idle thread. */
  predicate IsMessage(pc: Pc) {
    pc.CommitArrived? || pc.CosArrived? || pc.SecretArrived? || pc.RoundPolled?
  }

  // ---------------------------------------------------------------------
  // Steps of one thread

  function Unlock(sh: Shared): Shared {
    sh.(lock := None)
  }

  /** StartSecretValueRequests follows every DetermineRevealOrder that returns no error. */
  function WithStart(sh: Shared, round: string): Shared {
    sh.(starts := sh.starts + [round])
  }

  /** handleCommitRequest up to its file save. */
  function CommitStep(sh: Shared, t: nat, pc: Pc): (Shared, Pc)
    requires pc.CommitArrived?
  {
    var memory := GetOrCreate(sh.memory, pc.key);
    var data := memory[pc.key];
    var data' := if data.cvs == ZERO then data.(cvs := pc.cvs, cvsHex := Some(pc.cvs), sign := pc.sign) else data;
    (sh.(lock := Some(t), memory := memory), Saving(data', AfterCommit))
  }

  /** handleCOSRequest up to its file save, or its rejection. */
  function CosStep(env: Env, sh: Shared, t: nat, pc: Pc): (Shared, Pc)
    requires pc.CosArrived?
  {
    var memory := GetOrCreate(sh.memory, pc.key);
    var data := memory[pc.key];
    if data.cvs == ZERO || env.keccak(pc.cos) != data.cvs || data.cos != ZERO then (sh.(memory := memory), Idle)
    else (sh.(lock := Some(t), memory := memory), Saving(data.(cos := pc.cos), AfterCos))
  }

  /** Both handlers once their record is saved: update memory, then see whether a root is due. */
  function StoreStep(sh: Shared, t: nat, rec: Record, cos: bool): (Shared, Pc) {
    var memory := sh.memory[rec.key := rec];
    var sh' := sh.(memory := memory);
    var round := rec.key.round;
    if !RootSubmitted(memory, round) && AllReceived(memory, sh.activated, round) then
      (Unlock(sh'), RootChecking(round, if cos then FromCos(round) else FromCommit))
    else if cos && AllReceived(memory, sh.activated, round) then (sh', OrderStarting(round))
    else (Unlock(sh'), Idle)
  }

  function SavedStep(sh: Shared, t: nat, rec: Record, after: After, ok: bool): (Shared, Pc) {
    match after
    case AfterSecret => (sh, Idle)
    case AfterMark(round, todo, caller) =>
      (if ok then sh.(memory := sh.memory[rec.key := rec]) else sh, Marking(round, todo, caller))
    case AfterCommit => if ok then StoreStep(sh, t, rec, false) else (Unlock(sh), Idle)
    case AfterCos => if ok then StoreStep(sh, t, rec, true) else (Unlock(sh), Idle)
  }

  /** AcceptSecretValue up to its file save; an unreadable record is replaced by a new one. */
  function SecretStep(sh: Shared, pc: Pc, ok: bool): (Shared, Pc)
    requires pc.SecretArrived?
  {
    var rec := if ok && pc.key in sh.file then Loaded(sh.file[pc.key]) else NewRecord(pc.key);
    (sh, Saving(rec.(secret := pc.secret), AfterSecret))
  }

  /** generateMerkleRoot after the operator list arrived. */
  function CollectStep(sh: Shared, pc: Pc, operators: seq<Address>): (Shared, Pc)
    requires pc.RootFetching?
  {
    var ops := NonZero(operators);
    if ops == [] || !AllCvs(sh.memory, pc.round, ops) then (sh, Returning(pc.caller))
    else (sh, RootReady(pc.round, ops, CvsOf(sh.memory, pc.round, ops), pc.caller))
  }

  /** CreateMerkleTree, then the transaction; a failed one may still have reached the chain. */
  function SubmitStep(env: Env, sh: Shared, pc: Pc, ok: bool): (Shared, Pc)
    requires pc.RootReady?
  {
    var root := Merkle.Root(env.keccak, pc.leaves);
    if root.None? then (sh, Returning(pc.caller))
    else
      (sh.(roots := sh.roots + [Submission(pc.round, pc.ops, root.value)]),
       if ok then RootAccepted(pc.round, pc.caller) else Returning(pc.caller))
  }

  function MarkStep(sh: Shared, pc: Pc, key: Key): (Shared, Pc)
    requires pc.Marking? && key in pc.todo
  {
    if key !in sh.memory then (sh, pc)
    else (sh, Saving(sh.memory[key].(submitted := true), AfterMark(pc.round, pc.todo - {key}, pc.caller)))
  }

  /** A handler that takes the lock again after generateMerkleRoot. */
  function ReturnStep(sh: Shared, t: nat, pc: Pc): (Shared, Pc)
    requires pc.Returning?
  {
    if pc.caller.FromCos? && AllReceived(sh.memory, sh.activated, pc.caller.round) then
      (sh.(lock := Some(t)), OrderStarting(pc.caller.round))
    else (sh, Idle)
  }

  function OrderStartStep(sh: Shared, pc: Pc): (Shared, Pc)
    requires pc.OrderStarting?
  {
    if pc.round in sh.orders then (Unlock(WithStart(sh, pc.round)), Idle)
    else if pc.round !in sh.activated || sh.activated[pc.round] == {} then (Unlock(sh), Idle)
    else (sh, OrderLoading(pc.round, sh.orders, sh.activated[pc.round], []))
  }

  function OrderLoadStep(sh: Shared, pc: Pc, op: Address): (Shared, Pc)
    requires pc.OrderLoading? && op in pc.left
  {
    var key := Key(pc.round, op);
    if key !in sh.file || Loaded(sh.file[key]).cos == ZERO then (Unlock(sh), Idle)
    else (sh, pc.(left := pc.left - {op}, loaded := pc.loaded + [Loaded(sh.file[key])]))
  }

  function OrderStoreStep(env: Env, sh: Shared, pc: Pc): (Shared, Pc)
    requires pc.OrderLoading?
  {
    var data := Reveal(env.keccak, env.sort, CosOf(pc.loaded), EoasOf(pc.loaded));
    var proof := Evidence((set a | a in EoasOf(pc.loaded)), pc.loaded);
    var sh' := sh.(orders := pc.seenOrders[pc.round := data], evidence := sh.evidence[pc.round := proof]);
    (Unlock(WithStart(sh', pc.round)), Idle)
  }

  function PollStep(sh: Shared, pc: Pc): (Shared, Pc)
    requires pc.RoundPolled?
  {
    var known := if pc.round in sh.activated then sh.activated[pc.round] else {};
    (sh.(activated := sh.activated[pc.round := known + pc.operators]),
     if pc.pending then PollChecking(pc.round) else Idle)
  }

  /** One step of thread t. */
  function Move(env: Env, sh: Shared, t: nat, pc: Pc, o: Outcome): (Shared, Pc) {
    var free := sh.lock.None?;
    match pc
    case Idle =>
      if o.Arrival? && IsMessage(o.pc) then (sh, o.pc)
      else if o.Success? then (sh, MonitorRead(sh.file))
      else (sh, pc)
    case CommitArrived(_, _, _) => if free then CommitStep(sh, t, pc) else (sh, pc)
    case CosArrived(_, _) => if free then CosStep(env, sh, t, pc) else (sh, pc)
    case SecretArrived(_, _) => SecretStep(sh, pc, o.Success?)
    case RoundPolled(_, _, _) => if free then PollStep(sh, pc) else (sh, pc)
    case PollChecking(round) =>
      if !free then (sh, pc)
      else if AllReceived(sh.memory, sh.activated, round) then (sh, RootChecking(round, FromPoll))
      else (sh, Idle)
    case Saving(rec, after) =>
      if o.Success? then (sh, Decoded(rec, sh.file, after)) else SavedStep(sh, t, rec, after, false)
    case Decoded(rec, seen, after) =>
      if o.Success? then SavedStep(sh.(file := seen[rec.key := Prepared(rec)]), t, rec, after, true)
      else SavedStep(sh, t, rec, after, false)
    case RootChecking(round, caller) =>
      if !free then (sh, pc)
      else if RootSubmitted(sh.memory, round) then (sh, Returning(caller))
      else (sh, RootFetching(round, caller))
    case RootFetching(_, caller) =>
      if o.Fetched? && free then CollectStep(sh, pc, o.operators)
      else if o.Failure? then (sh, Returning(caller))
      else (sh, pc)
    case RootReady(_, _, _, _) => SubmitStep(env, sh, pc, o.Success?)
    case RootAccepted(round, caller) =>
      if free then (sh.(lock := Some(t)), Marking(round, OfRound(sh.memory, round), caller)) else (sh, pc)
    case Marking(_, todo, caller) =>
      if todo == {} then (Unlock(sh), Returning(caller))
      else if o.PickKey? && o.key in todo then MarkStep(sh, pc, o.key)
      else (sh, pc)
    case Returning(caller) => if caller.FromPoll? then (sh, Idle) else if free then ReturnStep(sh, t, pc) else (sh, pc)
    case OrderStarting(_) => if o.Success? then OrderStartStep(sh, pc) else (Unlock(sh), Idle)
    case OrderLoading(_, _, left, _) =>
      if o.Failure? then (Unlock(sh), Idle)
      else if left == {} then OrderStoreStep(env, sh, pc)
      else if o.PickOperator? && o.op in left then OrderLoadStep(sh, pc, o.op)
      else (sh, pc)
    case MonitorRead(seen) =>
      if o.RoundDone? then (sh.(file := Completed(seen, o.round)), Idle) else (sh, Idle)
  }

  function Step(env: Env, s: State, t: nat, o: Outcome): State {
    var (sh, pc) := Move(env, s.shared, t, PcOf(s, t), o);
    State(sh, s.threads[t := pc])
  }

  function Run(env: Env, s: State, schedule: seq<(nat, Outcome)>): State
    decreases |schedule|
  {
    if schedule == [] then s else Run(env, Step(env, s, schedule[0].0, schedule[0].1), schedule[1..])
  }
}
