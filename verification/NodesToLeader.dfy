/** What regular nodes send is what the leader stores and the contract accepts. */
module NodesToLeader {
  import opened Words
  import opened Operators
  import opened Contract
  import opened LeaderStore
  import opened LeaderSources
  import opened Commitments
  import Leader
  import LeaderSafety
  import Monitor
  import EndToEnd
  import RevealOrder
  import RegularNodes

  /** A node's identity and what has happened around it since it started with an empty store. */
  datatype History = History(id: RegularNodes.Identity, events: seq<RegularNodes.Event>)

  type Histories = map<Address, History>

  function NodeAfter(h: History): RegularNodes.Node {
    RegularNodes.Run(h.id, RegularNodes.Node(map[], []), h.events)
  }

  /** The commitments that the nodes keep. */
  function SourceOf(nodes: Histories): Source {
    (key: Key) =>
      if key.eoa in nodes && key.round in NodeAfter(nodes[key.eoa]).commits
      then NodeAfter(nodes[key.eoa]).commits[key.round].commit
      else Commit(ZERO, ZERO, ZERO)
  }

  /** The message under a key was sent by the node of that key. */
  ghost predicate SentBy(nodes: Histories, pc: Leader.Pc) {
    pc.CommitArrived? || pc.CosArrived? || pc.SecretArrived? ==>
      && pc.key.eoa in nodes
      && exists m :: m in NodeAfter(nodes[pc.key.eoa]).sent && Carries(m, pc)
  }

  /** The leader's message is the node's. */
  predicate Carries(m: RegularNodes.Message, pc: Leader.Pc)
    requires pc.CommitArrived? || pc.CosArrived? || pc.SecretArrived?
  {
    && m.round == pc.key.round
    && match m
       case CvsMessage(_, cvs, _) => pc.CommitArrived? && pc.cvs == cvs
       case CosMessage(_, cos) => pc.CosArrived? && pc.cos == cos
       case SecretMessage(_, secret) => pc.SecretArrived? && pc.secret == secret
  }

  ghost predicate SameHash(keccak: Hash, nodes: Histories) {
    forall a :: a in nodes ==> nodes[a].id.keccak == keccak
  }

  lemma NodeIsGood(h: History)
    ensures RegularNodes.Good(h.id.keccak, NodeAfter(h))
  {
    RegularNodes.OneCommitmentPerRound(h.id, RegularNodes.Node(map[], []), h.events);
  }

  lemma SentIsDelivered(nodes: Histories, pc: Leader.Pc)
    requires SentBy(nodes, pc)
    ensures Delivers(SourceOf(nodes), pc)
  {
    if pc.CommitArrived? || pc.CosArrived? || pc.SecretArrived? {
      var n := NodeAfter(nodes[pc.key.eoa]);
      NodeIsGood(nodes[pc.key.eoa]);
      hide NodeAfter;
      var m :| m in n.sent && Carries(m, pc);
      var i :| 0 <= i < |n.sent| && n.sent[i] == m;
      assert RegularNodes.FromStore(n.commits, n.sent[i]);
    }
  }

  lemma SourceChains(keccak: Hash, nodes: Histories, key: Key)
    requires SameHash(keccak, nodes) && SourceOf(nodes)(key).secret != ZERO
    ensures var c := SourceOf(nodes)(key); c.cvs == keccak(keccak(c.secret))
  {
    NodeIsGood(nodes[key.eoa]);
    hide NodeAfter;
  }

  /** Every message of the schedule was sent by the node it names. */
  ghost predicate AllSent(nodes: Histories, schedule: seq<(nat, Leader.Outcome)>) {
    forall i :: 0 <= i < |schedule| && schedule[i].1.Arrival? ==> SentBy(nodes, schedule[i].1.pc)
  }

  /**
   * Under every interleaving, a stored secret and a CVS that the leader holds for the same key
   * belong together: the CVS is the double hash of the secret.
   */
  lemma StoredSecretIsHonest(
      env: Leader.Env, nodes: Histories, started: Records, orders: map<string, RevealOrder.RevealData>,
      schedule: seq<(nat, Leader.Outcome)>, key: Key)
    requires SameHash(env.keccak, nodes) && AllSent(nodes, schedule) && AllFrom(SourceOf(nodes), started)
    requires var sh := Leader.Run(env, LeaderSafety.Started(started, orders), schedule).shared;
             HasCvs(sh.memory, key) && key in sh.file && sh.file[key].secret != ZERO
    ensures var sh := Leader.Run(env, LeaderSafety.Started(started, orders), schedule).shared;
            EndToEnd.Honest(env.keccak, sh.memory, sh.file, key)
  {
    var source := SourceOf(nodes);
    forall i | 0 <= i < |schedule| && schedule[i].1.Arrival? ensures Delivers(source, schedule[i].1.pc) {
      SentIsDelivered(nodes, schedule[i].1.pc);
    }
    hide SourceOf, Delivers;
    ValuesComeFromSource(env, source, LeaderSafety.Started(started, orders), schedule);
    var sh := Leader.Run(env, LeaderSafety.Started(started, orders), schedule).shared;
    hide Leader.Run;
    assert FromSource(source, sh.memory[key]) && FromSource(source, sh.file[key]);
    SourceChains(env.keccak, nodes, key);
  }

  /**
   * The whole protocol, from the nodes on: if the messages are the nodes' own, then for a root that
   * the leader handed over and an operator put on chain it is enough that every operator's
   * secret and a signature of its CVS are stored; the data then passes every check.
   */
  lemma ProtocolCompletesForNodes(
      env: Leader.Env, chain: Chain, parser: Monitor.Parser, nodes: Histories,
      started: Records, orders: map<string, RevealOrder.RevealData>, schedule: seq<(nat, Leader.Outcome)>, i: nat,
      s: Storage, sender: Sender, round: nat, success: bool)
    requires AllOpen(env.keccak, started) && chain.keccak == env.keccak
    requires SameHash(env.keccak, nodes) && AllSent(nodes, schedule) && AllFrom(SourceOf(nodes), started)
    requires Sound(s) && round in s.snapshots && Of(PlacesAt(s, round), sender) > 0
    requires var sh := Leader.Run(env, LeaderSafety.Started(started, orders), schedule).shared;
             && i < |sh.roots|
             && sh.roots[i].operators == NonZero(s.snapshots[round])
             && forall k :: 0 <= k < |sh.roots[i].operators| ==>
                  var key := Key(sh.roots[i].round, sh.roots[i].operators[k]);
                  && key in sh.file && sh.file[key].secret != ZERO
                  && (key in sh.memory ==>
                        EndToEnd.SignsFor(chain, parser, sh.file, sh.memory[key].cvs, key, round))
    ensures var sh := Leader.Run(env, LeaderSafety.Started(started, orders), schedule).shared;
            var sub := sh.roots[i];
            && SubmitRootBy(s, sender, round, sub.root).Some?
            && Monitor.AllUsable(parser, sh.file, sub.round, sub.operators)
            && forall a :: Monitor.Aligned(parser, sh.file, sub.round, sub.operators, a) ==>
                 var s1 := SubmitRootBy(s, sender, round, sub.root).value;
                 GenerateBy(chain, s1, round, a.secrets, a.vs, a.rs, a.ss, Some(success))
                 == Settle(Fulfilled(chain, s1, round, a.secrets, success), round)
  {
    var start := LeaderSafety.Started(started, orders);
    LeaderSafety.StartedInv(env, started, orders);
    LeaderSafety.RunKept(env, start, schedule);
    var sh := Leader.Run(env, start, schedule).shared;
    var sub := sh.roots[i];
    assert LeaderSafety.RootMatches(env, sh.memory, sub);
    hide Leader.Run, LeaderSafety.Inv, Sound, SameHash, AllSent, AllFrom, SourceOf, EndToEnd.Honest, EndToEnd.SignsFor;
    forall k | 0 <= k < |sub.operators|
      ensures EndToEnd.Honest(chain.keccak, sh.memory, sh.file, Key(sub.round, sub.operators[k]))
    {
      assert HasCvs(sh.memory, Key(sub.round, sub.operators[k]));
      StoredSecretIsHonest(env, nodes, started, orders, schedule, Key(sub.round, sub.operators[k]));
    }
    hide LeaderSafety.RootMatches, Settle, Monitor.Aligned, SubmitRootBy, GenerateBy;
    EndToEnd.ProtocolCompletes(env, chain, parser, started, orders, schedule, i, s, sender, round, success);
  }
}
