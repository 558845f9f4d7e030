/** From the leader's leaves and the monitor's arrays to the contract's checks. */
module EndToEnd {
  import opened Words
  import opened Operators
  import opened Contract
  import opened LeaderStore
  import opened RevealOrder
  import Merkle
  import Leader
  import LeaderSafety
  import Monitor

  /** Operator i is honest: its secret is stored, and its CVS in memory is the double hash of it. */
  ghost predicate Honest(keccak: Hash, memory: Records, commits: Records, key: Key) {
    && key in memory && key in commits
    && commits[key].secret != ZERO
    && memory[key].cvs == keccak(keccak(commits[key].secret))
  }

  /** Its stored signature is complete, low-s, and recovers to the operator over its CVS. */
  ghost predicate SignsFor(chain: Chain, parser: Monitor.Parser, commits: Records, cvs: Word, key: Key, round: nat)
    requires key in commits
  {
    var sign := commits[key].sign;
    && Monitor.Signed(parser, sign)
    && Uint(parser.hash(sign.s)) <= MAX_S
    && chain.recover(round, cvs, parser.v(sign.v).value, parser.hash(sign.r), parser.hash(sign.s)) == key.eoa
  }

  /** The secrets the monitor collects hash twice to the leaves the leader hashed. */
  lemma SameLeaves(
      parser: Monitor.Parser, keccak: Hash, memory: Records, commits: Records, name: string, ops: seq<Address>,
      a: Monitor.Arrays)
    requires AllCvs(memory, name, ops) && Monitor.Aligned(parser, commits, name, ops, a)
    requires forall i :: 0 <= i < |ops| ==> Honest(keccak, memory, commits, Key(name, ops[i]))
    ensures Leaves(keccak, a.secrets) == CvsOf(memory, name, ops)
  {
    var leaves := Leaves(keccak, a.secrets);
    forall i | 0 <= i < |ops| ensures leaves[i] == CvsOf(memory, name, ops)[i] {
      assert Honest(keccak, memory, commits, Key(name, ops[i]));
    }
  }

  /**
   * If the contract holds for the round a root that the leader computed, the operator list is
   * the round's snapshot, and every operator is honest and signed, then whatever the monitor
   * collected for these operators passes the Merkle check and every signature check.
   */
  lemma CollectedDataVerifies(
      env: Leader.Env, chain: Chain, parser: Monitor.Parser, memory: Records, commits: Records,
      s: Storage, round: nat, sub: Leader.Submission, a: Monitor.Arrays)
    requires chain.keccak == env.keccak && Sound(s) && round in s.snapshots
    requires sub.operators == NonZero(s.snapshots[round])
    requires LeaderSafety.RootMatches(env, memory, sub) && RoundAt(s, round).merkleRoot == sub.root
    requires Monitor.Aligned(parser, commits, sub.round, sub.operators, a)
    requires forall i :: 0 <= i < |sub.operators| ==>
               && Honest(chain.keccak, memory, commits, Key(sub.round, sub.operators[i]))
               && SignsFor(chain, parser, commits, memory[Key(sub.round, sub.operators[i])].cvs,
                           Key(sub.round, sub.operators[i]), round)
    ensures Verified(chain, s, round, a.secrets, a.vs, a.rs, a.ss)
  {
    var ops := sub.operators;
    SameLeaves(parser, chain.keccak, memory, commits, sub.round, ops, a);
    var leaves := Leaves(chain.keccak, a.secrets);
    assert Merkle.Root(chain.keccak, leaves) == Some(sub.root);
    hide Sound, Merkle.Root, LeaderSafety.RootMatches, NonZero, Honest;
    forall i | 0 <= i < |leaves|
      ensures SignatureOk(chain, PlacesAt(s, round), round, leaves[i], a.vs[i], a.rs[i], a.ss[i])
    {
      assert leaves[i] == memory[Key(sub.round, ops[i])].cvs;
      SnapshotPlaces(s, round, ops[i]);
      assert SignsFor(chain, parser, commits, memory[Key(sub.round, ops[i])].cvs, Key(sub.round, ops[i]), round);
    }
  }

  lemma SnapshotPlaces(s: Storage, round: nat, op: Address)
    requires Sound(s) && round in s.snapshots && op in NonZero(s.snapshots[round])
    ensures Of(PlacesAt(s, round), op) > 0
  {
    assert RoundRecorded(s, round);
    NonZeroKeeps(s.snapshots[round]);
    var j :| 0 <= j < |s.snapshots[round]| && s.snapshots[round][j] == op;
  }

  /**
   * The whole protocol: whatever the leader's threads did, a root that it handed over and that
   * an operator put on chain for the round lets the monitor's data through every check, so
   * that the settlement alone decides whether the call succeeds.
   */
  lemma ProtocolCompletes(
      env: Leader.Env, chain: Chain, parser: Monitor.Parser,
      started: Records, orders: map<string, RevealData>, schedule: seq<(nat, Leader.Outcome)>, i: nat,
      s: Storage, sender: Sender, round: nat, success: bool)
    requires AllOpen(env.keccak, started) && chain.keccak == env.keccak
    requires Sound(s) && round in s.snapshots && Of(PlacesAt(s, round), sender) > 0
    requires var sh := Leader.Run(env, LeaderSafety.Started(started, orders), schedule).shared;
             && i < |sh.roots|
             && sh.roots[i].operators == NonZero(s.snapshots[round])
             && forall k :: 0 <= k < |sh.roots[i].operators| ==>
                  var key := Key(sh.roots[i].round, sh.roots[i].operators[k]);
                  && Honest(chain.keccak, sh.memory, sh.file, key)
                  && SignsFor(chain, parser, sh.file, sh.memory[key].cvs, key, round)
    ensures var sh := Leader.Run(env, LeaderSafety.Started(started, orders), schedule).shared;
            var sub := sh.roots[i];
            && SubmitRootBy(s, sender, round, sub.root).Some?
            && Monitor.AllUsable(parser, sh.file, sub.round, sub.operators)
            && forall a :: Monitor.Aligned(parser, sh.file, sub.round, sub.operators, a) ==>
                 var s1 := SubmitRootBy(s, sender, round, sub.root).value;
                 GenerateBy(chain, s1, round, a.secrets, a.vs, a.rs, a.ss, Some(success))
                 == Settle(Fulfilled(chain, s1, round, a.secrets, success), round)
  {
    LeaderSafety.StartedInv(env, started, orders);
    LeaderSafety.RunKept(env, LeaderSafety.Started(started, orders), schedule);
    var sh := Leader.Run(env, LeaderSafety.Started(started, orders), schedule).shared;
    var sub := sh.roots[i];
    assert LeaderSafety.RootMatches(env, sh.memory, sub);
    var s1 := SubmitRootBy(s, sender, round, sub.root).value;
    SameSound(s, s1);
    hide Leader.Run, LeaderSafety.Inv, LeaderSafety.RootMatches, Sound, Verified, Settle, Monitor.Aligned;
    forall k | 0 <= k < |sub.operators| ensures Monitor.Usable(parser, sh.file, Key(sub.round, sub.operators[k])) {
      assert Honest(chain.keccak, sh.memory, sh.file, Key(sub.round, sub.operators[k]));
    }
    hide Honest, SignsFor;
    forall a | Monitor.Aligned(parser, sh.file, sub.round, sub.operators, a)
      ensures Verified(chain, s1, round, a.secrets, a.vs, a.rs, a.ss)
    {
      CollectedDataVerifies(env, chain, parser, sh.memory, sh.file, s1, round, sub, a);
    }
  }

  // ---------------------------------------------------------------------
  // Binding

  /**
   * With a root built from the CVS of n operators, each the hash of a COS, the contract accepts
   * only n secrets, and secret i opens leaf i: its hash is COS i and its double hash is CVS i.
   * The hash need only be collision free on the strings that the two trees hash.
   */
  lemma AcceptedSecretsOpenLeaves(
      chain: Chain, s: Storage, round: nat, secrets: seq<Word>, vs: seq<Byte>, rs: seq<Word>, ss: seq<Word>,
      coses: seq<Word>)
    requires |coses| >= 2 && Verified(chain, s, round, secrets, vs, rs, ss)
    requires Merkle.Root(chain.keccak, Merkle.Hashed(chain.keccak, coses)) == Some(RoundAt(s, round).merkleRoot)
    requires CollisionFree(chain.keccak,
               Merkle.OpenedInputs(chain.keccak, coses)
               + (if |secrets| < 2 then {}
                  else Merkle.OpenedInputs(chain.keccak, Merkle.Hashed(chain.keccak, secrets))))
    ensures |secrets| == |coses|
    ensures forall i :: 0 <= i < |secrets| ==>
              && chain.keccak(secrets[i]) == coses[i]
              && chain.keccak(chain.keccak(secrets[i])) == Merkle.Hashed(chain.keccak, coses)[i]
  {
    hide Merkle.OpenedInputs, Merkle.Reduce;
    var hashed := Merkle.Hashed(chain.keccak, secrets);
    assert |secrets| >= 2;
    Merkle.EqualRootsEqualOpenings(chain.keccak, hashed, coses);
  }

  /**
   * For leaves of unknown origin the same holds as soon as there are no more secrets than leaves:
   * fewer are never accepted, and RootForgetsLength shows how more can be.
   */
  lemma AcceptedSecretsOpenEqualLeaves(
      chain: Chain, s: Storage, round: nat, secrets: seq<Word>, vs: seq<Byte>, rs: seq<Word>, ss: seq<Word>,
      leaves: seq<Word>)
    requires 2 <= |secrets| <= |leaves| && Verified(chain, s, round, secrets, vs, rs, ss)
    requires Merkle.Root(chain.keccak, leaves) == Some(RoundAt(s, round).merkleRoot)
    requires CollisionFree(chain.keccak,
               Merkle.PairInputs(chain.keccak, leaves)
               + Merkle.OpenedInputs(chain.keccak, Merkle.Hashed(chain.keccak, secrets)))
    ensures leaves == Leaves(chain.keccak, secrets)
  {
    hide Merkle.PairInputs, Merkle.Reduce;
    if |secrets| < |leaves| {
      Merkle.LeafIsNotInner(chain.keccak, Merkle.Hashed(chain.keccak, secrets), leaves);
    } else {
      Merkle.EqualRootsEqualLeaves(chain.keccak, Leaves(chain.keccak, secrets), leaves);
    }
  }
}
