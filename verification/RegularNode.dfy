/** A regular node: one commitment per round, kept in commits.json, and what it sends of it. */
module RegularNodes {
  import opened Words
  import opened Operators
  import opened Commitments

  datatype Sign = Sign(v: Byte, r: Word, s: Word)

  /** An entry of commits.json. */
  datatype Stored = Stored(round: string, commit: Commit, cosSent: bool, sign: Option<Sign>)

  /** A round as the subgraph reports it. */
  datatype RoundView = RoundView(round: string, operators: set<Address>, rootVisible: bool, numberVisible: bool)

  datatype Message =
    | CvsMessage(round: string, cvs: Word, sign: Sign)
    | CosMessage(round: string, cos: Word)
    | SecretMessage(round: string, secret: Word)

  /** `sent` lists the messages handed to a stream, in order; a stream may still fail. */
  datatype Node = Node(commits: map<string, Stored>, sent: seq<Message>)

  /** What happens around one poll of a round: file access, the clock, the signature. */
  datatype Input = Input(loads: bool, time: int, saves: bool, sign: Option<Sign>, savesSign: bool, savesFlag: bool)

  datatype Event = Polled(view: RoundView, input: Input) | SecretRequested(round: string, valid: bool)

  datatype Identity = Identity(keccak: Hash, parse: string -> Option<int>, address: Address, bytes: Bytes)

  // ---------------------------------------------------------------------
  // One event

  /** The branch that makes a commitment: store it, sign it, store the signature, send the CVS. */
  function MakeCommit(id: Identity, n: Node, view: RoundView, input: Input): Node {
    var number := id.parse(view.round);
    if number.None? || !input.saves then n
    else
      var commit := CommitOf(id.keccak, number.value, id.bytes, input.time);
      var made := Stored(view.round, commit, false, None);
      var kept := n.(commits := n.commits[view.round := made]);
      if input.sign.None? || !input.savesSign then kept
      else Node(kept.commits[view.round := made.(sign := input.sign)],
                n.sent + [CvsMessage(view.round, commit.cvs, input.sign.value)])
  }

  /** The branch that reveals the COS, and then notes that it did. */
  function RevealCos(n: Node, view: RoundView, input: Input): Node
    requires view.round in n.commits
  {
    var stored := n.commits[view.round];
    Node(if input.savesFlag then n.commits[stored.round := stored.(cosSent := true)] else n.commits,
         n.sent + [CosMessage(stored.round, stored.commit.cos)])
  }

  function Poll(id: Identity, n: Node, view: RoundView, input: Input): Node {
    if view.rootVisible && view.numberVisible then n
    else if id.address !in view.operators || !input.loads then n
    else if view.round !in n.commits then
      if !view.rootVisible && !view.numberVisible then MakeCommit(id, n, view, input) else n
    else if view.rootVisible && !view.numberVisible && !n.commits[view.round].cosSent then RevealCos(n, view, input)
    else n
  }

  function Answer(n: Node, round: string, valid: bool): Node {
    if !valid || round !in n.commits || n.commits[round].commit.secret == ZERO then n
    else n.(sent := n.sent + [SecretMessage(round, n.commits[round].commit.secret)])
  }

  function Step(id: Identity, n: Node, e: Event): Node {
    match e
    case Polled(view, input) => Poll(id, n, view, input)
    case SecretRequested(round, valid) => Answer(n, round, valid)
  }

  function Run(id: Identity, n: Node, events: seq<Event>): Node
    decreases |events|
  {
    if events == [] then n else Run(id, Step(id, n, events[0]), events[1..])
  }

  // ---------------------------------------------------------------------
  // The node as an object

  class RegularNode {
    const id: Identity
    var commits: map<string, Stored>
    var sent: seq<Message>

    constructor (id: Identity)
      ensures this.id == id && View() == Node(map[], [])
    {
      this.id := id;
      commits := map[];
      sent := [];
    }

    ghost function View(): Node
      reads this
    {
      Node(commits, sent)
    }

    /** SaveCommitData. */
    method SaveCommitData(data: Stored, saves: bool) returns (ok: bool)
      modifies this`commits
      ensures ok == saves && commits == if saves then old(commits)[data.round := data] else old(commits)
    {
      if saves {
        commits := commits[data.round := data];
      }
      ok := saves;
    }

    /** The body of the polling loop for one round. */
    method ProcessRound(view: RoundView, input: Input)
      modifies this
      ensures View() == Poll(id, old(View()), view, input)
    {
      if view.rootVisible && view.numberVisible {
        return;
      }
      if id.address !in view.operators {
        return;
      }
      if !input.loads {
        return;
      }
      var existing := if view.round in commits then Some(commits[view.round]) else None;
      if existing.Some? && !view.rootVisible && !view.numberVisible {
        return;
      }
      if !view.rootVisible && !view.numberVisible {
        var commit := GenerateCommit(id.keccak, id.parse, view.round, id.bytes, input.time);
        if commit.None? {
          return;
        }
        var data := Stored(view.round, commit.value, false, None);
        var ok := SaveCommitData(data, input.saves);
        if !ok {
          return;
        }
        SendCommitToLeader(data, input);
      }
      if existing.Some? && !existing.value.cosSent {
        if view.rootVisible && !view.numberVisible {
          var data := existing.value;
          sent := sent + [CosMessage(data.round, data.commit.cos)];
          data := data.(cosSent := true);
          var _ := SaveCommitData(data, input.savesFlag);
        }
      }
    }

    method SendCommitToLeader(data: Stored, input: Input)
      modifies this
      ensures View() == if input.sign.None? || !input.savesSign then old(View())
                        else Node(old(commits)[data.round := data.(sign := input.sign)],
                                  old(sent) + [CvsMessage(data.round, data.commit.cvs, input.sign.value)])
    {
      if input.sign.None? {
        return;
      }
      var ok := SaveCommitData(data.(sign := input.sign), input.savesSign);
      if !ok {
        return;
      }
      sent := sent + [CvsMessage(data.round, data.commit.cvs, input.sign.value)];
    }

    /** HandleSecretValueRequest. */
    method HandleSecretValueRequest(round: string, valid: bool)
      modifies this
      ensures View() == Answer(old(View()), round, valid)
    {
      if !valid || round !in commits {
        return;
      }
      if commits[round].commit.secret == ZERO {
        return;
      }
      sent := sent + [SecretMessage(round, commits[round].commit.secret)];
    }
  }

  // ---------------------------------------------------------------------
  // What every run keeps

  /** The hash chain of a commitment. */
  ghost predicate Chained(keccak: Hash, c: Commit) {
    c.cos == keccak(c.secret) && c.cvs == keccak(c.cos)
  }

  /** A message carries the matching part of the commitment stored for its round. */
  ghost predicate FromStore(commits: map<string, Stored>, m: Message) {
    && m.round in commits
    && var c := commits[m.round].commit;
       match m
       case CvsMessage(_, cvs, _) => cvs == c.cvs
       case CosMessage(_, cos) => cos == c.cos
       case SecretMessage(_, secret) => secret == c.secret
  }

  ghost predicate Good(keccak: Hash, n: Node) {
    && (forall r :: r in n.commits ==> n.commits[r].round == r && Chained(keccak, n.commits[r].commit))
    && (forall i :: 0 <= i < |n.sent| ==> FromStore(n.commits, n.sent[i]))
    && (forall i, j :: 0 <= i < j < |n.sent| && n.sent[i].CvsMessage? && n.sent[j].CvsMessage? ==>
        n.sent[i].round != n.sent[j].round)
  }

  /** Stored commitments stay; only what is sent grows. */
  ghost predicate Extends(n: Node, n': Node) {
    && (forall r :: r in n.commits ==> r in n'.commits && n'.commits[r].commit == n.commits[r].commit)
    && n.sent <= n'.sent
  }

  lemma PollKeeps(id: Identity, n: Node, view: RoundView, input: Input)
    requires Good(id.keccak, n)
    ensures Good(id.keccak, Poll(id, n, view, input)) && Extends(n, Poll(id, n, view, input))
  {
    var n' := Poll(id, n, view, input);
    hide SecretInput;
    assert Extends(n, n');
    forall i | 0 <= i < |n'.sent| ensures FromStore(n'.commits, n'.sent[i]) {
      if i < |n.sent| { assert FromStore(n.commits, n.sent[i]); }
    }
  }

  lemma StepKeeps(id: Identity, n: Node, e: Event)
    requires Good(id.keccak, n)
    ensures Good(id.keccak, Step(id, n, e)) && Extends(n, Step(id, n, e))
  {
    if e.Polled? { PollKeeps(id, n, e.view, e.input); }
  }

  /**
   * Over any run a node keeps at most one commitment per round, the one it made first, and
   * everything it ever sends for a round is the CVS, the COS or the secret of that commitment;
   * a CVS is sent at most once per round.
   */
  lemma {:induction false} OneCommitmentPerRound(id: Identity, n: Node, events: seq<Event>)
    requires Good(id.keccak, n)
    ensures Good(id.keccak, Run(id, n, events)) && Extends(n, Run(id, n, events))
    decreases |events|
  {
    if events != [] {
      StepKeeps(id, n, events[0]);
      hide Good, Step;
      OneCommitmentPerRound(id, Step(id, n, events[0]), events[1..]);
    }
  }

  /** So a CVS that the leader received is the double hash of any secret it receives for the round. */
  lemma SentMessagesChain(id: Identity, events: seq<Event>, i: nat, j: nat)
    requires var sent := Run(id, Node(map[], []), events).sent;
             i < |sent| && j < |sent| && sent[i].round == sent[j].round && sent[i].CvsMessage?
    ensures var sent := Run(id, Node(map[], []), events).sent;
            && (sent[j].SecretMessage? ==> sent[i].cvs == id.keccak(id.keccak(sent[j].secret)))
            && (sent[j].CosMessage? ==> sent[i].cvs == id.keccak(sent[j].cos))
  {
    OneCommitmentPerRound(id, Node(map[], []), events);
    var n := Run(id, Node(map[], []), events);
    hide Run;
    assert FromStore(n.commits, n.sent[i]) && FromStore(n.commits, n.sent[j]);
  }

  /** The event shows the round with its root, and no number yet. */
  ghost predicate RootShown(e: Event, round: string) {
    e.Polled? && e.view.round == round && e.view.rootVisible && !e.view.numberVisible
  }

  lemma StepRevealsAfterRoot(id: Identity, n: Node, e: Event, i: nat)
    requires Good(id.keccak, n)
    requires var n' := Step(id, n, e); |n.sent| <= i < |n'.sent| && n'.sent[i].CosMessage?
    ensures RootShown(e, Step(id, n, e).sent[i].round)
  {}

  /** Message i goes out at event k of the run. */
  ghost predicate SentAt(id: Identity, n: Node, events: seq<Event>, i: nat, k: nat) {
    k < |events| && |Run(id, n, events[..k]).sent| <= i < |Run(id, n, events[..k + 1]).sent|
  }

  lemma SentLater(id: Identity, n: Node, events: seq<Event>, i: nat, k: nat)
    requires events != [] && SentAt(id, Step(id, n, events[0]), events[1..], i, k)
    ensures SentAt(id, n, events, i, k + 1)
  {
    hide Step;
    assert events[..k + 1][1..] == events[1..][..k];
    assert events[..k + 2][1..] == events[1..][..k + 1];
  }

  /** The very event at which a COS is sent shows the round's Merkle root on chain. */
  lemma {:induction false} CosOnlyAfterRoot(id: Identity, n: Node, events: seq<Event>, i: nat)
    requires Good(id.keccak, n)
    requires |n.sent| <= i < |Run(id, n, events).sent| && Run(id, n, events).sent[i].CosMessage?
    ensures exists k: nat :: SentAt(id, n, events, i, k) && RootShown(events[k], Run(id, n, events).sent[i].round)
    decreases |events|
  {
    if events != [] {
      var n1 := Step(id, n, events[0]);
      StepKeeps(id, n, events[0]);
      OneCommitmentPerRound(id, n1, events[1..]);
      if i < |n1.sent| {
        StepRevealsAfterRoot(id, n, events[0], i);
        hide Step, RootShown, Good;
        assert events[..0] == [] && events[..1][0] == events[0] && events[..1][1..] == [];
        assert Run(id, n, events[..0]) == n && Run(id, n, events[..1]) == Run(id, n1, []) == n1;
        assert SentAt(id, n, events, i, 0);
      } else {
        hide Step, RootShown, Good, SentAt;
        CosOnlyAfterRoot(id, n1, events[1..], i);
        var k: nat :| SentAt(id, n1, events[1..], i, k) && RootShown(events[1..][k], Run(id, n, events).sent[i].round);
        SentLater(id, n, events, i, k);
      }
    }
  }

  // ---------------------------------------------------------------------
  // COS at most once, as long as the flag can be saved

  /** No round's COS occurs twice. */
  ghost predicate CosDistinct(sent: seq<Message>) {
    forall i, j :: 0 <= i < j < |sent| && sent[i].CosMessage? && sent[j].CosMessage? ==> sent[i].round != sent[j].round
  }

  ghost predicate CosFlagged(n: Node) {
    && (forall i :: 0 <= i < |n.sent| && n.sent[i].CosMessage? ==>
        n.sent[i].round in n.commits && n.commits[n.sent[i].round].cosSent)
    && CosDistinct(n.sent)
  }

  lemma StepFlags(id: Identity, n: Node, e: Event)
    requires Good(id.keccak, n) && CosFlagged(n) && (e.Polled? ==> e.input.savesFlag)
    ensures CosFlagged(Step(id, n, e))
  {
    hide SecretInput, Chained;
  }

  lemma {:induction false} CosSentOnce(id: Identity, n: Node, events: seq<Event>)
    requires Good(id.keccak, n) && CosFlagged(n)
    requires forall e :: e in events && e.Polled? ==> e.input.savesFlag
    ensures CosFlagged(Run(id, n, events))
    decreases |events|
  {
    if events != [] {
      StepKeeps(id, n, events[0]);
      StepFlags(id, n, events[0]);
      hide Good, Step, CosFlagged;
      CosSentOnce(id, Step(id, n, events[0]), events[1..]);
    }
  }

  // ---------------------------------------------------------------------
  // When a COS is sent again

  ghost predicate CosSent(sent: seq<Message>, round: string) {
    exists i :: 0 <= i < |sent| && sent[i].CosMessage? && sent[i].round == round
  }

  /** The event is a poll that sends the COS of its round. */
  predicate Reveals(id: Identity, n: Node, e: Event) {
    && e.Polled? && e.view.rootVisible && !e.view.numberVisible && id.address in e.view.operators && e.input.loads
    && e.view.round in n.commits && !n.commits[e.view.round].cosSent
  }

  /** Whenever a poll reveals, the round's COS has not gone out before. */
  ghost predicate RevealsFresh(id: Identity, n: Node, events: seq<Event>)
    decreases |events|
  {
    events == [] ||
    (&& (Reveals(id, n, events[0]) ==> !CosSent(n.sent, events[0].view.round))
     && RevealsFresh(id, Step(id, n, events[0]), events[1..]))
  }

  lemma StepReveals(id: Identity, n: Node, e: Event)
    requires Good(id.keccak, n)
    ensures var n' := Step(id, n, e);
            if Reveals(id, n, e) then
              n'.sent == n.sent + [CosMessage(e.view.round, n.commits[e.view.round].commit.cos)]
            else
              n.sent <= n'.sent && forall i :: |n.sent| <= i < |n'.sent| ==> !n'.sent[i].CosMessage?
  {
    hide SecretInput, Chained, FromStore;
  }

  lemma StepDistinct(id: Identity, n: Node, e: Event)
    requires Good(id.keccak, n) && CosDistinct(n.sent)
    ensures CosDistinct(Step(id, n, e).sent) <==> (Reveals(id, n, e) ==> !CosSent(n.sent, e.view.round))
  {
    StepReveals(id, n, e);
    hide Step, Good, Reveals;
    var sent' := Step(id, n, e).sent;
    if Reveals(id, n, e) && CosSent(n.sent, e.view.round) {
      var i :| 0 <= i < |n.sent| && n.sent[i].CosMessage? && n.sent[i].round == e.view.round;
      assert sent'[i].round == sent'[|n.sent|].round;
    }
  }

  lemma DistinctBefore(a: seq<Message>, b: seq<Message>)
    requires a <= b && CosDistinct(b)
    ensures CosDistinct(a)
  {}

  /** When a COS is sent twice: exactly when a poll reveals a round whose COS is out already, its flag not written. */
  lemma {:induction false} CosRepeatsExactly(id: Identity, n: Node, events: seq<Event>)
    requires Good(id.keccak, n) && CosDistinct(n.sent)
    ensures CosDistinct(Run(id, n, events).sent) <==> RevealsFresh(id, n, events)
    decreases |events|
  {
    if events != [] {
      var next := Step(id, n, events[0]);
      StepKeeps(id, n, events[0]);
      StepDistinct(id, n, events[0]);
      OneCommitmentPerRound(id, next, events[1..]);
      hide Good, Step, CosDistinct, CosSent, Reveals;
      if CosDistinct(next.sent) {
        CosRepeatsExactly(id, next, events[1..]);
      } else if CosDistinct(Run(id, n, events).sent) {
        DistinctBefore(next.sent, Run(id, n, events).sent);
      }
    }
  }

  /** Two revealing polls whose flag writes fail send the COS twice. */
  lemma CosSentTwice(id: Identity, n: Node, view: RoundView, input: Input)
    requires Good(id.keccak, n) && Reveals(id, n, Polled(view, input)) && !input.savesFlag
    ensures var sent := Run(id, n, [Polled(view, input), Polled(view, input)]).sent;
            var message := CosMessage(view.round, n.commits[view.round].commit.cos);
            sent == n.sent + [message] + [message]
  {
    var e := Polled(view, input);
    var once := n.(sent := n.sent + [CosMessage(view.round, n.commits[view.round].commit.cos)]);
    assert n.commits[view.round].round == view.round;
    assert Step(id, n, e) == once;
    assert Step(id, once, e).sent == once.sent + [CosMessage(view.round, n.commits[view.round].commit.cos)];
    hide Step;
    assert [e, e][1..] == [e] && [e][1..] == [];
    assert Run(id, n, [e, e]) == Run(id, once, [e]) == Step(id, once, e);
  }

  // ---------------------------------------------------------------------
  // What goes out, event by event

  /**
   * A poll commits exactly in a round of the node's that shows neither root nor number and has no entry yet. It
   * stores one entry and sends its CVS, whose chain starts at a secret
   * hashed from the round's number, the node's address and the time; without a signature nothing is sent.
   */
  lemma PollCommits(id: Identity, n: Node, view: RoundView, input: Input, number: nat)
    requires !view.rootVisible && !view.numberVisible && id.address in view.operators && input.loads
    requires view.round !in n.commits && id.parse(view.round) == Some(number) && input.saves
    requires number < TWO_256 && 0 <= input.time < TWO_256 && |id.bytes| == 20
    ensures view.round in Poll(id, n, view, input).commits
    ensures var c := Poll(id, n, view, input).commits[view.round].commit;
            var made := Stored(view.round, c, false, None);
            && c.cos == id.keccak(c.secret) && c.cvs == id.keccak(c.cos)
            && (exists hashed: Bytes ::
                  && |hashed| == 84 && Uint(hashed[..32]) == number && hashed[32..52] == id.bytes
                  && Uint(hashed[52..]) == input.time && c.secret == id.keccak(hashed))
            && Poll(id, n, view, input)
               == if input.sign.Some? && input.savesSign
                  then Node(n.commits[view.round := made.(sign := input.sign)],
                            n.sent + [CvsMessage(view.round, c.cvs, input.sign.value)])
                  else n.(commits := n.commits[view.round := made])
  {
    SecretHashesParts(id.keccak, number, id.bytes, input.time);
    hide SecretInput, Uint;
    var made := Stored(view.round, CommitOf(id.keccak, number, id.bytes, input.time), false, None);
    assert n.commits[view.round := made][view.round := made.(sign := input.sign)]
        == n.commits[view.round := made.(sign := input.sign)];
  }

  /** A poll reveals exactly in a round of the node's that shows its root and no number, unless it noted doing so. */
  lemma PollReveals(id: Identity, n: Node, view: RoundView, input: Input)
    requires view.rootVisible && !view.numberVisible && id.address in view.operators && input.loads
    requires view.round in n.commits && n.commits[view.round].round == view.round && !n.commits[view.round].cosSent
    ensures var stored := n.commits[view.round];
            Poll(id, n, view, input)
            == Node(if input.savesFlag then n.commits[view.round := stored.(cosSent := true)] else n.commits,
                    n.sent + [CosMessage(view.round, stored.commit.cos)])
  {}

  /** In every other case a poll does nothing. */
  lemma PollRests(id: Identity, n: Node, view: RoundView, input: Input)
    requires || view.numberVisible || id.address !in view.operators || !input.loads
             || (view.round in n.commits && (!view.rootVisible || n.commits[view.round].cosSent))
             || (view.round !in n.commits && (view.rootVisible || id.parse(view.round).None? || !input.saves))
    ensures Poll(id, n, view, input) == n
  {}

  /** The stored secret answers a valid request; nothing else does, and the store stays. */
  lemma SecretAnswers(n: Node, round: string, valid: bool)
    ensures Answer(n, round, valid).commits == n.commits
    ensures Answer(n, round, valid).sent
         == if valid && round in n.commits && n.commits[round].commit.secret != ZERO
            then n.sent + [SecretMessage(round, n.commits[round].commit.secret)] else n.sent
  {}
}
