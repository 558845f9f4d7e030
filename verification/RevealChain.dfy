/** The chain of secret-value requests along a round's reveal order. */
module RevealChain {
  import opened Words
  import opened Operators

  /** Events of one round: a (re)start of the requests, or a secret that came back; each with the send's outcome. */
  datatype Event = Start(sent: bool) | Response(sent: bool)

  /** The nodes of the order that have an entry in registered_nodes.json. */
  function Reachable(order: seq<Address>, registered: set<Address>): seq<Address> {
    if order == [] then []
    else (if order[0] in registered then [order[0]] else []) + Reachable(order[1..], registered)
  }

  /** The first reachable node not yet asked. */
  function NextNode(order: seq<Address>, registered: set<Address>, asked: seq<Address>): Option<Address> {
    if order == [] then None
    else if order[0] !in asked && order[0] in registered then Some(order[0])
    else NextNode(order[1..], registered, asked)
  }

  /** Whom an event sends to. */
  function Target(order: seq<Address>, registered: set<Address>, asked: seq<Address>, e: Event): Option<Address> {
    match e
    case Start(_) => NextNode(order, registered, [])
    case Response(_) => NextNode(order, registered, asked)
  }

  function After(order: seq<Address>, registered: set<Address>, asked: seq<Address>, e: Event): seq<Address> {
    var target := Target(order, registered, asked, e);
    if target.Some? && e.sent then asked + [target.value] else asked
  }

  function Run(order: seq<Address>, registered: set<Address>, asked: seq<Address>, events: seq<Event>): seq<Address>
    decreases |events|
  {
    if events == [] then asked
    else Run(order, registered, After(order, registered, asked, events[0]), events[1..])
  }

  // ---------------------------------------------------------------------
  // The status per round, kept for the life of the process

  class RevealRequests {
    var status: map<string, seq<Address>>

    constructor ()
      ensures status == map[]
    {
      status := map[];
    }

    function Asked(round: string): seq<Address>
      reads this
    {
      if round in status then status[round] else []
    }

    /** sendSecretValueRequestToNode: only a request that was sent is recorded. */
    method Send(round: string, eoa: Address, sent: bool)
      modifies this
      ensures Asked(round) == if sent then old(Asked(round)) + [eoa] else old(Asked(round))
      ensures forall r :: r != round ==> Asked(r) == old(Asked(r))
    {
      if sent {
        status := status[round := Asked(round) + [eoa]];
      }
    }

    method StartSecretValueRequests(round: string, order: seq<Address>, registered: set<Address>, sent: bool)
      modifies this
      ensures Asked(round) == After(order, registered, old(Asked(round)), Start(sent))
      ensures forall r :: r != round ==> Asked(r) == old(Asked(r))
    {
      if round !in status {
        status := status[round := []];
      }
      for i := 0 to |order|
        invariant Asked(round) == old(Asked(round)) && forall r :: r != round ==> Asked(r) == old(Asked(r))
        invariant NextNode(order, registered, []) == NextNode(order[i..], registered, [])
      {
        assert order[i..][1..] == order[i + 1..];
        if order[i] in registered {
          Send(round, order[i], sent);
          break;
        }
      }
    }

    method HandleSecretValueResponse(round: string, order: seq<Address>, registered: set<Address>, sent: bool)
      modifies this
      ensures Asked(round) == After(order, registered, old(Asked(round)), Response(sent))
      ensures forall r :: r != round ==> Asked(r) == old(Asked(r))
    {
      for i := 0 to |order|
        invariant Asked(round) == old(Asked(round)) && forall r :: r != round ==> Asked(r) == old(Asked(r))
        invariant NextNode(order, registered, Asked(round)) == NextNode(order[i..], registered, Asked(round))
      {
        assert order[i..][1..] == order[i + 1..];
        var seen := Contains(Asked(round), order[i]);
        if !seen {
          if order[i] !in registered {
            continue;
          }
          Send(round, order[i], sent);
          return;
        }
      }
    }
  }

  method Contains(slice: seq<Address>, item: Address) returns (found: bool)
    ensures found <==> item in slice
  {
    for i := 0 to |slice|
      invariant item !in slice[..i]
    {
      if slice[i] == item {
        return true;
      }
      assert slice[..i + 1] == slice[..i] + [slice[i]];
    }
    assert slice[..|slice|] == slice;
    return false;
  }

  // ---------------------------------------------------------------------
  // Requests follow the reveal order

  ghost predicate NoRepeats(xs: seq<Address>) {
    forall i, j :: 0 <= i < j < |xs| ==> xs[i] != xs[j]
  }

  lemma {:induction false} ReachableFacts(order: seq<Address>, registered: set<Address>)
    ensures forall a :: a in Reachable(order, registered) <==> a in order && a in registered
    ensures NoRepeats(order) ==> NoRepeats(Reachable(order, registered))
  {
    if order != [] {
      ReachableFacts(order[1..], registered);
      assert order == [order[0]] + order[1..];
      if NoRepeats(order) {
        assert order[0] !in order[1..];
      }
    }
  }

  /** NextNode walks the reachable nodes only. */
  lemma {:induction false} NextIsFirstUnasked(
      order: seq<Address>, registered: set<Address>, asked: seq<Address>, k: nat)
    requires NoRepeats(order) && k <= |Reachable(order, registered)|
    requires forall i :: 0 <= i < |Reachable(order, registered)| ==>
               (Reachable(order, registered)[i] in asked <==> i < k)
    ensures NextNode(order, registered, asked)
         == if k == |Reachable(order, registered)| then None else Some(Reachable(order, registered)[k])
  {
    if order != [] {
      var rest := Reachable(order[1..], registered);
      var all := Reachable(order, registered);
      if order[0] in registered {
        assert all == [order[0]] + rest;
        assert all[0] in asked <==> 0 < k;
        if k > 0 {
          assert forall i :: 0 <= i < |rest| ==> rest[i] == all[i + 1];
          NextIsFirstUnasked(order[1..], registered, asked, k - 1);
        }
      } else {
        assert all == rest;
        NextIsFirstUnasked(order[1..], registered, asked, k);
      }
    }
  }

  /** Exactly the first k reachable nodes have been asked. */
  ghost predicate AskedFirst(order: seq<Address>, registered: set<Address>, asked: seq<Address>, k: nat) {
    var all := Reachable(order, registered);
    k <= |all| && forall a :: a in asked <==> a in all[..k]
  }

  lemma FirstByIndex(order: seq<Address>, registered: set<Address>, asked: seq<Address>, k: nat)
    requires NoRepeats(order) && AskedFirst(order, registered, asked, k)
    ensures forall i :: 0 <= i < |Reachable(order, registered)| ==>
              (Reachable(order, registered)[i] in asked <==> i < k)
  {
    ReachableFacts(order, registered);
    var all := Reachable(order, registered);
    forall i | 0 <= i < |all| ensures all[i] in asked <==> i < k {
      if i < k { assert all[i] == all[..k][i]; }
    }
  }

  /**
   * One event: a response that is sent asks exactly the next reachable node, so the number of
   * nodes not yet asked falls by one; any other event leaves the set of asked nodes, except the
   * very first start, which asks the first node.
   */
  lemma StepAsksNext(order: seq<Address>, registered: set<Address>, asked: seq<Address>, e: Event, k: nat)
    requires NoRepeats(order) && AskedFirst(order, registered, asked, k)
    ensures var k' := if e.sent && k < |Reachable(order, registered)| && (e.Response? || k == 0) then k + 1 else k;
            AskedFirst(order, registered, After(order, registered, asked, e), k')
    ensures e.Response? && e.sent && k < |Reachable(order, registered)| ==>
              After(order, registered, asked, e) == asked + [Reachable(order, registered)[k]]
    ensures e.Response? && (!e.sent || k == |Reachable(order, registered)|) ==>
              After(order, registered, asked, e) == asked
  {
    var all := Reachable(order, registered);
    FirstByIndex(order, registered, asked, k);
    NextIsFirstUnasked(order, registered, asked, k);
    NextIsFirstUnasked(order, registered, [], 0);
    if k < |all| { assert all[..k + 1] == all[..k] + [all[k]]; }
    if k > 0 { assert all[0] == all[..k][0]; }
  }

  /**
   * Over any mix of starts, responses and failed sends, the nodes asked are always
   * the first k reachable nodes of the reveal order, for some k that never falls.
   */
  lemma {:induction false} AskedIsPrefix(
      order: seq<Address>, registered: set<Address>, asked: seq<Address>, events: seq<Event>, k: nat)
    requires NoRepeats(order) && AskedFirst(order, registered, asked, k)
    ensures exists k' :: k' >= k && AskedFirst(order, registered, Run(order, registered, asked, events), k')
    decreases |events|
  {
    if events == [] {
      assert AskedFirst(order, registered, Run(order, registered, asked, events), k);
    } else {
      StepAsksNext(order, registered, asked, events[0], k);
      hide After, AskedFirst;
      var asks := events[0].sent && k < |Reachable(order, registered)| && (events[0].Response? || k == 0);
      var k1 := if asks then k + 1 else k;
      AskedIsPrefix(order, registered, After(order, registered, asked, events[0]), events[1..], k1);
      var k2 :| k2 >= k1 && AskedFirst(order, registered, Run(order, registered, asked, events), k2);
    }
  }

  /** No start is sent once something has been sent; `begun` says whether it has already. */
  ghost predicate NoLateStart(events: seq<Event>, begun: bool) {
    forall j :: 0 <= j < |events| && events[j].sent && events[j].Start? ==>
      !begun && forall i :: 0 <= i < j ==> !events[i].sent
  }

  lemma NoLateStartStep(events: seq<Event>, begun: bool)
    requires events != []
    ensures NoLateStart(events, begun)
       <==> !(events[0].sent && events[0].Start? && begun) && NoLateStart(events[1..], begun || events[0].sent)
  {
    var rest := events[1..];
    if NoLateStart(events, begun) {
      forall j | 0 <= j < |rest| && rest[j].sent && rest[j].Start?
        ensures !(begun || events[0].sent) && forall i :: 0 <= i < j ==> !rest[i].sent
      {
        assert events[j + 1] == rest[j];
        forall i | 0 <= i < j ensures !rest[i].sent { assert rest[i] == events[i + 1]; }
      }
    } else {
      var j :| 0 <= j < |events| && events[j].sent && events[j].Start?
            && !(!begun && forall i :: 0 <= i < j ==> !events[i].sent);
      if j > 0 { assert rest[j - 1] == events[j]; }
      if !begun && !events[0].sent {
        var i :| 0 <= i < j && events[i].sent;
        assert rest[i - 1] == events[i];
      }
    }
  }

  lemma {:induction false} RunExtends(
      order: seq<Address>, registered: set<Address>, asked: seq<Address>, events: seq<Event>)
    ensures asked <= Run(order, registered, asked, events)
    decreases |events|
  {
    if events != [] {
      RunExtends(order, registered, After(order, registered, asked, events[0]), events[1..]);
    }
  }

  lemma PrefixOfOrder(order: seq<Address>, registered: set<Address>, asked: seq<Address>)
    requires NoRepeats(order) && asked <= Reachable(order, registered)
    ensures NoRepeats(asked) && AskedFirst(order, registered, asked, |asked|)
  {
    ReachableFacts(order, registered);
    assert asked == Reachable(order, registered)[..|asked|];
  }

  /** A start that is sent asks the first reachable node, whoever was asked before. */
  lemma StartAsksFirst(order: seq<Address>, registered: set<Address>, asked: seq<Address>)
    requires NoRepeats(order) && Reachable(order, registered) != []
    ensures After(order, registered, asked, Start(true)) == asked + [Reachable(order, registered)[0]]
  {
    NextIsFirstUnasked(order, registered, [], 0);
  }

  lemma LateStartRepeats(order: seq<Address>, registered: set<Address>, asked: seq<Address>, events: seq<Event>)
    requires NoRepeats(order) && asked != [] && asked <= Reachable(order, registered)
    ensures !NoRepeats(Run(order, registered, After(order, registered, asked, Start(true)), events))
  {
    StartAsksFirst(order, registered, asked);
    var next := After(order, registered, asked, Start(true));
    RunExtends(order, registered, next, events);
    assert next[0] == next[|asked|];
    hide After, Run, Reachable;
  }

  lemma InOrderStep(order: seq<Address>, registered: set<Address>, asked: seq<Address>, e: Event)
    requires NoRepeats(order) && Reachable(order, registered) != [] && asked <= Reachable(order, registered)
    requires !(e.sent && e.Start? && asked != [])
    ensures var next := After(order, registered, asked, e);
            next <= Reachable(order, registered) && (next != [] <==> asked != [] || e.sent)
  {
    PrefixOfOrder(order, registered, asked);
    StepAsksNext(order, registered, asked, e, |asked|);
    StartAsksFirst(order, registered, asked);
    hide AskedFirst, Reachable, NextNode;
  }

  /**
   * When a node is asked twice, events taken whole: exactly when a start is sent after
   * something else was. Otherwise the status is a prefix of the reveal order, node for node.
   */
  lemma {:induction false} RepeatsExactly(
      order: seq<Address>, registered: set<Address>, asked: seq<Address>, events: seq<Event>)
    requires NoRepeats(order) && Reachable(order, registered) != [] && asked <= Reachable(order, registered)
    ensures NoRepeats(Run(order, registered, asked, events)) <==> NoLateStart(events, asked != [])
    ensures NoLateStart(events, asked != []) ==> Run(order, registered, asked, events) <= Reachable(order, registered)
    decreases |events|
  {
    PrefixOfOrder(order, registered, asked);
    if events != [] {
      var e := events[0];
      NoLateStartStep(events, asked != []);
      hide After, AskedFirst, NoRepeats, NoLateStart, Reachable;
      if e.sent && e.Start? && asked != [] {
        assert e == Start(true);
        LateStartRepeats(order, registered, asked, events[1..]);
      } else {
        InOrderStep(order, registered, asked, e);
        RepeatsExactly(order, registered, After(order, registered, asked, e), events[1..]);
      }
    }
  }

  /** From an empty status: no node is asked twice if and only if no start is sent after a sent event. */
  lemma AskedTwiceExactly(order: seq<Address>, registered: set<Address>, events: seq<Event>)
    requires NoRepeats(order) && Reachable(order, registered) != []
    ensures NoRepeats(Run(order, registered, [], events))
       <==> forall i, j :: 0 <= i < j < |events| && events[i].sent && events[j].sent ==> events[j].Response?
    ensures NoRepeats(Run(order, registered, [], events))
       <==> Run(order, registered, [], events) <= Reachable(order, registered)
  {
    RepeatsExactly(order, registered, [], events);
    if Run(order, registered, [], events) <= Reachable(order, registered) {
      PrefixOfOrder(order, registered, Run(order, registered, [], events));
    }
    hide Run;
  }

  /** So a second start is enough, for every order and with no race: it repeats the first node. */
  lemma SecondStartRepeats(order: seq<Address>, registered: set<Address>)
    requires NoRepeats(order) && Reachable(order, registered) != []
    ensures var first := Reachable(order, registered)[0];
            Run(order, registered, [], [Start(true), Start(true)]) == [first, first]
  {
    StartAsksFirst(order, registered, []);
    StartAsksFirst(order, registered, [Reachable(order, registered)[0]]);
    assert [Start(true), Start(true)][1..] == [Start(true)] && [Start(true)][1..] == [];
  }

  /**
   * With one start, then responses, and every send a success, the status is exactly the
   * prefix of the reachable order whose length is one more than the number of responses,
   * until every reachable node has been asked.
   */
  lemma {:induction false} OneStartGivesPrefix(order: seq<Address>, registered: set<Address>, responses: nat)
    requires NoRepeats(order)
    ensures var all := Reachable(order, registered);
            var k := if responses < |all| then responses + 1 else |all|;
            Run(order, registered, [], [Start(true)] + seq(responses, i => Response(true))) == all[..k]
  {
    var all := Reachable(order, registered);
    var events := seq(responses, i => Response(true));
    StepAsksNext(order, registered, [], Start(true), 0);
    FirstByIndex(order, registered, [], 0);
    NextIsFirstUnasked(order, registered, [], 0);
    var first := After(order, registered, [], Start(true));
    assert first == all[..if |all| > 0 then 1 else 0];
    assert ([Start(true)] + events)[1..] == events;
    ResponsesExtend(order, registered, first, responses, |first|);
  }

  lemma {:induction false} ResponsesExtend(
      order: seq<Address>, registered: set<Address>, asked: seq<Address>, responses: nat, k: nat)
    requires NoRepeats(order) && k <= |Reachable(order, registered)| && asked == Reachable(order, registered)[..k]
    decreases responses
    ensures var all := Reachable(order, registered);
            var end := if k + responses < |all| then k + responses else |all|;
            Run(order, registered, asked, seq(responses, i => Response(true))) == all[..end]
  {
    var all := Reachable(order, registered);
    var events := seq(responses, i => Response(true));
    if responses > 0 {
      StepAsksNext(order, registered, asked, Response(true), k);
      assert events[1..] == seq(responses - 1, i => Response(true));
      var next := After(order, registered, asked, Response(true));
      if k < |all| {
        assert next == all[..k + 1];
        ResponsesExtend(order, registered, next, responses - 1, k + 1);
      } else {
        ResponsesExtend(order, registered, next, responses - 1, k);
      }
    }
  }

  // ---------------------------------------------------------------------
  // Handlers that race

  /**
   * Where a handler of the round stands: looking at entry i of the order, for the first registered
   * node (Starting) or the first registered one not asked (Searching), or about to send to entry i.
   */
  datatype Handler = Resting | Starting(i: nat) | Searching(i: nat) | Sending(i: nat)

  /** The status is shared and no lock guards it; a look at it and an append to it are steps of their own. */
  datatype Race = Race(asked: seq<Address>, handlers: map<nat, Handler>)

  datatype Move = Begin(start: bool) | Continue | SendFails

  function HandlerOf(s: Race, t: nat): Handler {
    if t in s.handlers then s.handlers[t] else Resting
  }

  function Advance(order: seq<Address>, registered: set<Address>, asked: seq<Address>, h: Handler, m: Move): Handler {
    match h
    case Resting => if m.Begin? then (if m.start then Starting(0) else Searching(0)) else Resting
    case Starting(i) =>
      if i >= |order| then Resting else if order[i] in registered then Sending(i) else Starting(i + 1)
    case Searching(i) =>
      if i >= |order| then Resting
      else if order[i] !in asked && order[i] in registered then Sending(i)
      else Searching(i + 1)
    case Sending(i) => Resting
  }

  predicate Appends(order: seq<Address>, s: Race, t: nat, m: Move) {
    var h := HandlerOf(s, t);
    h.Sending? && h.i < |order| && m.Continue?
  }

  /** One step of handler t: a look at one entry, or a send that ends in an append unless it fails. */
  function RaceStep(order: seq<Address>, registered: set<Address>, s: Race, t: nat, m: Move): Race {
    var h := HandlerOf(s, t);
    var asked := if Appends(order, s, t, m) then s.asked + [order[h.i]] else s.asked;
    Race(asked, s.handlers[t := Advance(order, registered, s.asked, h, m)])
  }

  function RaceRun(order: seq<Address>, registered: set<Address>, s: Race, schedule: seq<(nat, Move)>): Race
    decreases |schedule|
  {
    if schedule == [] then s
    else RaceRun(order, registered, RaceStep(order, registered, s, schedule[0].0, schedule[0].1), schedule[1..])
  }

  /** How many reachable nodes stand before entry i. */
  function Before(order: seq<Address>, registered: set<Address>, i: nat): nat
    requires i <= |order|
  {
    |Reachable(order[..i], registered)|
  }

  /** Every reachable node before the entry a handler has come to is among the first k. */
  ghost predicate HandlerOk(order: seq<Address>, registered: set<Address>, k: nat, h: Handler) {
    match h
    case Resting => true
    case Starting(i) => i <= |order| && Before(order, registered, i) == 0
    case Searching(i) => i <= |order| && Before(order, registered, i) <= k
    case Sending(i) => i < |order| && order[i] in registered && Before(order, registered, i) <= k
  }

  ghost predicate RaceOk(order: seq<Address>, registered: set<Address>, s: Race, k: nat) {
    && AskedFirst(order, registered, s.asked, k)
    && forall t :: t in s.handlers ==> HandlerOk(order, registered, k, s.handlers[t])
  }

  lemma {:induction false} ReachableOfBoth(a: seq<Address>, b: seq<Address>, registered: set<Address>)
    ensures Reachable(a + b, registered) == Reachable(a, registered) + Reachable(b, registered)
  {
    if a == [] {
      assert a + b == b;
    } else {
      var head := if a[0] in registered then [a[0]] else [];
      assert (a + b)[0] == a[0] && (a + b)[1..] == a[1..] + b;
      ReachableOfBoth(a[1..], b, registered);
      assert head + (Reachable(a[1..], registered) + Reachable(b, registered))
          == (head + Reachable(a[1..], registered)) + Reachable(b, registered);
    }
  }

  /** Entry i is the reachable node that follows those before it, if it is reachable. */
  lemma EntryOfOrder(order: seq<Address>, registered: set<Address>, i: nat)
    requires i < |order|
    ensures var all, m := Reachable(order, registered), Before(order, registered, i);
            if order[i] in registered
            then m < |all| && all[m] == order[i] && Before(order, registered, i + 1) == m + 1
            else Before(order, registered, i + 1) == m
  {
    assert order[..i + 1] == order[..i] + [order[i]] && order == order[..i + 1] + order[i + 1..];
    ReachableOfBoth(order[..i], [order[i]], registered);
    ReachableOfBoth(order[..i + 1], order[i + 1..], registered);
  }

  /** One step keeps the asked nodes a prefix of the order, whoever else has looked or appended meanwhile. */
  lemma RaceStepOk(order: seq<Address>, registered: set<Address>, s: Race, t: nat, m: Move, k: nat) returns (k': nat)
    requires NoRepeats(order) && RaceOk(order, registered, s, k)
    ensures RaceOk(order, registered, RaceStep(order, registered, s, t, m), k')
    ensures k' == if Appends(order, s, t, m) && Before(order, registered, HandlerOf(s, t).i) == k then k + 1 else k
  {
    var h := HandlerOf(s, t);
    var all := Reachable(order, registered);
    FirstByIndex(order, registered, s.asked, k);
    k' := k;
    if !h.Resting? && h.i < |order| {
      EntryOfOrder(order, registered, h.i);
      if Appends(order, s, t, m) && Before(order, registered, h.i) == k {
        k' := k + 1;
        assert all[..k + 1] == all[..k] + [all[k]];
      }
    }
    hide Reachable, NoRepeats;
    assert AskedFirst(order, registered, RaceStep(order, registered, s, t, m).asked, k');
    hide AskedFirst;
    assert Before(order, registered, 0) == 0 by { assert order[..0] == []; EmptyReachable(registered); }
  }

  lemma EmptyReachable(registered: set<Address>)
    ensures Reachable([], registered) == []
  {}

  /**
   * However starts and responses interleave, with looks at the status as old as they may be when
   * the request goes out, the nodes asked are the first k reachable nodes of the order, and k never falls.
   */
  lemma {:induction false} RacingHandlersKeepPrefix(
      order: seq<Address>, registered: set<Address>, s: Race, schedule: seq<(nat, Move)>, k: nat)
    requires NoRepeats(order) && RaceOk(order, registered, s, k)
    ensures exists k' :: k' >= k && RaceOk(order, registered, RaceRun(order, registered, s, schedule), k')
    decreases |schedule|
  {
    if schedule == [] {
      assert RaceOk(order, registered, RaceRun(order, registered, s, schedule), k);
    } else {
      var k1 := RaceStepOk(order, registered, s, schedule[0].0, schedule[0].1, k);
      hide RaceStep, RaceOk;
      var next := RaceStep(order, registered, s, schedule[0].0, schedule[0].1);
      RacingHandlersKeepPrefix(order, registered, next, schedule[1..], k1);
      assert RaceRun(order, registered, s, schedule) == RaceRun(order, registered, next, schedule[1..]);
    }
  }

  /** Every append finds its node not yet in the status: what a second look just before it would test. */
  predicate AllFresh(order: seq<Address>, registered: set<Address>, s: Race, schedule: seq<(nat, Move)>)
    decreases |schedule|
  {
    schedule == [] ||
    (var (t, m) := schedule[0];
     && (Appends(order, s, t, m) ==> order[HandlerOf(s, t).i] !in s.asked)
     && AllFresh(order, registered, RaceStep(order, registered, s, t, m), schedule[1..]))
  }

  lemma {:induction false} RaceExtends(
      order: seq<Address>, registered: set<Address>, s: Race, schedule: seq<(nat, Move)>)
    ensures s.asked <= RaceRun(order, registered, s, schedule).asked
    decreases |schedule|
  {
    if schedule != [] {
      RaceExtends(order, registered, RaceStep(order, registered, s, schedule[0].0, schedule[0].1), schedule[1..]);
    }
  }

  /** When a node is asked twice, handlers racing: exactly when an append finds its node in the status. */
  lemma {:induction false} RacingRepeatsExactly(
      order: seq<Address>, registered: set<Address>, s: Race, schedule: seq<(nat, Move)>)
    ensures NoRepeats(RaceRun(order, registered, s, schedule).asked)
       <==> NoRepeats(s.asked) && AllFresh(order, registered, s, schedule)
    decreases |schedule|
  {
    RaceExtends(order, registered, s, schedule);
    if schedule != [] && NoRepeats(s.asked) {
      var (t, m) := schedule[0];
      var next := RaceStep(order, registered, s, t, m);
      RaceExtends(order, registered, next, schedule[1..]);
      if Appends(order, s, t, m) && order[HandlerOf(s, t).i] in s.asked {
        var i :| 0 <= i < |s.asked| && s.asked[i] == order[HandlerOf(s, t).i];
        assert next.asked[i] == next.asked[|s.asked|];
      } else {
        RacingRepeatsExactly(order, registered, next, schedule[1..]);
      }
    }
  }

  /** An entry that a handler may send to, and that is not in the status, is the next one of the order. */
  lemma FreshIsNext(order: seq<Address>, registered: set<Address>, s: Race, i: nat)
    requires s.asked <= Reachable(order, registered)
    requires HandlerOk(order, registered, |s.asked|, Sending(i)) && order[i] !in s.asked
    ensures Before(order, registered, i) == |s.asked| && s.asked + [order[i]] <= Reachable(order, registered)
  {
    EntryOfOrder(order, registered, i);
    var all, m := Reachable(order, registered), Before(order, registered, i);
    hide Reachable, Before;
    assert forall k :: 0 <= k < |s.asked| ==> s.asked[k] == all[k];
    assert s.asked == all[..|s.asked|];
  }

  lemma FreshStep(order: seq<Address>, registered: set<Address>, s: Race, t: nat, m: Move)
    requires NoRepeats(order) && s.asked <= Reachable(order, registered) && RaceOk(order, registered, s, |s.asked|)
    requires Appends(order, s, t, m) ==> order[HandlerOf(s, t).i] !in s.asked
    ensures var next := RaceStep(order, registered, s, t, m);
            next.asked <= Reachable(order, registered) && RaceOk(order, registered, next, |next.asked|)
  {
    var k := RaceStepOk(order, registered, s, t, m, |s.asked|);
    if Appends(order, s, t, m) {
      FreshIsNext(order, registered, s, HandlerOf(s, t).i);
    }
    hide Reachable, NoRepeats, RaceOk;
  }

  /** And as long as that does not happen the status is a prefix of the order, node for node. */
  lemma {:induction false} FreshRacesFollowOrder(
      order: seq<Address>, registered: set<Address>, s: Race, schedule: seq<(nat, Move)>)
    requires NoRepeats(order) && s.asked <= Reachable(order, registered)
    requires RaceOk(order, registered, s, |s.asked|) && AllFresh(order, registered, s, schedule)
    ensures RaceRun(order, registered, s, schedule).asked <= Reachable(order, registered)
    decreases |schedule|
  {
    if schedule != [] {
      var (t, m) := schedule[0];
      FreshStep(order, registered, s, t, m);
      hide RaceOk, RaceStep, Reachable, NoRepeats;
      FreshRacesFollowOrder(order, registered, RaceStep(order, registered, s, t, m), schedule[1..]);
    }
  }

  function Alone(t: nat, sent: bool, n: nat): seq<(nat, Move)> {
    if n == 0 then [] else [(t, Outcome(sent))] + Alone(t, sent, n - 1)
  }

  function Outcome(sent: bool): Move {
    if sent then Continue else SendFails
  }

  lemma FirstAlone(order: seq<Address>, registered: set<Address>, s: Race, t: nat, sent: bool, n: nat)
    requires n > 0
    ensures RaceRun(order, registered, s, Alone(t, sent, n))
         == RaceRun(order, registered, RaceStep(order, registered, s, t, Outcome(sent)), Alone(t, sent, n - 1))
  {
    assert Alone(t, sent, n)[1..] == Alone(t, sent, n - 1);
  }

  lemma {:induction false} RestingStays(
      order: seq<Address>, registered: set<Address>, s: Race, t: nat, sent: bool, n: nat)
    requires HandlerOf(s, t) == Resting
    ensures RaceRun(order, registered, s, Alone(t, sent, n)).asked == s.asked
    decreases n
  {
    if n > 0 {
      FirstAlone(order, registered, s, t, sent, n);
      RestingStays(order, registered, RaceStep(order, registered, s, t, Outcome(sent)), t, sent, n - 1);
    }
  }

  lemma {:induction false} AloneFrom(
      order: seq<Address>, registered: set<Address>, s: Race, t: nat, e: Event, i: nat, n: nat)
    requires i <= |order| && n >= |order| - i + 2
    requires HandlerOf(s, t) == if e.Start? then Starting(i) else Searching(i)
    ensures RaceRun(order, registered, s, Alone(t, e.sent, n)).asked == After(order[i..], registered, s.asked, e)
    decreases |order| - i
  {
    hide RaceRun, Alone;
    var s1 := RaceStep(order, registered, s, t, Outcome(e.sent));
    FirstAlone(order, registered, s, t, e.sent, n);
    if i == |order| {
      RestingStays(order, registered, s1, t, e.sent, n - 1);
    } else {
      assert order[i..][0] == order[i] && order[i..][1..] == order[i + 1..];
      if HandlerOf(s1, t).Sending? {
        FirstAlone(order, registered, s1, t, e.sent, n - 1);
        RestingStays(order, registered, RaceStep(order, registered, s1, t, Outcome(e.sent)), t, e.sent, n - 2);
      } else {
        AloneFrom(order, registered, s1, t, e, i + 1, n - 1);
      }
    }
  }

  /** A handler that no other interrupts does what its event says. */
  lemma AloneIsEvent(order: seq<Address>, registered: set<Address>, s: Race, t: nat, e: Event)
    requires HandlerOf(s, t) == Resting
    ensures RaceRun(order, registered, RaceStep(order, registered, s, t, Begin(e.Start?)),
                    Alone(t, e.sent, |order| + 2)).asked
         == After(order, registered, s.asked, e)
  {
    assert order[0..] == order;
    AloneFrom(order, registered, RaceStep(order, registered, s, t, Begin(e.Start?)), t, e, 0, |order| + 2);
  }

  /** A race repeats a request too: a response that looks before the append of the start asks the same node. */
  lemma RacingAsksTwice(order: seq<Address>, registered: set<Address>)
    requires order != [] && order[0] in registered
    ensures RaceRun(order, registered, Race([], map[]),
                    [(0, Begin(true)), (0, Continue), (1, Begin(false)), (1, Continue),
                     (0, Continue), (1, Continue)]).asked
         == [order[0], order[0]]
  {
    var both, done: seq<(nat, Move)> := [(1, Begin(false)), (1, Continue)], [(0, Continue), (1, Continue)];
    var s2 := Race([], map[0 := Sending(0)]);
    var s4 := s2.(handlers := map[0 := Sending(0), 1 := Sending(0)]);
    RunOfTwo(order, registered, Race([], map[]), (0, Begin(true)), (0, Continue), both + done);
    RunOfTwo(order, registered, s2, (1, Begin(false)), (1, Continue), done);
    RunOfTwo(order, registered, s4, (0, Continue), (1, Continue), []);
    assert done + [] == done;
    assert [(0, Begin(true)), (0, Continue)] + (both + done)
        == [(0, Begin(true)), (0, Continue), (1, Begin(false)), (1, Continue), (0, Continue), (1, Continue)];
  }

  lemma RunOfTwo(
      order: seq<Address>, registered: set<Address>, s: Race, a: (nat, Move), b: (nat, Move), rest: seq<(nat, Move)>)
    ensures RaceRun(order, registered, s, [a, b] + rest)
         == RaceRun(order, registered,
                    RaceStep(order, registered, RaceStep(order, registered, s, a.0, a.1), b.0, b.1), rest)
  {
    hide RaceStep;
    assert ([a, b] + rest)[1..] == [b] + rest && ([b] + rest)[1..] == rest;
  }
}
