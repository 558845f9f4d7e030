/** The monitor's collection of secrets and signatures for one round. */
module Monitor {
  import opened Words
  import opened Operators
  import opened LeaderStore

  /** Text conversions: ParseUint(v, 10, 8), and HexToHash for r and s. */
  datatype Parser = Parser(v: string -> Option<Byte>, hash: string -> Word)

  /** The four arrays passed to generateRandomNumber. */
  datatype Arrays = Arrays(secrets: seq<Word>, vs: seq<Byte>, rs: seq<Word>, ss: seq<Word>)

  /** `ready` is allEOAsSubmitted; `asked` is the operator sent a request, if any. */
  datatype Collected = Collected(ready: bool, asked: Option<Address>, arrays: Arrays)

  predicate HasSecret(commits: Records, key: Key) {
    key in commits && commits[key].secret != ZERO
  }

  predicate Signed(parser: Parser, sign: Sign) {
    sign.v != "" && sign.r != "" && sign.s != "" && parser.v(sign.v).Some?
  }

  /** The operator's secret is stored, with a complete signature. */
  predicate Usable(parser: Parser, commits: Records, key: Key) {
    HasSecret(commits, key) && Signed(parser, commits[key].sign)
  }

  predicate AllUsable(parser: Parser, commits: Records, round: string, ops: seq<Address>) {
    forall i :: 0 <= i < |ops| ==> Usable(parser, commits, Key(round, ops[i]))
  }

  /** Position i of each array belongs to operator i of the list. */
  ghost predicate Aligned(parser: Parser, commits: Records, round: string, ops: seq<Address>, a: Arrays) {
    && |a.secrets| == |a.vs| == |a.rs| == |a.ss| == |ops|
    && forall i :: 0 <= i < |ops| ==>
         && Usable(parser, commits, Key(round, ops[i]))
         && a.secrets[i] == commits[Key(round, ops[i])].secret
         && a.vs[i] == parser.v(commits[Key(round, ops[i])].sign.v).value
         && a.rs[i] == parser.hash(commits[Key(round, ops[i])].sign.r)
         && a.ss[i] == parser.hash(commits[Key(round, ops[i])].sign.s)
  }

  /** The operators with a secret, in order; the loop skips the others as long as they are not registered. */
  function WithSecret(commits: Records, round: string, ops: seq<Address>): seq<Address> {
    if ops == [] then []
    else
      var last := ops[|ops| - 1];
      WithSecret(commits, round, ops[..|ops| - 1]) + if HasSecret(commits, Key(round, last)) then [last] else []
  }

  /** What lets the loop get past an operator. */
  predicate Passes(parser: Parser, commits: Records, registered: set<Address>, round: string, op: Address) {
    if HasSecret(commits, Key(round, op)) then Signed(parser, commits[Key(round, op)].sign) else op !in registered
  }

  /** When every operator has its secret the loop skips no one. */
  lemma {:induction false} NobodySkipped(commits: Records, round: string, ops: seq<Address>)
    requires forall i :: 0 <= i < |ops| ==> HasSecret(commits, Key(round, ops[i]))
    ensures WithSecret(commits, round, ops) == ops
  {
    if ops != [] {
      NobodySkipped(commits, round, ops[..|ops| - 1]);
      assert ops == ops[..|ops| - 1] + [ops[|ops| - 1]];
    }
  }

  lemma AlignedExtends(parser: Parser, commits: Records, round: string, ops: seq<Address>, a: Arrays, op: Address)
    requires Aligned(parser, commits, round, ops, a) && Usable(parser, commits, Key(round, op))
    ensures var rec := commits[Key(round, op)];
            Aligned(parser, commits, round, ops + [op],
                    Arrays(a.secrets + [rec.secret], a.vs + [parser.v(rec.sign.v).value],
                           a.rs + [parser.hash(rec.sign.r)], a.ss + [parser.hash(rec.sign.s)]))
  {}

  /** Why the loop stopped: operator i has no secret and was asked, or has an unusable signature. */
  ghost predicate StoppedAt(
    parser: Parser, commits: Records, registered: set<Address>, round: string, ops: seq<Address>, i: nat,
    asked: Option<Address>)
    requires i < |ops|
  {
    && (forall k :: 0 <= k < i ==> Passes(parser, commits, registered, round, ops[k]))
    && !Passes(parser, commits, registered, round, ops[i])
    && asked == if HasSecret(commits, Key(round, ops[i])) then None else Some(ops[i])
  }

  /**
   * checkRoundsForCompletion's loop over the filtered operators. It is ready exactly when
   * no operator stops it; then the arrays are aligned with the operators that have a secret.
   * Otherwise the first operator to stop it is asked exactly when its secret is missing.
   */
  method CollectSecrets(parser: Parser, commits: Records, registered: set<Address>, round: string, ops: seq<Address>)
    returns (c: Collected)
    ensures c.ready <==> forall i :: 0 <= i < |ops| ==> Passes(parser, commits, registered, round, ops[i])
    ensures c.ready ==> c.asked.None? && Aligned(parser, commits, round, WithSecret(commits, round, ops), c.arrays)
    ensures !c.ready ==> exists i :: 0 <= i < |ops| && StoppedAt(parser, commits, registered, round, ops, i, c.asked)
    ensures c.ready <==>
              forall op :: op in ops ==>
                var key := Key(round, op);
                if key !in commits || commits[key].secret == ZERO then op !in registered
                else
                  var sign := commits[key].sign;
                  sign.v != "" && sign.r != "" && sign.s != "" && parser.v(sign.v).Some?
    ensures c.asked.Some? ==>
              var key := Key(round, c.asked.value);
              c.asked.value in ops && c.asked.value in registered && (key !in commits || commits[key].secret == ZERO)
  {
    var secrets: seq<Word>, vs: seq<Byte>, rs: seq<Word>, ss: seq<Word> := [], [], [], [];
    for i := 0 to |ops|
      invariant forall k :: 0 <= k < i ==> Passes(parser, commits, registered, round, ops[k])
      invariant Aligned(parser, commits, round, WithSecret(commits, round, ops[..i]), Arrays(secrets, vs, rs, ss))
    {
      var op := ops[i];
      var key := Key(round, op);
      assert ops[..i + 1][..i] == ops[..i];
      if key !in commits || commits[key].secret == ZERO {
        if op !in registered {
          continue;
        }
        assert StoppedAt(parser, commits, registered, round, ops, i, Some(op));
        return Collected(false, Some(op), Arrays(secrets, vs, rs, ss));
      }
      var sign := commits[key].sign;
      if sign.v == "" || sign.r == "" || sign.s == "" || parser.v(sign.v).None? {
        assert StoppedAt(parser, commits, registered, round, ops, i, None);
        return Collected(false, None, Arrays(secrets, vs, rs, ss));
      }
      AlignedExtends(parser, commits, round, WithSecret(commits, round, ops[..i]), Arrays(secrets, vs, rs, ss), op);
      hide Aligned, Passes;
      secrets := secrets + [commits[key].secret];
      vs := vs + [parser.v(sign.v).value];
      rs := rs + [parser.hash(sign.r)];
      ss := ss + [parser.hash(sign.s)];
      assert Passes(parser, commits, registered, round, op) by {
        PassesWhenUsable(parser, commits, registered, round, op);
      }
    }
    assert ops[..|ops|] == ops;
    return Collected(true, None, Arrays(secrets, vs, rs, ss));
  }

  lemma PassesWhenUsable(parser: Parser, commits: Records, registered: set<Address>, round: string, op: Address)
    requires Usable(parser, commits, Key(round, op))
    ensures Passes(parser, commits, registered, round, op)
  {}

  /**
   * On a round where every operator has a usable record, or is at least registered, the
   * monitor is ready exactly when all are usable, and it collects from all of them in order.
   */
  lemma ReadyCoversEveryone(
      parser: Parser, commits: Records, registered: set<Address>, round: string, ops: seq<Address>)
    requires forall i :: 0 <= i < |ops| ==> Usable(parser, commits, Key(round, ops[i])) || ops[i] in registered
    ensures (forall i :: 0 <= i < |ops| ==> Passes(parser, commits, registered, round, ops[i]))
         <==> AllUsable(parser, commits, round, ops)
    ensures AllUsable(parser, commits, round, ops) ==> WithSecret(commits, round, ops) == ops
  {
    if AllUsable(parser, commits, round, ops) {
      forall i | 0 <= i < |ops| ensures HasSecret(commits, Key(round, ops[i])) {
        assert Usable(parser, commits, Key(round, ops[i]));
      }
      NobodySkipped(commits, round, ops);
    } else {
      var i :| 0 <= i < |ops| && !Usable(parser, commits, Key(round, ops[i]));
      assert !Passes(parser, commits, registered, round, ops[i]);
    }
  }
}
