/** The flat file keys round + "+" + eoa, and the monitor's view of them as rounds with operators. */
module KeyStore {
  import opened Words
  import opened Operators

  function Compose(round: string, eoa: string): string {
    round + "+" + eoa
  }

  /** Position of the last '+', or the length when there is none. */
  function LastPlus(key: string): (split: nat)
    ensures split <= |key|
    ensures split < |key| ==> key[split] == '+' && '+' !in key[split + 1..]
    ensures split == |key| ==> '+' !in key
  {
    LastPlusFrom(key, |key|)
  }

  function LastPlusFrom(key: string, n: nat): (split: nat)
    requires n <= |key| && '+' !in key[n..]
    ensures split <= |key|
    ensures split < |key| ==> key[split] == '+' && '+' !in key[split + 1..]
    ensures split == |key| ==> '+' !in key
  {
    if n == 0 then
      assert key[0..] == key;
      |key|
    else if key[n - 1] == '+' then n - 1
    else
      assert key[n - 1..] == [key[n - 1]] + key[n..];
      LastPlusFrom(key, n - 1)
  }

  /** parseLeaderCommitKey; a key without '+' gives two empty strings. */
  function Parse(key: string): (string, string) {
    var split := LastPlus(key);
    if split == |key| then ("", "") else (key[..split], key[split + 1..])
  }

  method ParseLeaderCommitKey(key: string) returns (round: string, eoa: string)
    ensures (round, eoa) == Parse(key)
    ensures if '+' in key then key == round + "+" + eoa && '+' !in eoa else round == eoa == ""
  {
    var split := |key|;
    var i := |key| - 1;
    while i >= 0
      invariant -1 <= i < |key|
      invariant split == |key|
      invariant '+' !in key[i + 1..]
    {
      if key[i] == '+' {
        split := i;
        break;
      }
      assert key[i..] == [key[i]] + key[i + 1..];
      i := i - 1;
    }
    assert split == LastPlus(key) by { LastPlusUnique(key, split); }
    if split == |key| {
      return "", "";
    }
    ComposeInverts(key);
    return key[..split], key[split + 1..];
  }

  lemma LastPlusUnique(key: string, split: nat)
    requires split <= |key|
    requires split < |key| ==> key[split] == '+' && '+' !in key[split + 1..]
    requires split == |key| ==> '+' !in key
    ensures split == LastPlus(key)
  {
    var other := LastPlus(key);
    NoLaterPlus(key, split);
    NoLaterPlus(key, other);
  }

  lemma NoLaterPlus(key: string, split: nat)
    requires split <= |key|
    requires split < |key| ==> '+' !in key[split + 1..]
    ensures forall i :: split < i < |key| ==> key[i] != '+'
  {
    forall i | split < i < |key| ensures key[i] != '+' {
      assert key[i] == key[split + 1..][i - split - 1];
    }
  }

  /** Parsing inverts composing for every round string, one with '+' in it too, when the EOA has no '+'. */
  lemma ParseInverts(round: string, eoa: string)
    requires '+' !in eoa
    ensures Parse(round + "+" + eoa) == (round, eoa)
  {
    var key := Compose(round, eoa);
    assert key[|round|] == '+' && key[|round| + 1..] == eoa && key[..|round|] == round;
    LastPlusUnique(key, |round|);
  }

  /** And composing inverts parsing of every key that has a '+'. */
  lemma ComposeInverts(key: string)
    requires '+' in key
    ensures Parse(key).0 + "+" + Parse(key).1 == key
    ensures '+' !in Parse(key).1
  {
    var split := LastPlus(key);
    assert key == key[..split] + [key[split]] + key[split + 1..];
  }

  /** So the keys of two different (round, EOA) pairs differ. */
  lemma ComposeInjective(round: string, eoa: string, round': string, eoa': string)
    requires '+' !in eoa && '+' !in eoa'
    requires round + "+" + eoa == round' + "+" + eoa'
    ensures round == round' && eoa == eoa'
  {
    ParseInverts(round, eoa);
    ParseInverts(round', eoa');
  }

  // ---------------------------------------------------------------------
  // The flat store simulates a map of maps

  /** What the flat store holds for a round and an EOA. */
  function At<V>(store: map<string, V>, round: string, eoa: string): Option<V> {
    var key := Compose(round, eoa);
    if key in store then Some(store[key]) else None
  }

  /** A write at one pair is read back there and changes no other pair. */
  lemma WriteOnePair<V>(store: map<string, V>, round: string, eoa: string, v: V, round': string, eoa': string)
    requires '+' !in eoa && '+' !in eoa'
    ensures At(store[round + "+" + eoa := v], round', eoa')
         == if (round, eoa) == (round', eoa') then Some(v) else At(store, round', eoa')
  {
    if Compose(round, eoa) == Compose(round', eoa') {
      ComposeInjective(round, eoa, round', eoa');
    }
  }

  // ---------------------------------------------------------------------
  // Grouping by round

  method AppendIfNotExists(slice: seq<Address>, eoa: Address) returns (appended: seq<Address>)
    ensures appended == if eoa in slice then slice else slice + [eoa]
  {
    for i := 0 to |slice|
      invariant eoa !in slice[..i]
    {
      if slice[i] == eoa {
        return slice;
      }
      assert slice[..i + 1] == slice[..i] + [slice[i]];
    }
    assert slice[..|slice|] == slice;
    return slice + [eoa];
  }

  /** The key names the round, and its EOA text reads as the address. */
  ghost predicate Names(address: string -> Address, key: string, round: string, a: Address) {
    Parse(key).0 == round && round != "" && Parse(key).1 != "" && address(Parse(key).1) == a
  }

  ghost predicate Named(address: string -> Address, keys: set<string>, round: string, a: Address) {
    exists key :: key in keys && Names(address, key, round, a)
  }

  ghost predicate InGroup(groups: map<string, seq<Address>>, round: string, a: Address) {
    round in groups && a in groups[round]
  }

  /** For each round the addresses named by the keys, each once, and no empty group. */
  ghost predicate Grouped(address: string -> Address, keys: set<string>, groups: map<string, seq<Address>>) {
    && (forall round: string, a: Address :: InGroup(groups, round, a) <==> Named(address, keys, round, a))
    && (forall round :: round in groups ==> Distinct(groups[round]))
  }

  ghost predicate Distinct(xs: seq<Address>) {
    xs != [] && forall i, j :: 0 <= i < j < |xs| ==> xs[i] != xs[j]
  }

  /** getEOAsForRounds, with the keys taken in any order; `address` is HexToAddress. */
  method GetEOAsForRounds(address: string -> Address, keys: set<string>) returns (groups: map<string, seq<Address>>)
    ensures Grouped(address, keys, groups)
    ensures forall round, eoa :: round != "" && eoa != "" && '+' !in eoa && round + "+" + eoa in keys ==>
              round in groups && address(eoa) in groups[round]
    ensures forall round: string, a: Address :: round in groups && a in groups[round] ==>
              exists eoa: string :: eoa != "" && round + "+" + eoa in keys && address(eoa) == a
    ensures forall round, i, j :: round in groups && 0 <= i < j < |groups[round]| ==>
              groups[round][i] != groups[round][j]
  {
    groups := map[];
    var left := keys;
    while left != {}
      invariant left <= keys
      invariant Grouped(address, keys - left, groups)
      decreases |left|
    {
      var key :| key in left;
      var round, eoa := ParseLeaderCommitKey(key);
      ghost var before, done := groups, keys - left;
      left := left - {key};
      assert keys - left == done + {key};
      if round != "" && eoa != "" {
        var appended := AppendIfNotExists(if round in groups then groups[round] else [], address(eoa));
        groups := groups[round := appended];
        GroupedExtends(address, done, before, key, groups);
      } else {
        GroupedSkips(address, done, before, key);
      }
    }
    assert keys - left == keys;
    GroupsInWords(address, keys, groups);
  }

  lemma GroupsInWords(address: string -> Address, keys: set<string>, groups: map<string, seq<Address>>)
    requires Grouped(address, keys, groups)
    ensures forall round, eoa :: round != "" && eoa != "" && '+' !in eoa && round + "+" + eoa in keys ==>
              round in groups && address(eoa) in groups[round]
    ensures forall round: string, a: Address :: round in groups && a in groups[round] ==>
              exists eoa: string :: eoa != "" && round + "+" + eoa in keys && address(eoa) == a
    ensures forall round, i, j :: round in groups && 0 <= i < j < |groups[round]| ==>
              groups[round][i] != groups[round][j]
  {
    forall round, eoa | round != "" && eoa != "" && '+' !in eoa && round + "+" + eoa in keys
      ensures InGroup(groups, round, address(eoa))
    {
      ParseInverts(round, eoa);
      assert Names(address, round + "+" + eoa, round, address(eoa));
    }
    forall round: string, a: Address | round in groups && a in groups[round]
      ensures exists eoa: string :: eoa != "" && round + "+" + eoa in keys && address(eoa) == a
    {
      assert InGroup(groups, round, a);
      var key :| key in keys && Names(address, key, round, a);
      ComposeInverts(key);
      assert round + "+" + Parse(key).1 in keys && address(Parse(key).1) == a;
    }
    assert forall round :: round in groups ==> Distinct(groups[round]);
  }

  lemma GroupedExtends(
      address: string -> Address, done: set<string>, before: map<string, seq<Address>>, key: string,
      groups: map<string, seq<Address>>)
    requires Grouped(address, done, before)
    requires var (round, eoa) := Parse(key);
             && round != "" && eoa != ""
             && var group := if round in before then before[round] else [];
                groups == before[round := if address(eoa) in group then group else group + [address(eoa)]]
    ensures Grouped(address, done + {key}, groups)
  {
    var (round, eoa) := Parse(key);
    forall r: string, a: Address ensures InGroup(groups, r, a) <==> Named(address, done + {key}, r, a) {
      OneKeyMore(address, done, key, r, a);
      assert InGroup(before, r, a) <==> Named(address, done, r, a);
      assert InGroup(groups, r, a) <==> InGroup(before, r, a) || (r == round && a == address(eoa));
    }
  }

  lemma GroupedSkips(address: string -> Address, done: set<string>, before: map<string, seq<Address>>, key: string)
    requires Grouped(address, done, before) && (Parse(key).0 == "" || Parse(key).1 == "")
    ensures Grouped(address, done + {key}, before)
  {
    forall r: string, a: Address ensures InGroup(before, r, a) <==> Named(address, done + {key}, r, a) {
      OneKeyMore(address, done, key, r, a);
      assert InGroup(before, r, a) <==> Named(address, done, r, a);
    }
  }

  lemma OneKeyMore(address: string -> Address, done: set<string>, key: string, round: string, a: Address)
    ensures Named(address, done + {key}, round, a) <==> Named(address, done, round, a) || Names(address, key, round, a)
  {
    if Names(address, key, round, a) {
      assert key in done + {key};
    } else if Named(address, done, round, a) {
      var k :| k in done && Names(address, k, round, a);
      assert k in done + {key};
    }
  }
}
