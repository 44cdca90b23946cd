/** The nonce ledger: the set of Java `int`s `addSeenNounce` admits and `newNounce` avoids. The
    random draws of `newNounce`'s `SecureRandom` are an oracle sequence `draws`. */
module Nonces {
  import opened Wrappers
  import opened JavaInt

  /** `addSeenNounce`: admitting a nonce already in the ledger throws; otherwise the ledger gains it. */
  function Admit(ledger: set<Int32>, nounce: Int32): (r: Option<set<Int32>>)
    ensures r.Some? <==> nounce !in ledger
    ensures r.Some? ==> nounce in r.value && r.value - {nounce} == ledger
  {
    if nounce !in ledger then Some(ledger + {nounce}) else None
  }

  /** Admitting the same nonce twice always fails the second time. */
  lemma AdmitTwiceFails(ledger: set<Int32>, nounce: Int32)
    requires Admit(ledger, nounce).Some?
    ensures Admit(Admit(ledger, nounce).value, nounce) == None
  {
  }

  /** Some draw from position `from` on has a successor outside the ledger. */
  ghost predicate HasFresh(draws: seq<Int32>, ledger: set<Int32>, from: nat) {
    exists j | from <= j < |draws| :: Succ(draws[j]) !in ledger
  }

  /** The position of the draw `newNounce`'s `do`/`while` settles on when it starts drawing at
      `from`: the first whose successor (with 32-bit wrap-around) is not in the ledger. */
  function FirstFresh(draws: seq<Int32>, ledger: set<Int32>, from: nat): (k: nat)
    requires HasFresh(draws, ledger, from)
    ensures from <= k < |draws| && Succ(draws[k]) !in ledger
    ensures forall j | from <= j < k :: Succ(draws[j]) in ledger
    decreases |draws| - from
  {
    if Succ(draws[from]) !in ledger then from else FirstFresh(draws, ledger, from + 1)
  }

  /** The random source can serve a handshake's `newNounce` calls: it holds two draws with different
      values whose successors are both outside the ledger. */
  ghost predicate FreshSupply(draws: seq<Int32>, ledger: set<Int32>) {
    exists i, j | 0 <= i < j < |draws| :: draws[i] != draws[j] && Succ(draws[i]) !in ledger && Succ(draws[j]) !in ledger
  }

  /** After one more nonce is admitted, a supplied source can still serve a `newNounce` call. */
  lemma SupplyAfterAdmit(draws: seq<Int32>, ledger: set<Int32>, nounce: Int32)
    requires FreshSupply(draws, ledger)
    ensures HasFresh(draws, ledger + {nounce}, 0)
  {
    var i, j :| 0 <= i < j < |draws| && draws[i] != draws[j] && Succ(draws[i]) !in ledger && Succ(draws[j]) !in ledger;
    if Succ(draws[i]) == nounce {
      assert Succ(draws[j]) != nounce;
      assert Succ(draws[j]) !in ledger + {nounce};
    } else {
      assert Succ(draws[i]) !in ledger + {nounce};
    }
  }

  /** After the first fresh draw is taken and its successor admitted, a supplied source can serve a
      second `newNounce` call from the next position on. */
  lemma SupplyAfterFirst(draws: seq<Int32>, ledger: set<Int32>)
    requires FreshSupply(draws, ledger)
    ensures HasFresh(draws, ledger, 0)
    ensures var k := FirstFresh(draws, ledger, 0); HasFresh(draws, ledger + {Succ(draws[k])}, k + 1)
  {
    var i, j :| 0 <= i < j < |draws| && draws[i] != draws[j] && Succ(draws[i]) !in ledger && Succ(draws[j]) !in ledger;
    var k := FirstFresh(draws, ledger, 0);
    var ledger' := ledger + {Succ(draws[k])};
    var w := if k < i && draws[i] != draws[k] then i else j;
    assert k < w < |draws| && draws[w] != draws[k] && Succ(draws[w]) !in ledger;
    SuccInjective(draws[w], draws[k]);
    assert Succ(draws[w]) !in ledger';
  }
}
