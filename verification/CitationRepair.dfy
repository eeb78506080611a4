/**
  The check that a repaired answer only removed words: the greedy scan over two token lists,
  and what it decides.
 */
module CitationRepair {

  /** An order-preserving choice of positions in the original that spells the repaired tokens. */
  ghost predicate Embeds(repaired: seq<string>, original: seq<string>, at: seq<nat>) {
    && |at| == |repaired|
    && (forall i | 0 <= i < |at| :: at[i] < |original| && original[at[i]] == repaired[i])
    && (forall i, j | 0 <= i < j < |at| :: at[i] < at[j])
  }

  ghost predicate Subsequence(repaired: seq<string>, original: seq<string>) {
    exists at :: Embeds(repaired, original, at)
  }

  /** The longest prefix of the repaired tokens that a scan of the original picks up greedily. */
  function Greedy(original: seq<string>, repaired: seq<string>): (position: nat)
    ensures position <= |repaired|
  {
    if original == [] then 0
    else
      var before := Greedy(original[..|original| - 1], repaired);
      if before < |repaired| && original[|original| - 1] == repaired[before] then before + 1 else before
  }

  /** The greedy prefix embeds. */
  lemma {:induction false} GreedyEmbeds(original: seq<string>, repaired: seq<string>)
    ensures Subsequence(repaired[..Greedy(original, repaired)], original)
  {
    var n := |original|;
    if n == 0 {
      assert Embeds(repaired[..0], original, []);
    } else {
      var init := original[..n - 1];
      GreedyEmbeds(init, repaired);
      var before := Greedy(init, repaired);
      var at: seq<nat> :| Embeds(repaired[..before], init, at);
      if Greedy(original, repaired) == before {
        assert Embeds(repaired[..before], original, at);
      } else {
        var longer: seq<nat> := at + [n - 1];
        assert forall i | 0 <= i < before :: longer[i] == at[i] < n - 1;
        assert Embeds(repaired[..before + 1], original, longer);
      }
    }
  }

  /** No prefix that embeds is longer than the greedy one. */
  lemma {:induction false} GreedyIsLongest(original: seq<string>, repaired: seq<string>, m: nat, at: seq<nat>)
    requires m <= |repaired| && Embeds(repaired[..m], original, at)
    ensures m <= Greedy(original, repaired)
  {
    var n := |original|;
    if m > 0 {
      assert at[m - 1] < n;
      var init := original[..n - 1];
      if at[m - 1] == n - 1 {
        assert Embeds(repaired[..m - 1], init, at[..m - 1]);
        GreedyIsLongest(init, repaired, m - 1, at[..m - 1]);
      } else {
        assert Embeds(repaired[..m], init, at);
        GreedyIsLongest(init, repaired, m, at);
      }
    }
  }

  /** The scan accepts exactly the nonempty token lists that are subsequences of the original's. */
  method RepairOnlyAddsCitations(original: seq<string>, repaired: seq<string>) returns (accepted: bool)
    ensures accepted <==> repaired != [] && Subsequence(repaired, original)
  {
    if repaired == [] { return false; }
    var position := 0;
    for i := 0 to |original|
      invariant position <= |repaired|
      invariant position == Greedy(original[..i], repaired)
    {
      assert original[..i + 1][..i] == original[..i];
      if position < |repaired| && original[i] == repaired[position] {
        position := position + 1;
      }
    }
    assert original[..|original|] == original;
    GreedyDecides(original, repaired);
    return position == |repaired|;
  }

  lemma GreedyDecides(original: seq<string>, repaired: seq<string>)
    ensures Greedy(original, repaired) == |repaired| <==> Subsequence(repaired, original)
  {
    GreedyEmbeds(original, repaired);
    assert repaired[..|repaired|] == repaired;
    if Subsequence(repaired, original) {
      var at: seq<nat> :| Embeds(repaired, original, at);
      GreedyIsLongest(original, repaired, |repaired|, at);
    }
  }
}
