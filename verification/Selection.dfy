/** Increasing lists of positions, as they arise when a loop picks some elements of a list. */
module Selection {

  ghost predicate Increasing(picks: seq<nat>) {
    forall i, j :: 0 <= i < j < |picks| ==> picks[i] < picks[j]
  }

  ghost predicate Below(picks: seq<nat>, n: nat) {
    forall k :: k in picks ==> k < n
  }

  /** The next position is picked or not. */
  lemma PickNext(picks: seq<nat>, n: nat, pick: bool, picks': seq<nat>)
    requires Increasing(picks) && Below(picks, n) && picks' == if pick then picks + [n] else picks
    ensures Increasing(picks') && Below(picks', n + 1)
    ensures forall k :: k in picks' <==> k in picks || (pick && k == n)
  {
    forall i, j | 0 <= i < j < |picks'| ensures picks'[i] < picks'[j] {
      assert i < |picks| ==> picks[i] in picks;
    }
  }
}
