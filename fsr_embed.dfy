/** `embedFSRCand` on one lepton, and what its annotations say after a run of
    embeddings: the count `"n" + label` and the keys `label + "0"`,
    `label + "1"`, ... in embedding order. */
module FsrEmbed {
  import opened Decimal
  import opened FsrTypes

  /** The lepton after `embedFSRCand` with photon `p`: the photon is stored under
      the rank equal to the old count, and the count goes up by one; every other
      userCand and userInt, and every other field, is unchanged. */
  function EmbedCand(l: Lepton, prefix: string, p: nat): (r: Lepton)
    ensures CountOf(r, prefix) == CountOf(l, prefix) + 1
    ensures RankKey(prefix, CountOf(l, prefix)) in r.userCands
    ensures r.userCands[RankKey(prefix, CountOf(l, prefix))] == p
    ensures r.userCands.Keys == l.userCands.Keys + {RankKey(prefix, CountOf(l, prefix))}
    ensures r.userInts.Keys == l.userInts.Keys + {CountKey(prefix)}
    ensures forall k :: k in l.userCands && k != RankKey(prefix, CountOf(l, prefix)) ==> r.userCands[k] == l.userCands[k]
    ensures forall k :: k in l.userInts && k != CountKey(prefix) ==> r.userInts[k] == l.userInts[k]
    ensures r == l.(userInts := r.userInts, userCands := r.userCands)
  {
    var n := CountOf(l, prefix);
    l.(userInts := l.userInts[CountKey(prefix) := n + 1],
       userCands := l.userCands[RankKey(prefix, n) := p])
  }

  /** The lepton holds exactly the photons `ps` under `prefix`: its count is `|ps|`,
      rank `k` refers to `ps[k]`, and no other rank key is present. */
  ghost predicate Holds(l: Lepton, prefix: string, ps: seq<nat>) {
    && CountOf(l, prefix) == |ps|
    && (forall k :: 0 <= k < |ps| ==> RankKey(prefix, k) in l.userCands && l.userCands[RankKey(prefix, k)] == ps[k])
    && (forall k :: !(0 <= k < |ps|) ==> RankKey(prefix, k) !in l.userCands)
  }

  /** A lepton that carries no FSR annotation under `prefix` yet. */
  ghost predicate Unannotated(l: Lepton, prefix: string) {
    CountKey(prefix) !in l.userInts && forall k :: RankKey(prefix, k) !in l.userCands
  }

  lemma UnannotatedHoldsNothing(l: Lepton, prefix: string)
    requires Unannotated(l, prefix)
    ensures Holds(l, prefix, [])
  {
  }

  /** Embedding one more photon appends it at the next rank and keeps the ranks
      contiguous. */
  lemma EmbedAppends(l: Lepton, prefix: string, ps: seq<nat>, p: nat)
    requires Holds(l, prefix, ps)
    ensures Holds(EmbedCand(l, prefix, p), prefix, ps + [p])
  {
    var r := EmbedCand(l, prefix, p);
    var n := |ps|;
    forall k | k != n
      ensures RankKey(prefix, k) != RankKey(prefix, n)
    {
      if RankKey(prefix, k) == RankKey(prefix, n) {
        SuffixedInjective(prefix, k, n);
      }
    }
    assert forall k :: 0 <= k < n ==> (ps + [p])[k] == ps[k];
  }

  /** Embedding the photons `ps` one after the other, in order. */
  function EmbedAll(l: Lepton, prefix: string, ps: seq<nat>): Lepton
    decreases |ps|
  {
    if ps == [] then l else EmbedCand(EmbedAll(l, prefix, ps[..|ps| - 1]), prefix, ps[|ps| - 1])
  }

  /** After k embeddings on a fresh lepton its count is k and its rank keys are
      0 .. k-1, each referring to the photon embedded at that step. */
  lemma {:induction false} EmbedAllHolds(l: Lepton, prefix: string, ps: seq<nat>)
    requires Unannotated(l, prefix)
    ensures Holds(EmbedAll(l, prefix, ps), prefix, ps)
    decreases |ps|
  {
    if ps == [] {
      UnannotatedHoldsNothing(l, prefix);
    } else {
      var init := ps[..|ps| - 1];
      EmbedAllHolds(l, prefix, init);
      EmbedAppends(EmbedAll(l, prefix, init), prefix, init, ps[|ps| - 1]);
      assert init + [ps[|ps| - 1]] == ps;
    }
  }

  /** With the default label, "FSRCand1" is the key of the second photon. */
  lemma SecondPhotonKey(l: Lepton, ps: seq<nat>)
    requires Holds(l, "FSRCand", ps) && |ps| >= 2
    ensures "FSRCand1" in l.userCands && l.userCands["FSRCand1"] == ps[1]
    ensures CountKey("FSRCand") == "nFSRCand"
  {
    assert NatToString(1) == "1";
    assert RankKey("FSRCand", 1) == "FSRCand1";
  }
}
