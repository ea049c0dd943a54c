/** One event of the FSR producer as a function of its inputs: every photon in
    collection order goes through the pipeline and, when accepted, is embedded
    on its lepton. The theorems say what the decorated collection holds. */
module FsrEvent {
  import opened Wrappers
  import opened Kinematics
  import opened FsrTypes
  import opened FsrSelection
  import opened FsrEmbed

  /** The producer's working copies of `src` and `srcAlt`. */
  datatype Collections = Collections(src: seq<Lepton>, alt: seq<Lepton>)

  predicate AllFit(photons: seq<Photon>, nSrc: nat, nAlt: nat, nVeto: nat) {
    forall p :: 0 <= p < |photons| ==> Fits(photons[p], nSrc, nAlt, nVeto)
  }

  /** Photon number `p`: the best-lepton search asks the ID of every lepton of both
      collections, then the decision is applied; `None` when the event aborts. */
  function PhotonStep(cfg: Config, st: Collections, veto: seq<VetoElectron>, pho: Photon, p: nat): (r: Option<Collections>)
    requires Fits(pho, |st.src|, |st.alt|, |veto|)
    ensures r.Some? ==> |r.value.src| == |st.src| && |r.value.alt| == |st.alt|
    ensures r.None? <==> Decide(cfg, st.src, st.alt, veto, pho).MissingIso?
  {
    Apply(cfg, st, Decide(cfg, st.src, st.alt, veto, pho), p)
  }

  /** The effect of photon `p` with outcome `o` on the working collections. */
  function Apply(cfg: Config, st: Collections, o: Outcome, p: nat): (r: Option<Collections>)
    requires o.Accepted? ==> o.lepton < |st.src|
    ensures r.Some? ==> |r.value.src| == |st.src| && |r.value.alt| == |st.alt|
    ensures r.None? <==> o.MissingIso?
  {
    var src, alt := CacheAll(cfg, st.src), CacheAll(cfg, st.alt);
    match o
    case MissingIso => None
    case Accepted(i) => Some(Collections(src[i := EmbedCand(src[i], cfg.userLabel, p)], alt))
    case _ => Some(Collections(src, alt))
  }

  /** The whole event: the photons processed in order from the input collections. */
  function RunEvent(cfg: Config, src0: seq<Lepton>, alt0: seq<Lepton>, veto: seq<VetoElectron>, photons: seq<Photon>)
    : (r: Option<Collections>)
    requires AllFit(photons, |src0|, |alt0|, |veto|)
    ensures r.Some? ==> |r.value.src| == |src0| && |r.value.alt| == |alt0|
    decreases |photons|
  {
    if photons == [] then Some(Collections(src0, alt0))
    else
      var n := |photons| - 1;
      var prev := RunEvent(cfg, src0, alt0, veto, photons[..n]);
      if prev.None? then None else PhotonStep(cfg, prev.value, veto, photons[n], n)
  }

  /** Once the event has aborted, later photons do not revive it. */
  lemma {:induction false} AbortIsFinal(cfg: Config, src0: seq<Lepton>, alt0: seq<Lepton>, veto: seq<VetoElectron>,
                                        photons: seq<Photon>, k: nat)
    requires AllFit(photons, |src0|, |alt0|, |veto|)
    requires k <= |photons| && RunEvent(cfg, src0, alt0, veto, photons[..k]).None?
    ensures RunEvent(cfg, src0, alt0, veto, photons).None?
    decreases |photons| - k
  {
    if k < |photons| {
      var next := photons[..k + 1];
      assert next[..k] == photons[..k];
      AbortIsFinal(cfg, src0, alt0, veto, photons, k + 1);
    } else {
      assert photons[..k] == photons;
    }
  }

  /** Two views of a collection that agree on every lepton's identity, flavour and ID answer. */
  predicate SameIds(cfg: Config, s: seq<Lepton>, s0: seq<Lepton>) {
    |s| == |s0| &&
    forall i :: 0 <= i < |s| ==>
      s[i].key == s0[i].key && s[i].flavour == s0[i].flavour && IdDecision(cfg, s[i]) == IdDecision(cfg, s0[i])
  }

  lemma {:induction false} ClosestEligibleRespectsIds(cfg: Config, s: seq<Lepton>, s0: seq<Lepton>, dRs: seq<real>)
    requires SameIds(cfg, s, s0) && |dRs| == |s|
    ensures ClosestEligible(cfg, s, dRs) == ClosestEligible(cfg, s0, dRs)
    decreases |s|
  {
    if s != [] {
      var n := |s| - 1;
      ClosestEligibleRespectsIds(cfg, s[..n], s0[..n], dRs[..n]);
    }
  }

  /** A photon's fate depends on the leptons only through their identities, flavours and ID answers. */
  lemma DecideRespectsIds(cfg: Config, src: seq<Lepton>, src0: seq<Lepton>, alt: seq<Lepton>, alt0: seq<Lepton>,
                          veto: seq<VetoElectron>, pho: Photon)
    requires SameIds(cfg, src, src0) && SameIds(cfg, alt, alt0)
    requires Fits(pho, |src|, |alt|, |veto|)
    ensures Decide(cfg, src, alt, veto, pho) == Decide(cfg, src0, alt0, veto, pho)
  {
    ClosestEligibleRespectsIds(cfg, src, src0, pho.dRSrc);
    ClosestEligibleRespectsIds(cfg, alt, alt0, pho.dRAlt);
  }

  /** The fate of every photon, judged against the input collections. */
  function Outcomes(cfg: Config, src0: seq<Lepton>, alt0: seq<Lepton>, veto: seq<VetoElectron>,
                    photons: seq<Photon>): (r: seq<Outcome>)
    requires AllFit(photons, |src0|, |alt0|, |veto|)
    ensures |r| == |photons|
  {
    seq(|photons|, p requires 0 <= p < |photons| => Decide(cfg, src0, alt0, veto, photons[p]))
  }

  lemma OutcomesAppend(cfg: Config, src0: seq<Lepton>, alt0: seq<Lepton>, veto: seq<VetoElectron>,
                        photons: seq<Photon>)
    requires AllFit(photons, |src0|, |alt0|, |veto|) && photons != []
    ensures Outcomes(cfg, src0, alt0, veto, photons)
         == Outcomes(cfg, src0, alt0, veto, photons[..|photons| - 1]) + [Decide(cfg, src0, alt0, veto, photons[|photons| - 1])]
  {
  }

  /** The indices, in increasing order, of the photons accepted for lepton `i`. */
  function Owned(os: seq<Outcome>, i: nat): (r: seq<nat>)
    ensures forall k :: 0 <= k < |r| ==> r[k] < |os| && os[r[k]] == Accepted(i)
    ensures forall k, m :: 0 <= k < m < |r| ==> r[k] < r[m]
    ensures forall p :: 0 <= p < |os| && os[p] == Accepted(i) ==> p in r
    decreases |os|
  {
    if os == [] then []
    else
      var n := |os| - 1;
      Owned(os[..n], i) + (if os[n] == Accepted(i) then [n] else [])
  }

  /** The photons that go to lepton `i`, in processing order. */
  function AssignedTo(cfg: Config, src0: seq<Lepton>, alt0: seq<Lepton>, veto: seq<VetoElectron>,
                      photons: seq<Photon>, i: nat): seq<nat>
    requires AllFit(photons, |src0|, |alt0|, |veto|)
  {
    Owned(Outcomes(cfg, src0, alt0, veto, photons), i)
  }

  /** Every field of the lepton other than its annotations. */
  predicate SameObject(l: Lepton, l0: Lepton) {
    l.key == l0.key && l.flavour == l0.flavour && l.pt == l0.pt && l.eta == l0.eta &&
    l.sip3d == l0.sip3d && l.dxy == l0.dxy && l.dz == l0.dz
  }

  /** What holds of the working collections once the photons with outcomes `os`
      have been processed. */
  ghost predicate Invariant(cfg: Config, st: Collections, src0: seq<Lepton>, alt0: seq<Lepton>, os: seq<Outcome>) {
    && SameIds(cfg, st.src, src0) && SameIds(cfg, st.alt, alt0)
    && forall i :: 0 <= i < |st.src| ==>
         SameObject(st.src[i], src0[i]) && Holds(st.src[i], cfg.userLabel, Owned(os, i))
  }

  /** One photon keeps the invariant, with its outcome appended. */
  lemma ApplyKeepsInvariant(cfg: Config, st: Collections, src0: seq<Lepton>, alt0: seq<Lepton>,
                            o: Outcome, os: seq<Outcome>)
    requires o.Accepted? ==> o.lepton < |st.src|
    requires Invariant(cfg, st, src0, alt0, os)
    requires Apply(cfg, st, o, |os|).Some?
    ensures Invariant(cfg, Apply(cfg, st, o, |os|).value, src0, alt0, os + [o])
  {
    var tag := cfg.userLabel;
    var n := |os|;
    var st' := Apply(cfg, st, o, n).value;
    var os' := os + [o];
    assert os'[..n] == os;
    assert st'.alt == CacheAll(cfg, st.alt);
    forall i | 0 <= i < |st'.src|
      ensures st'.src[i].key == src0[i].key && st'.src[i].flavour == src0[i].flavour
      ensures IdDecision(cfg, st'.src[i]) == IdDecision(cfg, src0[i])
      ensures SameObject(st'.src[i], src0[i])
      ensures Holds(st'.src[i], tag, Owned(os', i))
    {
      assert st'.src[i] == if o == Accepted(i) then EmbedCand(WithIdCache(cfg, st.src[i]), tag, n)
                           else WithIdCache(cfg, st.src[i]);
      LeptonKeepsInvariant(cfg, st.src[i], src0[i], tag, Owned(os, i), o, i, n);
      assert Owned(os', i) == Owned(os, i) + if o == Accepted(i) then [n] else [];
    }
  }

  /** One lepton through one photon keeps its identity, its ID answer and what it holds. */
  lemma LeptonKeepsInvariant(cfg: Config, l: Lepton, l0: Lepton, tag: string, ps: seq<nat>, o: Outcome, i: nat, n: nat)
    requires l.key == l0.key && IdDecision(cfg, l) == IdDecision(cfg, l0) && SameObject(l, l0)
    requires Holds(l, tag, ps)
    ensures var l' := if o == Accepted(i) then EmbedCand(WithIdCache(cfg, l), tag, n) else WithIdCache(cfg, l);
      && l'.key == l0.key && IdDecision(cfg, l') == IdDecision(cfg, l0) && SameObject(l', l0)
      && Holds(l', tag, ps + if o == Accepted(i) then [n] else [])
  {
    var c := WithIdCache(cfg, l);
    assert Holds(c, tag, ps);
    if o == Accepted(i) {
      EmbedAppends(c, tag, ps, n);
    } else {
      assert ps + [] == ps;
    }
  }

  lemma {:induction false} ProduceKeepsInvariant(cfg: Config, src0: seq<Lepton>, alt0: seq<Lepton>,
                                                 veto: seq<VetoElectron>, photons: seq<Photon>)
    requires AllFit(photons, |src0|, |alt0|, |veto|)
    requires forall i :: 0 <= i < |src0| ==> Unannotated(src0[i], cfg.userLabel)
    requires RunEvent(cfg, src0, alt0, veto, photons).Some?
    ensures Invariant(cfg, RunEvent(cfg, src0, alt0, veto, photons).value, src0, alt0,
                      Outcomes(cfg, src0, alt0, veto, photons))
    decreases |photons|
  {
    if photons == [] {
      forall i | 0 <= i < |src0| ensures Holds(src0[i], cfg.userLabel, []) {
        UnannotatedHoldsNothing(src0[i], cfg.userLabel);
      }
    } else {
      var n := |photons| - 1;
      var init := photons[..n];
      var pho := photons[n];
      var st := RunEvent(cfg, src0, alt0, veto, init).value;
      var os := Outcomes(cfg, src0, alt0, veto, init);
      ProduceKeepsInvariant(cfg, src0, alt0, veto, init);
      DecideRespectsIds(cfg, st.src, src0, st.alt, alt0, veto, pho);
      ApplyKeepsInvariant(cfg, st, src0, alt0, Decide(cfg, src0, alt0, veto, pho), os);
      OutcomesAppend(cfg, src0, alt0, veto, photons);
    }
  }

  /** After the event, lepton i of the output holds exactly the photons assigned
      to it, in processing order, under ranks 0, 1, ... with the count equal to
      their number; the lepton is otherwise the input lepton. */
  lemma ProduceEmbedsAssigned(cfg: Config, src0: seq<Lepton>, alt0: seq<Lepton>,
                              veto: seq<VetoElectron>, photons: seq<Photon>)
    requires AllFit(photons, |src0|, |alt0|, |veto|)
    requires forall i :: 0 <= i < |src0| ==> Unannotated(src0[i], cfg.userLabel)
    requires RunEvent(cfg, src0, alt0, veto, photons).Some?
    ensures var out := RunEvent(cfg, src0, alt0, veto, photons).value.src;
      && |out| == |src0|
      && forall i :: 0 <= i < |out| ==>
           && SameObject(out[i], src0[i])
           && CountOf(out[i], cfg.userLabel) == |AssignedTo(cfg, src0, alt0, veto, photons, i)|
           && Holds(out[i], cfg.userLabel, AssignedTo(cfg, src0, alt0, veto, photons, i))
  {
    ProduceKeepsInvariant(cfg, src0, alt0, veto, photons);
  }

  /** The event aborts exactly when some photon that found a lepton lacks an
      isolation component. */
  lemma {:induction false} ProduceAbortsIff(cfg: Config, src0: seq<Lepton>, alt0: seq<Lepton>,
                                            veto: seq<VetoElectron>, photons: seq<Photon>)
    requires AllFit(photons, |src0|, |alt0|, |veto|)
    ensures RunEvent(cfg, src0, alt0, veto, photons).None? <==> MissingIso in Outcomes(cfg, src0, alt0, veto, photons)
    decreases |photons|
  {
    if photons != [] {
      var n := |photons| - 1;
      var init := photons[..n];
      var os := Outcomes(cfg, src0, alt0, veto, init);
      var pho := photons[n];
      ProduceAbortsIff(cfg, src0, alt0, veto, init);
      OutcomesAppend(cfg, src0, alt0, veto, photons);
      var prev := RunEvent(cfg, src0, alt0, veto, init);
      if prev.Some? {
        var st := prev.value;
        ProduceRelatesIds(cfg, src0, alt0, veto, init);
        DecideRespectsIds(cfg, st.src, src0, st.alt, alt0, veto, pho);
      }
    }
  }

  /** The working collections keep every lepton's identity and ID answer. */
  lemma {:induction false} ProduceRelatesIds(cfg: Config, src0: seq<Lepton>, alt0: seq<Lepton>,
                                             veto: seq<VetoElectron>, photons: seq<Photon>)
    requires AllFit(photons, |src0|, |alt0|, |veto|)
    requires RunEvent(cfg, src0, alt0, veto, photons).Some?
    ensures SameIds(cfg, RunEvent(cfg, src0, alt0, veto, photons).value.src, src0)
    ensures SameIds(cfg, RunEvent(cfg, src0, alt0, veto, photons).value.alt, alt0)
    decreases |photons|
  {
    if photons != [] {
      var n := |photons| - 1;
      ProduceRelatesIds(cfg, src0, alt0, veto, photons[..n]);
    }
  }

  /** An embedded photon passed every stage against its lepton: the lepton passes
      ID, is the closest eligible one of `src` within dROuter, no lepton of
      `srcAlt` passing ID is strictly closer, the isolation, pt and eta cuts of its
      distance band hold, and no veto electron other than the lepton itself
      rejects it. */
  lemma EmbeddedPhotonQualifies(cfg: Config, src0: seq<Lepton>, alt0: seq<Lepton>,
                                veto: seq<VetoElectron>, photons: seq<Photon>, i: nat, p: nat)
    requires AllFit(photons, |src0|, |alt0|, |veto|)
    requires p in AssignedTo(cfg, src0, alt0, veto, photons, i)
    ensures p < |photons| && i < |src0|
    ensures IdDecision(cfg, src0[i]) && photons[p].dRSrc[i] < cfg.dROuter
    ensures forall k :: 0 <= k < |src0| && Eligible(cfg, src0[k], photons[p].dRSrc[k]) ==>
              photons[p].dRSrc[i] <= photons[p].dRSrc[k]
    ensures forall j :: 0 <= j < |alt0| && IdDecision(cfg, alt0[j]) ==> photons[p].dRSrc[i] <= photons[p].dRAlt[j]
    ensures Abs(photons[p].eta) <= cfg.maxEta
    ensures photons[p].dRSrc[i] < cfg.dRInner ==> photons[p].pt >= cfg.ptInner
    ensures cfg.dRInner <= photons[p].dRSrc[i] ==> photons[p].pt >= cfg.ptOuter
    ensures PhotonRelIso(photons[p].userFloats, cfg.isoLabels).Some?
    ensures photons[p].dRSrc[i] < cfg.dRInner ==> PhotonRelIso(photons[p].userFloats, cfg.isoLabels).value <= cfg.isoInner
    ensures cfg.dRInner <= photons[p].dRSrc[i] ==> PhotonRelIso(photons[p].userFloats, cfg.isoLabels).value <= cfg.isoOuter
    ensures forall j :: 0 <= j < |veto| && !Exempt(veto[j], PairedElectron(src0[i])) ==> !Vetoes(cfg, photons[p].toVeto[j])
  {
    var r := AssignedTo(cfg, src0, alt0, veto, photons, i);
    var k :| 0 <= k < |r| && r[k] == p;
    assert Decide(cfg, src0, alt0, veto, photons[p]) == Accepted(i);
    DecideSpec(cfg, src0, alt0, veto, photons[p]);
    FindBestSpec(cfg, src0, alt0, photons[p]);
  }

  /** The electron and the muon producer run on the same event with the roles of
      `src` and `srcAlt` swapped. Both can keep the same photon only when its
      distances to the two winners are exactly equal. */
  lemma ClaimsExclusiveUnlessTied(cfg: Config, electrons: seq<Lepton>, muons: seq<Lepton>, pho: Photon)
    requires |pho.dRSrc| == |electrons| && |pho.dRAlt| == |muons|
    requires FindBest(cfg, electrons, muons, pho).Some?
    requires FindBest(cfg, muons, electrons, pho.(dRSrc := pho.dRAlt, dRAlt := pho.dRSrc)).Some?
    ensures pho.dRSrc[FindBest(cfg, electrons, muons, pho).value]
         == pho.dRAlt[FindBest(cfg, muons, electrons, pho.(dRSrc := pho.dRAlt, dRAlt := pho.dRSrc)).value]
  {
    FindBestSpec(cfg, electrons, muons, pho);
    FindBestSpec(cfg, muons, electrons, pho.(dRSrc := pho.dRAlt, dRAlt := pho.dRSrc));
  }
}
