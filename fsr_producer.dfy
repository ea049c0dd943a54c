/** The FSR embedding producer (`MiniAODObjectEmbedFSR<T,U>`) as a class: per
    event it copies `src` and `srcAlt` into member arrays, decorates them photon
    by photon, and hands the decorated `src` to the event. */
module FsrProducer {
  import opened Wrappers
  import opened Kinematics
  import opened FsrTypes
  import opened FsrSelection
  import opened FsrEmbed
  import opened FsrEvent

  class ObjectEmbedFsr {
    const cfg: Config
    var src: array<Lepton>
    var srcAlt: array<Lepton>
    var srcVeto: seq<VetoElectron>
    var srcPho: seq<Photon>

    /** The two working collections are distinct arrays. */
    ghost predicate Valid()
      reads this
    {
      src != srcAlt
    }

    constructor (cfg: Config)
      ensures this.cfg == cfg && Valid()
      ensures src.Length == 0 && srcAlt.Length == 0 && srcVeto == [] && srcPho == []
    {
      this.cfg := cfg;
      src := new Lepton[0];
      srcAlt := new Lepton[0];
      srcVeto := [];
      srcPho := [];
    }

    /** `leptonPassID`: answers the stored decision, or computes it and stores it
        as 1 or 0 on the lepton. */
    method LeptonPassID(coll: array<Lepton>, k: nat) returns (pass: bool)
      requires k < coll.Length
      modifies coll
      ensures pass == IdDecision(cfg, old(coll[k]))
      ensures coll[..] == old(coll[..])[k := WithIdCache(cfg, old(coll[k]))]
    {
      var l := coll[k];
      if ID_CACHE_KEY in l.userFloats {
        pass := l.userFloats[ID_CACHE_KEY] != 0.0;
      } else {
        pass := PassesKinematics(cfg, l) && IdHelper(l.flavour);
        coll[k] := l.(userFloats := l.userFloats[ID_CACHE_KEY := if pass then 1.0 else 0.0]);
      }
    }

    /** One pass over a collection: asks the ID of every lepton and keeps the
        closest eligible one (the first among equals). */
    method ScanClosest(coll: array<Lepton>, dRs: seq<real>) returns (best: Option<nat>)
      requires |dRs| == coll.Length
      modifies coll
      ensures best == ClosestEligible(cfg, old(coll[..]), dRs)
      ensures coll[..] == CacheAll(cfg, old(coll[..]))
    {
      ghost var s0 := coll[..];
      best := None;
      var bestDR := 0.0;
      var k := 0;
      while k < coll.Length
        invariant 0 <= k <= coll.Length
        invariant forall j :: 0 <= j < k ==> coll[j] == WithIdCache(cfg, s0[j])
        invariant forall j :: k <= j < coll.Length ==> coll[j] == s0[j]
        invariant best == ClosestEligible(cfg, s0[..k], dRs[..k])
        invariant best.Some? ==> best.value < k && bestDR == dRs[best.value]
      {
        var pass := LeptonPassID(coll, k);
        ghost var next := ClosestEligible(cfg, s0[..k + 1], dRs[..k + 1]);
        assert s0[..k + 1][..k] == s0[..k] && dRs[..k + 1][..k] == dRs[..k];
        assert next == if Eligible(cfg, s0[k], dRs[k]) && (best.None? || dRs[k] < dRs[best.value]) then Some(k) else best;
        if pass && dRs[k] < cfg.dROuter && (best.None? || dRs[k] < bestDR) {
          best := Some(k);
          bestDR := dRs[k];
        }
        k := k + 1;
      }
      assert s0[..k] == s0 && dRs[..k] == dRs;
      assert coll[..] == CacheAll(cfg, s0);
    }

    /** `findBestLepton`. */
    method FindBestLepton(pho: Photon) returns (best: Option<nat>)
      requires Valid() && |pho.dRSrc| == src.Length && |pho.dRAlt| == srcAlt.Length
      modifies src, srcAlt
      ensures best == FindBest(cfg, old(src[..]), old(srcAlt[..]), pho)
      ensures src[..] == CacheAll(cfg, old(src[..])) && srcAlt[..] == CacheAll(cfg, old(srcAlt[..]))
    {
      best := ScanClosest(src, pho.dRSrc);
      var rival := ScanClosest(srcAlt, pho.dRAlt);
      if best.Some? && rival.Some? && pho.dRAlt[rival.value] < pho.dRSrc[best.value] {
        best := None;
      }
    }

    /** `embedFSRCand`: adds the photon as userCand `label + str(n)` on lepton `k`,
        sets userInt `"n" + label` to n + 1 and returns it; the lepton stays in
        its collection and no other lepton changes. */
    method EmbedFSRCand(k: nat, p: nat) returns (n: int)
      requires k < src.Length
      modifies src
      ensures src[..] == old(src[..])[k := EmbedCand(old(src[k]), cfg.userLabel, p)]
      ensures n == CountOf(src[k], cfg.userLabel) == CountOf(old(src[k]), cfg.userLabel) + 1
    {
      var l := src[k];
      var countKey := CountKey(cfg.userLabel);
      var count := if countKey in l.userInts then l.userInts[countKey] else 0;
      l := l.(userCands := l.userCands[RankKey(cfg.userLabel, count) := p]);
      n := count + 1;
      l := l.(userInts := l.userInts[countKey := n]);
      src[k] := l;
    }

    /** Photon number `p` through the pipeline; `ok` is false when the event aborts. */
    method ProcessPhoton(p: nat) returns (ok: bool)
      requires Valid() && p < |srcPho| && Fits(srcPho[p], src.Length, srcAlt.Length, |srcVeto|)
      modifies src, srcAlt
      ensures PhotonStep(cfg, Collections(old(src[..]), old(srcAlt[..])), srcVeto, srcPho[p], p)
           == if ok then Some(Collections(src[..], srcAlt[..])) else None
    {
      var pho := srcPho[p];
      var best := FindBestLepton(pho);
      ok := true;
      if best.None? {
        return;
      }
      var i := best.value;
      var relIso := PhotonRelIso(pho.userFloats, cfg.isoLabels);
      if relIso.None? {
        ok := false;
        return;
      }
      var dR := pho.dRSrc[i];
      var isoCut := if dR < cfg.dRInner then cfg.isoInner else cfg.isoOuter;
      var ptCut := if dR < cfg.dRInner then cfg.ptInner else cfg.ptOuter;
      if relIso.value > isoCut || pho.pt < ptCut || Abs(pho.eta) > cfg.maxEta {
        return;
      }
      if !PassClusterVeto(cfg, pho.toVeto, srcVeto, PairedElectron(src[i])) {
        return;
      }
      var n := EmbedFSRCand(i, p);
    }

    /** `produce`: one event. The result is the decorated copy of `src`, or `None`
        when the event aborts. */
    method Produce(inSrc: seq<Lepton>, inAlt: seq<Lepton>, veto: seq<VetoElectron>, photons: seq<Photon>)
      returns (out: Option<seq<Lepton>>)
      requires AllFit(photons, |inSrc|, |inAlt|, |veto|)
      modifies this
      ensures Valid()
      ensures out == match RunEvent(cfg, inSrc, inAlt, veto, photons)
                     case None => None
                     case Some(st) => Some(st.src)
    {
      src := new Lepton[|inSrc|](i requires 0 <= i < |inSrc| => inSrc[i]);
      srcAlt := new Lepton[|inAlt|](i requires 0 <= i < |inAlt| => inAlt[i]);
      srcVeto := veto;
      srcPho := photons;
      assert src[..] == inSrc && srcAlt[..] == inAlt;
      var p := 0;
      while p < |photons|
        invariant 0 <= p <= |photons|
        invariant fresh(src) && fresh(srcAlt) && Valid()
        invariant srcVeto == veto && srcPho == photons
        invariant RunEvent(cfg, inSrc, inAlt, veto, photons[..p]) == Some(Collections(src[..], srcAlt[..]))
      {
        assert photons[..p + 1][..p] == photons[..p];
        var ok := ProcessPhoton(p);
        if !ok {
          AbortIsFinal(cfg, inSrc, inAlt, veto, photons, p + 1);
          return None;
        }
        p := p + 1;
      }
      assert photons[..p] == photons;
      out := Some(src[..]);
    }
  }
}
