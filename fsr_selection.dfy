/** The read-only parts of the FSR algorithm: the lepton ID decision and its
    cache, the photon isolation sum, the cluster veto, the best-lepton search
    and the per-photon decision, as functions of the collections. */
module FsrSelection {
  import opened Wrappers
  import opened Kinematics
  import opened FsrTypes

  // ---------------------------------------------------------------- lepton ID

  /** `idHelper`: the muon decision is isPFMuon && (isGlobalMuon || isTrackerMuon);
      the electron MVA decision is carried by the electron. */
  predicate IdHelper(f: Flavour) {
    match f
    case Electron(mvaIdPass) => mvaIdPass
    case Muon(isPF, isGlobal, isTracker) => isPF && (isGlobal || isTracker)
  }

  /** The kinematic and impact-parameter cuts of the lepton's flavour. */
  predicate PassesKinematics(cfg: Config, l: Lepton) {
    match l.flavour
    case Electron(_) =>
      && l.pt >= cfg.electronPt && Abs(l.eta) <= cfg.electronMaxEta
      && Abs(l.sip3d) <= cfg.electronSIP
      && Abs(l.dxy) <= cfg.electronPVDXY && Abs(l.dz) <= cfg.electronPVDZ
    case Muon(_, _, _) =>
      && l.pt >= cfg.muonPt && Abs(l.eta) <= cfg.muonMaxEta
      && Abs(l.sip3d) <= cfg.muonSIP
      && Abs(l.dxy) <= cfg.muonPVDXY && Abs(l.dz) <= cfg.muonPVDZ
  }

  /** The ID decision computed from the lepton itself. */
  predicate PassesIdCuts(cfg: Config, l: Lepton) {
    PassesKinematics(cfg, l) && IdHelper(l.flavour)
  }

  /** userFloat under which `leptonPassID` stores its decision (1 or 0). */
  const ID_CACHE_KEY: string := "FSRLeptonPassID"

  /** The lepton's cached decision is missing or agrees with its cuts. */
  predicate CacheConsistent(cfg: Config, l: Lepton) {
    ID_CACHE_KEY in l.userFloats ==>
      l.userFloats[ID_CACHE_KEY] == (if PassesIdCuts(cfg, l) then 1.0 else 0.0)
  }

  /** What `leptonPassID` answers: the stored decision when there is one, otherwise
      the decision computed from the cuts. */
  function IdDecision(cfg: Config, l: Lepton): (pass: bool)
    ensures CacheConsistent(cfg, l) ==> (pass <==> PassesIdCuts(cfg, l))
  {
    if ID_CACHE_KEY in l.userFloats then l.userFloats[ID_CACHE_KEY] != 0.0
    else PassesIdCuts(cfg, l)
  }

  /** The lepton after `leptonPassID`: the decision is stored as 1 or 0 when it was
      not stored yet. The answer stays the same, the stored value is 1 or 0, the
      cache stays consistent and nothing else of the lepton changes. */
  function WithIdCache(cfg: Config, l: Lepton): (r: Lepton)
    ensures ID_CACHE_KEY in r.userFloats
    ensures r.userFloats[ID_CACHE_KEY] == 1.0 || r.userFloats[ID_CACHE_KEY] == 0.0 ||
            ID_CACHE_KEY in l.userFloats
    ensures IdDecision(cfg, r) == IdDecision(cfg, l)
    ensures CacheConsistent(cfg, l) ==> CacheConsistent(cfg, r)
    ensures r.userFloats.Keys == l.userFloats.Keys + {ID_CACHE_KEY}
    ensures forall k :: k in l.userFloats && k != ID_CACHE_KEY ==> r.userFloats[k] == l.userFloats[k]
    ensures r == l.(userFloats := r.userFloats)
  {
    if ID_CACHE_KEY in l.userFloats then l
    else l.(userFloats := l.userFloats[ID_CACHE_KEY := if PassesIdCuts(cfg, l) then 1.0 else 0.0])
  }

  /** A second `leptonPassID` on the same lepton changes nothing. */
  lemma IdCacheIdempotent(cfg: Config, l: Lepton)
    ensures WithIdCache(cfg, WithIdCache(cfg, l)) == WithIdCache(cfg, l)
    ensures IdDecision(cfg, WithIdCache(cfg, l)) == IdDecision(cfg, l)
  {
  }

  /** For a muon without a stored decision, `leptonPassID` answers its kinematic
      cuts and isPFMuon && (isGlobalMuon || isTrackerMuon); afterwards the stored
      value is 1 exactly in that case. */
  lemma MuonIdDecision(cfg: Config, l: Lepton)
    requires l.flavour.Muon? && ID_CACHE_KEY !in l.userFloats
    ensures IdDecision(cfg, l) <==>
      PassesKinematics(cfg, l) && l.flavour.isPFMuon && (l.flavour.isGlobalMuon || l.flavour.isTrackerMuon)
    ensures WithIdCache(cfg, l).userFloats[ID_CACHE_KEY] == (if IdDecision(cfg, l) then 1.0 else 0.0)
  {
  }

  /** For an electron without a stored decision, `leptonPassID` answers its
      kinematic cuts (the electron thresholds, not the muon ones) and its MVA
      decision; afterwards the stored value is 1 exactly in that case. */
  lemma ElectronIdDecision(cfg: Config, l: Lepton)
    requires l.flavour.Electron? && ID_CACHE_KEY !in l.userFloats
    ensures IdDecision(cfg, l) <==>
      && l.pt >= cfg.electronPt && Abs(l.eta) <= cfg.electronMaxEta && Abs(l.sip3d) <= cfg.electronSIP
      && Abs(l.dxy) <= cfg.electronPVDXY && Abs(l.dz) <= cfg.electronPVDZ && l.flavour.mvaIdPass
    ensures WithIdCache(cfg, l).userFloats[ID_CACHE_KEY] == (if IdDecision(cfg, l) then 1.0 else 0.0)
  {
  }

  /** Every lepton of a collection after the ID has been asked of each. */
  function CacheAll(cfg: Config, s: seq<Lepton>): (r: seq<Lepton>)
    ensures |r| == |s|
    ensures forall i :: 0 <= i < |s| ==> r[i] == WithIdCache(cfg, s[i])
  {
    seq(|s|, i requires 0 <= i < |s| => WithIdCache(cfg, s[i]))
  }

  // ---------------------------------------------------------- photon isolation

  /** `photonRelIso`: the sum of the photon's userFloats named in `labels`, added
      in list order; `None` (an exception) when one of them is missing. */
  function PhotonRelIso(floats: map<string, real>, labels: seq<string>): (r: Option<real>)
    ensures r.Some? <==> forall k :: 0 <= k < |labels| ==> labels[k] in floats
    ensures labels == [] ==> r == Some(0.0)
    decreases |labels|
  {
    if labels == [] then Some(0.0)
    else
      var init := PhotonRelIso(floats, labels[..|labels| - 1]);
      var last := labels[|labels| - 1];
      if init.None? || last !in floats then None else Some(init.value + floats[last])
  }

  /** Summing a concatenation of label lists gives the sum of the two sums. */
  lemma {:induction false} RelIsoConcat(floats: map<string, real>, a: seq<string>, b: seq<string>)
    requires PhotonRelIso(floats, a).Some? && PhotonRelIso(floats, b).Some?
    ensures PhotonRelIso(floats, a + b) == Some(PhotonRelIso(floats, a).value + PhotonRelIso(floats, b).value)
    decreases |b|
  {
    if b == [] {
      assert a + b == a;
    } else {
      var b' := b[..|b| - 1];
      assert (a + b)[..|a + b| - 1] == a + b';
      assert (a + b)[|a + b| - 1] == b[|b| - 1];
      RelIsoConcat(floats, a, b');
    }
  }

  /** Non-negative isolation components give a non-negative isolation. */
  lemma {:induction false} RelIsoNonNegative(floats: map<string, real>, labels: seq<string>)
    requires forall k :: 0 <= k < |labels| ==> labels[k] in floats && floats[labels[k]] >= 0.0
    ensures PhotonRelIso(floats, labels).Some? && PhotonRelIso(floats, labels).value >= 0.0
    decreases |labels|
  {
    if labels != [] {
      RelIsoNonNegative(floats, labels[..|labels| - 1]);
    }
  }

  // -------------------------------------------------------------- cluster veto

  /** One veto electron rejects the photon: within vetoDR, or within both vetoDPhi
      and vetoDEta. The differences in phi and eta are signed, so "within" compares
      their absolute values. */
  predicate Vetoes(cfg: Config, s: Separation) {
    s.dR < cfg.vetoDR || (Abs(s.dPhi) < cfg.vetoDPhi && Abs(s.dEta) < cfg.vetoDEta)
  }

  /** The identity the cluster veto exempts: the matched lepton's, when it is an
      electron (it may itself be in the veto collection); a muon exempts none. */
  function PairedElectron(l: Lepton): Option<nat> {
    if l.flavour.Electron? then Some(l.key) else None
  }

  /** The veto electron is the paired lepton itself. */
  predicate Exempt(v: VetoElectron, paired: Option<nat>) {
    paired == Some(v.key)
  }

  /** `passClusterVeto`: true when no veto electron other than the paired electron
      rejects the photon. */
  function PassClusterVeto(cfg: Config, toVeto: seq<Separation>, veto: seq<VetoElectron>, paired: Option<nat>): (pass: bool)
    requires |toVeto| == |veto|
    ensures !pass <==> exists j :: 0 <= j < |veto| && !Exempt(veto[j], paired) && Vetoes(cfg, toVeto[j])
    decreases |veto|
  {
    if veto == [] then true
    else
      var n := |veto| - 1;
      PassClusterVeto(cfg, toVeto[..n], veto[..n], paired) &&
      (Exempt(veto[n], paired) || !Vetoes(cfg, toVeto[n]))
  }

  /** The paired lepton never vetoes its own photon: inserting it anywhere in the
      veto collection, at any separation, leaves the answer unchanged. */
  lemma PairedNeverVetoes(cfg: Config, toVeto: seq<Separation>, veto: seq<VetoElectron>,
                          pairedKey: nat, at: nat, s: Separation)
    requires |toVeto| == |veto| && at <= |veto|
    ensures PassClusterVeto(cfg, toVeto[..at] + [s] + toVeto[at..], veto[..at] + [VetoElectron(pairedKey)] + veto[at..], Some(pairedKey))
         == PassClusterVeto(cfg, toVeto, veto, Some(pairedKey))
  {
    var paired := Some(pairedKey);
    var t', v' := toVeto[..at] + [s] + toVeto[at..], veto[..at] + [VetoElectron(pairedKey)] + veto[at..];
    if !PassClusterVeto(cfg, toVeto, veto, paired) {
      var j :| 0 <= j < |veto| && !Exempt(veto[j], paired) && Vetoes(cfg, toVeto[j]);
      var j' := if j < at then j else j + 1;
      assert v'[j'] == veto[j] && t'[j'] == toVeto[j];
    }
    if !PassClusterVeto(cfg, t', v', paired) {
      var j' :| 0 <= j' < |v'| && !Exempt(v'[j'], paired) && Vetoes(cfg, t'[j']);
      assert j' != at;
      var j := if j' < at then j' else j' - 1;
      assert v'[j'] == veto[j] && t'[j'] == toVeto[j];
    }
  }

  /** A muon is never in the veto collection, so its photon is vetoed by every
      nearby veto electron, whatever that electron's identity. */
  lemma MuonExemptsNoVetoElectron(cfg: Config, toVeto: seq<Separation>, veto: seq<VetoElectron>, l: Lepton)
    requires |toVeto| == |veto| && l.flavour.Muon?
    ensures PassClusterVeto(cfg, toVeto, veto, PairedElectron(l)) <==>
      forall j :: 0 <= j < |veto| ==> !Vetoes(cfg, toVeto[j])
  {
  }

  // --------------------------------------------------------------- best lepton

  /** A lepton may own the photon: it passes ID and is within dROuter. */
  predicate Eligible(cfg: Config, l: Lepton, dR: real) {
    IdDecision(cfg, l) && dR < cfg.dROuter
  }

  /** The closest eligible lepton of a collection; among equal distances the first. */
  function ClosestEligible(cfg: Config, ls: seq<Lepton>, dRs: seq<real>): (r: Option<nat>)
    requires |ls| == |dRs|
    ensures r.Some? ==> r.value < |ls| && Eligible(cfg, ls[r.value], dRs[r.value])
    ensures r.Some? ==> forall k :: 0 <= k < |ls| && Eligible(cfg, ls[k], dRs[k]) ==> dRs[r.value] <= dRs[k]
    ensures r.Some? ==> forall k :: 0 <= k < r.value && Eligible(cfg, ls[k], dRs[k]) ==> dRs[r.value] < dRs[k]
    ensures r.None? <==> forall k :: 0 <= k < |ls| ==> !Eligible(cfg, ls[k], dRs[k])
    decreases |ls|
  {
    if ls == [] then None
    else
      var n := |ls| - 1;
      var prev := ClosestEligible(cfg, ls[..n], dRs[..n]);
      if Eligible(cfg, ls[n], dRs[n]) && (prev.None? || dRs[n] < dRs[prev.value]) then Some(n)
      else prev
  }

  /** `findBestLepton`: the closest eligible lepton of `src`, unless an eligible
      lepton of `srcAlt` is strictly closer. Its properties are stated by
      `FindBestSpec`. */
  function FindBest(cfg: Config, src: seq<Lepton>, alt: seq<Lepton>, pho: Photon): (r: Option<nat>)
    requires |pho.dRSrc| == |src| && |pho.dRAlt| == |alt|
    ensures r.Some? ==> r.value < |src|
  {
    var best := ClosestEligible(cfg, src, pho.dRSrc);
    var rival := ClosestEligible(cfg, alt, pho.dRAlt);
    if best.Some? && rival.Some? && pho.dRAlt[rival.value] < pho.dRSrc[best.value] then None
    else best
  }

  /** A returned lepton passes ID, is within dROuter, is the closest eligible lepton
      of `src` (the first among equals), and no lepton of `srcAlt` that passes ID
      is strictly closer. No lepton is returned exactly when every eligible lepton
      of `src` has a strictly closer ID-passing lepton in `srcAlt` (in particular
      when `src` has no eligible lepton). */
  lemma FindBestSpec(cfg: Config, src: seq<Lepton>, alt: seq<Lepton>, pho: Photon)
    requires |pho.dRSrc| == |src| && |pho.dRAlt| == |alt|
    ensures var r := FindBest(cfg, src, alt, pho);
      && (r.Some? ==>
           && IdDecision(cfg, src[r.value]) && pho.dRSrc[r.value] < cfg.dROuter
           && (forall k :: 0 <= k < |src| && Eligible(cfg, src[k], pho.dRSrc[k]) ==> pho.dRSrc[r.value] <= pho.dRSrc[k])
           && (forall k :: 0 <= k < r.value && Eligible(cfg, src[k], pho.dRSrc[k]) ==> pho.dRSrc[r.value] < pho.dRSrc[k])
           && (forall j :: 0 <= j < |alt| && IdDecision(cfg, alt[j]) ==> pho.dRSrc[r.value] <= pho.dRAlt[j]))
      && (r.None? <==>
           forall k :: 0 <= k < |src| && Eligible(cfg, src[k], pho.dRSrc[k]) ==>
             exists j :: 0 <= j < |alt| && IdDecision(cfg, alt[j]) && pho.dRAlt[j] < pho.dRSrc[k])
  {
  }

  // ----------------------------------------------------------- photon decision

  /** Isolation cut of the photon's distance band. */
  function IsoCut(cfg: Config, dR: real): real {
    if dR < cfg.dRInner then cfg.isoInner else cfg.isoOuter
  }

  /** Transverse-momentum cut of the photon's distance band. */
  function PtCut(cfg: Config, dR: real): real {
    if dR < cfg.dRInner then cfg.ptInner else cfg.ptOuter
  }

  /** The isolation, pt and eta stages for a photon at distance `dR` from its
      lepton: inside dRInner the inner cuts apply, from dRInner on the outer ones. */
  predicate PassesBand(cfg: Config, pho: Photon, dR: real, relIso: real)
    ensures PassesBand(cfg, pho, dR, relIso) <==>
      && (dR < cfg.dRInner ==> relIso <= cfg.isoInner && pho.pt >= cfg.ptInner)
      && (cfg.dRInner <= dR ==> relIso <= cfg.isoOuter && pho.pt >= cfg.ptOuter)
      && Abs(pho.eta) <= cfg.maxEta
  {
    relIso <= IsoCut(cfg, dR) && pho.pt >= PtCut(cfg, dR) && Abs(pho.eta) <= cfg.maxEta
  }

  /** What happens to one photon. */
  datatype Outcome =
    | NoMatch            // findBestLepton found no lepton
    | Rejected           // a lepton was found, a later stage failed
    | Accepted(lepton: nat)
    | MissingIso         // an isolation userFloat is missing: the event aborts

  /** The per-photon pipeline: best lepton, distance band, isolation, pt, eta,
      cluster veto. Its properties are stated by `DecideSpec`. */
  function Decide(cfg: Config, src: seq<Lepton>, alt: seq<Lepton>, veto: seq<VetoElectron>, pho: Photon): (o: Outcome)
    requires Fits(pho, |src|, |alt|, |veto|)
    ensures o.Accepted? ==> o.lepton < |src|
  {
    match FindBest(cfg, src, alt, pho)
    case None => NoMatch
    case Some(i) =>
      match PhotonRelIso(pho.userFloats, cfg.isoLabels)
      case None => MissingIso
      case Some(iso) =>
        if PassesBand(cfg, pho, pho.dRSrc[i], iso) && PassClusterVeto(cfg, pho.toVeto, veto, PairedElectron(src[i]))
        then Accepted(i) else Rejected
  }

  /** The outcome of each stage of the pipeline. An accepted photon is within
      dROuter of the best lepton; one inside dRInner met isoInner and ptInner,
      one between dRInner and dROuter met isoOuter and ptOuter; its |eta| is at
      most maxEta and no veto electron other than its lepton rejects it. */
  lemma DecideSpec(cfg: Config, src: seq<Lepton>, alt: seq<Lepton>, veto: seq<VetoElectron>, pho: Photon)
    requires Fits(pho, |src|, |alt|, |veto|)
    ensures var o := Decide(cfg, src, alt, veto, pho);
      && (o.NoMatch? <==> FindBest(cfg, src, alt, pho).None?)
      && (o.MissingIso? <==>
           FindBest(cfg, src, alt, pho).Some? &&
           exists k :: 0 <= k < |cfg.isoLabels| && cfg.isoLabels[k] !in pho.userFloats)
      && (o.Accepted? ==>
           && FindBest(cfg, src, alt, pho) == Some(o.lepton)
           && PhotonRelIso(pho.userFloats, cfg.isoLabels).Some?
           && var dR, iso := pho.dRSrc[o.lepton], PhotonRelIso(pho.userFloats, cfg.isoLabels).value;
              && dR < cfg.dROuter
              && (dR < cfg.dRInner ==> iso <= cfg.isoInner && pho.pt >= cfg.ptInner)
              && (cfg.dRInner <= dR ==> iso <= cfg.isoOuter && pho.pt >= cfg.ptOuter)
              && Abs(pho.eta) <= cfg.maxEta
              && forall j :: 0 <= j < |veto| && !Exempt(veto[j], PairedElectron(src[o.lepton])) ==> !Vetoes(cfg, pho.toVeto[j]))
      && (o.Rejected? ==>
           && FindBest(cfg, src, alt, pho).Some?
           && PhotonRelIso(pho.userFloats, cfg.isoLabels).Some?
           && var i, iso := FindBest(cfg, src, alt, pho).value, PhotonRelIso(pho.userFloats, cfg.isoLabels).value;
              !(PassesBand(cfg, pho, pho.dRSrc[i], iso) && PassClusterVeto(cfg, pho.toVeto, veto, PairedElectron(src[i]))))
  {
    FindBestSpec(cfg, src, alt, pho);
  }
}
