/** Entities of the FSR photon-to-lepton association and the producer's
    configuration record, built from a parameter set with the constructor's
    defaults. */
module FsrTypes {
  import opened Wrappers
  import opened Decimal
  import opened ParameterSet
  import opened Kinematics

  /** Every option of the producer; tags are kept as their label strings. */
  datatype Config = Config(
    src: string, srcAlt: string, srcPho: string, srcVeto: string, srcVtx: string,
    userLabel: string, isoLabels: seq<string>,
    dRInner: real, dROuter: real, isoInner: real, isoOuter: real,
    ptInner: real, ptOuter: real, maxEta: real,
    vetoDR: real, vetoDPhi: real, vetoDEta: real,
    electronPt: real, electronMaxEta: real, electronSIP: real,
    electronPVDXY: real, electronPVDZ: real,
    electronIDPtThr: real, electronIDEtaThrLow: real, electronIDEtaThrHigh: real,
    electronIDCutLowPtLowEta: real, electronIDCutLowPtMedEta: real, electronIDCutLowPtHighEta: real,
    electronIDCutHighPtLowEta: real, electronIDCutHighPtMedEta: real, electronIDCutHighPtHighEta: real,
    electronIDLabel: string,
    muonPt: real, muonMaxEta: real, muonSIP: real, muonPVDXY: real, muonPVDZ: real)

  const DOUBLE_OPTIONS: set<string> := {
    "dRInner", "dROuter", "isoInner", "isoOuter", "ptInner", "ptOuter", "maxEta",
    "vetoDR", "vetoDPhi", "vetoDEta",
    "electronPt", "electronMaxEta", "electronSIP", "electronPVDXY", "electronPVDZ",
    "electronIDPtThr", "electronIDEtaThrLow", "electronIDEtaThrHigh",
    "electronIDCutLowPtLowEta", "electronIDCutLowPtMedEta", "electronIDCutLowPtHighEta",
    "electronIDCutHighPtLowEta", "electronIDCutHighPtMedEta", "electronIDCutHighPtHighEta",
    "muonPt", "muonMaxEta", "muonSIP", "muonPVDXY", "muonPVDZ"}
  const STRING_OPTIONS: set<string> := {"userLabel", "electronIDLabel"}
  const TAG_OPTIONS: set<string> := {"srcPho", "srcVeto", "srcVtx"}

  /** Every optional parameter that is present has the type the constructor reads it as. */
  predicate OptionsWellTyped(ps: ParameterSet) {
    && (forall n :: n in DOUBLE_OPTIONS && n in ps ==> ps[n].Double?)
    && (forall n :: n in STRING_OPTIONS && n in ps ==> ps[n].Str?)
    && (forall n :: n in TAG_OPTIONS && n in ps ==> ps[n].Tag?)
  }

  /** The constructor's member initialisers: `src`, `srcAlt` and `isoLabels` are
      required, every other option is the given value when present and its
      default otherwise. */
  function MakeConfig(ps: ParameterSet): (r: Option<Config>)
    ensures r.Some? <==>
      && "src" in ps && ps["src"].Tag?
      && "srcAlt" in ps && ps["srcAlt"].Tag?
      && "isoLabels" in ps && ps["isoLabels"].Strings?
      && OptionsWellTyped(ps)
    ensures r.Some? ==> r.value.userLabel == (if "userLabel" in ps then ps["userLabel"].s else "FSRCand")
    ensures r.Some? ==> r.value.isoLabels == ps["isoLabels"].ss
    ensures r.Some? ==> r.value == Config(
      ps["src"].tag, ps["srcAlt"].tag,
      GivenTag(ps, "srcPho", "boodtedFsrPhotons"), GivenTag(ps, "srcVeto", "slimmedElectrons"),
      GivenTag(ps, "srcVtx", "selectedPrimaryVertex"),
      GivenStr(ps, "userLabel", "FSRCand"), ps["isoLabels"].ss,
      GivenDouble(ps, "dRInner", 0.07), GivenDouble(ps, "dROuter", 0.5),
      GivenDouble(ps, "isoInner", 9999.9), GivenDouble(ps, "isoOuter", 1.0),
      GivenDouble(ps, "ptInner", 2.0), GivenDouble(ps, "ptOuter", 4.0), GivenDouble(ps, "maxEta", 2.4),
      GivenDouble(ps, "vetoDR", 0.15), GivenDouble(ps, "vetoDPhi", 2.0), GivenDouble(ps, "vetoDEta", 0.05),
      GivenDouble(ps, "electronPt", 7.0), GivenDouble(ps, "electronMaxEta", 2.5),
      GivenDouble(ps, "electronSIP", 4.0), GivenDouble(ps, "electronPVDXY", 0.5),
      GivenDouble(ps, "electronPVDZ", 1.0),
      GivenDouble(ps, "electronIDPtThr", 10.0), GivenDouble(ps, "electronIDEtaThrLow", 0.8),
      GivenDouble(ps, "electronIDEtaThrHigh", 1.479),
      GivenDouble(ps, "electronIDCutLowPtLowEta", 0.47), GivenDouble(ps, "electronIDCutLowPtMedEta", 0.004),
      GivenDouble(ps, "electronIDCutLowPtHighEta", 0.295),
      GivenDouble(ps, "electronIDCutHighPtLowEta", -0.34), GivenDouble(ps, "electronIDCutHighPtMedEta", -0.65),
      GivenDouble(ps, "electronIDCutHighPtHighEta", 0.6),
      GivenStr(ps, "electronIDLabel", "MVANonTrigCSA14"),
      GivenDouble(ps, "muonPt", 5.0), GivenDouble(ps, "muonMaxEta", 2.4), GivenDouble(ps, "muonSIP", 4.0),
      GivenDouble(ps, "muonPVDXY", 0.5), GivenDouble(ps, "muonPVDZ", 1.0))
  {
    var src :- RequiredTag(ps, "src");
    var srcAlt :- RequiredTag(ps, "srcAlt");
    var srcPho :- TagOr(ps, "srcPho", "boodtedFsrPhotons");
    var srcVeto :- TagOr(ps, "srcVeto", "slimmedElectrons");
    var srcVtx :- TagOr(ps, "srcVtx", "selectedPrimaryVertex");
    var userLabel :- StrOr(ps, "userLabel", "FSRCand");
    var isoLabels :- RequiredStrings(ps, "isoLabels");
    var dRInner :- DoubleOr(ps, "dRInner", 0.07);
    var dROuter :- DoubleOr(ps, "dROuter", 0.5);
    var isoInner :- DoubleOr(ps, "isoInner", 9999.9);
    var isoOuter :- DoubleOr(ps, "isoOuter", 1.0);
    var ptInner :- DoubleOr(ps, "ptInner", 2.0);
    var ptOuter :- DoubleOr(ps, "ptOuter", 4.0);
    var maxEta :- DoubleOr(ps, "maxEta", 2.4);
    var vetoDR :- DoubleOr(ps, "vetoDR", 0.15);
    var vetoDPhi :- DoubleOr(ps, "vetoDPhi", 2.0);
    var vetoDEta :- DoubleOr(ps, "vetoDEta", 0.05);
    var electronPt :- DoubleOr(ps, "electronPt", 7.0);
    var electronMaxEta :- DoubleOr(ps, "electronMaxEta", 2.5);
    var electronSIP :- DoubleOr(ps, "electronSIP", 4.0);
    var electronPVDXY :- DoubleOr(ps, "electronPVDXY", 0.5);
    var electronPVDZ :- DoubleOr(ps, "electronPVDZ", 1.0);
    var electronIDPtThr :- DoubleOr(ps, "electronIDPtThr", 10.0);
    var electronIDEtaThrLow :- DoubleOr(ps, "electronIDEtaThrLow", 0.8);
    var electronIDEtaThrHigh :- DoubleOr(ps, "electronIDEtaThrHigh", 1.479);
    var cutLowPtLowEta :- DoubleOr(ps, "electronIDCutLowPtLowEta", 0.47);
    var cutLowPtMedEta :- DoubleOr(ps, "electronIDCutLowPtMedEta", 0.004);
    var cutLowPtHighEta :- DoubleOr(ps, "electronIDCutLowPtHighEta", 0.295);
    var cutHighPtLowEta :- DoubleOr(ps, "electronIDCutHighPtLowEta", -0.34);
    var cutHighPtMedEta :- DoubleOr(ps, "electronIDCutHighPtMedEta", -0.65);
    var cutHighPtHighEta :- DoubleOr(ps, "electronIDCutHighPtHighEta", 0.6);
    var electronIDLabel :- StrOr(ps, "electronIDLabel", "MVANonTrigCSA14");
    var muonPt :- DoubleOr(ps, "muonPt", 5.0);
    var muonMaxEta :- DoubleOr(ps, "muonMaxEta", 2.4);
    var muonSIP :- DoubleOr(ps, "muonSIP", 4.0);
    var muonPVDXY :- DoubleOr(ps, "muonPVDXY", 0.5);
    var muonPVDZ :- DoubleOr(ps, "muonPVDZ", 1.0);
    Some(Config(
      src, srcAlt, srcPho, srcVeto, srcVtx, userLabel, isoLabels,
      dRInner, dROuter, isoInner, isoOuter, ptInner, ptOuter, maxEta,
      vetoDR, vetoDPhi, vetoDEta,
      electronPt, electronMaxEta, electronSIP, electronPVDXY, electronPVDZ,
      electronIDPtThr, electronIDEtaThrLow, electronIDEtaThrHigh,
      cutLowPtLowEta, cutLowPtMedEta, cutLowPtHighEta,
      cutHighPtLowEta, cutHighPtMedEta, cutHighPtHighEta,
      electronIDLabel,
      muonPt, muonMaxEta, muonSIP, muonPVDXY, muonPVDZ))
  }

  /** When none of the optional parameters is given, every option takes its
      default; the required ones are read as given. */
  lemma DefaultsWhenAbsent(ps: ParameterSet)
    requires "src" in ps && ps["src"].Tag?
    requires "srcAlt" in ps && ps["srcAlt"].Tag?
    requires "isoLabels" in ps && ps["isoLabels"].Strings?
    requires forall n :: n in ps ==> n !in DOUBLE_OPTIONS && n !in STRING_OPTIONS && n !in TAG_OPTIONS
    ensures MakeConfig(ps)
         == Some(Config(
              ps["src"].tag, ps["srcAlt"].tag, "boodtedFsrPhotons", "slimmedElectrons", "selectedPrimaryVertex",
              "FSRCand", ps["isoLabels"].ss,
              0.07, 0.5, 9999.9, 1.0, 2.0, 4.0, 2.4,
              0.15, 2.0, 0.05,
              7.0, 2.5, 4.0, 0.5, 1.0,
              10.0, 0.8, 1.479,
              0.47, 0.004, 0.295,
              -0.34, -0.65, 0.6,
              "MVANonTrigCSA14",
              5.0, 2.4, 4.0, 0.5, 1.0))
  {
  }

  /** The identification inputs of a lepton, by flavour. The electron MVA decision
      (`idHelper(const pat::Electron&)`) is an opaque input. */
  datatype Flavour =
    | Electron(mvaIdPass: bool)
    | Muon(isPFMuon: bool, isGlobalMuon: bool, isTrackerMuon: bool)

  /** A lepton of `src` or `srcAlt`. `key` is its object identity; sip3d, dxy and dz
      are the impact-parameter quantities with respect to the primary vertex. The
      three maps are the object's userFloats, userInts and userCands (a userCand
      refers to a photon by its index in the photon collection). */
  datatype Lepton = Lepton(
    key: nat, flavour: Flavour,
    pt: real, eta: real, sip3d: real, dxy: real, dz: real,
    userFloats: map<string, real>, userInts: map<string, int>, userCands: map<string, nat>)

  /** Separation between a photon and one object. */
  datatype Separation = Separation(dR: real, dPhi: real, dEta: real)

  /** An FSR photon candidate: its kinematics, its userFloats (isolation components)
      and its separations from every lepton of `src`, of `srcAlt` and from every
      electron of the veto collection, in collection order. */
  datatype Photon = Photon(
    pt: real, eta: real, userFloats: map<string, real>,
    dRSrc: seq<real>, dRAlt: seq<real>, toVeto: seq<Separation>)

  /** An electron of the veto collection, known by its object identity. */
  datatype VetoElectron = VetoElectron(key: nat)

  /** The photon carries one separation per object of each collection. */
  predicate Fits(pho: Photon, nSrc: nat, nAlt: nat, nVeto: nat) {
    |pho.dRSrc| == nSrc && |pho.dRAlt| == nAlt && |pho.toVeto| == nVeto
  }

  /** userInt key of the number of embedded photons: `"n" + label`. */
  function CountKey(prefix: string): string {
    "n" + prefix
  }

  /** userCand key of the photon of rank `k`: `label + str(k)`. */
  function RankKey(prefix: string, k: int): string {
    prefix + IntToString(k)
  }

  /** `userInt("n" + label)`, zero when the lepton has none yet. */
  function CountOf(l: Lepton, prefix: string): int {
    if CountKey(prefix) in l.userInts then l.userInts[CountKey(prefix)] else 0
  }
}
