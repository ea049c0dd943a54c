# FSR photon embedding and electron effective areas

This project models, in Dafny, two per-event decoration producers of the
FinalStateAnalysis PAT tools, and proves properties of the model.

- **FSR photon-to-lepton association** (`MiniAODObjectEmbedFSR<T,U>`). For each
  final-state-radiation photon candidate, the producer finds the closest lepton
  of its own collection (`src`) that passes ID and lies within `dROuter`. It gives
  the photon up when a lepton of the other flavour (`srcAlt`) is strictly closer.
  It then applies the inner/outer distance-band isolation and pt cuts, the photon
  |eta| cut and the electron cluster veto. A photon that survives is embedded on
  its lepton as userCand `label + str(n)`, and the count `"n" + label` goes up by
  one. The lepton ID decision is computed once and stored on the lepton as a
  userFloat (1 or 0).
- **Electron effective-area embedder** (`MiniAODElectronEffectiveAreaEmbedder`).
  `getEA` is a seven-band table in the |eta| of the electron's supercluster.
  There is one table for 2017 and 2018, one for 2016, and a dummy value for any
  other year. `produce` copies every electron and attaches the area for the
  configured year as one userFloat.

Layout: `wrappers.dfy` (Option), `decimal.dfy` (integer to decimal string, used
for the rank keys), `kinematics.dfy` (`Abs`), `parameter_set.dfy` (typed job
parameters), `fsr_types.dfy` (configuration record and entities),
`fsr_selection.dfy` (ID and its cache, isolation sum, cluster veto, best-lepton
search, per-photon decision), `fsr_embed.dfy` (embedding and the rank
invariant), `fsr_event.dfy` (one event as a function and its theorems),
`fsr_producer.dfy` (the producer as a class over arrays), `effective_area.dfy`
(lookup, its table form, year selection and the producer class).

Inputs the model takes as given values: ΔR, ΔPhi and ΔEta between a photon and
each lepton or veto electron (carried by the photon, one entry per object in
collection order), the photon and lepton pt and eta, the supercluster eta,
SIP3D, dxy and dz with respect to the primary vertex, and the electron MVA ID
decision. All are `real` or `bool`. The framework's event store becomes method
parameters and results.

### Assumptions where the header shows no body

`MiniAODObjectEmbedFSR.h` declares the FSR producer's methods but does not
define them. Their behaviour follows the doc comments. Where those are silent,
the model makes these choices:

- The ID cuts are `pt >= min`, `|eta| <= max`, `|SIP3D| <= max`, `|dxy| <= max`
  and `|dz| <= max`, plus `idHelper`.
- The stored ID decision lives in userFloat `ID_CACHE_KEY`. It is read back as
  "passes" when it is non-zero. If the lepton already carries that userFloat,
  the stored value is used.
- `findBestLepton` asks the ID of every lepton of `src` and of `srcAlt`, so
  every scanned lepton gets the stored decision. A lepton is eligible when it
  passes ID and has ΔR < `dROuter`. Among equal distances the first lepton
  wins. `srcAlt` takes the photon only when it is strictly closer.
- The stages run in the order best lepton, band, isolation (`relIso <= cut`),
  pt (`pt >= cut`), |eta| (`<= maxEta`), cluster veto, embed. The band is inner
  when ΔR < `dRInner`.
- A missing isolation userFloat raises an exception. The whole event is then
  abandoned (`None`).
- `embedFSRCand` reads the count as 0 when the userInt is absent. It overwrites
  userInt `"n" + label` and writes key `label + str(count)` (negative counts
  print with `-`).
- "The lepton the photon is matched to", in the cluster veto, is recognised by
  object identity: the lepton's `key` equals the veto electron's `key`. The
  exemption applies only when the matched lepton is an electron. A muon is never
  in the veto collection, so it exempts no veto electron.
- ΔPhi and ΔEta are signed differences. "Within" compares their absolute values
  with `vetoDPhi` and `vetoDEta`.
- Photons carry a userCand value that is their index in the photon collection.

A consequence of the strict "strictly closer" choice: when a photon is exactly
equally far from the best electron and the best muon, both producers keep it.
`FsrEvent.ClaimsExclusiveUnlessTied` proves that, when both producers share the
configuration, this exact tie is the only case in which both keep it. With
different ID cuts or `dROuter` per producer, both can also keep a photon whose
closer lepton fails the other producer's ID.

## Model

| member | source | states |
|---|---|---|
| `FsrTypes.MakeConfig` | PatTools/plugins/MiniAODObjectEmbedFSR.h:56-93 | construction succeeds exactly when `src`, `srcAlt` and `isoLabels` are present with the right types and every optional option present has its type; then every field is the given parameter when present, else its default, option by option |
| `FsrTypes.DefaultsWhenAbsent` | PatTools/plugins/MiniAODObjectEmbedFSR.h:59-93 | with no optional parameter given, every option takes its default (0.07, 0.5, 9999.9, 1.0, 2.0, 4.0, 2.4, 0.15, 2.0, 0.05, the electron and muon cut defaults, "FSRCand", "MVANonTrigCSA14", the three default tags) |
| `Decimal.NatToString` | PatTools/plugins/MiniAODObjectEmbedFSR.h:133 | `str(n)` is a non-empty string of decimal digits, a single digit exactly when n < 10 |
| `Decimal.NatToStringInjective` | PatTools/plugins/MiniAODObjectEmbedFSR.h:133 | distinct ranks render to distinct digit strings, so keys `label+str(k)` never collide |
| `Decimal.SuffixedInjective` | PatTools/plugins/MiniAODObjectEmbedFSR.h:133 | `label + str(a) == label + str(b)` only when a == b |
| `FsrSelection.IdHelper` | PatTools/plugins/MiniAODObjectEmbedFSR.h:122-125 | the flavour rule: isPFMuon && (isGlobalMuon or isTrackerMuon) for a muon, the MVA decision for an electron (no contract of its own; its effect on `leptonPassID` is stated by `MuonIdDecision` and `ElectronIdDecision`) |
| `FsrSelection.PassesIdCuts` | PatTools/plugins/MiniAODObjectEmbedFSR.h:117-125 | the flavour's pt, abs(eta), abs(SIP3D), abs(dxy) and abs(dz) cuts together with `idHelper` (no contract of its own; stated through `IdDecision`, `MuonIdDecision` and `ElectronIdDecision`) |
| `FsrSelection.ElectronIdDecision` | PatTools/plugins/MiniAODObjectEmbedFSR.h:117-123 | an uncached electron passes exactly when pt ≥ electronPt, abs(eta) ≤ electronMaxEta, abs(SIP3D) ≤ electronSIP, abs(dxy) ≤ electronPVDXY, abs(dz) ≤ electronPVDZ and its MVA decision holds; the stored value is then 1, otherwise 0 |
| `FsrSelection.IdDecision` | PatTools/plugins/MiniAODObjectEmbedFSR.h:117-121 | the answer of `leptonPassID`; when the stored value is absent or consistent it equals the ID cuts |
| `FsrSelection.WithIdCache` | PatTools/plugins/MiniAODObjectEmbedFSR.h:117-121 | after `leptonPassID` the decision is stored as 1 or 0, the answer is unchanged, a consistent cache stays consistent, and nothing but that userFloat changes |
| `FsrSelection.IdCacheIdempotent` | PatTools/plugins/MiniAODObjectEmbedFSR.h:117-121 | a repeated `leptonPassID` changes nothing and returns the same answer |
| `FsrSelection.MuonIdDecision` | PatTools/plugins/MiniAODObjectEmbedFSR.h:124-125 | a muon passes exactly when its cuts hold and isPFMuon && (isGlobalMuon or isTrackerMuon); the stored value is then 1, otherwise 0 |
| `FsrSelection.CacheAll` | PatTools/plugins/MiniAODObjectEmbedFSR.h:117-121 | asking the ID of every lepton of a collection leaves its length and order and caches each lepton |
| `FsrSelection.PhotonRelIso` | PatTools/plugins/MiniAODObjectEmbedFSR.h:114-115 | the sum of the photon's userFloats named in `isoLabels`, in list order; defined exactly when every named userFloat exists; an empty list gives 0 |
| `FsrSelection.RelIsoConcat` | PatTools/plugins/MiniAODObjectEmbedFSR.h:114-115 | the isolation of a concatenated label list is the sum of the two isolations |
| `FsrSelection.RelIsoNonNegative` | PatTools/plugins/MiniAODObjectEmbedFSR.h:114-115 | non-negative components give a non-negative isolation |
| `FsrSelection.PassClusterVeto` | PatTools/plugins/MiniAODObjectEmbedFSR.h:127-130 | fails exactly when some veto electron that is not the paired electron has dR < vetoDR, or abs(dPhi) < vetoDPhi and abs(dEta) < vetoDEta |
| `FsrSelection.PairedNeverVetoes` | PatTools/plugins/MiniAODObjectEmbedFSR.h:127-130 | adding the paired lepton to the veto collection, anywhere and at any separation, never changes the answer |
| `FsrSelection.MuonExemptsNoVetoElectron` | PatTools/plugins/MiniAODObjectEmbedFSR.h:127-130 | when the matched lepton is a muon, the photon passes exactly when no veto electron vetoes it, whatever the electrons' identities |
| `FsrSelection.ClosestEligible` | PatTools/plugins/MiniAODObjectEmbedFSR.h:109-112 | the returned lepton passes ID, has ΔR < dROuter, has the smallest ΔR of all such leptons and is the first among equals; none is returned exactly when no lepton is eligible |
| `FsrSelection.FindBest` | PatTools/plugins/MiniAODObjectEmbedFSR.h:109-112 | a returned lepton is an index of src; its full characterisation is `FindBestSpec` |
| `FsrSelection.FindBestSpec` | PatTools/plugins/MiniAODObjectEmbedFSR.h:109-112 | a returned lepton passes ID, is within dROuter, is the closest eligible lepton of src, and no ID-passing srcAlt lepton is strictly closer; "none" exactly when every eligible src lepton has a strictly closer ID-passing srcAlt lepton |
| `FsrSelection.PassesBand` | PatTools/plugins/MiniAODObjectEmbedFSR.h:162-169 | passes exactly when, inside dRInner, iso ≤ isoInner and pt ≥ ptInner; from dRInner on, iso ≤ isoOuter and pt ≥ ptOuter; and abs(eta) ≤ maxEta |
| `FsrSelection.Decide` | PatTools/plugins/MiniAODObjectEmbedFSR.h:162-174 | an accepted photon's lepton index lies within the collection |
| `FsrSelection.DecideSpec` | PatTools/plugins/MiniAODObjectEmbedFSR.h:162-174 | no match exactly when findBestLepton finds none; abort exactly when a match exists and an isolation label is missing; an accepted photon has ΔR < dROuter, meets isoInner/ptInner when ΔR < dRInner and isoOuter/ptOuter when dRInner ≤ ΔR, has abs(eta) ≤ maxEta, and is not vetoed by any veto electron except its own lepton when that lepton is an electron; a rejected photon fails one of these |
| `FsrEmbed.EmbedCand` | PatTools/plugins/MiniAODObjectEmbedFSR.h:132-137 | the count goes up by one; the photon is stored under `label+str(old count)`; every other userCand and userInt keeps its value, and no other field changes |
| `FsrEmbed.EmbedAppends` | PatTools/plugins/MiniAODObjectEmbedFSR.h:9-12 | a lepton holding photons ps under ranks 0..k-1 holds ps+[p] under ranks 0..k after one embedding, with no other rank key |
| `FsrEmbed.UnannotatedHoldsNothing` | PatTools/plugins/MiniAODObjectEmbedFSR.h:135 | a lepton without FSR annotations holds no photons and has count 0 |
| `FsrEmbed.EmbedAllHolds` | PatTools/plugins/MiniAODObjectEmbedFSR.h:9-12 | after k embeddings on a fresh lepton the count is k and exactly the keys label+"0" … label+str(k-1) are present, in embedding order |
| `FsrEmbed.SecondPhotonKey` | PatTools/plugins/MiniAODObjectEmbedFSR.h:10-11 | with the default label, "FSRCand1" is the second photon and the count key is "nFSRCand" |
| `FsrEvent.PhotonStep` | PatTools/plugins/MiniAODObjectEmbedFSR.h:162-174 | one photon keeps the lengths of both working collections and aborts exactly when its outcome is a missing isolation label |
| `FsrEvent.Owned` | PatTools/plugins/MiniAODObjectEmbedFSR.h:9-12 | the accepted photons of one lepton, strictly increasing, complete and all accepted for that lepton |
| `FsrEvent.RunEvent` | PatTools/plugins/MiniAODObjectEmbedFSR.h:105-106 | one event, the photons in collection order; both working collections keep their length (what they hold is stated by `ProduceEmbedsAssigned`, `ProduceAbortsIff` and `ProduceRelatesIds`) |
| `FsrEvent.AbortIsFinal` | PatTools/plugins/MiniAODObjectEmbedFSR.h:114-115 | once the event aborts, later photons do not revive it |
| `FsrEvent.DecideRespectsIds` | PatTools/plugins/MiniAODObjectEmbedFSR.h:117-121 | a photon's fate depends on the leptons only through their identities, flavours and ID answers, so the stored decisions are reused without changing any outcome |
| `FsrEvent.ProduceEmbedsAssigned` | PatTools/plugins/MiniAODObjectEmbedFSR.h:9-18 | after the event, output lepton i is input lepton i except for annotations; its count equals the number of photons accepted for it, and ranks 0.. hold exactly those photons in processing order |
| `FsrEvent.ProduceAbortsIff` | PatTools/plugins/MiniAODObjectEmbedFSR.h:114-115 | the event aborts exactly when some matched photon lacks an isolation component |
| `FsrEvent.ProduceRelatesIds` | PatTools/plugins/MiniAODObjectEmbedFSR.h:117-121 | through the event every lepton of both collections keeps its identity, flavour and ID answer |
| `FsrEvent.EmbeddedPhotonQualifies` | PatTools/plugins/MiniAODObjectEmbedFSR.h:109-112 | an embedded photon's lepton passes ID, is within dROuter and closest among eligible src leptons, no ID-passing srcAlt lepton is strictly closer, the band's isolation and pt cuts and the eta cut hold, and no veto electron other than its own (electron) lepton vetoes it |
| `FsrEvent.ClaimsExclusiveUnlessTied` | PatTools/plugins/MiniAODObjectEmbedFSR.h:148-155 | when the electron and the muon producer share one configuration and both take a photon, its distances to the two winners are equal |
| `FsrProducer.ObjectEmbedFsr.constructor` | PatTools/plugins/MiniAODObjectEmbedFSR.h:56-96 | keeps the configuration and starts with empty member collections |
| `FsrProducer.ObjectEmbedFsr.LeptonPassID` | PatTools/plugins/MiniAODObjectEmbedFSR.h:117-121 | returns the ID answer and stores it on that lepton only |
| `FsrProducer.ObjectEmbedFsr.ScanClosest` | PatTools/plugins/MiniAODObjectEmbedFSR.h:109-112 | the scan returns the closest eligible lepton and leaves every lepton of the collection cached |
| `FsrProducer.ObjectEmbedFsr.FindBestLepton` | PatTools/plugins/MiniAODObjectEmbedFSR.h:109-112 | returns `FindBest` of the collections and caches the ID of every lepton of src and srcAlt |
| `FsrProducer.ObjectEmbedFsr.EmbedFSRCand` | PatTools/plugins/MiniAODObjectEmbedFSR.h:132-137 | returns the new count, one more than before; only that lepton changes and the collection keeps its length |
| `FsrProducer.ObjectEmbedFsr.ProcessPhoton` | PatTools/plugins/MiniAODObjectEmbedFSR.h:162-174 | one photon changes the member collections as `PhotonStep` says, or aborts when it does |
| `FsrProducer.ObjectEmbedFsr.Produce` | PatTools/plugins/MiniAODObjectEmbedFSR.h:105-106 | the produced collection is the decorated src of `RunEvent`, or none when the event aborts |
| `EffectiveArea.Band` | PatTools/plugins/MiniAODElectronEffectiveAreaEmbedder.cc:106-112 | the band index of abs(eta): every edge below the band is ≤ abs(eta), and abs(eta) < the band's own edge (lower-inclusive bands) |
| `EffectiveArea.GetEA` | PatTools/plugins/MiniAODElectronEffectiveAreaEmbedder.cc:100-127 | every result is one of the listed constants and lies in [0.0859, 0.2393] |
| `EffectiveArea.GetEAIsTableLookup` | PatTools/plugins/MiniAODElectronEffectiveAreaEmbedder.cc:105-125 | for 2017 and 2018 the result is the 2017/2018 table entry of the band of abs(eta); for 2016 the 2016 entry; for any other year 0.1440 |
| `EffectiveArea.GetEASymmetric` | PatTools/plugins/MiniAODElectronEffectiveAreaEmbedder.cc:104 | eta and -eta give the same area |
| `EffectiveArea.BandEdgeGoesUp` | PatTools/plugins/MiniAODElectronEffectiveAreaEmbedder.cc:105-122 | abs(eta) = 1.0 gives the second band's value (0.1562, or 0.1715 in 2016); abs(eta) = 2.4 gives the last band's |
| `EffectiveArea.ProducedEA` | PatTools/plugins/MiniAODElectronEffectiveAreaEmbedder.cc:87-92 | the three successive assignments amount to the 2017 lookup for "2017" and "2018" and the 2016 lookup for any other year string |
| `EffectiveArea.ProducedEAUsesTable` | PatTools/plugins/MiniAODElectronEffectiveAreaEmbedder.cc:87-92 | "2017" and "2018" use the 2017/2018 table, any other string the 2016 table; the dummy branch is never reached |
| `EffectiveArea.WithEA` | PatTools/plugins/MiniAODElectronEffectiveAreaEmbedder.cc:94 | exactly one userFloat, under the label, is added or set; its value is the area `produce` selects for the year (so, by `ProducedEAUsesTable`, the table entry of the band), in [0.0859, 0.2393]; nothing else of the electron changes |
| `EffectiveArea.Annotated` | PatTools/plugins/MiniAODElectronEffectiveAreaEmbedder.cc:80-95 | the output has the input's length and order, element i being input i with its area attached |
| `EffectiveArea.MakeEaConfig` | PatTools/plugins/MiniAODElectronEffectiveAreaEmbedder.cc:58-66 | `year` and `configFile` are required; the label defaults to "EffectiveArea" and the source tag to "slimmedElectrons" |
| `EffectiveArea.ElectronEffectiveAreaEmbedder.constructor` | PatTools/plugins/MiniAODElectronEffectiveAreaEmbedder.cc:58-69 | keeps the label and year, starts with an empty output |
| `EffectiveArea.ElectronEffectiveAreaEmbedder.Produce` | PatTools/plugins/MiniAODElectronEffectiveAreaEmbedder.cc:72-98 | the member output becomes `Annotated` of the input electrons |

## Left out

- Framework plumbing: `getByToken`, `put`, `produces`, InputTag resolution, `fillDescriptions`, the empty `beginJob`/`endJob`, and `auto_ptr`/`unique_ptr` ownership. Inputs are method parameters; outputs are results or the member `out`.
- The diagnostic counters `nPassPre`, `nHaveBest`, `nPassIso` and `nPassVeto`: the source states no meaning for them.
- The electron `idHelper` MVA cut, the six `electronIDCut…` thresholds, their pt/eta band edges and `electronIDLabel`: the comparison is not in the header. The config record holds these parameters, and the electron's decision is an input.
- ΔR, ΔPhi, ΔEta, the supercluster eta, SIP3D and dxy/dz with respect to the primary vertex: these are foreign kinematic computations, given as real inputs. The vertex collection `srcVtx` enters only through them.
- Floating-point rounding. This covers `float abseta`, the `float` return of `getEA` and the `double` cuts. Reals are used throughout.
- The `EffectiveAreas` object loaded from `configFile`: `getEA` never uses it. The file path is only read into the config.
- `addUserFloat` on an electron that already has the label: the framework's duplicate-key behaviour is not shown. It is modelled as setting the value.
- DataFormats/interface/PATFinalStateEvent.h and PatTools/test/plotTuple_cfg.py are not part of this model. The first is declarations and trivial getters; the second is job configuration.
- The photon collection's own selection upstream of this producer, and photon-to-photon exclusivity: the source enforces none.
