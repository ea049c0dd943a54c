/** The electron effective-area embedder: a piecewise-constant effective area
    in |eta| of the electron's supercluster, one table per data-taking period,
    attached to a copy of every electron as one userFloat. */
module EffectiveArea {
  import opened Wrappers
  import opened ParameterSet
  import opened Kinematics

  /** Upper edges of the |eta| bands; the last band is open above. */
  const BAND_EDGES: seq<real> := [1.000, 1.479, 2.000, 2.200, 2.300, 2.400]
  /** Effective area of each band for 2017 and 2018. */
  const AREAS_2017_2018: seq<real> := [0.1440, 0.1562, 0.1032, 0.0859, 0.1116, 0.1321, 0.1654]
  /** Effective area of each band for 2016. */
  const AREAS_2016: seq<real> := [0.1703, 0.1715, 0.1213, 0.1230, 0.1635, 0.1937, 0.2393]
  /** Value returned for any other year. */
  const DUMMY_AREA: real := 0.1440

  /** The band that `absEta` falls in: the number of edges at or below it, so a
      value equal to an edge belongs to the band above that edge. */
  function Band(edges: seq<real>, absEta: real): (b: nat)
    ensures b <= |edges|
    ensures forall j :: 0 <= j < b ==> edges[j] <= absEta
    ensures b < |edges| ==> absEta < edges[b]
    decreases |edges|
  {
    if edges == [] || absEta < edges[0] then 0 else 1 + Band(edges[1..], absEta)
  }

  /** `getEA`: the effective area for supercluster pseudorapidity `scEta` and `year`. */
  function GetEA(scEta: real, year: int): (ea: real)
    ensures 0.0859 <= ea <= 0.2393
    ensures ea in AREAS_2017_2018 || ea in AREAS_2016
  {
    var absEta := Abs(scEta);
    if year == 2017 || year == 2018 then
      if absEta < 1.000 then 0.1440
      else if absEta < 1.479 then 0.1562
      else if absEta < 2.000 then 0.1032
      else if absEta < 2.200 then 0.0859
      else if absEta < 2.300 then 0.1116
      else if absEta < 2.400 then 0.1321
      else 0.1654
    else if year == 2016 then
      if absEta < 1.000 then 0.1703
      else if absEta < 1.479 then 0.1715
      else if absEta < 2.000 then 0.1213
      else if absEta < 2.200 then 0.1230
      else if absEta < 2.300 then 0.1635
      else if absEta < 2.400 then 0.1937
      else 0.2393
    else DUMMY_AREA
  }

  /** The if/else chain is a lookup of the band of |eta| in the year's table;
      any year but 2016, 2017 and 2018 gets the dummy value. */
  lemma {:induction false} GetEAIsTableLookup(scEta: real, year: int)
    ensures year == 2017 || year == 2018 ==> GetEA(scEta, year) == AREAS_2017_2018[Band(BAND_EDGES, Abs(scEta))]
    ensures year == 2016 ==> GetEA(scEta, year) == AREAS_2016[Band(BAND_EDGES, Abs(scEta))]
    ensures year != 2016 && year != 2017 && year != 2018 ==> GetEA(scEta, year) == DUMMY_AREA
  {
    var a := Abs(scEta);
    var b := Band(BAND_EDGES, a);
    assert BAND_EDGES[0] == 1.000 && BAND_EDGES[1] == 1.479 && BAND_EDGES[2] == 2.000;
    assert BAND_EDGES[3] == 2.200 && BAND_EDGES[4] == 2.300 && BAND_EDGES[5] == 2.400;
    assert a < 1.000 ==> b == 0;
    assert 1.000 <= a < 1.479 ==> b == 1;
    assert 1.479 <= a < 2.000 ==> b == 2;
    assert 2.000 <= a < 2.200 ==> b == 3;
    assert 2.200 <= a < 2.300 ==> b == 4;
    assert 2.300 <= a < 2.400 ==> b == 5;
    assert 2.400 <= a ==> b == 6;
  }

  /** The effective area depends on |eta| only. */
  lemma GetEASymmetric(scEta: real, year: int)
    ensures GetEA(-scEta, year) == GetEA(scEta, year)
  {
  }

  /** Band edges are lower-inclusive: |eta| = 1.0 is in the second band. */
  lemma BandEdgeGoesUp()
    ensures GetEA(1.0, 2017) == 0.1562 && GetEA(-1.0, 2018) == 0.1562 && GetEA(1.0, 2016) == 0.1715
    ensures GetEA(2.4, 2017) == 0.1654 && GetEA(2.4, 2016) == 0.2393
  {
  }

  /** The value `produce` attaches: the 2016 table unless the configured year is
      "2017" or "2018". */
  function ProducedEA(scEta: real, year: string): (ea: real)
    ensures ea == GetEA(scEta, if year == "2017" || year == "2018" then 2017 else 2016)
  {
    var ea := GetEA(scEta, 2016);
    var ea := if year == "2017" then GetEA(scEta, 2017) else ea;
    if year == "2018" then GetEA(scEta, 2018) else ea
  }

  /** `produce` never reaches the dummy value: it looks |eta| up in the 2017/2018
      table for "2017" and "2018" and in the 2016 table for every other string. */
  lemma ProducedEAUsesTable(scEta: real, year: string)
    ensures ProducedEA(scEta, year) ==
      (if year == "2017" || year == "2018" then AREAS_2017_2018 else AREAS_2016)[Band(BAND_EDGES, Abs(scEta))]
  {
    GetEAIsTableLookup(scEta, 2016);
    GetEAIsTableLookup(scEta, 2017);
    GetEAIsTableLookup(scEta, 2018);
  }

  /** An electron as the embedder sees it; `scEta` is its supercluster's eta. */
  datatype Electron = Electron(pt: real, eta: real, scEta: real, userFloats: map<string, real>)

  /** The electron with its effective area attached under `eaLabel`. */
  function WithEA(e: Electron, eaLabel: string, year: string): (r: Electron)
    ensures r.userFloats.Keys == e.userFloats.Keys + {eaLabel}
    ensures r.userFloats[eaLabel] == ProducedEA(e.scEta, year)
    ensures 0.0859 <= r.userFloats[eaLabel] <= 0.2393
    ensures forall k :: k in e.userFloats && k != eaLabel ==> r.userFloats[k] == e.userFloats[k]
    ensures r == e.(userFloats := r.userFloats)
  {
    e.(userFloats := e.userFloats[eaLabel := ProducedEA(e.scEta, year)])
  }

  /** The output collection of `produce`: same length and order as the input,
      element i being input i with its effective area attached. */
  function Annotated(es: seq<Electron>, eaLabel: string, year: string): (r: seq<Electron>)
    ensures |r| == |es|
    ensures forall i :: 0 <= i < |es| ==> r[i] == WithEA(es[i], eaLabel, year)
    decreases |es|
  {
    if es == [] then []
    else Annotated(es[..|es| - 1], eaLabel, year) + [WithEA(es[|es| - 1], eaLabel, year)]
  }

  /** The producer's options. */
  datatype EaConfig = EaConfig(src: string, eaLabel: string, year: string, configFile: string)

  /** The constructor's initialisers: `year` and `configFile` are required. */
  function MakeEaConfig(ps: ParameterSet): (r: Option<EaConfig>)
    ensures r.Some? <==>
      && ("src" in ps ==> ps["src"].Tag?)
      && ("label" in ps ==> ps["label"].Str?)
      && "year" in ps && ps["year"].Str?
      && "configFile" in ps && ps["configFile"].FileInPath?
    ensures r.Some? ==> r.value.eaLabel == (if "label" in ps then ps["label"].s else "EffectiveArea")
    ensures r.Some? ==> r.value.src == (if "src" in ps then ps["src"].tag else "slimmedElectrons")
    ensures r.Some? ==> r.value.year == ps["year"].s
  {
    var src :- TagOr(ps, "src", "slimmedElectrons");
    var eaLabel :- StrOr(ps, "label", "EffectiveArea");
    var year :- RequiredStr(ps, "year");
    var configFile :- RequiredPath(ps, "configFile");
    Some(EaConfig(src, eaLabel, year, configFile))
  }

  class ElectronEffectiveAreaEmbedder {
    const eaLabel: string
    const year: string
    var out: seq<Electron>

    constructor (cfg: EaConfig)
      ensures eaLabel == cfg.eaLabel && year == cfg.year && out == []
    {
      eaLabel := cfg.eaLabel;
      year := cfg.year;
      out := [];
    }

    /** `produce`: a copy of every input electron, in order, each with its
        effective area attached as userFloat `eaLabel`. */
    method Produce(electronsIn: seq<Electron>)
      modifies this
      ensures out == Annotated(electronsIn, eaLabel, year)
    {
      out := [];
      var i := 0;
      while i < |electronsIn|
        invariant 0 <= i <= |electronsIn|
        invariant out == Annotated(electronsIn[..i], eaLabel, year)
      {
        var e := electronsIn[i];
        out := out + [e];
        var ea := GetEA(e.scEta, 2016);
        if year == "2017" {
          ea := GetEA(e.scEta, 2017);
        }
        if year == "2018" {
          ea := GetEA(e.scEta, 2018);
        }
        var back := out[|out| - 1];
        out := out[..|out| - 1] + [back.(userFloats := back.userFloats[eaLabel := ea])];
        assert electronsIn[..i + 1][..i] == electronsIn[..i];
        i := i + 1;
      }
      assert electronsIn[..i] == electronsIn;
    }
  }
}
