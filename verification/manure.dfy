/** Methane from manure management, `FeGe` (IPCC 2006, Volume 4, section 10.4.2): volatile
    solids from the energy requirement, the diet's ash and crude protein and the urinary
    energy; the maximum methane capacity Bo by type and production system; and the manure
    emission factor. The weighted methane conversion factor and the manure-system weights are
    stubs returning 1 in the source, and are modelled as such. */
module Manure {
  import opened Outcomes
  import opened Coefficients
  import opened GrossEnergy
  import opened Enteric

  /** Density of methane, kg CH4 per m3. */
  const MethaneDensity: real := 0.67

  /** Energy content of volatile solids, MJ per kg. */
  const VolatileSolidsEnergy: real := 18.45

  /** Maximum methane-producing capacity Bo (m3 CH4 per kg of volatile solids), chosen by
      animal type and production system `sp`. */
  function Bo(atId: int, sp: int): (bo: real)
    ensures bo == 0.24 <==> atId == 1 && sp == 1
    ensures bo == 0.18 <==> atId != 1 && sp == 1
    ensures bo == 0.13 <==> sp != 1
  {
    if atId == 1 && sp == 1 then 0.24
    else if atId == 1 && sp == 2 then 0.13
    else if atId != 1 && sp == 1 then 0.18
    else 0.13
  }

  /** Ash content of the diet (%). */
  function CenP(pf: real, ps: real, forage: FeedAshProtein, supplement: FeedAshProtein): (cenP: real)
    ensures pf + ps == 100.0 && forage.ash == supplement.ash ==> cenP == forage.ash
    ensures ClosedDiet(pf, ps) ==> Min(forage.ash, supplement.ash) <= cenP <= Max(forage.ash, supplement.ash)
  {
    Weighted(forage.ash, supplement.ash, pf, ps)
  }

  /** Crude protein of the diet (%). */
  function Pcp(pf: real, ps: real, forage: FeedAshProtein, supplement: FeedAshProtein): (pcp: real)
    ensures pf + ps == 100.0 && forage.protein == supplement.protein ==> pcp == forage.protein
    ensures ClosedDiet(pf, ps) ==> Min(forage.protein, supplement.protein) <= pcp <= Max(forage.protein, supplement.protein)
  {
    Weighted(forage.protein, supplement.protein, pf, ps)
  }

  /** Urinary energy (fraction of gross energy): -2.71 + 0.028 (10 pcp) + 0.589 cms. */
  function Eu(pcp: real, cms: real): real
  {
    -2.71 + 0.028 * (10.0 * pcp) + 0.589 * cms
  }

  /** Urinary energy is affine in its inputs: each percentage point of dietary protein adds
      0.28 and each kg of intake adds 0.589, whatever the starting point. */
  lemma EuRates(pcp1: real, pcp2: real, cms1: real, cms2: real)
    ensures Eu(pcp2, cms2) - Eu(pcp1, cms1) == 0.28 * (pcp2 - pcp1) + 0.589 * (cms2 - cms1)
  {
  }

  /** Urinary energy rises with dietary protein and with intake. */
  lemma EuMonotone(pcp1: real, pcp2: real, cms1: real, cms2: real)
    requires pcp1 <= pcp2 && cms1 <= cms2
    ensures Eu(pcp1, cms1) <= Eu(pcp2, cms2)
    ensures pcp1 < pcp2 ==> Eu(pcp1, cms1) < Eu(pcp2, cms2)
  {
  }

  /** Volatile solids excreted (kg dry matter per day): the undigested and urinary share of the
      gross energy, times the organic (non-ash) share of the diet, over 18.45 MJ/kg. */
  function Sv(tge: real, dep: real, eu: real, cenP: real): (sv: real)
    ensures cenP == 100.0 ==> sv == 0.0
    ensures tge == 0.0 ==> sv == 0.0
    ensures tge > 0.0 && 1.0 - dep / 100.0 + eu > 0.0 && cenP < 100.0 ==> sv > 0.0
  {
    var x := 1.0 - (dep / 100.0) + eu;
    var b := (1.0 - cenP / 100.0) / VolatileSolidsEnergy;
    assert tge > 0.0 && x > 0.0 && cenP < 100.0 ==> tge * x * b > 0.0 by {
      if tge > 0.0 && x > 0.0 && cenP < 100.0 {
        assert tge * x > 0.0;
        assert b > 0.0;
      }
    }
    (tge * x) * b
  }

  /** Weighted methane conversion factor (%): a stub returning 1. */
  function Mcfp(): real
  {
    1.0
  }

  /** Manure-system weight: a stub returning 1. */
  function Awmsp(): real
  {
    1.0
  }

  /** Manure emission factor (kg CH4 per head per year): volatile solids over a year times
      Bo, the methane density, the conversion factor in % and the system weight. */
  function EfGe(sv: real, bo: real, mcfp: real, awmsp: real): (ef: real)
    ensures mcfp == Mcfp() && awmsp == Awmsp() ==> ef == sv * 365.0 * bo * 0.67 / 100.0
    ensures sv >= 0.0 && bo >= 0.0 && mcfp >= 0.0 && awmsp >= 0.0 ==> ef >= 0.0
  {
    var y := sv * 365.0;
    var k := bo * MethaneDensity * (mcfp / 100.0) * awmsp;
    assert bo >= 0.0 && mcfp >= 0.0 && awmsp >= 0.0 ==> k >= 0.0 by {
      if bo >= 0.0 && mcfp >= 0.0 && awmsp >= 0.0 {
        assert bo * MethaneDensity >= 0.0;
        assert bo * MethaneDensity * (mcfp / 100.0) >= 0.0;
      }
    }
    y * k
  }

  /** The factor is linear in Bo: scaling Bo scales the factor. */
  lemma EfGeLinearInBo(sv: real, bo: real, c: real, mcfp: real, awmsp: real)
    ensures EfGe(sv, c * bo, mcfp, awmsp) == c * EfGe(sv, bo, mcfp, awmsp)
  {
    var y := sv * 365.0;
    var rest := MethaneDensity * (mcfp / 100.0) * awmsp;
    assert c * bo * MethaneDensity * (mcfp / 100.0) * awmsp == c * (bo * rest);
    assert bo * MethaneDensity * (mcfp / 100.0) * awmsp == bo * rest;
    assert y * (c * (bo * rest)) == c * (y * (bo * rest));
  }

  /** For high-yield dairy cows, moving from production system 1 to system 2 scales the
      manure factor by 0.13/0.24. */
  lemma ProductionSystemScaling(sv: real)
    ensures EfGe(sv, Bo(1, 2), Mcfp(), Awmsp()) == (0.13 / 0.24) * EfGe(sv, Bo(1, 1), Mcfp(), Awmsp())
  {
    EfGeLinearInBo(sv, 0.24, 0.13 / 0.24, Mcfp(), Awmsp());
  }

  /** The attributes `FeGe.__init__` derives. */
  datatype ManureState = ManureState(
    sp: int, pcp: real, eu: real, cenP: real, sv: real, bo: real, mcfp: real, awmsp: real)

  datatype ManureFailure = NoEnergy

  /** `FeGe.__init__` in dependency order (pcp, then eu and cen_p, then sv, bo and the stubs),
      with the feeds' ash and protein supplied by the caller. */
  function Construct(ge: State, en: EntericState, p: Profile, sp: int,
                     forage: FeedAshProtein, supplement: FeedAshProtein): (r: Result<ManureState, ManureFailure>)
    ensures r.Ok? <==> ge.ne.Some?
    ensures r.Ok? ==>
              && r.value.pcp == Pcp(p.pf, p.ps, forage, supplement)
              && r.value.cenP == CenP(p.pf, p.ps, forage, supplement)
              && r.value.eu == Eu(r.value.pcp, en.cms)
    ensures r.Ok? ==> r.value.sv == Sv(ge.ne.value, ge.dep, r.value.eu, r.value.cenP)
    ensures r.Ok? ==> r.value.sp == sp && r.value.bo == Bo(p.atId, sp)
    ensures r.Ok? ==> r.value.mcfp == Mcfp() && r.value.awmsp == Awmsp()
    ensures r.Ok? ==> r.value.bo in {0.13, 0.18, 0.24}
    ensures r.Ok? ==>
              EfGe(r.value.sv, r.value.bo, r.value.mcfp, r.value.awmsp)
              == r.value.sv * 365.0 * Bo(p.atId, sp) * 0.67 / 100.0
  {
    match ge.ne
    case None => Err(NoEnergy)
    case Some(tge) =>
      var pcp := Pcp(p.pf, p.ps, forage, supplement);
      var eu := Eu(pcp, en.cms);
      var cenP := CenP(p.pf, p.ps, forage, supplement);
      var sv := Sv(tge, ge.dep, eu, cenP);
      Ok(ManureState(sp, pcp, eu, cenP, sv, Bo(p.atId, sp), Mcfp(), Awmsp()))
  }
}
