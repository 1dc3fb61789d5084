/** Enteric fermentation, current revision of `FactorEF` (IPCC 2006, Volume 4, section
    10.3.2): diet fibre and energy blends, dry-matter intake and its split, the methane
    conversion ratio Ym, fat-corrected milk, the body-fat adjustment, the per-type emission
    factor and the potential dry-matter intake of each type. Formulas the older revision
    shares with this one are defined here once and reused by `EntericLegacy`. */
module Enteric {
  import opened Outcomes
  import opened Coefficients
  import opened GrossEnergy

  /** Energy content of methane, MJ per kg CH4. */
  const MethaneEnergy: real := 55.65

  /** Acid-detergent fibre of the diet (%). */
  function Fda(pf: real, ps: real, forage: Feed, supplement: Feed): (fda: real)
    ensures pf + ps == 100.0 && forage.fda == supplement.fda ==> fda == forage.fda
    ensures ClosedDiet(pf, ps) ==> Min(forage.fda, supplement.fda) <= fda <= Max(forage.fda, supplement.fda)
  {
    Weighted(forage.fda, supplement.fda, pf, ps)
  }

  /** Neutral-detergent fibre of the diet (%). */
  function Fdn(pf: real, ps: real, forage: Feed, supplement: Feed): (fdn: real)
    ensures pf + ps == 100.0 && forage.fdn == supplement.fdn ==> fdn == forage.fdn
    ensures ClosedDiet(pf, ps) ==> Min(forage.fdn, supplement.fdn) <= fdn <= Max(forage.fdn, supplement.fdn)
  {
    Weighted(forage.fdn, supplement.fdn, pf, ps)
  }

  /** Gross energy density of the diet, MJ per kg of dry matter. */
  function Gepd(pf: real, ps: real, forage: Feed, supplement: Feed): (gepd: real)
    ensures pf + ps == 100.0 && forage.eb == supplement.eb ==> gepd == forage.eb
    ensures ClosedDiet(pf, ps) ==> Min(forage.eb, supplement.eb) <= gepd <= Max(forage.eb, supplement.eb)
  {
    Weighted(forage.eb, supplement.eb, pf, ps)
  }

  /** Dry-matter intake (kg/day): the energy requirement over the diet's energy density, so
      that intake times density gives the requirement back. */
  function Cms(tge: real, gepd: real): (cms: real)
    requires gepd != 0.0
    ensures cms * gepd == tge
    ensures tge > 0.0 && gepd > 0.0 ==> cms > 0.0
  {
    tge / gepd
  }

  /** Dry-matter intake per kg of live weight. */
  function CmsPv(cms: real, weight: real): (pv: real)
    requires weight != 0.0
    ensures pv * weight == cms
  {
    cms / weight
  }

  /** Forage part of the dry-matter intake (kg/day). */
  function Cmcf(cms: real, pf: real): (cf: real)
    ensures cms >= 0.0 && 0.0 <= pf <= 100.0 ==> 0.0 <= cf <= cms
  {
    var r := cms * pf / 100.0;
    assert cms >= 0.0 && 0.0 <= pf <= 100.0 ==> r <= cms by {
      if cms >= 0.0 && 0.0 <= pf <= 100.0 {
        assert cms * pf <= cms * 100.0;
      }
    }
    r
  }

  /** Supplement part of the dry-matter intake (kg/day). */
  function Cmcs(cms: real, ps: real): (cs: real)
    ensures cms >= 0.0 && 0.0 <= ps <= 100.0 ==> 0.0 <= cs <= cms
  {
    Cmcf(cms, ps)
  }

  /** Over shares that sum to 100 the forage and supplement intakes add up to the whole
      intake, whatever intake figure they split. */
  lemma IntakeSplit(cms: real, pf: real, ps: real)
    requires pf + ps == 100.0
    ensures Cmcf(cms, pf) + Cmcs(cms, ps) == cms
  {
    assert cms * pf / 100.0 + cms * ps / 100.0 == cms * (pf + ps) / 100.0;
  }

  /** Daily methane energy (MJ/day) predicted from intake and fibre: 3.41 + 0.52 cms
      - 0.996 cms fda/100 + 1.15 cms fdn/100. */
  function MethaneTerm(cms: real, fda: real, fdn: real): real
  {
    3.41 + 0.52 * cms - 0.996 * (cms * fda / 100.0) + 1.15 * (cms * fdn / 100.0)
  }

  /** Ym (%), additive form: the methane energy as a percentage of the gross energy. */
  function Ym(cms: real, fda: real, fdn: real, tge: real): (ym: real)
    requires tge != 0.0
    ensures ym * tge == 100.0 * MethaneTerm(cms, fda, fdn)
  {
    (MethaneTerm(cms, fda, fdn) * 100.0) / tge
  }

  /** Fat-corrected milk (kg/day): the daily yield scaled by 0.4324 + 0.16216 fat. */
  function Fcm(milk: real, grease: real): (fcm: real)
    ensures fcm == (milk / 365.0) * (0.4324 + 0.16216 * grease)
    ensures milk >= 0.0 && grease >= 0.0 ==> fcm >= 0.0
  {
    0.4324 * (milk / 365.0) + 16.216 * (milk / 365.0) * (grease / 100.0)
  }

  /** The correction is to 3.5 % fat: at that fat content the yield is (almost exactly) the
      plain daily milk, 0.4324 + 0.16216 * 3.5 being 0.99996. */
  lemma FcmAtStandardFat(milk: real)
    ensures Fcm(milk, 3.5) == 0.99996 * (milk / 365.0)
  {
  }

  /** For any positive yield, richer milk corrects to more: the gap is 0.16216 kg/day of daily
      milk per point of fat. */
  lemma FcmRisesWithFat(milk: real, g1: real, g2: real)
    requires milk > 0.0 && g1 < g2
    ensures Fcm(milk, g2) - Fcm(milk, g1) == 0.16216 * (milk / 365.0) * (g2 - g1)
    ensures Fcm(milk, g1) < Fcm(milk, g2)
  {
    var d := milk / 365.0;
    assert Fcm(milk, g2) - Fcm(milk, g1) == 0.16216 * d * (g2 - g1);
    PositiveProduct(0.16216 * d, g2 - g1);
  }

  /** Lactation adjustment `ajl` of the potential intake: 1.7 from 11.5 L/day of milk on. */
  function Ajl(milk: real): (ajl: real)
    ensures ajl == 1.7 <==> milk >= 4197.5
    ensures ajl == 0.0 <==> milk < 4197.5
  {
    if milk / 365.0 >= 11.5 then 1.7 else 0.0
  }

  /** Equivalent shrunk body weight: the two 0.96 shrink factors cancel, leaving 400 kg scaled
      by weight over mature weight. */
  function Eqsbw(weight: real, adultW: real): (eqsbw: real)
    requires adultW != 0.0
    ensures eqsbw == 400.0 * weight / adultW
    ensures weight == adultW ==> eqsbw == 400.0
  {
    (weight * 0.96) * 400.0 / (adultW * 0.96)
  }

  /** Body-fat adjustment of the potential intake, read with the `eqsbw` attribute. */
  function Bfaf(weight: real, adultW: real, eqsbw: real): (bfaf: real)
    requires adultW != 0.0
    ensures weight <= 350.0 ==> bfaf == 1.0
  {
    if weight > 350.0 then
      0.7714 + (0.00196 * (weight * 0.96 * eqsbw) / (adultW * 0.96))
      - (0.000000371 * (weight * 0.96 * eqsbw) / ((adultW * 0.96) * (adultW * 0.96)))
    else 1.0
  }

  /** The product `weight 0.96 eqsbw` in `Bfaf`, with `eqsbw` as the constructor sets it. */
  lemma ScaledProduct(weight: real, adultW: real)
    requires adultW != 0.0
    ensures weight * 0.96 * Eqsbw(weight, adultW) == 384.0 * (weight * weight) / adultW
  {
    var e := Eqsbw(weight, adultW);
    assert e * adultW == 400.0 * weight;
    assert (weight * 0.96 * e) * adultW == 384.0 * (weight * weight);
  }

  /** A product that gives `y` identifies the quotient `y / a`. */
  lemma QuotientOf(x: real, y: real, a: real)
    requires a != 0.0 && x * a == y
    ensures x == y / a
  {
  }

  /** The first `weight 0.96 eqsbw` term of `Bfaf`, over `q = weight^2`. */
  lemma BfafLinearTerm(q: real, a: real)
    requires a != 0.0
    ensures 0.00196 * (384.0 * q / a) / (a * 0.96) == 0.784 * q / (a * a)
  {
    var x := 384.0 * q / a;
    var m := 0.784 * q / (a * a);
    assert m * (a * a) == 0.784 * q;
    assert x == 384.0 * (q / a);
    assert m * a == 0.784 * (q / a) by {
      QuotientOf(m * a, 0.784 * q, a);
      assert 0.784 * q / a == 0.784 * (q / a);
    }
    assert m * (a * 0.96) == 0.00196 * x;
    QuotientOf(m, 0.00196 * x, a * 0.96);
  }

  /** The second `weight 0.96 eqsbw` term of `Bfaf`, over `q = weight^2`. */
  lemma BfafQuadraticTerm(q: real, a: real)
    requires a != 0.0
    ensures 0.000000371 * (384.0 * q / a) / ((a * 0.96) * (a * 0.96))
            == (0.0001484 / 0.96) * q / (a * a * a)
  {
  }

  /** Above 350 kg, with `eqsbw` as the constructor sets it, the adjustment is a quadratic in
      weight over mature weight: 0.7714 + 0.784 (w/aw)^2 - (0.0001484/0.96) w^2/aw^3. */
  lemma BfafClosedForm(weight: real, adultW: real)
    requires adultW != 0.0 && weight > 350.0
    ensures Bfaf(weight, adultW, Eqsbw(weight, adultW))
            == 0.7714 + 0.784 * (weight * weight) / (adultW * adultW)
               - (0.0001484 / 0.96) * (weight * weight) / (adultW * adultW * adultW)
  {
    ScaledProduct(weight, adultW);
    BfafLinearTerm(weight * weight, adultW);
    BfafQuadraticTerm(weight * weight, adultW);
  }

  /** Temperature adjustment of potential intake: 1 - (rcms/100)(ta - tc). */
  function TempFactor(cat: Category, ta: real): (k: real)
    ensures ta == cat.tc ==> k == 1.0
    ensures cat.rcms >= 0.0 && ta >= cat.tc ==> k <= 1.0
  {
    var d := ta - cat.tc;
    assert cat.rcms >= 0.0 && d >= 0.0 ==> (cat.rcms / 100.0) * d >= 0.0;
    1.0 - (cat.rcms / 100.0) * d
  }

  /** Potential intake, high-yield dairy cows (kg/day). */
  function Cpmsgbvap(weight: real, fcm: real, cat: Category, ta: real): (cpms: real)
    ensures ta == cat.tc ==> cpms == 0.0185 * weight + 0.305 * fcm
  {
    (0.0185 * weight + 0.305 * fcm) * TempFactor(cat, ta)
  }

  /** Potential intake, breeding bulls (kg/day). */
  function Cpmsgbtfr(weight: real, cat: Category, ta: real): (cpms: real)
    ensures ta == cat.tc ==> cpms == 3.83 + 0.0143 * 0.96 * weight
  {
    (3.83 + 0.0143 * (weight * 0.96)) * TempFactor(cat, ta)
  }

  /** A non-negative thermoneutral intake scaled by the temperature factor shrinks as the
      air warms when rcms >= 0. */
  lemma TempScaledFallsWithHeat(base: real, cat: Category, cooler: real, warmer: real)
    requires base >= 0.0 && cat.rcms >= 0.0 && cooler <= warmer
    ensures base * TempFactor(cat, warmer) <= base * TempFactor(cat, cooler)
  {
    var k := cat.rcms / 100.0;
    var drop := TempFactor(cat, cooler) - TempFactor(cat, warmer);
    assert drop == k * (warmer - cat.tc) - k * (cooler - cat.tc);
    assert drop == k * (warmer - cooler);
    NonNegativeProduct(k, warmer - cooler);
    NonNegativeProduct(base, drop);
    assert base * TempFactor(cat, cooler) - base * TempFactor(cat, warmer) == base * drop;
  }

  /** The dairy-cow and bull potential intakes fall as the air warms (rcms >= 0, non-negative
      weight and fat-corrected milk). */
  lemma PotentialIntakeFallsWithHeat(weight: real, fcm: real, cat: Category, cooler: real, warmer: real)
    requires weight >= 0.0 && fcm >= 0.0 && cat.rcms >= 0.0 && cooler <= warmer
    ensures Cpmsgbvap(weight, fcm, cat, warmer) <= Cpmsgbvap(weight, fcm, cat, cooler)
    ensures Cpmsgbtfr(weight, cat, warmer) <= Cpmsgbtfr(weight, cat, cooler)
  {
    TempScaledFallsWithHeat(0.0185 * weight + 0.305 * fcm, cat, cooler, warmer);
    TempScaledFallsWithHeat(3.83 + 0.0143 * (weight * 0.96), cat, cooler, warmer);
  }

  /** Net energy for maintenance of the diet in Mcal per kg (`enmf / 4.184`). */
  function Nema(enmf: real): real
  {
    enmf / 4.184
  }

  /** Potential intake, low-yield dairy cows (kg/day), with the diet's maintenance energy
      `enmf` as an explicit input. */
  function Cpmsgbvbp(pw: Powers, weight: real, enmf: real, fcm: real, ajl: real, cat: Category, ta: real): (cpms: real)
    ensures ta == cat.tc ==>
              cpms == pw.p075(weight) * (0.14652 * Nema(enmf)) - 0.0517 * (Nema(enmf) * Nema(enmf))
                      - 0.0074 + 0.305 * fcm + ajl
  {
    (pw.p075(weight) * (0.14652 * Nema(enmf)) - (0.0517 * (Nema(enmf) * Nema(enmf)))
     - 0.0074 + (0.305 * fcm) + ajl) * TempFactor(cat, ta)
  }

  /** The lactation adjustment raises the low-yield cow's potential intake by exactly
      1.7 times the temperature factor. */
  lemma LactationAdjustmentAddsIntake(pw: Powers, weight: real, enmf: real, fcm: real, cat: Category, ta: real)
    ensures Cpmsgbvbp(pw, weight, enmf, fcm, 1.7, cat, ta)
            == Cpmsgbvbp(pw, weight, enmf, fcm, 0.0, cat, ta) + 1.7 * TempFactor(cat, ta)
  {
  }

  /** Potential intake, beef cows (kg/day). */
  function Cpmsgbpc(pw: Powers, weight: real, enmf: real, milk: real, cat: Category, ta: real): (cpms: real)
    requires enmf != 0.0
    ensures milk == 0.0 && ta == cat.tc ==>
              cpms == pw.p075(weight * 0.96) * (0.04997 * (Nema(enmf) * Nema(enmf)) + 0.04631) / Nema(enmf)
  {
    (pw.p075(weight * 0.96) * (0.04997 * (Nema(enmf) * Nema(enmf)) + 0.04631) / Nema(enmf))
    * TempFactor(cat, ta) + (0.2 * (milk / 365.0))
  }

  /** The beef cow's milk term is added after the temperature adjustment: milk raises the
      potential intake by exactly 0.2 kg per 365 L, at any temperature. */
  lemma MilkAddsUnscaledIntake(pw: Powers, weight: real, enmf: real, milk: real, cat: Category, ta: real)
    requires enmf != 0.0
    ensures Cpmsgbpc(pw, weight, enmf, milk, cat, ta)
            == Cpmsgbpc(pw, weight, enmf, 0.0, cat, ta) + 0.2 * (milk / 365.0)
  {
  }

  /** Shared shape of the calf, heifer and feedlot potential intakes; they differ only in the
      constant subtracted inside the energy polynomial. */
  function GrowingIntake(pw: Powers, weight: real, adultW: real, eqsbw: real, enmf: real,
                         cat: Category, ta: real, offset: real): real
    requires adultW != 0.0 && enmf != 0.0
  {
    pw.p075(weight * 0.96)
    * (((0.2435 * Nema(enmf)) - (0.0466 * (Nema(enmf) * Nema(enmf))) - offset) / Nema(enmf))
    * Bfaf(weight, adultW, eqsbw) * cat.bi * TempFactor(cat, ta)
  }

  /** Potential intake, pre-weaned calves (kg/day). */
  function Cpmsgbtp(pw: Powers, weight: real, adultW: real, eqsbw: real, enmf: real, cat: Category, ta: real): (cpms: real)
    requires adultW != 0.0 && enmf != 0.0
    ensures cat.bi == 0.0 ==> cpms == 0.0
  {
    GrowingIntake(pw, weight, adultW, eqsbw, enmf, cat, ta, 0.1128)
  }

  /** Potential intake, replacement heifers (kg/day). */
  function Cpmsgbtr(pw: Powers, weight: real, adultW: real, eqsbw: real, enmf: real, cat: Category, ta: real): (cpms: real)
    requires adultW != 0.0 && enmf != 0.0
    ensures cat.bi == 0.0 ==> cpms == 0.0
  {
    GrowingIntake(pw, weight, adultW, eqsbw, enmf, cat, ta, 0.0869)
  }

  /** The growing-animal intake is proportional to the category's `bi`; the temperature
      factor does not read it. */
  lemma GrowingIntakeLinearInBi(pw: Powers, weight: real, adultW: real, eqsbw: real, enmf: real,
                                cat: Category, ta: real, offset: real, c: real)
    requires adultW != 0.0 && enmf != 0.0
    ensures GrowingIntake(pw, weight, adultW, eqsbw, enmf, cat.(bi := c * cat.bi), ta, offset)
            == c * GrowingIntake(pw, weight, adultW, eqsbw, enmf, cat, ta, offset)
  {
    var x := pw.p075(weight * 0.96)
             * (((0.2435 * Nema(enmf)) - (0.0466 * (Nema(enmf) * Nema(enmf))) - offset) / Nema(enmf))
             * Bfaf(weight, adultW, eqsbw);
    var k := TempFactor(cat, ta);
    assert TempFactor(cat.(bi := c * cat.bi), ta) == k;
    assert x * (c * cat.bi) * k == c * (x * cat.bi * k);
  }

  /** The calf's and the heifer's potential intakes scale with the category's `bi`. */
  lemma GrowingIntakesScaleWithBi(pw: Powers, weight: real, adultW: real, eqsbw: real, enmf: real,
                                  cat: Category, ta: real, c: real)
    requires adultW != 0.0 && enmf != 0.0
    ensures Cpmsgbtp(pw, weight, adultW, eqsbw, enmf, cat.(bi := c * cat.bi), ta)
            == c * Cpmsgbtp(pw, weight, adultW, eqsbw, enmf, cat, ta)
    ensures Cpmsgbtr(pw, weight, adultW, eqsbw, enmf, cat.(bi := c * cat.bi), ta)
            == c * Cpmsgbtr(pw, weight, adultW, eqsbw, enmf, cat, ta)
  {
    GrowingIntakeLinearInBi(pw, weight, adultW, eqsbw, enmf, cat, ta, 0.1128, c);
    GrowingIntakeLinearInBi(pw, weight, adultW, eqsbw, enmf, cat, ta, 0.0869, c);
  }

  /** Potential intake, feedlot cattle (kg/day): the same formula as replacement heifers. */
  function Cpmsgbge(pw: Powers, weight: real, adultW: real, eqsbw: real, enmf: real, cat: Category, ta: real): (cpms: real)
    requires adultW != 0.0 && enmf != 0.0
    ensures cpms == Cpmsgbtr(pw, weight, adultW, eqsbw, enmf, cat, ta)
  {
    GrowingIntake(pw, weight, adultW, eqsbw, enmf, cat, ta, 0.0869)
  }

  /** With positive diet energy and a positive adjustment product, a calf's potential intake
      is strictly below a heifer's of the same weight: its polynomial subtracts 0.1128
      instead of 0.0869. */
  lemma CalfIntakeBelowHeifer(pw: Powers, weight: real, adultW: real, eqsbw: real, enmf: real, cat: Category, ta: real)
    requires ValidPowers(pw) && weight > 0.0 && adultW != 0.0 && enmf > 0.0
    requires Bfaf(weight, adultW, eqsbw) * cat.bi * TempFactor(cat, ta) > 0.0
    ensures Cpmsgbtp(pw, weight, adultW, eqsbw, enmf, cat, ta) < Cpmsgbtr(pw, weight, adultW, eqsbw, enmf, cat, ta)
  {
    var p := pw.p075(weight * 0.96);
    assert p > 0.0;
    var n := Nema(enmf);
    var a := Bfaf(weight, adultW, eqsbw) * cat.bi * TempFactor(cat, ta);
    var q := 0.2435 * n - 0.0466 * (n * n);
    assert (q - 0.1128) / n < (q - 0.0869) / n;
    assert p * ((q - 0.1128) / n) < p * ((q - 0.0869) / n);
    assert p * ((q - 0.1128) / n) * a < p * ((q - 0.0869) / n) * a;
  }

  /** Annualisation: 273.75 days for pre-weaned calves, 365 for every other type. */
  function Days(t: AnimalType): real
  {
    if t.PreWeanedCalf? then 273.75 else 365.0
  }

  /** Enteric emission factor (kg CH4 per head per year), the `gb*_ef` methods: the gross
      energy times Ym/100, annualised, over the energy content of methane. */
  function EmissionFactor(t: AnimalType, tge: real, ym: real): (ef: real)
    ensures tge >= 0.0 && ym >= 0.0 ==> ef >= 0.0
    ensures tge > 0.0 && ym > 0.0 ==> ef > 0.0
  {
    (tge * (ym / 100.0) * Days(t)) / MethaneEnergy
  }

  /** The six types other than pre-weaned calves share one factor, and the calf's is 273.75/365
      of it. */
  lemma CalfEmissionScaling(t: AnimalType, u: AnimalType, tge: real, ym: real)
    requires !t.PreWeanedCalf? && !u.PreWeanedCalf?
    ensures EmissionFactor(t, tge, ym) == EmissionFactor(u, tge, ym)
    ensures EmissionFactor(PreWeanedCalf, tge, ym) == (273.75 / 365.0) * EmissionFactor(t, tge, ym)
  {
  }

  /** With Ym in its additive form the gross energy cancels: the factor depends only on intake
      and fibre, (3.41 + 0.52 cms - 0.996 cms fda/100 + 1.15 cms fdn/100) days / 55.65. */
  lemma GrossEnergyCancels(t: AnimalType, cms: real, fda: real, fdn: real, tge: real)
    requires tge != 0.0
    ensures EmissionFactor(t, tge, Ym(cms, fda, fdn, tge)) == MethaneTerm(cms, fda, fdn) * Days(t) / MethaneEnergy
  {
    var m := MethaneTerm(cms, fda, fdn);
    var ym := Ym(cms, fda, fdn, tge);
    assert tge * (ym / 100.0) == m;
  }

  /** The attributes this revision's constructor derives, in its order. */
  datatype EntericState = EntericState(
    gepd: real, cms: real, fda: real, fdn: real, ym: real, fcm: real, ajl: real, eqsbw: real)

  datatype EntericFailure =
    | NoTotalEnergy       // at_id outside 1..7: no total gross energy to work from
    | ZeroDietEnergy      // gepd in cms_calc
    | ZeroTotalEnergy     // tge in ym_calc
    | ZeroAdultWeight     // adult_w * 0.96 in eqsbw_calc

  /** `FactorEF.__init__` after `GrossEnergy.__init__`, with the total gross energy read from
      the gross-energy state. */
  function Construct(ge: State, p: Profile, lk: Lookups): (r: Result<EntericState, EntericFailure>)
    ensures r.Ok? <==>
              ge.ne.Some? && Gepd(p.pf, p.ps, lk.forage, lk.supplement) != 0.0
              && ge.ne.value != 0.0 && p.adultW != 0.0
    ensures r.Ok? ==>
              && r.value.gepd == Gepd(p.pf, p.ps, lk.forage, lk.supplement)
              && r.value.fda == Fda(p.pf, p.ps, lk.forage, lk.supplement)
              && r.value.fdn == Fdn(p.pf, p.ps, lk.forage, lk.supplement)
    ensures r.Ok? ==> r.value.cms * r.value.gepd == ge.ne.value
    ensures r.Ok? ==> r.value.ym == Ym(r.value.cms, r.value.fda, r.value.fdn, ge.ne.value)
    ensures r.Ok? ==>
              && r.value.fcm == Fcm(p.milk, p.grease) && r.value.ajl == Ajl(p.milk)
              && r.value.eqsbw == Eqsbw(p.weight, p.adultW)
    ensures r.Ok? ==> forall t: AnimalType ::
              EmissionFactor(t, ge.ne.value, r.value.ym)
              == MethaneTerm(r.value.cms, r.value.fda, r.value.fdn) * Days(t) / MethaneEnergy
  {
    match ge.ne
    case None => Err(NoTotalEnergy)
    case Some(tge) =>
      var gepd := Gepd(p.pf, p.ps, lk.forage, lk.supplement);
      if gepd == 0.0 then Err(ZeroDietEnergy)
      else
        var cms := Cms(tge, gepd);
        var fda := Fda(p.pf, p.ps, lk.forage, lk.supplement);
        var fdn := Fdn(p.pf, p.ps, lk.forage, lk.supplement);
        if tge == 0.0 then Err(ZeroTotalEnergy)
        else
          var ym := Ym(cms, fda, fdn, tge);
          if p.adultW * 0.96 == 0.0 then Err(ZeroAdultWeight)
          else
            assert forall t: AnimalType :: EmissionFactor(t, tge, ym) == MethaneTerm(cms, fda, fdn) * Days(t) / MethaneEnergy by {
              forall t: AnimalType
                ensures EmissionFactor(t, tge, ym) == MethaneTerm(cms, fda, fdn) * Days(t) / MethaneEnergy
              {
                GrossEnergyCancels(t, cms, fda, fdn, tge);
              }
            }
            Ok(EntericState(gepd, cms, fda, fdn, ym, Fcm(p.milk, p.grease), Ajl(p.milk), Eqsbw(p.weight, p.adultW)))
  }
}
