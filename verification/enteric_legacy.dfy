/** Enteric fermentation, older revision of `FactorEF`. It reads the total gross energy as
    `ne`, writes Ym in a nested form divided by `ne`, takes the intake figure as an argument in
    its split helpers, and guards the high-yield dairy factor with five range assertions.
    Everything it computes the same way as the current revision (fibre and energy blends, fat-
    corrected milk, `ajl`, `eqsbw`, `bfaf`, the bull's potential intake, the per-type factor)
    is taken from `Enteric`. */
module EntericLegacy {
  import opened Outcomes
  import opened Coefficients
  import opened GrossEnergy
  import opened Enteric

  /** Ym, nested form: 3.41 + 0.52 cms - 0.996 (cms fda/100 + 1.15 cms fdn/100) 100, over
      `ne`. The factor 100 multiplies only the fibre term. */
  function YmNested(cms: real, fda: real, fdn: real, ne: real): (ym: real)
    requires ne != 0.0
    ensures ym * ne == 3.41 + 0.52 * cms - 99.6 * (cms * (fda / 100.0) + 1.15 * (cms * (fdn / 100.0)))
  {
    (3.41 + 0.52 * cms - 0.996 * ((cms * (fda / 100.0)) + 1.15 * (cms * (fdn / 100.0))) * 100.0) / ne
  }

  /** On a fibre-free diet the two revisions differ by exactly the percentage factor: the
      current Ym is 100 times the older one. */
  lemma FibreFreeYmRatio(cms: real, tge: real)
    requires tge != 0.0
    ensures Ym(cms, 0.0, 0.0, tge) == 100.0 * YmNested(cms, 0.0, 0.0, tge)
  {
    assert MethaneTerm(cms, 0.0, 0.0) == 3.41 + 0.52 * cms;
  }

  /** With fibre in the diet the ratio is no longer 100: at cms = 1, fda = 100, fdn = 0 and a
      gross energy of 1, the current revision gives 293.4 and the older one -95.67. */
  lemma YmRevisionsDisagree()
    ensures Ym(1.0, 100.0, 0.0, 1.0) == 293.4
    ensures YmNested(1.0, 100.0, 0.0, 1.0) == -95.67
    ensures Ym(1.0, 100.0, 0.0, 1.0) != 100.0 * YmNested(1.0, 100.0, 0.0, 1.0)
  {
  }

  /** The five assertions of the older `gbvap_ef`, in the order they are checked. */
  datatype RangeError =
    | WeightOutOfRange       // live weight outside [250, 700] kg
    | ClimateOutOfRange      // ambient temperature outside [10, 18] °C
    | MilkOutOfRange         // yield outside [2440, 15250] L
    | FatOutOfRange          // milk fat outside [2.0, 6.0] %
    | NotDairyBreed          // ca_id other than 1

  /** The older `gbvap_ef`: the range assertions for high-yield dairy cows, first failure
      reported, then the 365-day factor. */
  function GbvapEf(p: Profile, ne: real, ym: real): (r: Result<real, RangeError>)
    ensures r == Err(WeightOutOfRange) <==> !(250.0 <= p.weight <= 700.0)
    ensures r == Err(ClimateOutOfRange) <==> 250.0 <= p.weight <= 700.0 && !(10.0 <= p.ta <= 18.0)
    ensures r == Err(MilkOutOfRange) <==>
              250.0 <= p.weight <= 700.0 && 10.0 <= p.ta <= 18.0 && !(2440.0 <= p.milk <= 15250.0)
    ensures r == Err(FatOutOfRange) <==>
              250.0 <= p.weight <= 700.0 && 10.0 <= p.ta <= 18.0 && 2440.0 <= p.milk <= 15250.0
              && !(2.0 <= p.grease <= 6.0)
    ensures r.Ok? <==>
              250.0 <= p.weight <= 700.0 && 10.0 <= p.ta <= 18.0 && 2440.0 <= p.milk <= 15250.0
              && 2.0 <= p.grease <= 6.0 && p.caId == 1
  {
    if !(250.0 <= p.weight <= 700.0) then Err(WeightOutOfRange)
    else if !(10.0 <= p.ta <= 18.0) then Err(ClimateOutOfRange)
    else if !(2440.0 <= p.milk <= 15250.0) then Err(MilkOutOfRange)
    else if !(2.0 <= p.grease <= 6.0) then Err(FatOutOfRange)
    else if p.caId != 1 then Err(NotDairyBreed)
    else Ok(EmissionFactor(HighYieldDairy, ne, ym))
  }

  /** The older emission factor of each type: only the high-yield dairy method checks ranges;
      the others are the shared per-type factor over `ne`. */
  function EmissionFactorOf(t: AnimalType, p: Profile, ne: real, ym: real): (r: Result<real, RangeError>)
    ensures r.Err? ==> t.HighYieldDairy?
    ensures r.Ok? ==> r.value == EmissionFactor(t, ne, ym)
  {
    if t.HighYieldDairy? then GbvapEf(p, ne, ym) else Ok(EmissionFactor(t, ne, ym))
  }

  /** A 200 kg cow is refused and a 500 kg cow with in-range milk, fat, climate and breed is
      accepted. */
  lemma DairyWeightFloor(p: Profile, ne: real, ym: real)
    requires 10.0 <= p.ta <= 18.0 && 2440.0 <= p.milk <= 15250.0 && 2.0 <= p.grease <= 6.0 && p.caId == 1
    ensures p.weight == 200.0 ==> GbvapEf(p, ne, ym) == Err(WeightOutOfRange)
    ensures p.weight == 500.0 ==> GbvapEf(p, ne, ym).Ok?
  {
  }

  /** The attributes the older constructor derives, in its order. */
  datatype LegacyState = LegacyState(cms: real, ym: real, fcm: real, ajl: real, eqsbw: real)

  /** The older `FactorEF.__init__`: cms = ne / gepd, then the nested Ym (which blends fda and
      fdn itself), fcm, ajl and eqsbw. */
  function Construct(ge: State, p: Profile, lk: Lookups): (r: Result<LegacyState, EntericFailure>)
    ensures r.Ok? <==>
              ge.ne.Some? && Gepd(p.pf, p.ps, lk.forage, lk.supplement) != 0.0
              && ge.ne.value != 0.0 && p.adultW != 0.0
    ensures r.Ok? ==> r.value.cms * Gepd(p.pf, p.ps, lk.forage, lk.supplement) == ge.ne.value
    ensures r.Ok? ==>
              r.value.ym == YmNested(r.value.cms, Fda(p.pf, p.ps, lk.forage, lk.supplement),
                                     Fdn(p.pf, p.ps, lk.forage, lk.supplement), ge.ne.value)
    ensures r.Ok? ==>
              && r.value.fcm == Fcm(p.milk, p.grease) && r.value.ajl == Ajl(p.milk)
              && r.value.eqsbw == Eqsbw(p.weight, p.adultW)
    ensures r.Ok? && ClosedDiet(p.pf, p.ps) && lk.forage.fda == 0.0 && lk.supplement.fda == 0.0
            && lk.forage.fdn == 0.0 && lk.supplement.fdn == 0.0
            ==> r.value.ym * ge.ne.value == 3.41 + 0.52 * r.value.cms
  {
    match ge.ne
    case None => Err(NoTotalEnergy)
    case Some(ne) =>
      var gepd := Gepd(p.pf, p.ps, lk.forage, lk.supplement);
      if gepd == 0.0 then Err(ZeroDietEnergy)
      else
        var cms := Cms(ne, gepd);
        if ne == 0.0 then Err(ZeroTotalEnergy)
        else
          var ym := YmNested(cms, Fda(p.pf, p.ps, lk.forage, lk.supplement), Fdn(p.pf, p.ps, lk.forage, lk.supplement), ne);
          if p.adultW * 0.96 == 0.0 then Err(ZeroAdultWeight)
          else Ok(LegacyState(cms, ym, Fcm(p.milk, p.grease), Ajl(p.milk), Eqsbw(p.weight, p.adultW)))
  }
}
