/** Gross-energy requirement of one animal (IPCC 2006, Volume 4, section 10.2.2): diet
    digestibility, the REM and REG ratios, the six energy components, the calf's milk-energy
    credit, and the per-type dispatch into total gross energy (`ne` in the source). */
module GrossEnergy {
  import opened Outcomes
  import opened Coefficients

  /** The seven animal types of category 3A1a (cattle), numbered 1..7 by `at_id`. */
  datatype AnimalType =
    | HighYieldDairy     // 1: 3A1ai   high-producing dairy cows
    | LowYieldDairy      // 2: 3A1aii  low-producing dairy cows
    | BeefCow            // 3: 3A1aiii cows kept for beef
    | BreedingBull       // 4: 3A1aiv  bulls kept for breeding
    | PreWeanedCalf      // 5: 3A1av   pre-weaned calves
    | ReplacementHeifer  // 6: 3A1avi  replacement heifers
    | Feedlot            // 7: 3A1avii feedlot cattle

  function TypeId(t: AnimalType): (id: int)
    ensures 1 <= id <= 7
  {
    match t
    case HighYieldDairy => 1
    case LowYieldDairy => 2
    case BeefCow => 3
    case BreedingBull => 4
    case PreWeanedCalf => 5
    case ReplacementHeifer => 6
    case Feedlot => 7
  }

  /** The `at_id` dispatch: ids 1..7 name a type, every other id names none. */
  function AnimalTypeOf(atId: int): (t: Option<AnimalType>)
    ensures t.Some? <==> 1 <= atId <= 7
    ensures t.Some? ==> TypeId(t.value) == atId
  {
    if atId == 1 then Some(HighYieldDairy)
    else if atId == 2 then Some(LowYieldDairy)
    else if atId == 3 then Some(BeefCow)
    else if atId == 4 then Some(BreedingBull)
    else if atId == 5 then Some(PreWeanedCalf)
    else if atId == 6 then Some(ReplacementHeifer)
    else if atId == 7 then Some(Feedlot)
    else None
  }

  lemma TypeIdRoundTrip(t: AnimalType)
    ensures AnimalTypeOf(TypeId(t)) == Some(t)
  {
  }

  /** The caller-supplied attributes of one animal (the constructor's keyword arguments,
      lookup ids excluded). */
  datatype Profile = Profile(
    atId: int, caId: int, ta: real, pf: real, ps: real, weight: real, adultW: real,
    gan: real, milk: real, grease: real, ht: real)

  /** The constructor's lookups, resolved: category row (by ca_id), sexual-condition factor
      fcs (by cs_id), forage and supplement rows (by vp_id and vs_id), activity coefficient
      ca (by coe_act_id) and pregnancy coefficient cp (by cp_id). */
  datatype Lookups = Lookups(
    cat: Category, fcs: real, forage: Feed, supplement: Feed, ca: real, cp: real)

  /** The constructor's four assertions, in the order they are checked. */
  datatype InitError =
    | NotBosTaurus
    | TemperatureOutOfRange
    | ForageShareOutOfRange
    | SupplementShareOutOfRange

  /** Python's `1 & n` on an integer: its lowest two's-complement bit. */
  function LowBit(n: int): int
  {
    n % 2
  }

  /** The category assertion as written. `at_id == 1 & ca_id == 1` parses as the chained
      comparison `at_id == (1 & ca_id) == 1`, i.e. `at_id == (1 & ca_id) and (1 & ca_id) == 1`. */
  predicate CategoryGuardAsWritten(atId: int, caId: int)
  {
    atId != 1 || (atId == LowBit(caId) && LowBit(caId) == 1)
  }

  /** The evidently intended category assertion: a high-yield dairy cow is of category 1. */
  predicate CategoryGuard(atId: int, caId: int)
  {
    atId != 1 || caId == 1
  }

  /** As written, the guard lets a high-yield dairy cow through with ANY odd category. */
  lemma GuardAsWrittenAcceptsOddCategories(caId: int)
    ensures CategoryGuardAsWritten(1, caId) <==> caId % 2 == 1
    ensures caId == 3 ==> CategoryGuardAsWritten(1, caId) && !CategoryGuard(1, caId)
  {
  }

  predicate TemperatureOk(ta: real) { -10.0 <= ta <= 50.0 }

  predicate ShareOk(share: real) { 0.0 <= share <= 100.0 }

  /** The constructor's assertions, first failure reported (with the corrected category
      guard). None means the profile is accepted. */
  function Validate(p: Profile): (r: Option<InitError>)
    ensures r == Some(NotBosTaurus) <==> p.atId == 1 && p.caId != 1
    ensures r == Some(TemperatureOutOfRange) <==>
              CategoryGuard(p.atId, p.caId) && !(-10.0 <= p.ta <= 50.0)
    ensures r == Some(ForageShareOutOfRange) <==>
              CategoryGuard(p.atId, p.caId) && TemperatureOk(p.ta) && !(0.0 <= p.pf <= 100.0)
    ensures r == Some(SupplementShareOutOfRange) <==>
              CategoryGuard(p.atId, p.caId) && TemperatureOk(p.ta) && ShareOk(p.pf)
              && !(0.0 <= p.ps <= 100.0)
    ensures r.None? <==>
              (p.atId == 1 ==> p.caId == 1) && -10.0 <= p.ta <= 50.0
              && 0.0 <= p.pf <= 100.0 && 0.0 <= p.ps <= 100.0
  {
    if !CategoryGuard(p.atId, p.caId) then Some(NotBosTaurus)
    else if !TemperatureOk(p.ta) then Some(TemperatureOutOfRange)
    else if !ShareOk(p.pf) then Some(ForageShareOutOfRange)
    else if !ShareOk(p.ps) then Some(SupplementShareOutOfRange)
    else None
  }

  /** The shares are checked one by one; nothing asks that they sum to 100. */
  lemma SharesNeedNotSumTo100()
    ensures Validate(Profile(2, 1, 13.0, 30.0, 30.0, 500.0, 550.0, 0.0, 0.0, 0.0, 0.0)).None?
  {
  }

  /** Digestible share of one feed's gross energy, in %. */
  function FeedDigestibility(f: Feed): real
    requires f.eb != 0.0
  {
    f.edr * 100.0 / f.eb
  }

  /** Diet digestibility `dep` (%): the feeds' digestibilities blended by their shares. */
  function Digestibility(pf: real, ps: real, forage: Feed, supplement: Feed): (dep: real)
    requires forage.eb != 0.0 && supplement.eb != 0.0
    ensures pf + ps == 100.0 && FeedDigestibility(forage) == FeedDigestibility(supplement)
            ==> dep == FeedDigestibility(forage)
    ensures ClosedDiet(pf, ps) ==>
              Min(FeedDigestibility(forage), FeedDigestibility(supplement)) <= dep
              <= Max(FeedDigestibility(forage), FeedDigestibility(supplement))
  {
    Weighted(FeedDigestibility(forage), FeedDigestibility(supplement), pf, ps)
  }

  /** REM: net energy available for maintenance per unit of digestible energy consumed. */
  function Rem(dep: real): real
    requires dep != 0.0
  {
    1.123 - 4.092 * 0.001 * dep + 1.126 * 0.00001 * (dep * dep) - 25.4 / dep
  }

  /** REG: net energy available for growth per unit of digestible energy consumed. */
  function Reg(dep: real): real
    requires dep != 0.0
  {
    1.164 - 5.16 * 0.001 * dep + 1.308 * 0.00001 * (dep * dep) - 37.4 / dep
  }

  /** On digestibilities from 40 % to 100 % REM is a proper ratio: positive and below its
      constant term 1.123. */
  lemma RemBounds(dep: real)
    requires 0.0 < dep <= 100.0
    ensures 40.0 <= dep ==> Rem(dep) > 0.0
    ensures Rem(dep) < 1.123
  {
    if 40.0 <= dep {
      assert 25.4 / dep <= 25.4 / 40.0;
      assert dep * dep >= 0.0;
    }
    var x := 1.126 * 0.00001 * (dep * dep) - 4.092 * 0.001 * dep;
    var c := 1.126 * 0.00001 * dep - 4.092 * 0.001;
    assert x == dep * c;
    assert c < 0.0;
    PositiveTimesNegative(dep, c);
    assert 25.4 / dep > 0.0;
  }

  /** On digestibilities from 50 % to 100 % REG is positive, and it stays below its constant
      term 1.164 everywhere up to 100 %. */
  lemma RegBounds(dep: real)
    requires 0.0 < dep <= 100.0
    ensures 50.0 <= dep ==> Reg(dep) > 0.0
    ensures Reg(dep) < 1.164
  {
    if 50.0 <= dep <= 75.0 {
      assert 37.4 / dep <= 37.4 / 50.0;
      assert 1.308 * 0.00001 * (dep * dep) >= 1.308 * 0.00001 * 2500.0;
    } else if 75.0 <= dep {
      assert 37.4 / dep <= 37.4 / 75.0;
      assert 1.308 * 0.00001 * (dep * dep) >= 1.308 * 0.00001 * 5625.0;
    }
    var x := 1.308 * 0.00001 * (dep * dep) - 5.16 * 0.001 * dep;
    var c := 1.308 * 0.00001 * dep - 5.16 * 0.001;
    assert x == dep * c;
    assert c < 0.0;
    PositiveTimesNegative(dep, c);
    assert 37.4 / dep > 0.0;
  }

  /** Over the whole digestibility scale, growth uses digestible energy less efficiently than
      maintenance does. */
  lemma RegBelowRem(dep: real)
    requires 0.0 < dep <= 100.0
    ensures Reg(dep) < Rem(dep)
  {
    var diff := Rem(dep) - Reg(dep);
    assert diff == -0.041 + 0.001068 * dep - 0.00000182 * (dep * dep) + 12.0 / dep;
    assert 0.001068 * dep - 0.00000182 * (dep * dep) == dep * (0.001068 - 0.00000182 * dep);
    assert 12.0 / dep >= 0.12;
  }

  /** Net energy for maintenance, weight^0.75 (a1 + 0.0029288 (tc - ta)), the factor that
      maintenance, activity, pregnancy and work share. */
  function MaintenanceBase(pw: Powers, weight: real, cat: Category, ta: real): real
  {
    pw.p075(weight) * (cat.a1 + 0.0029288 * (cat.tc - ta))
  }

  /** Gross energy that supplies net energy `ne`: ne / rem / (dep / 100). */
  function ToGross(ne: real, rem: real, dep: real): real
    requires rem != 0.0 && dep != 0.0
  {
    ne / rem / (dep / 100.0)
  }

  /** Gross energy for maintenance, GEm (MJ/day). */
  function Maintenance(pw: Powers, weight: real, cat: Category, ta: real, rem: real, dep: real): (em: real)
    requires rem != 0.0 && dep != 0.0
    ensures (ValidPowers(pw) && weight > 0.0 && cat.a1 + 0.0029288 * (cat.tc - ta) > 0.0
             && rem > 0.0 && dep > 0.0) ==> em > 0.0
  {
    ToGross(MaintenanceBase(pw, weight, cat, ta), rem, dep)
  }

  /** Below the comfort temperature the maintenance requirement grows as it gets colder. */
  lemma {:induction false} MaintenanceRisesWhenColder(
    pw: Powers, weight: real, cat: Category, colder: real, warmer: real, rem: real, dep: real)
    requires ValidPowers(pw) && weight > 0.0 && rem > 0.0 && dep > 0.0
    requires colder <= warmer
    ensures Maintenance(pw, weight, cat, colder, rem, dep) >= Maintenance(pw, weight, cat, warmer, rem, dep)
  {
    var w := pw.p075(weight);
    assert w > 0.0;
    var bc, bw := cat.a1 + 0.0029288 * (cat.tc - colder), cat.a1 + 0.0029288 * (cat.tc - warmer);
    assert bc >= bw;
    assert w * bc >= w * bw;
    var k := rem * (dep / 100.0);
    assert k > 0.0;
    assert ToGross(w * bc, rem, dep) == w * bc / k;
    assert ToGross(w * bw, rem, dep) == w * bw / k;
    assert w * bc - w * bw == w * (bc - bw) >= 0.0;
    assert w * bc / k - w * bw / k == (w * bc - w * bw) / k >= 0.0;
  }

  /** Gross energy for activity, GEa: the activity coefficient times maintenance. */
  function Activity(pw: Powers, weight: real, cat: Category, ta: real, ca: real, rem: real, dep: real): (ea: real)
    requires rem != 0.0 && dep != 0.0
    ensures ea == ca * Maintenance(pw, weight, cat, ta, rem, dep)
  {
    ToGross(MaintenanceBase(pw, weight, cat, ta) * ca, rem, dep)
  }

  /** Gross energy for pregnancy, GEp: the pregnancy coefficient times maintenance. */
  function Pregnancy(pw: Powers, weight: real, cat: Category, ta: real, cp: real, rem: real, dep: real): (ep: real)
    requires rem != 0.0 && dep != 0.0
    ensures ep == cp * Maintenance(pw, weight, cat, ta, rem, dep)
  {
    ToGross(MaintenanceBase(pw, weight, cat, ta) * cp, rem, dep)
  }

  /** Gross energy for work, GEw: a tenth of the daily work hours times maintenance. */
  function Work(pw: Powers, weight: real, cat: Category, ta: real, ht: real, rem: real, dep: real): (ew: real)
    requires rem != 0.0 && dep != 0.0
    ensures ew == 0.1 * ht * Maintenance(pw, weight, cat, ta, rem, dep)
    ensures ht == 0.0 ==> ew == 0.0
  {
    ToGross(MaintenanceBase(pw, weight, cat, ta) * 0.1 * ht, rem, dep)
  }

  /** Gross energy for lactation, GEl, from the daily milk yield and its fat content. */
  function Breastfeeding(milk: real, grease: real, rem: real, dep: real): (el: real)
    requires rem != 0.0 && dep != 0.0
    ensures milk == 0.0 ==> el == 0.0
    ensures milk > 0.0 && grease >= 0.0 && rem > 0.0 && dep > 0.0 ==> el > 0.0
  {
    var daily := milk / 365.0;
    var k := rem * (dep / 100.0);
    assert (daily * (1.47 + 0.4 * grease)) / rem / (dep / 100.0) == daily * (1.47 + 0.4 * grease) / k;
    daily * (1.47 + 0.4 * grease) / rem / (dep / 100.0)
  }

  /** Gross energy for growth, GEg, from the weight relative to the mature weight and the
      daily weight gain. */
  function Grow(pw: Powers, weight: real, adultW: real, fcs: real, gan: real, reg: real, dep: real): (eg: real)
    requires fcs * adultW != 0.0 && reg != 0.0 && dep != 0.0
    ensures ValidPowers(pw) && gan == 0.0 ==> eg == 0.0
    ensures ValidPowers(pw) && weight / (fcs * adultW) > 0.0 && gan > 0.0 && reg > 0.0 && dep > 0.0
            ==> eg > 0.0
  {
    var g := 22.02 * pw.p075(weight / (fcs * adultW)) * pw.p1097(gan);
    assert ValidPowers(pw) && weight / (fcs * adultW) > 0.0 && gan > 0.0 ==> g > 0.0 by {
      if ValidPowers(pw) && weight / (fcs * adultW) > 0.0 && gan > 0.0 {
        assert pw.p075(weight / (fcs * adultW)) > 0.0 && pw.p1097(gan) > 0.0;
      }
    }
    assert reg > 0.0 && dep > 0.0 ==> g / reg / (dep / 100.0) == g / (reg * (dep / 100.0));
    g / reg / (dep / 100.0)
  }

  /** Gross energy a suckling calf takes in with milk (MJ/day): (44.01 fat + 163.56) kcal per
      pound, converted to MJ per kg. */
  function MilkEnergy(milk: real, grease: real): (me: real)
    ensures milk == 0.0 ==> me == 0.0
    ensures milk > 0.0 && grease >= 0.0 ==> me > 0.0
  {
    (milk / 365.0) * ((44.01 * grease + 163.56) * 4.184 / 0.4536) * 0.001
  }

  /** The components one animal's requirement is assembled from (MJ/day). */
  datatype Energies = Energies(
    maintenance: real, activity: real, lactation: real, pregnancy: real,
    work: real, growth: real, milkIntake: real)

  /** The component labels; `MilkCredit` is the calf's milk intake, which is subtracted. */
  datatype Component = Maint | Act | Lact | Preg | WorkC | Growth | MilkCredit

  /** Which components each animal type sums into its total requirement. */
  function Summed(t: AnimalType): set<Component>
  {
    match t
    case HighYieldDairy | LowYieldDairy | BeefCow => {Maint, Act, Lact, Preg, WorkC}
    case BreedingBull => {Maint, Act, WorkC}
    case PreWeanedCalf => {Maint, Act, WorkC, Growth, MilkCredit}
    case ReplacementHeifer | Feedlot => {Maint, Act, WorkC, Growth}
  }

  /** A component's signed contribution to a total. */
  function Term(c: Component, e: Energies): real
  {
    match c
    case Maint => e.maintenance
    case Act => e.activity
    case Lact => e.lactation
    case Preg => e.pregnancy
    case WorkC => e.work
    case Growth => e.growth
    case MilkCredit => -e.milkIntake
  }

  /** Every component, in the order the `ne_*` methods add them. */
  const ComponentOrder: seq<Component> := [Maint, Act, Lact, Preg, WorkC, Growth, MilkCredit]

  /** The sum of the terms of the components of `cs` that belong to `s`. */
  function SumTerms(cs: seq<Component>, s: set<Component>, e: Energies): real
  {
    if |cs| == 0 then 0.0
    else (if cs[0] in s then Term(cs[0], e) else 0.0) + SumTerms(cs[1..], s, e)
  }

  /** The term of `c` when `s` includes it, else nothing. */
  function Included(c: Component, s: set<Component>, e: Energies): real
  {
    if c in s then Term(c, e) else 0.0
  }

  /** The ordered sum, written out component by component. */
  lemma SumInOrder(s: set<Component>, e: Energies)
    ensures SumTerms(ComponentOrder, s, e) ==
            Included(Maint, s, e) + Included(Act, s, e) + Included(Lact, s, e) + Included(Preg, s, e)
            + Included(WorkC, s, e) + Included(Growth, s, e) + Included(MilkCredit, s, e)
  {
    var c7: seq<Component> := [];
    var c6 := [MilkCredit];
    var c5 := [Growth] + c6;
    var c4 := [WorkC] + c5;
    var c3 := [Preg] + c4;
    var c2 := [Lact] + c3;
    var c1 := [Act] + c2;
    assert c6[1..] == c7 && c5[1..] == c6 && c4[1..] == c5 && c3[1..] == c4 && c2[1..] == c3 && c1[1..] == c2;
    assert ComponentOrder == [Maint] + c1 && ([Maint] + c1)[1..] == c1;
    assert SumTerms(c6, s, e) == Included(MilkCredit, s, e);
    assert SumTerms(c5, s, e) == Included(Growth, s, e) + Included(MilkCredit, s, e);
    assert SumTerms(c4, s, e) == Included(WorkC, s, e) + SumTerms(c5, s, e);
    assert SumTerms(c3, s, e) == Included(Preg, s, e) + SumTerms(c4, s, e);
    assert SumTerms(c2, s, e) == Included(Lact, s, e) + SumTerms(c3, s, e);
    assert SumTerms(c1, s, e) == Included(Act, s, e) + SumTerms(c2, s, e);
  }

  /** Total gross energy of one animal type (the `ne_*` methods, MJ/day): the sum of the terms
      its type includes. */
  function TotalGrossEnergy(t: AnimalType, e: Energies): (tge: real)
    ensures t.HighYieldDairy? || t.LowYieldDairy? || t.BeefCow? ==>
              tge == e.maintenance + e.activity + e.lactation + e.pregnancy + e.work
    ensures t.BreedingBull? ==> tge == e.maintenance + e.activity + e.work
    ensures t.PreWeanedCalf? ==>
              tge == e.maintenance + e.activity + e.work + e.growth - e.milkIntake
    ensures t.ReplacementHeifer? || t.Feedlot? ==>
              tge == e.maintenance + e.activity + e.work + e.growth
  {
    SumInOrder(Summed(t), e);
    SumTerms(ComponentOrder, Summed(t), e)
  }

  /** A sum depends only on the terms of the components it includes. */
  lemma {:induction false} SumTermsReadsOnly(cs: seq<Component>, s: set<Component>, e1: Energies, e2: Energies)
    requires forall c :: c in s ==> Term(c, e1) == Term(c, e2)
    ensures SumTerms(cs, s, e1) == SumTerms(cs, s, e2)
  {
    if |cs| > 0 {
      SumTermsReadsOnly(cs[1..], s, e1, e2);
    }
  }

  /** The total reads only the components its type sums: two component sets that agree on
      those give the same total, whatever the others hold. */
  lemma TotalReadsOnlySummed(t: AnimalType, e1: Energies, e2: Energies)
    requires forall c :: c in Summed(t) ==> Term(c, e1) == Term(c, e2)
    ensures TotalGrossEnergy(t, e1) == TotalGrossEnergy(t, e2)
  {
    SumTermsReadsOnly(ComponentOrder, Summed(t), e1, e2);
  }

  /** The calf's milk credit is a real deduction: with milk > 0 its requirement is strictly
      below maintenance + activity + work + growth. */
  lemma CalfMilkCreditLowersEnergy(e: Energies, milk: real, grease: real)
    requires milk > 0.0 && grease >= 0.0 && e.milkIntake == MilkEnergy(milk, grease)
    ensures TotalGrossEnergy(PreWeanedCalf, e) < e.maintenance + e.activity + e.work + e.growth
  {
  }

  /** `energy_selection`: the total for `at_id`, or nothing when the id is outside 1..7. */
  function EnergySelection(atId: int, e: Energies): (ne: Option<real>)
    ensures ne.Some? <==> 1 <= atId <= 7
    ensures atId == 5 ==> ne == Some(e.maintenance + e.activity + e.work + e.growth - e.milkIntake)
    ensures ne.Some? ==> ne.value == TotalGrossEnergy(AnimalTypeOf(atId).value, e)
  {
    match AnimalTypeOf(atId)
    case None => None
    case Some(t) => Some(TotalGrossEnergy(t, e))
  }

  /** Types whose requirement includes growth (and so reads fcs, adult weight and REG). */
  predicate Grows(t: AnimalType)
  {
    t.PreWeanedCalf? || t.ReplacementHeifer? || t.Feedlot?
  }

  /** The six components and the milk credit of one animal. Growth is evaluated only for types
      that sum it, as `energy_selection` calls `grow` only for those; for the others the
      field holds 0 and is never read. */
  function Components(t: AnimalType, p: Profile, lk: Lookups, pw: Powers, reg: real, rem: real, dep: real): (e: Energies)
    requires rem != 0.0 && dep != 0.0
    requires Grows(t) ==> lk.fcs * p.adultW != 0.0 && reg != 0.0
    ensures e.activity == lk.ca * e.maintenance && e.pregnancy == lk.cp * e.maintenance
    ensures e.work == 0.1 * p.ht * e.maintenance
    ensures Grows(t) && ValidPowers(pw) && p.gan == 0.0 ==> e.growth == 0.0
  {
    Energies(
      Maintenance(pw, p.weight, lk.cat, p.ta, rem, dep),
      Activity(pw, p.weight, lk.cat, p.ta, lk.ca, rem, dep),
      Breastfeeding(p.milk, p.grease, rem, dep),
      Pregnancy(pw, p.weight, lk.cat, p.ta, lk.cp, rem, dep),
      Work(pw, p.weight, lk.cat, p.ta, p.ht, rem, dep),
      if Grows(t) then Grow(pw, p.weight, p.adultW, lk.fcs, p.gan, reg, dep) else 0.0,
      MilkEnergy(p.milk, p.grease))
  }

  /** The divisions that can fail while the constructor runs. */
  datatype Divisor =
    | FeedGrossEnergy     // ebf or ebs in d_ep
    | DigestibilityZero   // dep in rem_rel, reg_rel and every component
    | RemZero             // rem in maintenance, activity, ...
    | GrowthWeightZero    // fcs * adult_w in grow
    | RegZero             // reg in grow

  datatype Failure = Invalid(reason: InitError) | ZeroDivision(at: Divisor)

  /** The attributes `GrossEnergy.__init__` derives; `ne` is None when `at_id` is outside 1..7. */
  datatype State = State(dep: real, reg: real, rem: real, ca: real, cp: real, ne: Option<real>)

  /** Whether every division the constructor performs has a non-zero divisor. */
  predicate DivisionsDefined(p: Profile, lk: Lookups)
  {
    && lk.forage.eb != 0.0 && lk.supplement.eb != 0.0
    && Digestibility(p.pf, p.ps, lk.forage, lk.supplement) != 0.0
    && (1 <= p.atId <= 7 ==>
          && Rem(Digestibility(p.pf, p.ps, lk.forage, lk.supplement)) != 0.0
          && (5 <= p.atId <= 7 ==>
                lk.fcs * p.adultW != 0.0 && Reg(Digestibility(p.pf, p.ps, lk.forage, lk.supplement)) != 0.0))
  }

  /** `GrossEnergy.__init__`: validation, then dep, reg, rem and the total requirement. */
  function Construct(p: Profile, lk: Lookups, pw: Powers): (r: Result<State, Failure>)
    ensures r.Err? && r.error.Invalid? <==> Validate(p).Some?
    ensures r.Err? && r.error.Invalid? ==> r.error.reason == Validate(p).value
    ensures r.Ok? <==> Validate(p).None? && DivisionsDefined(p, lk)
    ensures r.Ok? ==> r.value.dep == Digestibility(p.pf, p.ps, lk.forage, lk.supplement)
    ensures r.Ok? ==> r.value.reg == Reg(r.value.dep) && r.value.rem == Rem(r.value.dep)
    ensures r.Ok? ==> r.value.ca == lk.ca && r.value.cp == lk.cp
    ensures r.Ok? ==> (r.value.ne.Some? <==> 1 <= p.atId <= 7)
    ensures r.Ok? && 1 <= p.atId <= 7 ==>
              r.value.ne == EnergySelection(p.atId,
                Components(AnimalTypeOf(p.atId).value, p, lk, pw, r.value.reg, r.value.rem, r.value.dep))
    ensures r.Ok? && p.atId == 5 && p.milk > 0.0 && p.grease >= 0.0 ==>
              var e := Components(PreWeanedCalf, p, lk, pw, r.value.reg, r.value.rem, r.value.dep);
              r.value.ne.value < e.maintenance + e.activity + e.work + e.growth
  {
    if Validate(p).Some? then Err(Invalid(Validate(p).value))
    else if lk.forage.eb == 0.0 || lk.supplement.eb == 0.0 then Err(ZeroDivision(FeedGrossEnergy))
    else
      var dep := Digestibility(p.pf, p.ps, lk.forage, lk.supplement);
      if dep == 0.0 then Err(ZeroDivision(DigestibilityZero))
      else
        var reg := Reg(dep);
        var rem := Rem(dep);
        match AnimalTypeOf(p.atId)
        case None => Ok(State(dep, reg, rem, lk.ca, lk.cp, None))
        case Some(t) =>
          if rem == 0.0 then Err(ZeroDivision(RemZero))
          else if Grows(t) && lk.fcs * p.adultW == 0.0 then Err(ZeroDivision(GrowthWeightZero))
          else if Grows(t) && reg == 0.0 then Err(ZeroDivision(RegZero))
          else
            var e := Components(t, p, lk, pw, reg, rem, dep);
            Ok(State(dep, reg, rem, lk.ca, lk.cp, EnergySelection(p.atId, e)))
  }
}
