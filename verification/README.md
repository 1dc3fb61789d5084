# afolu livestock-emission engine in Dafny

This project models the single-animal engine of afolu. The engine estimates cattle methane emission factors with the Tier-2 method of the 2006 IPCC Guidelines for National Greenhouse Gas Inventories, Volume 4, Chapter 10. It also models the two integer rotation counters of the forest-plantation module. Every formula is a pure function over exact `real`s, and the proofs are about those functions.

Modules, following the Python classes:

- `Outcomes`: `Option` and `Result`. Python `assert`s become `Result` errors. Divisions by zero become `Result` errors in the `Construct` functions, which model the constructors. The formula functions they call (`Enteric.CmsPv`, `Enteric.Ym`, `Enteric.Eqsbw`, the potential intakes on `enmf`, and others) instead require a non-zero divisor.
- `Coefficients`: the resolved lookup records and the share-weighted blend that every diet figure uses.
  - The records are the animal category's `a1, tc, rcms, bi` and the feed's `edr, eb, fdn, fda`, plus its ash and crude protein.
  - `Powers` carries the fractional powers `x^0.75` and `x^1.097` as parameters. `ValidPowers` requires them to map 0 to 0 and positives to positives.
- `GrossEnergy` models `GrossEnergy` (src/enteric_fermentation/gross_energy.py):
  - the constructor's range checks;
  - diet digestibility;
  - the REM and REG polynomials (IPCC Eq. 10.14–10.16, section 10.2.2);
  - the six energy components and the calf's milk-energy credit;
  - the `at_id` dispatch over the seven animal types.
- `Enteric` models the current `FactorEF` (src/enteric_fermentation/emission_factor_ef.py):
  - the fibre and energy blends;
  - dry-matter intake and its forage/supplement split;
  - Ym in its additive form over `tge`;
  - fat-corrected milk, `ajl`, `eqsbw` and `bfaf`;
  - the potential-intake formulas;
  - the per-type emission factor (IPCC Eq. 10.21, with 55.65 MJ/kg CH4).
- `EntericLegacy` models the older `FactorEF` (enteric_fermentation/emission_factor_ef.py). Its Ym is a nested form over `ne`, and its `gbvap_ef` carries five range assertions. The formulas that are the same in both revisions are defined once, in `Enteric`.
- `Manure` models `FeGe` (src/manure_management/manure_mgmt.py):
  - the Bo table;
  - the ash and protein blends;
  - urinary energy and volatile solids (IPCC Eq. 10.24);
  - the manure factor (IPCC Eq. 10.23, with 0.67 kg/m3 and 18.45 MJ/kg).

  The constructor runs in dependency order, and the feeds' ash and protein are inputs.
- `InitOrder` is a small model of attribute availability while a constructor runs: a read of `self.x` before `x` is assigned raises AttributeError. It replays the constructors in the order they are written. This shows the reads of attributes that are never, or not yet, assigned (see "Findings").
- `Forest` models `years_calc` and `turns` (src/land_use/forest_plant.py).

Inputs that the source reads from the database or from other code are parameters:
- the category, feed, activity, pregnancy and sexual-condition lookups;
- the feeds' ash and protein columns;
- the diet's maintenance energy `enmf`;
- the production system `sp`.

Where the code and its documentation differ, the model follows the code, with these exceptions:
- The category guard for high-yield dairy cows accepts any odd `ca_id` as written (src/enteric_fermentation/gross_energy.py:37). `GrossEnergy.Validate` and `GrossEnergy.Construct` use the corrected guard, which accepts only category 1. `GrossEnergy.GuardAsWrittenAcceptsOddCategories` models the code as written (see "Findings").
- The current `FactorEF` reads the total energy as `tge` (src/enteric_fermentation/emission_factor_ef.py:150), which nothing assigns. `Enteric.Construct` reads the `ne` that `GrossEnergy` stores instead; `InitOrder.FactorEfReadsUnsetTge` models the code as written (see "Findings").
- `FeGe` runs `sv_calc` before `eu`, `cen_p` and `pcp` are assigned (src/manure_management/manure_mgmt.py:15-18), reads `tge` for the total energy, and reads feed ash and protein columns that the feed lookup does not return. `Manure.Construct` runs in dependency order, reads `ne`, and takes the feeds' ash and protein as inputs; `InitOrder.FeGeReadsEuBeforeSettingIt` and `InitOrder.FeGeLacksFeedColumns` model the code as written (see "Findings").
- No constructor assigns `enmf` (src/enteric_fermentation/emission_factor_ef.py:191). The potential intakes that read it take it as an input; `InitOrder.EnmfNeverSet` models the code as written (see "Findings").

Where the code behaves in a way a reader might not expect, the model follows the code:
- The constructor checks that forage and supplement shares each lie in [0, 100]. It does not check that they sum to 100; see `GrossEnergy.SharesNeedNotSumTo100`.
- `years_calc` returns 1 for a plantation established in `year_max`. The range it counts is otherwise half-open, so that year is not in it; `Forest.YearsCalcCountsYearsFrom` states this exactly.
- `turns` counts distinct rotation years, because the Python builds a `set`. With a rotation length of 0, the count is therefore 0 or 1; see `Forest.ZeroRotationLength`.

## Model

| member | source | states |
|---|---|---|
| `Coefficients.BlendIdentical` | src/enteric_fermentation/gross_energy.py:71 | blending one value with itself, with shares summing to 100, gives that value back |
| `Coefficients.BlendBetween` | src/enteric_fermentation/gross_energy.py:71 | with shares in [0, 100] summing to 100, a blend lies between the two blended values |
| `Coefficients.Weighted` | src/enteric_fermentation/gross_energy.py:71 | the share-weighted blend of forage and supplement is idempotent for identical feeds and bounded by the two feeds |
| `GrossEnergy.AnimalTypeOf` | src/enteric_fermentation/gross_energy.py:215-228 | an animal type exists exactly for `at_id` 1..7, and its id is the `at_id` it was chosen from |
| `GrossEnergy.TypeIdRoundTrip` | src/enteric_fermentation/gross_energy.py:215-228 | every animal type is recovered from its own id |
| `GrossEnergy.GuardAsWrittenAcceptsOddCategories` | src/enteric_fermentation/gross_energy.py:36-37 | the category guard as written accepts, for `at_id` 1, exactly the odd `ca_id`s; `ca_id` 3 passes it although it is not category 1 |
| `GrossEnergy.Validate` | src/enteric_fermentation/gross_energy.py:36-43 | the corrected constructor fails, on the first violated check in source order, iff `at_id` 1 has a category other than 1, or the temperature is outside [-10, 50], or either share is outside [0, 100] |
| `GrossEnergy.SharesNeedNotSumTo100` | src/enteric_fermentation/gross_energy.py:40-43 | a 30 % forage and 30 % supplement diet passes validation: the shares are not required to sum to 100 |
| `GrossEnergy.Digestibility` | src/enteric_fermentation/gross_energy.py:66-72 | digestibility of two identical feeds is that feed's own 100 edr/eb; for a closed diet it lies between the two feeds' digestibilities |
| `GrossEnergy.RemBounds` | src/enteric_fermentation/gross_energy.py:74-82 | for digestibility in (0, 100], `Rem` (`rem_rel`) stays below 1.123 and is positive from 40 % on |
| `GrossEnergy.RegBounds` | src/enteric_fermentation/gross_energy.py:84-92 | for digestibility in (0, 100], `Reg` (`reg_rel`) stays below 1.164 and is positive from 50 % on |
| `GrossEnergy.RegBelowRem` | src/enteric_fermentation/gross_energy.py:74-92 | for digestibility in (0, 100], REG is strictly below REM |
| `GrossEnergy.Maintenance` | src/enteric_fermentation/gross_energy.py:94-100 | the maintenance requirement is positive for positive weight, REM, digestibility and temperature-adjusted a1 |
| `GrossEnergy.MaintenanceRisesWhenColder` | src/enteric_fermentation/gross_energy.py:94-100 | a colder ambient temperature never lowers the maintenance requirement |
| `GrossEnergy.Activity` | src/enteric_fermentation/gross_energy.py:102-109 | the activity requirement, computed from the net-energy expression, equals the activity coefficient times the maintenance requirement |
| `GrossEnergy.Pregnancy` | src/enteric_fermentation/gross_energy.py:128-135 | the pregnancy requirement equals the pregnancy coefficient times the maintenance requirement |
| `GrossEnergy.Work` | src/enteric_fermentation/gross_energy.py:119-126 | the work requirement equals 0.1 times the work hours times maintenance, and is 0 without work |
| `GrossEnergy.Breastfeeding` | src/enteric_fermentation/gross_energy.py:111-117 | lactation energy is 0 without milk and positive with milk, non-negative fat, positive REM and digestibility |
| `GrossEnergy.Grow` | src/enteric_fermentation/gross_energy.py:137-144 | growth energy is 0 without weight gain and positive for positive gain, relative weight, REG and digestibility |
| `GrossEnergy.MilkEnergy` | src/enteric_fermentation/gross_energy.py:146-152 | the calf's milk-energy intake is 0 without milk and positive with milk and non-negative fat |
| `GrossEnergy.SumInOrder` | src/enteric_fermentation/gross_energy.py:154-208 | the ordered sum of included components is the sum of each component's term when included |
| `GrossEnergy.TotalGrossEnergy` | src/enteric_fermentation/gross_energy.py:154-208 | summing the components a type includes gives m+a+l+p+w for types 1–3, m+a+w for bulls, m+a+w+g−me for calves and m+a+w+g for heifers and feedlot cattle |
| `GrossEnergy.SumTermsReadsOnly` | src/enteric_fermentation/gross_energy.py:154-208 | a sum of included components does not depend on the components it leaves out |
| `GrossEnergy.TotalReadsOnlySummed` | src/enteric_fermentation/gross_energy.py:154-208 | a type's total does not depend on the components that type does not sum |
| `GrossEnergy.CalfMilkCreditLowersEnergy` | src/enteric_fermentation/gross_energy.py:146-192 | with milk yield above 0, the calf's requirement is strictly below maintenance + activity + work + growth |
| `GrossEnergy.EnergySelection` | src/enteric_fermentation/gross_energy.py:210-228 | a total exists exactly for `at_id` 1..7; it is the chosen type's total, and for `at_id` 5 it is m+a+w+g−me |
| `GrossEnergy.Components` | src/enteric_fermentation/gross_energy.py:94-144 | the assembled components keep activity, pregnancy and work proportional to maintenance, and growth is 0 without weight gain |
| `GrossEnergy.Construct` | src/enteric_fermentation/gross_energy.py:34-64 | the corrected constructor fails with a validation error iff a range check fails, carrying the first failing check's reason, and succeeds iff the checks pass and no divisor is zero. On success: digestibility is the diet blend; `reg` and `rem` are the REG and REM of that digestibility; `ca` and `cp` are the looked-up coefficients. A total `ne` exists iff `at_id` is in 1..7, and it is `energy_selection` over the components built from those values. For a calf with milk, `ne` is strictly below maintenance + activity + work + growth |
| `Enteric.Fda` | src/enteric_fermentation/emission_factor_ef.py:28-34 | acid-detergent fibre of the diet is idempotent for identical feeds and bounded by the feeds for closed diets |
| `Enteric.Fdn` | src/enteric_fermentation/emission_factor_ef.py:36-42 | neutral-detergent fibre of the diet is idempotent for identical feeds and bounded by the feeds for closed diets |
| `Enteric.Gepd` | src/enteric_fermentation/emission_factor_ef.py:73-79 | gross energy of the diet is idempotent for identical feeds and bounded by the feeds for closed diets |
| `Enteric.Cms` | src/enteric_fermentation/emission_factor_ef.py:145-151 | intake times diet energy gives back the total energy, and intake is positive when both are |
| `Enteric.CmsPv` | src/enteric_fermentation/emission_factor_ef.py:153-159 | intake per kg of live weight times the weight gives back the intake |
| `Enteric.Cmcf` | src/enteric_fermentation/emission_factor_ef.py:161-167 | forage intake lies between 0 and total intake for a share in [0, 100] |
| `Enteric.Cmcs` | src/enteric_fermentation/emission_factor_ef.py:169-175 | supplement intake lies between 0 and total intake for a share in [0, 100] |
| `Enteric.IntakeSplit` | src/enteric_fermentation/emission_factor_ef.py:161-175 | with shares summing to 100, forage plus supplement intake is the total intake |
| `Enteric.Ym` | src/enteric_fermentation/emission_factor_ef.py:44-51 | Ym times the total energy is 100 times the methane polynomial `MethaneTerm` (the numerator of `ym_calc`) in intake and fibre |
| `Enteric.GrossEnergyCancels` | src/enteric_fermentation/emission_factor_ef.py:44-95 | with the additive Ym the total energy cancels: the emission factor is the methane polynomial times the days over 55.65 |
| `Enteric.Fcm` | src/enteric_fermentation/emission_factor_ef.py:81-87 | fat-corrected milk is the daily milk times (0.4324 + 0.16216 fat), and is non-negative for non-negative inputs |
| `Enteric.FcmAtStandardFat` | src/enteric_fermentation/emission_factor_ef.py:81-87 | the correction is to 3.5 % fat: at that fat content the corrected yield is 0.99996 times the daily milk |
| `Enteric.FcmRisesWithFat` | src/enteric_fermentation/emission_factor_ef.py:81-87 | for a positive yield the corrected milk rises strictly with fat, by 0.16216 of the daily milk per point |
| `Enteric.Ajl` | src/enteric_fermentation/emission_factor_ef.py:22-25 | the lactation adjustment is 1.7 iff the yield is at least 11.5 L/day (4197.5 L/year), and 0 iff below |
| `Enteric.Eqsbw` | src/enteric_fermentation/emission_factor_ef.py:53-59 | the 0.96 factors cancel: equivalent weight is 400 weight/adult weight, and 400 at adult weight |
| `Enteric.Bfaf` | src/enteric_fermentation/emission_factor_ef.py:61-71 | the body-fat adjustment is 1 at or below 350 kg |
| `Enteric.BfafClosedForm` | src/enteric_fermentation/emission_factor_ef.py:61-71 | above 350 kg, with the equivalent weight of the same animal, the adjustment is the polynomial in weight and adult weight with the 0.96 factors removed |
| `Enteric.TempFactor` | src/enteric_fermentation/emission_factor_ef.py:182-183 | the temperature factor is 1 at the comfort temperature and at most 1 above it |
| `Enteric.Cpmsgbvap` | src/enteric_fermentation/emission_factor_ef.py:177-184 | at the comfort temperature the high-yield cow's potential intake is 0.0185 weight + 0.305 fcm |
| `Enteric.Cpmsgbtfr` | src/enteric_fermentation/emission_factor_ef.py:207-213 | at the comfort temperature the bull's potential intake is 3.83 + 0.0143·0.96 weight |
| `Enteric.TempScaledFallsWithHeat` | src/enteric_fermentation/emission_factor_ef.py:182-183 | a non-negative base scaled by the temperature factor does not rise with warmer weather |
| `Enteric.PotentialIntakeFallsWithHeat` | src/enteric_fermentation/emission_factor_ef.py:177-213 | the high-yield cow's and the bull's potential intakes do not rise with warmer weather |
| `Enteric.Cpmsgbvbp` | src/enteric_fermentation/emission_factor_ef.py:186-194 | at the comfort temperature the low-yield cow's potential intake is the unscaled energy polynomial plus 0.305 fcm plus `ajl` |
| `Enteric.LactationAdjustmentAddsIntake` | src/enteric_fermentation/emission_factor_ef.py:186-194 | the 1.7 lactation adjustment adds exactly 1.7 times the temperature factor to the low-yield cow's intake |
| `Enteric.Cpmsgbpc` | src/enteric_fermentation/emission_factor_ef.py:196-205 | without milk, at the comfort temperature, the beef cow's potential intake is the energy term alone |
| `Enteric.MilkAddsUnscaledIntake` | src/enteric_fermentation/emission_factor_ef.py:196-205 | at any temperature, milk adds exactly 0.2·milk/365 to the beef cow's potential intake, outside the temperature adjustment |
| `Enteric.Cpmsgbtp` | src/enteric_fermentation/emission_factor_ef.py:215-224 | the calf's potential intake is 0 when the category's `bi` is 0 |
| `Enteric.GrowingIntakesScaleWithBi` | src/enteric_fermentation/emission_factor_ef.py:215-234 | the calf's and the heifer's potential intakes are proportional to the category's `bi`: scaling `bi` by c scales each intake by c |
| `Enteric.Cpmsgbtr` | src/enteric_fermentation/emission_factor_ef.py:226-234 | the heifer's potential intake is 0 when the category's `bi` is 0 |
| `Enteric.Cpmsgbge` | src/enteric_fermentation/emission_factor_ef.py:236-244 | feedlot cattle's potential intake equals the heifer's |
| `Enteric.CalfIntakeBelowHeifer` | src/enteric_fermentation/emission_factor_ef.py:215-234 | with positive diet energy and adjustments, a calf's potential intake is strictly below a heifer's of the same weight |
| `Enteric.EmissionFactor` | src/enteric_fermentation/emission_factor_ef.py:89-143 | the enteric factor is non-negative for non-negative energy and Ym, and positive when both are positive |
| `Enteric.CalfEmissionScaling` | src/enteric_fermentation/emission_factor_ef.py:89-143 | the six non-calf types share one factor, and the calf's is 273.75/365 of it: `Days` gives 273.75 days for calves and 365 for every other type |
| `Enteric.Construct` | src/enteric_fermentation/emission_factor_ef.py:11-26 | construction succeeds iff a total energy exists and the diet energy, the total and the adult weight are non-zero. Then `gepd`, `fda` and `fdn` are the diet blends, intake times diet energy is the total, Ym is the additive form over those values, and `fcm`, `ajl` and `eqsbw` are those of the profile. Every type's factor is the methane polynomial times its days over 55.65 |
| `EntericLegacy.YmNested` | enteric_fermentation/emission_factor_ef.py:37-46 | nested Ym times `ne` is 3.41 + 0.52 cms − 99.6 (cms fda/100 + 1.15 cms fdn/100) |
| `EntericLegacy.FibreFreeYmRatio` | enteric_fermentation/emission_factor_ef.py:37-46 | on a fibre-free diet and the same total energy, the current Ym is exactly 100 times the older one |
| `EntericLegacy.YmRevisionsDisagree` | enteric_fermentation/emission_factor_ef.py:37-46 | with fibre the revisions are not related by a factor 100: 293.4 against −95.67 at cms 1, fda 100, fdn 0 |
| `EntericLegacy.GbvapEf` | enteric_fermentation/emission_factor_ef.py:84-98 | the high-yield factor fails on the first violated range (weight, climate, milk, fat, breed, in that order) and succeeds iff all hold |
| `EntericLegacy.EmissionFactorOf` | enteric_fermentation/emission_factor_ef.py:84-146 | only the high-yield method can fail; every success is the shared per-type factor over `ne` |
| `EntericLegacy.DairyWeightFloor` | enteric_fermentation/emission_factor_ef.py:89-96 | with the other ranges met, a 200 kg cow is refused for its weight and a 500 kg cow is accepted |
| `EntericLegacy.Construct` | enteric_fermentation/emission_factor_ef.py:7-19 | construction succeeds iff a total exists and the diet energy, total and adult weight are non-zero. Then intake times diet energy is `ne`, Ym is the nested form over the diet's fibre blends, and `fcm`, `ajl` and `eqsbw` are those of the profile. On a fibre-free closed diet, Ym times `ne` is 3.41 + 0.52 cms |
| `Manure.Bo` | src/manure_management/manure_mgmt.py:55-67 | Bo is 0.24 iff type 1 in system 1, 0.18 iff another type in system 1, and 0.13 iff the system is not 1 |
| `Manure.CenP` | src/manure_management/manure_mgmt.py:39-45 | ash content of the diet is idempotent for identical feeds and bounded by the feeds for closed diets |
| `Manure.Pcp` | src/manure_management/manure_mgmt.py:76-82 | crude protein of the diet is idempotent for identical feeds and bounded by the feeds for closed diets |
| `Manure.EuRates` | src/manure_management/manure_mgmt.py:47-53 | urinary energy `Eu` (`eu_calc`) is affine: between any two inputs it changes by 0.28 per % of protein plus 0.589 per kg of intake |
| `Manure.EuMonotone` | src/manure_management/manure_mgmt.py:47-53 | urinary energy does not fall with more protein or intake, and rises strictly with protein |
| `Manure.Sv` | src/manure_management/manure_mgmt.py:31-37 | volatile solids are 0 for an all-ash diet or zero energy, and positive for positive energy, a positive undigested-plus-urinary share and ash below 100 % |
| `Manure.EfGe` | src/manure_management/manure_mgmt.py:23-29 | with `Mcfp` (`mcfp_calc`) and `Awmsp` (`awmsp_calc`) both returning their stub value 1, the manure factor is sv·365·bo·0.67/100; it is non-negative for non-negative inputs |
| `Manure.EfGeLinearInBo` | src/manure_management/manure_mgmt.py:23-29 | the manure factor is linear in Bo |
| `Manure.ProductionSystemScaling` | src/manure_management/manure_mgmt.py:23-67 | for type 1, moving from system 1 to system 2 scales the manure factor by 0.13/0.24 |
| `Manure.Construct` | src/manure_management/manure_mgmt.py:12-21 | construction in dependency order succeeds iff a total energy exists. Then `pcp` and `cen_p` are the diet blends, `eu` is the urinary energy of that protein and the enteric intake, and `sv` is the volatile solids of the total, digestibility, `eu` and `cen_p`. Bo is the table's value for the type and system, one of 0.13, 0.18 and 0.24, and the factor is sv·365·Bo·0.67/100. The weighted MCF and the AWMS weight hold their stub value 1 |
| `InitOrder.RunOkIffOrdered` | src/manure_management/manure_mgmt.py:12-21 | a constructor completes iff every read is of an attribute present at the start or assigned by an earlier step; it then holds exactly those plus every target |
| `InitOrder.FactorEfReadsUnsetTge` | src/enteric_fermentation/emission_factor_ef.py:145-151 | on any object that holds the diet's energy and shares but no `tge` (such as the one `GrossEnergy.__init__` leaves), the current `FactorEF` constructor stops at `cms_calc` on `tge` |
| `InitOrder.FactorEfCompletesWithTge` | src/enteric_fermentation/emission_factor_ef.py:11-26 | on any object holding the `GrossEnergy` attributes and the total as `tge`, the current constructor completes |
| `InitOrder.LegacyFactorEfCompletes` | enteric_fermentation/emission_factor_ef.py:7-19 | the older constructor, which reads `ne`, completes as written on any object holding the `GrossEnergy` attributes |
| `InitOrder.FeGeReadsEuBeforeSettingIt` | src/manure_management/manure_mgmt.py:15-18 | on any object holding `tge` and `dep` but not `eu`, `FeGe` as written stops at `sv_calc` on `eu`, which it assigns only afterwards |
| `InitOrder.FeGeFailsOnFactorEf` | src/manure_management/manure_mgmt.py:12-18 | in particular `FeGe` fails on a completed `FactorEF` |
| `InitOrder.FeGeLacksFeedColumns` | src/database/db_utils.py:107-122 | in dependency order `FeGe` still stops at `pcp_calc` on any object without the forage protein column, which the feed lookup never returns |
| `InitOrder.FeGeCompletesInDependencyOrder` | src/manure_management/manure_mgmt.py:12-21 | in dependency order, on any object holding a completed `FactorEF` and the feeds' ash and protein, `FeGe` completes |
| `InitOrder.EnmfNeverSet` | src/enteric_fermentation/emission_factor_ef.py:186-194 | on any object with `weight` but no `enmf`, the potential intakes that read `enmf` stop on it; no constructor assigns it |
| `InitOrder.CpmsWithEnmf` | src/enteric_fermentation/emission_factor_ef.py:186-194 | on a completed `FactorEF` with `enmf` also supplied, those potential intakes run |
| `Forest.YearsCalc` | src/land_use/forest_plant.py:48-59 | fails iff `year_max <= year_min`, and then only on that assertion: the four guards leave `cant` assigned in every other case. Otherwise the result lies in [0, year_max − year_min], with year_max − year_min before the range, year_max − ano_est inside it, 1 at year_max and 0 after it |
| `Forest.YearsCalcCountsYearsFrom` | src/land_use/forest_plant.py:48-59 | the result is the number of range years from establishment on, plus one exactly when establishment is in `year_max` |
| `Forest.YearsCalcNonIncreasing` | src/land_use/forest_plant.py:48-59 | a later establishment year never gives more years |
| `Forest.Window` | src/land_use/forest_plant.py:65-68 | a year is in the window iff it is year_max when both ends are equal, or lies in [year_min, year_max) otherwise; the window holds 1 year, year_max − year_min years, or none when the ends are reversed |
| `Forest.WindowSize` | src/land_use/forest_plant.py:65-68 | the window holds 1 year for equal ends, year_max − year_min when ordered, and none when reversed |
| `Forest.Turns` | src/land_use/forest_plant.py:62-70 | the count is the number of distinct rotation years (k = 1..999) in the window; it is at most 999 and at most the window size, and for a non-zero rotation length it equals the number of indices k whose year falls in the window |
| `Forest.EstablishmentYearNotCounted` | src/land_use/forest_plant.py:63-64 | with a non-zero rotation length the establishment year is not a rotation year |
| `Forest.ZeroRotationLength` | src/land_use/forest_plant.py:63-69 | with rotation length 0 every entry is the establishment year, so the count is 1 if that year is in the window and 0 otherwise |
| `Forest.FirstRotationAfterWindow` | src/land_use/forest_plant.py:62-70 | when the first rotation falls after `year_max`, or on `year_max` with unequal ends (the half-open range excludes it), no rotation year is in the window |
| `Forest.ReversedRangeCountsNothing` | src/land_use/forest_plant.py:65-70 | with `year_max < year_min` no rotation year is in the window |

## Left out

- Database access (src/database/db_utils.py and the lookups in `GrossEnergy.__init__`) is I/O. The model passes the records those lookups return as parameters.
- The dashboard, the batch and CLI scripts, and the land-use ETL are outside the engine. So are `get_data`, `gross_abs` and `gross_emi` in src/land_use/forest_plant.py.
- The legacy src/gross_energy.py and src/emission_factor_ef.py are superseded by src/enteric_fermentation/ and are not part of this model.
- The older revision's `cpmsgbvbp`, `cpmsgbpc`, `cpmsgbtp`, `cpmsgbtr` and `cpmsgbge` feed the maintenance requirement where the current one reads `enmf`. They are not modelled. The older `cpmsgbvap` and `cpmsgbtfr` are the same formulas as `Enteric.Cpmsgbvap` and `Enteric.Cpmsgbtfr`.
- The older `cms_pv_calc`, `cmcf_calc`, `cmcs_calc`, `fda_calc`, `fdn_calc`, `gepd_calc`, `fcm_calc`, `eqsbw_calc` and `bfaf_calc` compute what the `Enteric` functions of the same names compute. The three intake helpers take the intake as an argument, which the `Enteric` versions also do.
- Floating point: rounding, overflow, NaN and infinities are not modelled. Arithmetic is exact over `real`.
- The values of `x^0.75` and `x^1.097` are not modelled; they are parameters. A negative base gives a complex number in Python, which is not modelled either.
- The volatile solids in `Manure.Construct` use the total energy `ne`, as `Enteric.Construct` does. The Python reads `tge`, which is never assigned.
- The methane conversion factor and the manure-system weights are stubs returning 1 in the source, and are modelled as such. The temperature-dependent MCF curves and the two-system blend are absent from the code.
- `GrossEnergy.Maintenance`: positivity is stated only under its stated conditions. REM can be negative at low digestibility, and the model says nothing about the sign there.
- `Enteric.Cpmsgbtp`: only its zero case, its proportionality to `bi` (`Enteric.GrowingIntakesScaleWithBi`) and its relation to `Enteric.Cpmsgbtr` (`Enteric.CalfIntakeBelowHeifer`) are stated. The energy polynomial has no simpler closed form.
- `Enteric.Cpmsgbtr`: only its zero case, its proportionality to `bi` and the comparison with the calf's intake are stated, for the same reason.
- `Forest.Turns` covers integer years only. The Python's `int(...)` truncation of non-integer years is not modelled.

## Findings

| source | as written | input that shows it | evidently intended | confidence | as-written member | corrected member |
|---|---|---|---|---|---|---|
| src/enteric_fermentation/gross_energy.py:37 | `at_id == 1 & ca_id == 1` is the chained comparison `at_id == (1 & ca_id) == 1`, so any odd `ca_id` passes | `at_id` 1, `ca_id` 3 | only category 1 (Bos taurus) for high-yield dairy cows | not executed | `GrossEnergy.GuardAsWrittenAcceptsOddCategories` | `GrossEnergy.Validate` |
| src/enteric_fermentation/emission_factor_ef.py:150 | `cms_calc`, `ym_calc` and the `gb*_ef` methods read `self.tge`, which nothing assigns; `GrossEnergy` stores the total as `self.ne` | any profile: the constructor stops at `cms_calc` | the total gross energy `ne`, as the older revision reads it | not executed | `InitOrder.FactorEfReadsUnsetTge` | `Enteric.Construct` |
| src/manure_management/manure_mgmt.py:15-18 | `sv_calc` runs before `eu`, `cen_p` and `pcp` are assigned | an object holding `tge` and `dep` (as written, `FactorEF.__init__` first stops on `tge`; see the row above): the constructor stops at `sv_calc` on `eu` | the order pcp, then eu and cen_p, then sv | not executed | `InitOrder.FeGeReadsEuBeforeSettingIt` | `InitOrder.FeGeCompletesInDependencyOrder` |
| src/manure_management/manure_mgmt.py:81 | `pcp_calc` and `cen_p_calc` read `pc_f`, `pc_s`, `cen_f` and `cen_s`, but the feed lookup (src/database/db_utils.py:107-122) returns only four columns | any profile, even in dependency order: the constructor stops at `pcp_calc` | the feeds' ash and crude protein loaded with the feed | not executed | `InitOrder.FeGeLacksFeedColumns` | `Manure.Construct` |
| src/enteric_fermentation/emission_factor_ef.py:191 | `cpmsgbvbp`, `cpmsgbpc`, `cpmsgbtp`, `cpmsgbtr` and `cpmsgbge` read `self.enmf`, which nothing assigns | any profile: each of these methods stops on `enmf` | the diet's maintenance net energy as an input | not executed | `InitOrder.EnmfNeverSet` | `Enteric.Cpmsgbvbp` |
