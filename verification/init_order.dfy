/** Which attributes exist on the object while a constructor runs. A Python method that reads
    `self.x` before anything has assigned `x` raises AttributeError. This module replays the
    constructors' assignment order over the attributes each calculation reads, and shows where
    the source reads an attribute it has not yet set, or never sets at all. */
module InitOrder {
  import opened Outcomes

  /** Attributes tracked on the emission objects (only those the replayed steps read or set). */
  datatype Attr =
    // set by GrossEnergy.__init__
    | AtId | Pf | Ps | Weight | AdultW | Milk | Grease
    | Ebf | Ebs | Fdaf | Fdas | Fdnf | Fdns | Dep | Ne
    // read by the current FactorEF; nothing assigns it
    | Tge
    // set by FactorEF.__init__
    | Gepd | Cms | Fda | Fdn | Ym | Fcm | Ajl | Eqsbw
    // read by five potential-intake methods; nothing assigns it
    | Enmf
    // set by FeGe.__init__
    | Sp | Sv | Eu | CenP | Pcp | Bo | Mcfp | Awmsp
    // feed ash and protein columns read by FeGe; nothing assigns them
    | CenF | CenS | PcF | PcS
    // result of a potential-intake method
    | Cpms

  /** One step `self.target = calc()`, with the attributes `calc` reads, in reading order. */
  datatype Step = Step(target: Attr, inputs: seq<Attr>)

  /** The AttributeError a step raises: which step, and the first attribute it could not read. */
  datatype Missing = Missing(step: Attr, attr: Attr)

  /** The first attribute of `xs` not in `have`. */
  function FirstAbsent(xs: seq<Attr>, have: set<Attr>): (m: Option<nat>)
    ensures m.None? <==> forall i :: 0 <= i < |xs| ==> xs[i] in have
    ensures m.Some? ==> m.value < |xs| && xs[m.value] !in have
                        && forall i :: 0 <= i < m.value ==> xs[i] in have
  {
    if |xs| == 0 then None
    else if xs[0] !in have then Some(0)
    else match FirstAbsent(xs[1..], have)
      case None => None
      case Some(k) => Some(k + 1)
  }

  /** Every attribute set by a sequence of steps. */
  function Targets(steps: seq<Step>): set<Attr>
  {
    if |steps| == 0 then {} else {steps[0].target} + Targets(steps[1..])
  }

  /** Runs the steps in order from the attributes `have`; the first read of an absent
      attribute stops the run. */
  function Run(steps: seq<Step>, have: set<Attr>): Result<set<Attr>, Missing>
  {
    if |steps| == 0 then Ok(have)
    else match FirstAbsent(steps[0].inputs, have)
      case Some(k) => Err(Missing(steps[0].target, steps[0].inputs[k]))
      case None => Run(steps[1..], have + {steps[0].target})
  }

  /** Every read happens after the attribute was present initially or set by an earlier step. */
  ghost predicate Ordered(steps: seq<Step>, have: set<Attr>)
  {
    forall i, j :: 0 <= i < |steps| && 0 <= j < |steps[i].inputs| ==>
      steps[i].inputs[j] in have + Targets(steps[..i])
  }

  /** A run completes exactly when the steps are ordered, and then it has set every target. */
  lemma {:induction false} RunOkIffOrdered(steps: seq<Step>, have: set<Attr>)
    ensures Run(steps, have).Ok? <==> Ordered(steps, have)
    ensures Run(steps, have).Ok? ==> Run(steps, have).value == have + Targets(steps)
    decreases |steps|
  {
    if |steps| > 0 {
      var s, rest := steps[0], steps[1..];
      var have' := have + {s.target};
      RunOkIffOrdered(rest, have');
      assert forall i :: 0 <= i < |rest| ==> have' + Targets(rest[..i]) == have + Targets(steps[..i + 1]) by {
        forall i | 0 <= i < |rest|
          ensures have' + Targets(rest[..i]) == have + Targets(steps[..i + 1])
        {
          assert steps[..i + 1][0] == s && steps[..i + 1][1..] == rest[..i];
        }
      }
      assert steps[..0] == [];
      if FirstAbsent(s.inputs, have).None? {
        assert Targets(steps) == {s.target} + Targets(rest);
        if Ordered(rest, have') {
          forall i, j | 0 <= i < |steps| && 0 <= j < |steps[i].inputs|
            ensures steps[i].inputs[j] in have + Targets(steps[..i])
          {
            if i > 0 {
              assert steps[i] == rest[i - 1];
            }
          }
        }
        if Ordered(steps, have) {
          forall i, j | 0 <= i < |rest| && 0 <= j < |rest[i].inputs|
            ensures rest[i].inputs[j] in have' + Targets(rest[..i])
          {
            assert rest[i] == steps[i + 1];
          }
        }
      } else {
        var k := FirstAbsent(s.inputs, have).value;
        assert s.inputs[k] !in have + Targets(steps[..0]);
      }
    }
  }

  /** A step whose inputs are all present sets its target and the run continues. */
  lemma StepPasses(steps: seq<Step>, have: set<Attr>)
    requires |steps| > 0 && forall i :: 0 <= i < |steps[0].inputs| ==> steps[0].inputs[i] in have
    ensures Run(steps, have) == Run(steps[1..], have + {steps[0].target})
  {
  }

  /** A step whose input `k` is the first absent one stops the run there. */
  lemma StepFails(steps: seq<Step>, have: set<Attr>, k: nat)
    requires |steps| > 0 && k < |steps[0].inputs| && steps[0].inputs[k] !in have
    requires forall i :: 0 <= i < k ==> steps[0].inputs[i] in have
    ensures Run(steps, have) == Err(Missing(steps[0].target, steps[0].inputs[k]))
  {
  }

  /** Attributes `GrossEnergy.__init__` leaves on the object (among those tracked). It stores
      the total gross energy as `ne`; there is no `tge`. */
  const GrossEnergyAttrs: set<Attr> :=
    {AtId, Pf, Ps, Weight, AdultW, Milk, Grease, Ebf, Ebs, Fdaf, Fdas, Fdnf, Fdns, Dep, Ne}

  /** The current `FactorEF.__init__`, in its order. */
  const FactorEfSteps: seq<Step> := [
    Step(Gepd, [Ebf, Pf, Ebs, Ps]),
    Step(Cms, [Tge, Gepd]),
    Step(Fda, [Fdaf, Pf, Fdas, Ps]),
    Step(Fdn, [Fdnf, Pf, Fdns, Ps]),
    Step(Ym, [Cms, Fda, Cms, Fdn, Tge]),
    Step(Fcm, [Milk, Milk, Grease]),
    Step(Ajl, [Milk]),
    Step(Eqsbw, [Weight, AdultW])
  ]

  /** The older `FactorEF.__init__`, which reads the total as `ne`. */
  const LegacyFactorEfSteps: seq<Step> := [
    Step(Cms, [Ne, Ebf, Pf, Ebs, Ps]),
    Step(Ym, [Fdaf, Pf, Fdas, Ps, Fdnf, Pf, Fdns, Ps, Cms, Ne]),
    Step(Fcm, [Milk, Milk, Grease]),
    Step(Ajl, [Milk]),
    Step(Eqsbw, [Weight, AdultW])
  ]

  /** As written, the current revision's constructor fails at `cms_calc` on any object without
      `tge` (such as the one `GrossEnergy.__init__` leaves, which holds the total as `ne`). */
  lemma FactorEfReadsUnsetTge(have: set<Attr>)
    requires {Ebf, Pf, Ebs, Ps} <= have && Tge !in have
    ensures Run(FactorEfSteps, have) == Err(Missing(Cms, Tge))
  {
    var s0, h0 := FactorEfSteps, have;
    StepPasses(s0, h0);
    var s1, h1 := s0[1..], h0 + {s0[0].target};
    StepFails(s1, h1, 0);
  }

  /** With the total also available as `tge` (what the model does by reading `ne`), the current
      constructor completes. */
  lemma FactorEfCompletesWithTge(have: set<Attr>)
    requires GrossEnergyAttrs + {Tge} <= have
    ensures Run(FactorEfSteps, have).Ok?
  {
    var s0, h0 := FactorEfSteps, have;
    StepPasses(s0, h0);
    var s1, h1 := s0[1..], h0 + {s0[0].target};
    StepPasses(s1, h1);
    var s2, h2 := s1[1..], h1 + {s1[0].target};
    StepPasses(s2, h2);
    var s3, h3 := s2[1..], h2 + {s2[0].target};
    StepPasses(s3, h3);
    var s4, h4 := s3[1..], h3 + {s3[0].target};
    StepPasses(s4, h4);
    var s5, h5 := s4[1..], h4 + {s4[0].target};
    StepPasses(s5, h5);
    var s6, h6 := s5[1..], h5 + {s5[0].target};
    StepPasses(s6, h6);
    var s7, h7 := s6[1..], h6 + {s6[0].target};
    StepPasses(s7, h7);
    var s8, h8 := s7[1..], h7 + {s7[0].target};
  }

  /** The older constructor, which reads the total as `ne`, completes as written. */
  lemma LegacyFactorEfCompletes(have: set<Attr>)
    requires GrossEnergyAttrs <= have
    ensures Run(LegacyFactorEfSteps, have).Ok?
  {
    var s0, h0 := LegacyFactorEfSteps, have;
    StepPasses(s0, h0);
    var s1, h1 := s0[1..], h0 + {s0[0].target};
    StepPasses(s1, h1);
    var s2, h2 := s1[1..], h1 + {s1[0].target};
    StepPasses(s2, h2);
    var s3, h3 := s2[1..], h2 + {s2[0].target};
    StepPasses(s3, h3);
    var s4, h4 := s3[1..], h3 + {s3[0].target};
    StepPasses(s4, h4);
    var s5, h5 := s4[1..], h4 + {s4[0].target};
  }

  /** Attributes on a completed `FactorEF` once `tge` is provided. */
  const FactorEfAttrs: set<Attr> := GrossEnergyAttrs + {Tge, Gepd, Cms, Fda, Fdn, Ym, Fcm, Ajl, Eqsbw}

  /** `FeGe.__init__` as written: `sv` first, then `eu`, `cen_p`, `pcp`, `bo` and the stubs. */
  const FeGeStepsAsWritten: seq<Step> := [
    Step(Sp, []),
    Step(Sv, [Tge, Dep, Eu, CenP]),
    Step(Eu, [Pcp, Cms]),
    Step(CenP, [CenF, Pf, CenS, Ps]),
    Step(Pcp, [PcF, Pf, PcS, Ps]),
    Step(Bo, [AtId, Sp]),
    Step(Mcfp, []),
    Step(Awmsp, [])
  ]

  /** The same steps in dependency order: pcp, then eu and cen_p, then sv. */
  const FeGeStepsInDependencyOrder: seq<Step> := [
    Step(Sp, []),
    Step(Pcp, [PcF, Pf, PcS, Ps]),
    Step(Eu, [Pcp, Cms]),
    Step(CenP, [CenF, Pf, CenS, Ps]),
    Step(Sv, [Tge, Dep, Eu, CenP]),
    Step(Bo, [AtId, Sp]),
    Step(Mcfp, []),
    Step(Awmsp, [])
  ]

  /** The feeds' ash and protein columns, which the feed lookup never returns. */
  const FeedAshProteinAttrs: set<Attr> := {CenF, CenS, PcF, PcS}

  /** As written, `FeGe` computes `sv` before `eu` exists: whatever the object already holds,
      short of `eu` itself, the constructor stops at `sv` on the missing `eu`. */
  lemma FeGeReadsEuBeforeSettingIt(have: set<Attr>)
    requires Tge in have && Dep in have && Eu !in have
    ensures Run(FeGeStepsAsWritten, have) == Err(Missing(Sv, Eu))
  {
    var s0 := FeGeStepsAsWritten;
    StepPasses(s0, have);
    StepFails(s0[1..], have + {Sp}, 2);
  }

  /** A complete `FactorEF` holds `tge` and `dep` but not `eu`, so `FeGe` fails on it. */
  lemma FeGeFailsOnFactorEf()
    ensures Run(FeGeStepsAsWritten, FactorEfAttrs) == Err(Missing(Sv, Eu))
  {
    FeGeReadsEuBeforeSettingIt(FactorEfAttrs);
  }

  /** In dependency order the steps still fail, on the feed columns that are never loaded:
      on any object without the forage's protein column `pcp` is the first step to fail. */
  lemma FeGeLacksFeedColumns(have: set<Attr>)
    requires PcF !in have
    ensures Run(FeGeStepsInDependencyOrder, have) == Err(Missing(Pcp, PcF))
  {
    var s0 := FeGeStepsInDependencyOrder;
    StepPasses(s0, have);
    StepFails(s0[1..], have + {Sp}, 0);
  }

  /** In dependency order, with the feed columns supplied as inputs, the steps complete. */
  lemma FeGeCompletesInDependencyOrder(have: set<Attr>)
    requires FactorEfAttrs + FeedAshProteinAttrs <= have
    ensures Run(FeGeStepsInDependencyOrder, have).Ok?
  {
    var s0, h0 := FeGeStepsInDependencyOrder, have;
    StepPasses(s0, h0);
    var s1, h1 := s0[1..], h0 + {s0[0].target};
    StepPasses(s1, h1);
    var s2, h2 := s1[1..], h1 + {s1[0].target};
    StepPasses(s2, h2);
    var s3, h3 := s2[1..], h2 + {s2[0].target};
    StepPasses(s3, h3);
    var s4, h4 := s3[1..], h3 + {s3[0].target};
    StepPasses(s4, h4);
    var s5, h5 := s4[1..], h4 + {s4[0].target};
    StepPasses(s5, h5);
    var s6, h6 := s5[1..], h5 + {s5[0].target};
    StepPasses(s6, h6);
    var s7, h7 := s6[1..], h6 + {s6[0].target};
    StepPasses(s7, h7);
    var s8, h8 := s7[1..], h7 + {s7[0].target};
  }

  /** The low-yield cow's potential intake (and the four others that read `enmf`), as a step. */
  const CpmsFromEnmf: seq<Step> := [Step(Cpms, [Weight, Enmf, Enmf, Fcm, Ajl])]

  /** On a complete `FactorEF` these methods fail: nothing assigns `enmf`. */
  lemma EnmfNeverSet(have: set<Attr>)
    requires Weight in have && Enmf !in have
    ensures Run(CpmsFromEnmf, have) == Err(Missing(Cpms, Enmf))
  {
    StepFails(CpmsFromEnmf, have, 1);
  }

  /** Supplied as an input, `enmf` lets them run. */
  lemma CpmsWithEnmf(have: set<Attr>)
    requires FactorEfAttrs + {Enmf} <= have
    ensures Run(CpmsFromEnmf, have).Ok?
  {
    StepPasses(CpmsFromEnmf, have);
  }
}
