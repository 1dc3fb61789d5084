/** Forest-plantation rotation counters: how many years of a query window a plantation
    established in a given year contributes, and how many of its rotation years fall inside the
    window. Years are integers. */
module Forest {
  import opened Outcomes

  /** The integers `lo, lo + 1, ..., hi - 1` (empty when `hi <= lo`). */
  function Interval(lo: int, hi: int): (s: set<int>)
    ensures forall y :: y in s <==> lo <= y < hi
    ensures |s| == if lo < hi then hi - lo else 0
    decreases hi - lo
  {
    if hi <= lo then {} else Interval(lo, hi - 1) + {hi - 1}
  }

  /** How `years_calc` can fail: the assertion at its head (the query range must have its upper
      year strictly after its lower year), or falling through all four guards with `cant`
      unassigned, which the guards rule out. */
  datatype YearsError = EmptyRange | Unassigned

  /** `years_calc`: the years a plantation established in `anoEst` contributes to the query
      range from `yearMin` to `yearMax`. */
  function YearsCalc(anoEst: int, yearMin: int, yearMax: int): (r: Result<int, YearsError>)
    ensures r.Err? <==> yearMax <= yearMin
    ensures r.Err? ==> r.error == EmptyRange
    ensures r.Ok? ==> 0 <= r.value <= yearMax - yearMin
    ensures r.Ok? && anoEst < yearMin ==> r.value == yearMax - yearMin
    ensures r.Ok? && yearMin <= anoEst < yearMax ==> r.value == yearMax - anoEst
    ensures r.Ok? && anoEst == yearMax ==> r.value == 1
    ensures r.Ok? && anoEst > yearMax ==> r.value == 0
  {
    if yearMax <= yearMin then Err(EmptyRange)
    else if yearMin <= anoEst && yearMax > anoEst then Ok(yearMax - anoEst)
    else if yearMin > anoEst then Ok(yearMax - yearMin)
    else if yearMax == anoEst then Ok(1)
    else if yearMax < anoEst then Ok(0)
    else assert false; Err(Unassigned)
  }

  /** The years of `[yearMin, yearMax)` from the establishment year on. */
  function YearsFrom(anoEst: int, yearMin: int, yearMax: int): set<int>
  {
    Interval(if anoEst < yearMin then yearMin else anoEst, yearMax)
  }

  /** `years_calc` counts the years of the half-open range from establishment on, except for a
      plantation established in `yearMax` itself, which counts 1 though the range excludes
      that year. */
  lemma {:induction false} YearsCalcCountsYearsFrom(anoEst: int, yearMin: int, yearMax: int)
    requires yearMin < yearMax
    ensures anoEst != yearMax ==> YearsCalc(anoEst, yearMin, yearMax).value == |YearsFrom(anoEst, yearMin, yearMax)|
    ensures anoEst == yearMax ==> YearsCalc(anoEst, yearMin, yearMax).value == |YearsFrom(anoEst, yearMin, yearMax)| + 1
  {
  }

  /** A later establishment never contributes more years. */
  lemma YearsCalcNonIncreasing(a1: int, a2: int, yearMin: int, yearMax: int)
    requires yearMin < yearMax && a1 <= a2
    ensures YearsCalc(a1, yearMin, yearMax).value >= YearsCalc(a2, yearMin, yearMax).value
  {
  }

  /** The years `turns` compares against: `[yearMin, yearMax)`, or the single year when both
      ends are equal. With `yearMax < yearMin` the range is empty; nothing guards against it. */
  function Window(yearMin: int, yearMax: int): (w: set<int>)
    ensures forall y :: y in w <==> if yearMin == yearMax then y == yearMax else yearMin <= y < yearMax
    ensures |w| == if yearMin == yearMax then 1 else if yearMin < yearMax then yearMax - yearMin else 0
  {
    if yearMax == yearMin then {yearMax} else Interval(yearMin, yearMax)
  }

  /** The window has one year when its ends are equal, `yearMax - yearMin` when ordered, and
      none when reversed. */
  lemma WindowSize(yearMin: int, yearMax: int)
    ensures |Window(yearMin, yearMax)| ==
            if yearMin == yearMax then 1 else if yearMin < yearMax then yearMax - yearMin else 0
  {
  }

  /** Rotation years `anoEst + turno k` for `1 <= k < i`. */
  function RotationsBelow(anoEst: int, turno: int, i: int): set<int>
  {
    set k | 1 <= k < i :: anoEst + turno * k
  }

  /** The rotation years after establishment: `anoEst + turno k` for `k` in 1..999. The list
      `turns` builds starts at `k = 0` and drops that first entry. */
  function Rotations(anoEst: int, turno: int): set<int>
  {
    RotationsBelow(anoEst, turno, 1000)
  }

  /** Extending the range of `k` by one adds one rotation year. */
  lemma RotationsBelowStep(anoEst: int, turno: int, i: int)
    requires 1 <= i
    ensures RotationsBelow(anoEst, turno, i + 1) == RotationsBelow(anoEst, turno, i) + {anoEst + turno * i}
  {
    var small, big := RotationsBelow(anoEst, turno, i), RotationsBelow(anoEst, turno, i + 1);
    forall y | y in big
      ensures y in small + {anoEst + turno * i}
    {
      var k :| 1 <= k < i + 1 && y == anoEst + turno * k;
      if k < i {
        assert y in small;
      }
    }
  }

  /** With a non-zero rotation length the rotation years are pairwise distinct: a new index
      gives a new year. */
  lemma RotationIsNew(anoEst: int, turno: int, i: int)
    requires turno != 0 && 1 <= i
    ensures anoEst + turno * i !in RotationsBelow(anoEst, turno, i)
  {
  }

  /** Reference count: the indices `k` in `[1, i)` whose rotation year lies in the window. */
  function HitCount(anoEst: int, turno: int, yearMin: int, yearMax: int, i: int): (n: nat)
    ensures n <= if i <= 1 then 0 else i - 1
    decreases i
  {
    if i <= 1 then 0
    else HitCount(anoEst, turno, yearMin, yearMax, i - 1)
         + (if anoEst + turno * (i - 1) in Window(yearMin, yearMax) then 1 else 0)
  }

  /** `turns`: how many distinct rotation years fall in the window. */
  method Turns(anoEst: int, turno: int, yearMin: int, yearMax: int) returns (n: nat)
    ensures n == |Rotations(anoEst, turno) * Window(yearMin, yearMax)|
    ensures n <= 999
    ensures n <= |Window(yearMin, yearMax)|
    ensures turno != 0 ==> n == HitCount(anoEst, turno, yearMin, yearMax, 1000)
  {
    var w := Window(yearMin, yearMax);
    var matches: set<int> := {};
    var i := 1;
    while i < 1000
      invariant 1 <= i <= 1000
      invariant matches == RotationsBelow(anoEst, turno, i) * w
      invariant |matches| <= i - 1
      invariant turno != 0 ==> |matches| == HitCount(anoEst, turno, yearMin, yearMax, i)
    {
      var y := anoEst + turno * i;
      MatchStep(anoEst, turno, w, matches, i);
      if y in w {
        matches := matches + {y};
      }
      i := i + 1;
    }
    SubsetSize(matches, w);
    n := |matches|;
  }

  /** One iteration of `turns`: the rotation year of index `i` joins the matches when it lies
      in the window, and with a non-zero rotation length it is a year not matched before. */
  lemma MatchStep(anoEst: int, turno: int, w: set<int>, matches: set<int>, i: int)
    requires 1 <= i && matches == RotationsBelow(anoEst, turno, i) * w
    ensures anoEst + turno * i in w ==>
              matches + {anoEst + turno * i} == RotationsBelow(anoEst, turno, i + 1) * w
    ensures anoEst + turno * i !in w ==> matches == RotationsBelow(anoEst, turno, i + 1) * w
    ensures turno != 0 && anoEst + turno * i in w ==> |matches + {anoEst + turno * i}| == |matches| + 1
  {
    RotationsBelowStep(anoEst, turno, i);
    if turno != 0 {
      RotationIsNew(anoEst, turno, i);
    }
  }

  /** A subset is no larger than its superset. */
  lemma SubsetSize(a: set<int>, b: set<int>)
    requires a <= b
    ensures |a| <= |b|
  {
    assert b == a + (b - a);
    assert a * (b - a) == {};
  }

  /** With a non-zero rotation length the establishment year is never one of the rotation years. */
  lemma EstablishmentYearNotCounted(anoEst: int, turno: int)
    requires turno != 0
    ensures anoEst !in Rotations(anoEst, turno)
  {
  }

  /** With a zero rotation length every entry is the establishment year, so the count is 1 when
      that year is in the window and 0 otherwise. */
  lemma ZeroRotationLength(anoEst: int, yearMin: int, yearMax: int)
    ensures Rotations(anoEst, 0) == {anoEst}
    ensures |Rotations(anoEst, 0) * Window(yearMin, yearMax)| ==
            if anoEst in Window(yearMin, yearMax) then 1 else 0
  {
    assert anoEst + 0 * 1 in Rotations(anoEst, 0);
    if anoEst in Window(yearMin, yearMax) {
      assert Rotations(anoEst, 0) * Window(yearMin, yearMax) == {anoEst};
    } else {
      assert Rotations(anoEst, 0) * Window(yearMin, yearMax) == {};
    }
  }

  /** When the first rotation already falls outside the window, above it, no rotation is
      counted: after `yearMax`, or at `yearMax` itself when the window is the half-open range
      and so excludes that year. */
  lemma FirstRotationAfterWindow(anoEst: int, turno: int, yearMin: int, yearMax: int)
    requires turno > 0
    requires anoEst + turno > yearMax || (anoEst + turno == yearMax && yearMin != yearMax)
    ensures Rotations(anoEst, turno) * Window(yearMin, yearMax) == {}
  {
    var w := Window(yearMin, yearMax);
    forall y | y in Rotations(anoEst, turno)
      ensures y !in w
    {
      var k :| 1 <= k < 1000 && y == anoEst + turno * k;
      AtLeastOneMultiple(turno, k);
      assert y >= anoEst + turno;
    }
  }

  /** A positive number times an index of at least 1 is at least that number. */
  lemma AtLeastOneMultiple(t: int, k: int)
    requires t > 0 && k >= 1
    ensures t * k >= t
  {
    assert t * k == t + t * (k - 1);
  }

  /** A reversed range (`yearMax < yearMin`) has no years, so nothing is counted. */
  lemma ReversedRangeCountsNothing(anoEst: int, turno: int, yearMin: int, yearMax: int)
    requires yearMax < yearMin
    ensures Rotations(anoEst, turno) * Window(yearMin, yearMax) == {}
  {
    assert Window(yearMin, yearMax) == {};
  }
}
