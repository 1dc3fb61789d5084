/** Reference data as the engine receives it once every database lookup has been resolved,
    plus the two pieces of arithmetic every module shares: the fractional powers and the
    share-weighted blend of a forage value with a supplement value. */
module Coefficients {

  /** One row of the feed-variety table: digestible-energy ratio for ruminants, gross energy
      of the feed, neutral-detergent fibre (%), acid-detergent fibre (%). */
  datatype Feed = Feed(edr: real, eb: real, fdn: real, fda: real)

  /** Ash (%) and crude protein (%) of one feed. The manure model reads these, but the feed
      lookup returns only the four columns of `Feed`, so they are supplied by the caller. */
  datatype FeedAshProtein = FeedAshProtein(ash: real, protein: real)

  /** One row of the animal-category table: maintenance coefficient a1, comfort temperature
      tc (°C), intake temperature coefficient rcms, body-condition index bi. */
  datatype Category = Category(a1: real, tc: real, rcms: real, bi: real)

  /** The fractional powers x^0.75 and x^1.097, kept uninterpreted. */
  datatype Powers = Powers(p075: real -> real, p1097: real -> real)

  /** What the model relies on about a power x^e with e > 0: it sends 0 to 0 and positive
      numbers to positive numbers. */
  ghost predicate PowerLike(f: real -> real)
  {
    f(0.0) == 0.0 && forall x: real :: x > 0.0 ==> f(x) > 0.0
  }

  ghost predicate ValidPowers(pw: Powers)
  {
    PowerLike(pw.p075) && PowerLike(pw.p1097)
  }

  /** Share-weighted blend of a forage value `f` and a supplement value `s`, shares in %. */
  function Blend(f: real, s: real, pf: real, ps: real): real
  {
    f * pf / 100.0 + s * ps / 100.0
  }

  /** Shares of a closed diet: each within [0, 100] and together 100. */
  predicate ClosedDiet(pf: real, ps: real)
  {
    0.0 <= pf && 0.0 <= ps && pf + ps == 100.0
  }

  function Min(a: real, b: real): real { if a <= b then a else b }

  function Max(a: real, b: real): real { if a <= b then b else a }

  /** Blending a value with itself over a diet whose shares sum to 100 gives that value back. */
  lemma BlendIdentical(x: real, pf: real, ps: real)
    requires pf + ps == 100.0
    ensures Blend(x, x, pf, ps) == x
  {
    calc {
      Blend(x, x, pf, ps);
      x * pf / 100.0 + x * ps / 100.0;
      x * (pf + ps) / 100.0;
    }
  }

  /** A product of positive numbers is positive. */
  lemma PositiveProduct(a: real, b: real)
    requires a > 0.0 && b > 0.0
    ensures a * b > 0.0
  {
  }

  /** A positive number times a negative one is negative. */
  lemma PositiveTimesNegative(a: real, b: real)
    requires a > 0.0 && b < 0.0
    ensures a * b < 0.0
  {
  }

  /** A product of non-negative numbers is non-negative. */
  lemma NonNegativeProduct(a: real, b: real)
    requires 0.0 <= a && 0.0 <= b
    ensures 0.0 <= a * b
  {
  }

  /** Over a closed diet the blend is a convex combination: it lies between the two inputs. */
  lemma BlendBetween(f: real, s: real, pf: real, ps: real)
    requires ClosedDiet(pf, ps)
    ensures Min(f, s) <= Blend(f, s, pf, ps) <= Max(f, s)
  {
    var w := pf / 100.0;
    var b := Blend(f, s, pf, ps);
    assert ps / 100.0 == 1.0 - w;
    assert 0.0 <= w <= 1.0;
    assert b - s == (f - s) * w;
    assert f - b == (f - s) * (1.0 - w);
    if f <= s {
      NonNegativeProduct(s - f, w);
      NonNegativeProduct(s - f, 1.0 - w);
    } else {
      NonNegativeProduct(f - s, w);
      NonNegativeProduct(f - s, 1.0 - w);
    }
  }

  /** A feed column blended over the diet, with what the blend promises: a column on which
      the two feeds agree keeps its value, and over a closed diet the result lies between the
      two feeds' values. */
  function Weighted(f: real, s: real, pf: real, ps: real): (r: real)
    ensures pf + ps == 100.0 && f == s ==> r == f
    ensures ClosedDiet(pf, ps) ==> Min(f, s) <= r <= Max(f, s)
  {
    BlendFacts(f, s, pf, ps);
    Blend(f, s, pf, ps)
  }

  /** Both facts about the blend, each under its own condition. */
  lemma BlendFacts(f: real, s: real, pf: real, ps: real)
    ensures pf + ps == 100.0 && f == s ==> Blend(f, s, pf, ps) == f
    ensures ClosedDiet(pf, ps) ==> Min(f, s) <= Blend(f, s, pf, ps) <= Max(f, s)
  {
    if pf + ps == 100.0 && f == s {
      BlendIdentical(f, pf, ps);
    }
    if ClosedDiet(pf, ps) {
      BlendBetween(f, s, pf, ps);
    }
  }
}
