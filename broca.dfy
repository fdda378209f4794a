/** The Broca ideal-weight formula, adjusted by sex, and the nutritional-status
    classification that compares an actual weight against it.

    Weights are exact reals: the calculator's weights come in 0.1 kg steps and
    its heights are whole centimetres, so every quantity here is a rational
    number and no floating-point rounding is modelled. */
module Broca {

  /** Jenis Kelamin: the two choices of the sex radio button. */
  datatype Sex = Pria | Wanita

  /** Status Gizi: thin, overweight or ideal. */
  datatype Status = Kurus | Gemuk | Ideal

  /** Lowest and highest height (cm) the height widget accepts. */
  const MIN_HEIGHT: int := 100
  const MAX_HEIGHT: int := 250

  /** Berat ideal: the base (height minus 100) less 10% of it for Pria and
      less 15% of it for Wanita. */
  function IdealWeight(height: int, sex: Sex): (r: real)
    ensures sex == Pria ==> r == 0.9 * (height - 100) as real
    ensures sex == Wanita ==> r == 0.85 * (height - 100) as real
    ensures r >= 0.0 <==> height >= 100
    ensures r == 0.0 <==> height == 100
  {
    var base := (height - 100) as real;
    if sex == Pria then base - base * 0.10 else base - base * 0.15
  }

  /** The if/elif chain: thin below 90% of the ideal, otherwise overweight
      above 110% of it, otherwise ideal. */
  function ClassifyAgainst(ideal: real, weight: real): (s: Status)
    ensures s == Kurus <==> weight < ideal * 0.9
    ensures s == Ideal <==> ideal * 0.9 <= weight <= ideal * 1.1
    ensures ideal >= 0.0 ==> (s == Gemuk <==> weight > ideal * 1.1)
  {
    if weight < ideal * 0.9 then Kurus
    else if weight > ideal * 1.1 then Gemuk
    else Ideal
  }

  /** The status of an actual weight, compared with the unrounded ideal weight. */
  function Classify(height: int, weight: real, sex: Sex): (s: Status)
    ensures s == Ideal ==> height >= 100
  {
    ClassifyAgainst(IdealWeight(height, sex), weight)
  }

  /** Orders the statuses from light to heavy. */
  function Rank(s: Status): (n: nat)
    ensures n <= 2
    ensures s == Kurus <==> n == 0
    ensures s == Gemuk <==> n == 2
  {
    match s
    case Kurus => 0
    case Ideal => 1
    case Gemuk => 2
  }

  /** round(x, 1): the nearest multiple of 0.1. Exact halves go up here; the
      strict lower bound below is what fixes that choice. */
  function RoundTenth(x: real): (r: real)
    ensures -0.05 < r - x <= 0.05
    ensures (10.0 * r).Floor as real == 10.0 * r
    ensures (10.0 * x).Floor as real == 10.0 * x ==> r == x
  {
    var n := (10.0 * x + 0.5).Floor;
    TenthsOfWhole(n);
    var m := (10.0 * x).Floor;
    assert m as real == 10.0 * x ==> n == m by {
      if m as real == 10.0 * x {
        WholeFloor(m, 10.0 * x + 0.5);
      }
    }
    n as real / 10.0
  }

  /** A whole number of tenths, scaled back by ten, is that whole number. */
  lemma TenthsOfWhole(n: int)
    ensures 10.0 * (n as real / 10.0) == n as real
    ensures (n as real).Floor == n
  {
  }

  /** A real within the half-open unit interval above a whole number floors
      to that number. */
  lemma WholeFloor(n: int, y: real)
    requires n as real <= y < n as real + 1.0
    ensures y.Floor == n
  {
  }

  /** Once the ideal weight is not negative, each status is exactly one band
      of weights, and both bounds of the ideal band are inclusive. */
  lemma ClassifyBands(height: int, weight: real, sex: Sex)
    requires height >= 100
    ensures Classify(height, weight, sex) == Kurus <==> weight < 0.9 * IdealWeight(height, sex)
    ensures Classify(height, weight, sex) == Gemuk <==> weight > 1.1 * IdealWeight(height, sex)
    ensures Classify(height, weight, sex) == Ideal <==>
              0.9 * IdealWeight(height, sex) <= weight <= 1.1 * IdealWeight(height, sex)
  {
  }

  /** The bands in kilograms per centimetre above 100: for Pria thin below
      0.81 and overweight above 0.99, for Wanita thin below 0.765 and
      overweight above 0.935. */
  lemma ClassifyThresholds(height: int, weight: real, sex: Sex)
    requires height >= 100
    ensures var base := (height - 100) as real;
      var lo := if sex == Pria then 0.81 else 0.765;
      var hi := if sex == Pria then 0.99 else 0.935;
      (Classify(height, weight, sex) == Kurus <==> weight < lo * base) &&
      (Classify(height, weight, sex) == Gemuk <==> weight > hi * base)
  {
    ClassifyBands(height, weight, sex);
  }

  /** Below 100 cm the ideal weight is negative and the bands overlap; the
      order of the tests then decides, and a weight that is not thin is
      overweight. */
  lemma ClassifyBelowBaseHeight(height: int, weight: real, sex: Sex)
    requires height < 100
    ensures Classify(height, weight, sex) != Ideal
    ensures Classify(height, weight, sex) == Kurus <==> weight < 0.9 * IdealWeight(height, sex)
  {
  }

  /** At 100 cm the ideal weight is 0, so every positive weight is overweight
      (and nothing in the widget range is anything else). */
  lemma ClassifyAtBaseHeight(weight: real, sex: Sex)
    ensures IdealWeight(100, sex) == 0.0
    ensures Classify(100, weight, sex) == Gemuk <==> weight > 0.0
    ensures Classify(100, weight, sex) == Kurus <==> weight < 0.0
  {
  }

  /** Within the widget range the ideal weight lies between 0 and 135 kg, and
      the Pria ideal is never below the Wanita ideal for the same height. */
  lemma IdealWeightInRange(height: int)
    requires MIN_HEIGHT <= height <= MAX_HEIGHT
    ensures 0.0 <= IdealWeight(height, Wanita) <= IdealWeight(height, Pria) <= 135.0
    ensures IdealWeight(height, Wanita) == IdealWeight(height, Pria) <==> height == 100
  {
  }

  /** For heights the widget accepts, the stored one-decimal ideal weight lies
      between 0 and 135 kg as the exact one does. */
  lemma StoredIdealInRange(height: int, sex: Sex)
    requires MIN_HEIGHT <= height <= MAX_HEIGHT
    ensures 0.0 <= RoundTenth(IdealWeight(height, sex)) <= 135.0
  {
    IdealWeightInRange(height);
    var r := RoundTenth(IdealWeight(height, sex));
    var n := (10.0 * r).Floor;
    assert n as real == 10.0 * r;
    assert -0.5 < n as real < 1351.0;
  }

  /** Adding weight never makes the status lighter: thin, then ideal, then
      overweight, at every height. */
  lemma ClassifyMonotone(height: int, sex: Sex, lighter: real, heavier: real)
    requires lighter <= heavier
    ensures Rank(Classify(height, lighter, sex)) <= Rank(Classify(height, heavier, sex))
  {
  }

  /** Every heavier weight of an overweight one is overweight. */
  lemma HeavierStaysGemuk(height: int, sex: Sex, weight: real, heavier: real)
    requires Classify(height, weight, sex) == Gemuk
    requires weight <= heavier
    ensures Classify(height, heavier, sex) == Gemuk
  {
    ClassifyMonotone(height, sex, weight, heavier);
  }

  /** Every lighter weight of a thin one is thin. */
  lemma LighterStaysKurus(height: int, sex: Sex, weight: real, lighter: real)
    requires Classify(height, weight, sex) == Kurus
    requires lighter <= weight
    ensures Classify(height, lighter, sex) == Kurus
  {
    ClassifyMonotone(height, sex, lighter, weight);
  }

  /** The ideal weight is already a multiple of 0.1 for Pria and for Wanita
      with an even base, so its stored rounding is exact there. */
  lemma StoredIdealExact(height: int, sex: Sex)
    requires sex == Pria || (height - 100) % 2 == 0
    ensures RoundTenth(IdealWeight(height, sex)) == IdealWeight(height, sex)
  {
    var base := height - 100;
    if sex == Pria {
      assert 10.0 * IdealWeight(height, sex) == (9 * base) as real;
    } else {
      assert 10.0 * IdealWeight(height, sex) == (17 * (base / 2)) as real;
    }
  }

  /** The status is decided against the unrounded ideal weight, so it cannot
      always be recovered from the stored one-decimal value: at 141 cm, Wanita,
      the ideal is 34.85 kg, and whichever neighbouring tenth is stored, one
      of 31.4 kg and 38.3 kg is classified differently against it. */
  lemma StoredIdealCanDisagree(storedTenths: int)
    requires -0.05 <= storedTenths as real / 10.0 - IdealWeight(141, Wanita) <= 0.05
    ensures ClassifyAgainst(storedTenths as real / 10.0, 31.4) != Classify(141, 31.4, Wanita) ||
            ClassifyAgainst(storedTenths as real / 10.0, 38.3) != Classify(141, 38.3, Wanita)
  {
    assert IdealWeight(141, Wanita) == 34.85;
    assert storedTenths == 348 || storedTenths == 349;
    if storedTenths == 349 {
      assert ClassifyAgainst(34.9, 31.4) == Kurus;
      assert Classify(141, 31.4, Wanita) == Ideal;
    } else {
      assert ClassifyAgainst(34.8, 38.3) == Gemuk;
      assert Classify(141, 38.3, Wanita) == Ideal;
    }
  }

  /** Worked cases for the formula and the classification. */
  lemma WorkedExamples()
    ensures IdealWeight(170, Pria) == 63.0 && Classify(170, 70.0, Pria) == Gemuk
    ensures Classify(170, 60.0, Pria) == Ideal
    ensures IdealWeight(160, Wanita) == 51.0 && Classify(160, 50.0, Wanita) == Ideal
    ensures Classify(100, 5.0, Pria) == Gemuk
  {
  }
}
