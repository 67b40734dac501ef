/**
Directional insights and the asymmetric threshold rule that decides them.

The rule compares a damped price spread against the short window's mean and
standard deviation and gates it on a volume sum against the long window's mean
and standard deviation. It answers with nothing or with a correlated group of
two insights, one per instrument of the pair, pointing in opposite directions.
*/
module Insights {

  type Symbol = string

  datatype Direction = Up | Down

  function Opposite(d: Direction): (r: Direction)
    ensures r != d
  {
    match d
    case Up => Down
    case Down => Up
  }

  /** One directional prediction for one instrument, valid for `lifespanHours` after it is issued. */
  datatype Signal = Signal(symbol: Symbol, direction: Direction, lifespanHours: nat)

  /** The three levels the spreads are compared against. */
  datatype Thresholds = Thresholds(upper: real, lowerShort: real, lowerLong: real)

  /**
  The thresholds read from the two windows' mean and standard deviation: one
  deviation above the short mean, two below it, and one below the long mean.
  With non-negative deviations the short band brackets its mean, its lower
  side twice as wide as its upper side, and the long threshold lies under its mean.
  */
  function ComputeThresholds(meanShort: real, stdShort: real, meanLong: real, stdLong: real): (t: Thresholds)
    ensures stdShort >= 0.0 ==> t.lowerShort <= meanShort <= t.upper
    ensures stdShort > 0.0 ==> t.lowerShort < meanShort < t.upper
    ensures meanShort - t.lowerShort == 2.0 * (t.upper - meanShort)
    ensures stdLong >= 0.0 ==> t.lowerLong <= meanLong
  {
    Thresholds(meanShort + stdShort, meanShort - 2.0 * stdShort, meanLong - stdLong)
  }

  /** The group of two insights with `first` leading in direction `d` and `second` opposite. */
  function Group(first: Symbol, second: Symbol, d: Direction, lifespanHours: nat): (r: seq<Signal>)
    ensures IsCorrelatedPair(r, first, second, lifespanHours) && r[0].direction == d
  {
    [Signal(first, d, lifespanHours), Signal(second, Opposite(d), lifespanHours)]
  }

  /** `r` is a correlated pair for `first` then `second` with opposite directions and the given lifespan. */
  predicate IsCorrelatedPair(r: seq<Signal>, first: Symbol, second: Symbol, lifespanHours: nat) {
    && |r| == 2
    && r[0].symbol == first && r[1].symbol == second
    && r[1].direction == Opposite(r[0].direction)
    && r[0].lifespanHours == lifespanHours && r[1].lifespanHours == lifespanHours
  }

  /** The condition under which the first instrument is predicted to rise. */
  predicate UpFires(priceSpread: real, volumeSpread: real, t: Thresholds) {
    priceSpread > t.upper && volumeSpread > t.lowerLong
  }

  /** The condition of the second branch, on its own, without the priority of the first. */
  predicate DownFires(priceSpread: real, volumeSpread: real, t: Thresholds) {
    priceSpread < t.lowerShort && volumeSpread > t.lowerLong
  }

  /**
  The decision: the rising branch is tried first, the falling branch only when
  the rising one fails, and otherwise nothing is emitted.
  */
  function Decide(first: Symbol, second: Symbol, lifespanHours: nat,
                  priceSpread: real, volumeSpread: real, t: Thresholds): (r: seq<Signal>)
    ensures |r| == 0 || IsCorrelatedPair(r, first, second, lifespanHours)
    ensures |r| != 1
    ensures (|r| == 2 && r[0].direction == Up) <==> UpFires(priceSpread, volumeSpread, t)
    ensures (|r| == 2 && r[0].direction == Down)
            <==> !UpFires(priceSpread, volumeSpread, t) && DownFires(priceSpread, volumeSpread, t)
    ensures |r| == 0
            <==> !UpFires(priceSpread, volumeSpread, t) && !DownFires(priceSpread, volumeSpread, t)
  {
    if UpFires(priceSpread, volumeSpread, t) then Group(first, second, Up, lifespanHours)
    else if DownFires(priceSpread, volumeSpread, t) then Group(first, second, Down, lifespanHours)
    else []
  }

  /**
  A reading of the rule in terms of how far each spread lies from
  its window's mean, measured in that window's standard deviations: more than
  one above on price for a rise, more than two below for a fall, and in both
  cases a volume sum less than one deviation below its mean.
  */
  function DeviationRule(priceSpread: real, meanShort: real, stdShort: real,
                         volumeSpread: real, meanLong: real, stdLong: real): (d: set<Direction>)
  {
    var volumeOk := meanLong - volumeSpread < stdLong;
    (if priceSpread - meanShort > stdShort && volumeOk then {Up} else {})
    + (if meanShort - priceSpread > 2.0 * stdShort && volumeOk then {Down} else {})
  }

  /**
  Against the deviation reading, the decision emits a rise exactly when a rise
  is called for, and a fall exactly when only a fall is called for.
  */
  lemma DecideMatchesDeviationRule(first: Symbol, second: Symbol, lifespanHours: nat,
                                   priceSpread: real, meanShort: real, stdShort: real,
                                   volumeSpread: real, meanLong: real, stdLong: real)
    ensures var t := ComputeThresholds(meanShort, stdShort, meanLong, stdLong);
            var r := Decide(first, second, lifespanHours, priceSpread, volumeSpread, t);
            var d := DeviationRule(priceSpread, meanShort, stdShort, volumeSpread, meanLong, stdLong);
            && (|r| == 0 <==> d == {})
            && (|r| == 2 && r[0].direction == Up <==> Up in d)
            && (|r| == 2 && r[0].direction == Down <==> d == {Down})
  {
    var t := ComputeThresholds(meanShort, stdShort, meanLong, stdLong);
    var d := DeviationRule(priceSpread, meanShort, stdShort, volumeSpread, meanLong, stdLong);
    assert Up in d <==> UpFires(priceSpread, volumeSpread, t);
    assert Down in d <==> DownFires(priceSpread, volumeSpread, t);
    assert d <= {Up, Down};
    if Up !in d && Down !in d {
      assert d == {};
    }
    if Up !in d && Down in d {
      assert d == {Down};
    }
  }

  /** With a non-negative deviation the two branches can never both hold. */
  lemma BranchesExclusive(priceSpread: real, volumeSpread: real,
                          meanShort: real, stdShort: real, meanLong: real, stdLong: real)
    requires stdShort >= 0.0
    ensures var t := ComputeThresholds(meanShort, stdShort, meanLong, stdLong);
            !(UpFires(priceSpread, volumeSpread, t) && DownFires(priceSpread, volumeSpread, t))
  {
  }

  /**
  So with a non-negative deviation the priority between the branches is
  irrelevant: a fall is emitted exactly when the second branch's own condition holds.
  */
  lemma DownIndependentOfPriority(first: Symbol, second: Symbol, lifespanHours: nat,
                                  priceSpread: real, volumeSpread: real,
                                  meanShort: real, stdShort: real, meanLong: real, stdLong: real)
    requires stdShort >= 0.0
    ensures var t := ComputeThresholds(meanShort, stdShort, meanLong, stdLong);
            var r := Decide(first, second, lifespanHours, priceSpread, volumeSpread, t);
            (|r| == 2 && r[0].direction == Down) <==> DownFires(priceSpread, volumeSpread, t)
  {
    BranchesExclusive(priceSpread, volumeSpread, meanShort, stdShort, meanLong, stdLong);
  }

  /** A negative deviation makes both branches hold at once, and then the rise wins. */
  lemma NegativeDeviationRiseWins()
    ensures var t := ComputeThresholds(0.0, -1.0, 0.0, 0.0);
            && UpFires(0.0, 1.0, t) && DownFires(0.0, 1.0, t)
            && Decide("A", "B", 2, 0.0, 1.0, t) == [Signal("A", Up, 2), Signal("B", Down, 2)]
  {
  }

  /** Comparisons are strict: a spread exactly on a threshold never triggers that threshold's branch. */
  lemma TieAtThresholdNeverFires(first: Symbol, second: Symbol, lifespanHours: nat,
                                 priceSpread: real, volumeSpread: real, t: Thresholds)
    ensures var r := Decide(first, second, lifespanHours, priceSpread, volumeSpread, t);
            && (priceSpread == t.upper ==> !(|r| == 2 && r[0].direction == Up))
            && (priceSpread == t.lowerShort ==> !(|r| == 2 && r[0].direction == Down))
            && (volumeSpread == t.lowerLong ==> |r| == 0)
  {
  }

  /** A price spread sitting on its window's mean triggers nothing while the deviation is non-negative. */
  lemma SilentAtMean(first: Symbol, second: Symbol, lifespanHours: nat,
                     volumeSpread: real, meanShort: real, stdShort: real, meanLong: real, stdLong: real)
    requires stdShort >= 0.0
    ensures var t := ComputeThresholds(meanShort, stdShort, meanLong, stdLong);
            Decide(first, second, lifespanHours, meanShort, volumeSpread, t) == []
  {
  }
}
