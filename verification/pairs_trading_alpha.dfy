/**
The pairs-trading alpha model: per update it turns the two instruments'
current price and volume into a damped price spread and a volume sum, pushes
each into its window, reads the thresholds from the windows as they stand
after the push, and emits nothing or a correlated pair of opposite insights.
When the tracked securities change, it replays historical closes into the
short window only.

The mean and standard-deviation indicators of one window are always updated
together with the same value, so one `Window` holds the samples of both. The
standard deviation is left abstract: `sd` maps a window's samples to its
deviation, and is applied to the window after the current sample entered it.
*/
module PairsTradingAlpha {
  import opened RollingWindow
  import opened Insights

  /** Capacity of the short (price-spread) window. */
  const ShortCapacity: nat := 500
  /** Capacity of the long (volume) window. */
  const LongCapacity: nat := 2500
  /** Lifespan of every emitted insight, in hours. */
  const PeriodHours: nat := 2
  /** Factor applied to the live price difference, and not to the warm-up one. */
  const Damping: real := 0.9

  /** The current price and volume of one security. */
  datatype Observation = Observation(price: real, volume: real)

  /**
  One row of the unstacked close-price history: its close columns in the
  frame's column order, one column per security the history has data for.
  */
  datatype HistoryRow = HistoryRow(closes: seq<real>)

  datatype AlphaModel = AlphaModel(pair: seq<Symbol>, short: Window, long: Window, periodHours: nat)

  datatype Error =
    | PairTooShort  // an update indexes the second security of a pair that has fewer than two
    | RowTooShort   // a warm-up row has fewer than two close columns

  datatype Result<T> = Ok(value: T) | Err(error: Error)

  /** How a warm-up replay ended: after every row, or with an error part-way. */
  datatype Completion = Completed | Raised(error: Error)

  /** The model after an update and the insights that update returned. */
  datatype Step = Step(model: AlphaModel, insights: seq<Signal>)

  predicate WellFormed(m: AlphaModel) {
    && Valid(m.short) && m.short.capacity == ShortCapacity
    && Valid(m.long) && m.long.capacity == LongCapacity
    && m.periodHours == PeriodHours
  }

  /** A standard-deviation reading that is never negative, whatever the window. */
  ghost predicate NonNegative(sd: seq<real> -> real) {
    forall s :: sd(s) >= 0.0
  }

  /** The freshly constructed model: no pair, empty windows of 500 and 2500, two-hour insights. */
  function Init(): (m: AlphaModel)
    ensures WellFormed(m)
    ensures m.pair == [] && m.short.samples == [] && m.long.samples == []
    ensures m.short.capacity == 500 && m.long.capacity == 2500 && m.periodHours == 2
  {
    AlphaModel([], Empty(ShortCapacity), Empty(LongCapacity), PeriodHours)
  }

  /**
  One live update. `market` gives each security's current price and volume.
  A pair of fewer than two securities fails before any window is touched.
  */
  function Update(m: AlphaModel, market: Symbol -> Observation, sd: seq<real> -> real): (r: Result<Step>)
    requires WellFormed(m)
    ensures r.Err? <==> |m.pair| < 2
    ensures r.Ok? ==> WellFormed(r.value.model) && r.value.model.pair == m.pair
    ensures r.Ok? ==> |r.value.insights| == 0
                      || IsCorrelatedPair(r.value.insights, m.pair[0], m.pair[1], PeriodHours)
    ensures r.Ok? ==>
              var a := market(m.pair[0]);
              var b := market(m.pair[1]);
              && r.value.model.short.samples == LastN(m.short.samples + [(b.price - a.price) * 0.9], 500)
              && r.value.model.long.samples == LastN(m.long.samples + [b.volume + a.volume], 2500)
  {
    if |m.pair| < 2 then Err(PairTooShort)
    else
      var a := market(m.pair[0]);
      var b := market(m.pair[1]);
      var spread1 := (b.price - a.price) * Damping;
      var short := Push(m.short, spread1);
      var spread2 := b.volume + a.volume;
      var long := Push(m.long, spread2);
      var t := ComputeThresholds(Mean(short.samples), sd(short.samples), Mean(long.samples), sd(long.samples));
      var insights := Decide(m.pair[0], m.pair[1], m.periodHours, spread1, spread2, t);
      Ok(Step(m.(short := short, long := long), insights))
  }

  /**
  The decision of an update, stated against the windows that include the
  current samples: a rise for the first security when the price spread is
  above one deviation over the mean and the volume sum above one deviation
  under its mean; otherwise a fall when the price spread is below two
  deviations under the mean on the same volume condition; otherwise nothing.
  */
  lemma UpdateDecidesOnUpdatedWindows(m: AlphaModel, market: Symbol -> Observation, sd: seq<real> -> real)
    requires WellFormed(m)
    requires |m.pair| >= 2
    ensures var a := market(m.pair[0]);
            var b := market(m.pair[1]);
            var p := (b.price - a.price) * 0.9;
            var v := b.volume + a.volume;
            var s := LastN(m.short.samples + [p], 500);
            var l := LastN(m.long.samples + [v], 2500);
            var rises := p > Mean(s) + sd(s) && v > Mean(l) - sd(l);
            var falls := p < Mean(s) - 2.0 * sd(s) && v > Mean(l) - sd(l);
            var ins := Update(m, market, sd).value.insights;
            && (ins == [Signal(m.pair[0], Up, 2), Signal(m.pair[1], Down, 2)] <==> rises)
            && (ins == [Signal(m.pair[0], Down, 2), Signal(m.pair[1], Up, 2)] <==> !rises && falls)
            && (ins == [] <==> !rises && !falls)
  {
    var a := market(m.pair[0]);
    var b := market(m.pair[1]);
    var p := (b.price - a.price) * Damping;
    var v := b.volume + a.volume;
    var short := Push(m.short, p);
    var long := Push(m.long, v);
    var t := ComputeThresholds(Mean(short.samples), sd(short.samples), Mean(long.samples), sd(long.samples));
    var ins := Decide(m.pair[0], m.pair[1], m.periodHours, p, v, t);
    assert Update(m, market, sd).value.insights == ins;
    if |ins| == 2 {
      assert ins == [ins[0], ins[1]];
    }
  }

  /**
  Because the current price spread is inside the window its mean comes from, a
  rise needs an earlier retained sample strictly below the current spread and
  a fall needs one strictly above it.
  */
  lemma SignalNeedsEarlierSampleOnOtherSide(m: AlphaModel, market: Symbol -> Observation, sd: seq<real> -> real)
    requires WellFormed(m)
    requires |m.pair| >= 2
    requires NonNegative(sd)
    ensures var r := Update(m, market, sd).value;
            var s := r.model.short.samples;
            var p := s[|s| - 1];
            && (|r.insights| == 2 && r.insights[0].direction == Up ==>
                  exists i :: 0 <= i < |s| - 1 && s[i] < p)
            && (|r.insights| == 2 && r.insights[0].direction == Down ==>
                  exists i :: 0 <= i < |s| - 1 && s[i] > p)
  {
    var a := market(m.pair[0]);
    var b := market(m.pair[1]);
    var p := (b.price - a.price) * Damping;
    var v := b.volume + a.volume;
    var short := Push(m.short, p);
    var long := Push(m.long, v);
    var t := ComputeThresholds(Mean(short.samples), sd(short.samples), Mean(long.samples), sd(long.samples));
    var r := Update(m, market, sd).value;
    assert r.model.short == short;
    assert r.insights == Decide(m.pair[0], m.pair[1], m.periodHours, p, v, t);
    var s := short.samples;
    assert s[|s| - 1] == p;
    assert sd(s) >= 0.0;
    if |r.insights| == 2 && r.insights[0].direction == Up {
      if forall i :: 0 <= i < |s| - 1 ==> s[i] >= p {
        MeanAtLeastLowerBound(s, p);
      }
    }
    if |r.insights| == 2 && r.insights[0].direction == Down {
      if forall i :: 0 <= i < |s| - 1 ==> s[i] <= p {
        MeanAtMostUpperBound(s, p);
      }
    }
  }

  /** With an empty short window, the first update after construction emits nothing. */
  lemma FirstUpdateIsSilent(m: AlphaModel, market: Symbol -> Observation, sd: seq<real> -> real)
    requires WellFormed(m)
    requires |m.pair| >= 2
    requires m.short.samples == []
    requires NonNegative(sd)
    ensures Update(m, market, sd).value.insights == []
  {
    SignalNeedsEarlierSampleOnOtherSide(m, market, sd);
  }

  /**
  A short window that has only ever seen the value `c`, followed by a live
  price spread equal to `c`, emits nothing: the mean is `c` and the spread
  sits on it.
  */
  lemma ConstantSpreadIsSilent(m: AlphaModel, market: Symbol -> Observation, sd: seq<real> -> real, c: real)
    requires WellFormed(m)
    requires |m.pair| >= 2
    requires forall i :: 0 <= i < |m.short.samples| ==> m.short.samples[i] == c
    requires (market(m.pair[1]).price - market(m.pair[0]).price) * 0.9 == c
    requires NonNegative(sd)
    ensures Update(m, market, sd).value.insights == []
  {
    var a := market(m.pair[0]);
    var b := market(m.pair[1]);
    var v := b.volume + a.volume;
    var short := Push(m.short, c);
    var long := Push(m.long, v);
    var s := short.samples;
    assert forall i :: 0 <= i < |s| ==> s[i] == c by {
      var u := m.short.samples + [c];
      assert s == u[|u| - |s|..];
      forall i | 0 <= i < |s| ensures s[i] == c {
        assert s[i] == u[|u| - |s| + i];
      }
    }
    MeanOfConstant(s, c);
    SilentAtMean(m.pair[0], m.pair[1], m.periodHours, v, Mean(s), sd(s), Mean(long.samples), sd(long.samples));
    assert Update(m, market, sd).value.insights
        == Decide(m.pair[0], m.pair[1], m.periodHours, c, v,
                  ComputeThresholds(Mean(s), sd(s), Mean(long.samples), sd(long.samples)));
  }

  /** Every row has at least the two close columns the replay reads. */
  predicate RowsReadable(rows: seq<HistoryRow>) {
    forall i :: 0 <= i < |rows| ==> |rows[i].closes| >= 2
  }

  /** The number of leading rows the replay gets through before a row with fewer than two closes. */
  function ReadablePrefix(rows: seq<HistoryRow>): (k: nat)
    ensures k <= |rows|
    ensures RowsReadable(rows[..k])
    ensures k < |rows| ==> |rows[k].closes| < 2
    decreases |rows|
  {
    if |rows| == 0 || |rows[0].closes| < 2 then 0
    else
      var k := 1 + ReadablePrefix(rows[1..]);
      assert rows[..k] == [rows[0]] + rows[1..][..k - 1];
      k
  }

  /**
  The warm-up samples of readable rows: one per row, in row order, each the
  second close minus the first, with no damping.
  */
  function WarmupSamples(rows: seq<HistoryRow>): (xs: seq<real>)
    requires RowsReadable(rows)
    ensures |xs| == |rows|
    ensures forall i :: 0 <= i < |rows| ==> xs[i] == rows[i].closes[1] - rows[i].closes[0]
    decreases |rows|
  {
    if |rows| == 0 then []
    else [rows[0].closes[1] - rows[0].closes[0]] + WarmupSamples(rows[1..])
  }

  /**
  A warm-up sample carries no damping: when the live prices equal a history
  row's two closes, the sample an update pushes is 0.9 times the sample that
  row contributes during warm-up.
  */
  lemma WarmupIsUndamped(m: AlphaModel, market: Symbol -> Observation, sd: seq<real> -> real, row: HistoryRow)
    requires WellFormed(m)
    requires |m.pair| >= 2
    requires |row.closes| >= 2
    requires market(m.pair[0]).price == row.closes[0] && market(m.pair[1]).price == row.closes[1]
    ensures var s := Update(m, market, sd).value.model.short.samples;
            s[|s| - 1] == 0.9 * WarmupSamples([row])[0]
  {
    var w := WarmupSamples([row]);
    assert w[0] == row.closes[1] - row.closes[0];
  }

  /**
  The securities changed: the pair becomes the added securities and each
  history row's undamped close difference is fed, in row order, into the
  short window only. A row with fewer than two close columns raises before
  it updates anything; the pair is then already replaced and the rows before
  it have already been fed. Neither window is reset, and the volume window and
  the insight lifespan are left as they were.
  */
  method OnSecuritiesChanged(m: AlphaModel, added: seq<Symbol>, history: seq<HistoryRow>)
    returns (m': AlphaModel, status: Completion)
    requires WellFormed(m)
    ensures WellFormed(m')
    ensures m'.pair == added
    ensures m'.long == m.long && m'.periodHours == m.periodHours
    ensures status == Completed <==> RowsReadable(history)
    ensures status != Completed ==> status == Raised(RowTooShort)
    ensures var fed := history[..ReadablePrefix(history)];
            && m'.short.samples == LastN(m.short.samples + WarmupSamples(fed), 500)
            && m'.short == Feed(m.short, WarmupSamples(fed))
    ensures |history| > 0 && |added| < 2 && (forall i :: 0 <= i < |history| ==> |history[i].closes| <= |added|)
            ==> status == Raised(RowTooShort) && m'.short == m.short
  {
    var short, fed := ReplayHistory(m.short, history);
    ReplayStopsAtFirstShortRow(history, fed);
    if fed < |history| {
      status := Raised(RowTooShort);
    } else {
      status := Completed;
    }
    m' := m.(pair := added, short := short);
  }

  /**
  The replay loop: feeds each row's close difference into `w` until the rows
  run out or a row has fewer than two closes, and says how many rows it fed.
  */
  method ReplayHistory(w: Window, rows: seq<HistoryRow>) returns (w': Window, fed: nat)
    requires Valid(w)
    ensures fed == ReadablePrefix(rows)
    ensures Valid(w') && w'.capacity == w.capacity
    ensures w'.samples == LastN(w.samples + WarmupSamples(rows[..fed]), w.capacity)
    ensures w' == Feed(w, WarmupSamples(rows[..fed]))
    ensures fed == 0 ==> w' == w
  {
    ghost var k := ReadablePrefix(rows);
    ghost var xs := WarmupSamples(rows[..k]);
    w' := w;
    fed := 0;
    while fed < |rows| && |rows[fed].closes| >= 2
      invariant fed <= k
      invariant Valid(w') && w'.capacity == w.capacity
      invariant w'.samples == LastN(w.samples + xs[..fed], w.capacity)
      invariant fed == 0 ==> w' == w
    {
      var row := rows[fed];
      assert rows[..k][fed] == row;
      var x := row.closes[1] - row.closes[0];
      ReplayStep(w, w', xs, fed, x);
      w' := Push(w', x);
      fed := fed + 1;
    }
    ReplayStopsAtFirstShortRow(rows, fed);
    assert xs == WarmupSamples(rows[..fed]);
    assert xs[..fed] == xs;
    ReplayMatchesFeed(w, xs, w');
  }

  /** One more replayed sample keeps the window equal to the most recent inputs. */
  lemma ReplayStep(w: Window, cur: Window, xs: seq<real>, i: nat, x: real)
    requires Valid(cur) && cur.capacity == w.capacity
    requires i < |xs| && xs[i] == x
    requires cur.samples == LastN(w.samples + xs[..i], w.capacity)
    ensures Push(cur, x).samples == LastN(w.samples + xs[..i + 1], w.capacity)
  {
    var before := w.samples + xs[..i];
    LastNOfLastN(before, [x], w.capacity);
    assert xs[..i + 1] == xs[..i] + [x];
    assert before + [x] == w.samples + xs[..i + 1];
  }

  /** The loop's exit point is the readable prefix, and the run completed exactly when every row is readable. */
  lemma ReplayStopsAtFirstShortRow(rows: seq<HistoryRow>, i: nat)
    requires i <= ReadablePrefix(rows)
    requires i == |rows| || |rows[i].closes| < 2
    ensures i == ReadablePrefix(rows)
    ensures i == |rows| <==> RowsReadable(rows)
  {
    var k := ReadablePrefix(rows);
    if i == |rows| {
      assert rows[..k] == rows;
    } else {
      assert !RowsReadable(rows);
    }
  }

  /** A replayed window whose samples are the most recent inputs is the fold of those inputs. */
  lemma ReplayMatchesFeed(w: Window, xs: seq<real>, short: Window)
    requires Valid(w) && Valid(short) && short.capacity == w.capacity
    requires short.samples == LastN(w.samples + xs, w.capacity)
    ensures short == Feed(w, xs)
  {
    FeedKeepsMostRecent(w, xs);
  }
}
