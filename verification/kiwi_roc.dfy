/**
 * Scoring of little-spotted-kiwi call predictions against hand-labelled
 * ground truth: greedy one-to-one matching of predictions to labelled calls,
 * the TP/FP/FN counts, the feature-rule filter, and the counters and area of
 * the ROC curve.
 */
module KiwiRoc {
  import opened Common

  // ---------------------------------------------------------------------------
  // Sex of a predicted call
  // ---------------------------------------------------------------------------

  const Male: string := "M"
  const Female: string := "F"
  const UnknownSex: string := "???"

  predicate EndsWith(s: string, suffix: string)
  {
    |suffix| <= |s| && s[|s| - |suffix|..] == suffix
  }

  /** The sex a prediction's name encodes: a trailing "(m)" or "(f)", otherwise unknown. */
  function PredictedSex(name: string): string
  {
    if EndsWith(name, "(m)") then Male
    else if EndsWith(name, "(f)") then Female
    else UnknownSex
  }

  /** A name ends in at most one of the two tags, so the order of the tests does not matter. */
  lemma PredictedSexTags(name: string)
    ensures PredictedSex(name) == Male <==> EndsWith(name, "(m)")
    ensures PredictedSex(name) == Female <==> EndsWith(name, "(f)")
    ensures PredictedSex(name) == UnknownSex <==> !EndsWith(name, "(m)") && !EndsWith(name, "(f)")
  {
  }

  /** Tagging any stem gives that sex. */
  lemma PredictedSexOfTagged(stem: string)
    ensures PredictedSex(stem + "(m)") == Male && PredictedSex(stem + "(f)") == Female
  {
    assert (stem + "(m)")[|stem|..] == "(m)";
    assert (stem + "(f)")[|stem|..] == "(f)";
    PredictedSexTags(stem + "(f)");
  }

  // ---------------------------------------------------------------------------
  // Predictions, ground truth and output rows
  // ---------------------------------------------------------------------------

  /** One prediction: its start (absolute seconds, minute, second in minute), its feature scores and its name. */
  datatype Prediction = Prediction(startAbs: real, startMin: real, startSec: real, scores: seq<real>, name: string)

  /**
   * One labelled call. Its begin time is cleared (the source writes NaN)
   * once a prediction has used it.
   */
  class GroundTruthRow {
    var begin: Option<real>
    const sex: string
    const harmonics: int
    const quality: int

    constructor (begin: Option<real>, sex: string, harmonics: int, quality: int)
      ensures this.begin == begin && this.sex == sex && this.harmonics == harmonics && this.quality == quality
    {
      this.begin := begin;
      this.sex := sex;
      this.harmonics := harmonics;
      this.quality := quality;
    }
  }

  /** The value of a labelled call. */
  datatype Truth = Truth(begin: Option<real>, sex: string, harmonics: int, quality: int)

  /** The values of the labelled calls in the current state. */
  function Snapshot(rows: seq<GroundTruthRow>): (s: seq<Truth>)
    reads rows
  {
    seq(|rows|, j requires 0 <= j < |rows| reads rows => Truth(rows[j].begin, rows[j].sex, rows[j].harmonics, rows[j].quality))
  }

  /**
   * One output row. Columns a row does not set stay empty (`None`): the
   * scores of a false negative, the harmonics of an unmatched prediction.
   */
  datatype Row = Row(startAbs: real, startMin: real, startSec: real, scores: Option<seq<real>>,
                     predictedSex: string, harmonics: Option<int>, trueSex: string, quality: Option<int>,
                     tp: int, fp: int, fn: int)

  // ---------------------------------------------------------------------------
  // Matching
  // ---------------------------------------------------------------------------

  /** A labelled call may begin at most this many seconds before the prediction ... */
  const EarlyTolerance: real := 10.0
  /** ... and at most this many seconds after it. */
  const LateTolerance: real := 20.0

  /** The call is unused, begins within the tolerances of `start` and has the predicted sex. */
  predicate IsMatch(t: Truth, start: real, sex: string)
  {
    t.begin.Some? && start - EarlyTolerance <= t.begin.value <= start + LateTolerance && t.sex == sex
  }

  /** The first matching call, if any. */
  function FirstMatch(truths: seq<Truth>, start: real, sex: string): (k: Option<nat>)
    ensures k.Some? ==> k.value < |truths| && IsMatch(truths[k.value], start, sex) &&
                        (forall j :: 0 <= j < k.value ==> !IsMatch(truths[j], start, sex))
    ensures k.None? ==> forall j :: 0 <= j < |truths| ==> !IsMatch(truths[j], start, sex)
  {
    if truths == [] then None
    else
      var n := |truths| - 1;
      var k := FirstMatch(truths[..n], start, sex);
      if k.Some? then k
      else if IsMatch(truths[n], start, sex) then Some(n)
      else None
  }

  /** The output row of a prediction, matched to a call (a true positive) or not (a false positive). */
  function PredictionRow(p: Prediction, matched: Option<Truth>): Row
  {
    var sex := PredictedSex(p.name);
    match matched
    case None => Row(p.startAbs, p.startMin, p.startSec, Some(p.scores), sex, None, UnknownSex, Some(0), 0, 1, 0)
    case Some(t) => Row(p.startAbs, p.startMin, p.startSec, Some(p.scores), sex, Some(t.harmonics), t.sex, Some(t.quality), 1, 0, 0)
  }

  /** A call after a prediction has used it. */
  function Consumed(t: Truth): Truth
  {
    t.(begin := None)
  }

  /** Scores one prediction: its row, and the calls with the matched one used up. */
  function Classified(p: Prediction, truths: seq<Truth>): (Row, seq<Truth>)
  {
    match FirstMatch(truths, p.startAbs, PredictedSex(p.name))
    case None => (PredictionRow(p, None), truths)
    case Some(k) => (PredictionRow(p, Some(truths[k])), truths[k := Consumed(truths[k])])
  }

  /** Scores the predictions in order, each against the calls the earlier ones left. */
  function Matched(predictions: seq<Prediction>, truths: seq<Truth>): (r: (seq<Row>, seq<Truth>))
    ensures |r.0| == |predictions| && |r.1| == |truths|
  {
    if predictions == [] then ([], truths)
    else
      var n := |predictions| - 1;
      var (rows, left) := Matched(predictions[..n], truths);
      var (row, left') := Classified(predictions[n], left);
      (rows + [row], left')
  }

  /** The false-negative row of an unused call; its minute and second are cut from its begin time. */
  function FalseNegativeRow(t: Truth): Row
    requires t.begin.Some?
  {
    var s := t.begin.value;
    var minute := Truncate(s / 60.0);
    Row(s, minute as real, s - 60.0 * minute as real, None, UnknownSex, Some(t.harmonics), t.sex, Some(t.quality), 0, 0, 1)
  }

  /** One false-negative row per unused call, in order. */
  function FalseNegativeRows(truths: seq<Truth>): seq<Row>
  {
    if truths == [] then []
    else
      var n := |truths| - 1;
      FalseNegativeRows(truths[..n]) + (if truths[n].begin.Some? then [FalseNegativeRow(truths[n])] else [])
  }

  /** The count columns of an output row. */
  datatype Column = TP | FP | FN

  function Flag(row: Row, c: Column): int
  {
    match c
    case TP => row.tp
    case FP => row.fp
    case FN => row.fn
  }

  /** The number of rows whose `c` column is 1. */
  function Count(rows: seq<Row>, c: Column): nat
  {
    if rows == [] then 0
    else Count(rows[..|rows| - 1], c) + (if Flag(rows[|rows| - 1], c) == 1 then 1 else 0)
  }

  lemma {:induction false} CountAppend(a: seq<Row>, b: seq<Row>, c: Column)
    ensures Count(a + b, c) == Count(a, c) + Count(b, c)
    decreases |b|
  {
    if b == [] {
      assert a + b == a;
    } else {
      var n := |b| - 1;
      assert (a + b)[..|a + b| - 1] == a + b[..n];
      assert (a + b)[|a + b| - 1] == b[n];
      CountAppend(a, b[..n], c);
    }
  }

  /** The number of calls not yet used. */
  function Unused(truths: seq<Truth>): nat
  {
    if truths == [] then 0
    else Unused(truths[..|truths| - 1]) + (if truths[|truths| - 1].begin.Some? then 1 else 0)
  }

  lemma {:induction false} UnusedConsume(truths: seq<Truth>, k: int)
    requires 0 <= k < |truths| && truths[k].begin.Some?
    ensures Unused(truths[k := Consumed(truths[k])]) + 1 == Unused(truths)
    decreases |truths|
  {
    var n := |truths| - 1;
    var t' := truths[k := Consumed(truths[k])];
    if k < n {
      assert t'[..n] == truths[..n][k := Consumed(truths[k])];
      UnusedConsume(truths[..n], k);
    } else {
      assert t'[..n] == truths[..n];
    }
  }

  /**
   * Every prediction row has exactly one of TP and FP set, and each true
   * positive uses up exactly one call that was unused before.
   */
  lemma {:induction false} MatchedCounts(predictions: seq<Prediction>, truths: seq<Truth>)
    ensures var (rows, left) := Matched(predictions, truths);
      Count(rows, TP) + Count(rows, FP) == |predictions| && Count(rows, FN) == 0 &&
      Unused(left) + Count(rows, TP) == Unused(truths)
    decreases |predictions|
  {
    if predictions != [] {
      var n := |predictions| - 1;
      var (rows, left) := Matched(predictions[..n], truths);
      MatchedCounts(predictions[..n], truths);
      var p := predictions[n];
      var (row, left') := Classified(p, left);
      assert (rows + [row])[..|rows + [row]| - 1] == rows;
      match FirstMatch(left, p.startAbs, PredictedSex(p.name))
      case None =>
      case Some(k) =>
        UnusedConsume(left, k);
    }
  }

  /** A call keeps its label, and its begin time either stays or is cleared. */
  lemma {:induction false} MatchedOnlyClears(predictions: seq<Prediction>, truths: seq<Truth>)
    ensures var left := Matched(predictions, truths).1;
      forall j :: 0 <= j < |truths| ==>
        left[j] == truths[j] || left[j] == Consumed(truths[j])
    decreases |predictions|
  {
    if predictions != [] {
      MatchedOnlyClears(predictions[..|predictions| - 1], truths);
    }
  }

  /** The false-negative rows are exactly the unused calls. */
  lemma {:induction false} FalseNegativeCounts(truths: seq<Truth>)
    ensures var rows := FalseNegativeRows(truths);
      Count(rows, FN) == Unused(truths) && Count(rows, TP) == 0 && Count(rows, FP) == 0
    decreases |truths|
  {
    if truths != [] {
      var n := |truths| - 1;
      FalseNegativeCounts(truths[..n]);
      var extra := if truths[n].begin.Some? then [FalseNegativeRow(truths[n])] else [];
      CountAppend(FalseNegativeRows(truths[..n]), extra, TP);
      CountAppend(FalseNegativeRows(truths[..n]), extra, FP);
      CountAppend(FalseNegativeRows(truths[..n]), extra, FN);
    }
  }

  /**
   * The totals of a scoring run: TP + FP is the number of predictions and
   * TP + FN the number of calls that were unused at the start (all of them,
   * for freshly read ground truth).
   */
  lemma RecallPrecisionTotals(predictions: seq<Prediction>, truths: seq<Truth>)
    ensures var (rows, left) := Matched(predictions, truths);
      var output := rows + FalseNegativeRows(left);
      Count(output, TP) + Count(output, FP) == |predictions| &&
      Count(output, TP) + Count(output, FN) == Unused(truths)
  {
    var (rows, left) := Matched(predictions, truths);
    MatchedCounts(predictions, truths);
    FalseNegativeCounts(left);
    CountAppend(rows, FalseNegativeRows(left), TP);
    CountAppend(rows, FalseNegativeRows(left), FP);
    CountAppend(rows, FalseNegativeRows(left), FN);
  }

  /** Freshly read ground truth has every call unused. */
  lemma {:induction false} UnusedAll(truths: seq<Truth>)
    requires forall j :: 0 <= j < |truths| ==> truths[j].begin.Some?
    ensures Unused(truths) == |truths|
    decreases |truths|
  {
    if truths != [] {
      UnusedAll(truths[..|truths| - 1]);
    }
  }

  /** No two entries are the same row object (a data table never holds a row twice). */
  predicate Distinct(rows: seq<GroundTruthRow>)
  {
    forall i, j :: 0 <= i < j < |rows| ==> rows[i] != rows[j]
  }

  /** `state` holds the current values of the rows. */
  predicate Mirrors(rows: seq<GroundTruthRow>, state: seq<Truth>)
    reads rows
  {
    |rows| == |state| &&
    (forall q :: 0 <= q < |rows| ==> rows[q].begin == state[q].begin) &&
    (forall q :: 0 <= q < |rows| ==>
      state[q].sex == rows[q].sex && state[q].harmonics == rows[q].harmonics && state[q].quality == rows[q].quality)
  }

  lemma MirrorsSnapshot(rows: seq<GroundTruthRow>, state: seq<Truth>)
    requires Mirrors(rows, state)
    ensures Snapshot(rows) == state
  {
  }

  lemma MatchedStep(predictions: seq<Prediction>, i: int, truths: seq<Truth>)
    requires 0 <= i < |predictions|
    ensures Matched(predictions[..i + 1], truths) ==
      var (rows, left) := Matched(predictions[..i], truths);
      var (row, left') := Classified(predictions[i], left);
      (rows + [row], left')
  {
    assert predictions[..i + 1][..i] == predictions[..i];
  }

  lemma CountStep(rows: seq<Row>, row: Row, c: Column)
    ensures Count(rows + [row], c) == Count(rows, c) + if Flag(row, c) == 1 then 1 else 0
  {
    assert (rows + [row])[..|rows|] == rows;
  }

  lemma FalseNegativeRowsStep(truths: seq<Truth>, j: int)
    requires 0 <= j < |truths|
    ensures FalseNegativeRows(truths[..j + 1]) ==
      FalseNegativeRows(truths[..j]) + if truths[j].begin.Some? then [FalseNegativeRow(truths[j])] else []
  {
    assert truths[..j + 1][..j] == truths[..j];
  }

  /**
   * The first pass of `CalculateRecallPrecision` for one prediction: the
   * first unused call within tolerance of the same sex is marked used in
   * place, and the prediction's row records the match or its absence.
   */
  method MatchPrediction(p: Prediction, groundTruth: seq<GroundTruthRow>, ghost state: seq<Truth>)
    returns (row: Row, matched: bool, ghost state': seq<Truth>)
    requires Distinct(groundTruth) && Mirrors(groundTruth, state)
    modifies groundTruth
    ensures (row, state') == Classified(p, state)
    ensures matched <==> FirstMatch(state, p.startAbs, PredictedSex(p.name)).Some?
    ensures Mirrors(groundTruth, state')
  {
    var predictedSex := PredictedSex(p.name);
    var found: Option<nat> := None;
    var j := 0;
    while j < |groundTruth|
      invariant 0 <= j <= |groundTruth|
      invariant forall q :: 0 <= q < j ==> !IsMatch(state[q], p.startAbs, predictedSex)
    {
      var trueEvent := groundTruth[j];
      if trueEvent.begin.Some? && trueEvent.begin.value >= p.startAbs - EarlyTolerance &&
         trueEvent.begin.value <= p.startAbs + LateTolerance && predictedSex == trueEvent.sex {
        found := Some(j);
        break;
      }
      j := j + 1;
    }
    if found.Some? {
      var k := found.value;
      assert FirstMatch(state, p.startAbs, predictedSex) == Some(k);
      var trueEvent := groundTruth[k];
      row := PredictionRow(p, Some(Truth(trueEvent.begin, trueEvent.sex, trueEvent.harmonics, trueEvent.quality)));
      assert row == PredictionRow(p, Some(state[k]));
      trueEvent.begin := None;
      state' := state[k := Consumed(state[k])];
      matched := true;
    } else {
      assert FirstMatch(state, p.startAbs, predictedSex) == None;
      row := PredictionRow(p, None);
      state' := state;
      matched := false;
    }
  }

  /**
   * The second pass of `CalculateRecallPrecision`: one false-negative row
   * for every call that no prediction used, counted in the FN column.
   */
  method AppendFalseNegatives(groundTruth: seq<GroundTruthRow>, ghost state: seq<Truth>, rows: seq<Row>, tp: nat, fp: nat, fn: nat)
    returns (output: seq<Row>, fn': nat)
    requires Mirrors(groundTruth, state)
    requires tp == Count(rows, TP) && fp == Count(rows, FP) && fn == Count(rows, FN)
    ensures output == rows + FalseNegativeRows(state)
    ensures tp == Count(output, TP) && fp == Count(output, FP) && fn' == Count(output, FN)
  {
    output, fn' := rows, fn;
    for j := 0 to |groundTruth|
      invariant output == rows + FalseNegativeRows(state[..j])
      invariant tp == Count(output, TP) && fp == Count(output, FP) && fn' == Count(output, FN)
    {
      var trueEvent := groundTruth[j];
      FalseNegativeRowsStep(state, j);
      if trueEvent.begin.Some? {
        var row := FalseNegativeRow(Truth(trueEvent.begin, trueEvent.sex, trueEvent.harmonics, trueEvent.quality));
        assert row == FalseNegativeRow(state[j]);
        CountStep(output, row, TP);
        CountStep(output, row, FP);
        CountStep(output, row, FN);
        assert output + [row] == rows + (FalseNegativeRows(state[..j]) + [row]);
        output := output + [row];
        fn' := fn' + 1;
      } else {
        assert FalseNegativeRows(state[..j + 1]) == FalseNegativeRows(state[..j]) + [];
      }
    }
    assert state[..|groundTruth|] == state;
  }

  /**
   * `CalculateRecallPrecision`, after the files are read: scores each
   * prediction against the first unused call within tolerance of the same
   * sex, marks that call used in place, then adds a false-negative row for
   * every call still unused, counting TP, FP and FN as it goes.
   */
  method CalculateRecallPrecision(predictions: seq<Prediction>, groundTruth: seq<GroundTruthRow>)
    returns (output: seq<Row>, tp: nat, fp: nat, fn: nat)
    requires Distinct(groundTruth)
    modifies groundTruth
    ensures var (rows, left) := Matched(predictions, old(Snapshot(groundTruth)));
      output == rows + FalseNegativeRows(left) && Snapshot(groundTruth) == left
    ensures tp == Count(output, TP) && fp == Count(output, FP) && fn == Count(output, FN)
  {
    ghost var start := Snapshot(groundTruth);
    ghost var state := start;
    output, tp, fp, fn := [], 0, 0, 0;
    for i := 0 to |predictions|
      invariant (output, state) == Matched(predictions[..i], start)
      invariant Mirrors(groundTruth, state)
      invariant tp == Count(output, TP) && fp == Count(output, FP) && fn == Count(output, FN)
    {
      var row, matched;
      MatchedStep(predictions, i, start);
      row, matched, state := MatchPrediction(predictions[i], groundTruth, state);
      CountStep(output, row, TP);
      CountStep(output, row, FP);
      CountStep(output, row, FN);
      output := output + [row];
      if matched {
        tp := tp + 1;
      } else {
        fp := fp + 1;
      }
    }
    assert predictions[..|predictions|] == predictions;
    ghost var rows := output;
    output, fn := AppendFalseNegatives(groundTruth, state, output, tp, fp, fn);
    MirrorsSnapshot(groundTruth, state);
  }

  // ---------------------------------------------------------------------------
  // Feature-rule filter
  // ---------------------------------------------------------------------------

  /** The names of the feature columns the exclusion rules refer to. */
  datatype FeatureKeys = FeatureKeys(bandwidth: string, intensity: string, snr: string, delta: string)

  /**
   * One test of a rule: when the rule names `key` with operator "LT", the
   * event's value for it is compared with the rule's value (below it, or
   * above it for the tests that use `>`). A missing column is a fault.
   */
  function Test(event: map<string, real>, key: string, feature: string, op: string, value: real, below: bool): Outcome<bool>
  {
    if feature == key && op == "LT" then
      if key in event then Ok(if below then event[key] < value else event[key] > value) else Fail(MissingColumn)
    else Ok(false)
  }

  /**
   * Whether one rule `[feature, operator, value]` excludes the event: the
   * bandwidth and signal-to-noise tests exclude values below the rule's
   * value, the intensity and delta tests values above it. A short rule is an
   * index fault and an unparsable value a format fault.
   */
  function RuleFires(event: map<string, real>, rule: seq<string>, keys: FeatureKeys,
                     parse: string -> Option<real>): Outcome<bool>
  {
    if |rule| < 3 then Fail(IndexOutOfRange)
    else match parse(rule[2])
      case None => Fail(BadFormat)
      case Some(value) =>
        var feature, op := rule[0], rule[1];
        match Test(event, keys.bandwidth, feature, op, value, true)
        case Fail(f) => Fail(f)
        case Ok(true) => Ok(true)
        case Ok(false) =>
          match Test(event, keys.intensity, feature, op, value, false)
          case Fail(f) => Fail(f)
          case Ok(true) => Ok(true)
          case Ok(false) =>
            match Test(event, keys.snr, feature, op, value, true)
            case Fail(f) => Fail(f)
            case Ok(true) => Ok(true)
            case Ok(false) => Test(event, keys.delta, feature, op, value, false)
  }

  /** The rules in order: the first that fires drops the event (`None`); none firing keeps it. */
  function Filtered(event: map<string, real>, rules: seq<seq<string>>, keys: FeatureKeys,
                    parse: string -> Option<real>): Outcome<Option<map<string, real>>>
  {
    if rules == [] then Ok(Some(event))
    else match RuleFires(event, rules[0], keys, parse)
      case Fail(f) => Fail(f)
      case Ok(true) => Ok(None)
      case Ok(false) => Filtered(event, rules[1..], keys, parse)
  }

  /** Rule `i` fires and every rule before it passes. */
  predicate FiresFirst(event: map<string, real>, rules: seq<seq<string>>, keys: FeatureKeys,
                       parse: string -> Option<real>, i: int)
  {
    0 <= i < |rules| && RuleFires(event, rules[i], keys, parse) == Ok(true) &&
    forall j :: 0 <= j < i ==> RuleFires(event, rules[j], keys, parse) == Ok(false)
  }

  /** Every rule passes. */
  predicate AllPass(event: map<string, real>, rules: seq<seq<string>>, keys: FeatureKeys, parse: string -> Option<real>)
  {
    forall j :: 0 <= j < |rules| ==> RuleFires(event, rules[j], keys, parse) == Ok(false)
  }

  /**
   * The filter either faults, drops the event exactly when some rule fires
   * after all earlier rules passed, or returns the event itself unchanged.
   */
  lemma {:induction false} FilteredMeaning(event: map<string, real>, rules: seq<seq<string>>, keys: FeatureKeys,
                                           parse: string -> Option<real>)
    ensures var r := Filtered(event, rules, keys, parse);
      (r == Ok(None) <==> exists i :: FiresFirst(event, rules, keys, parse, i)) &&
      (r.Ok? && r.value.Some? <==> AllPass(event, rules, keys, parse)) &&
      (r.Ok? && r.value.Some? ==> r.value.value == event)
    decreases |rules|
  {
    if rules != [] {
      var first := RuleFires(event, rules[0], keys, parse);
      FilteredMeaning(event, rules[1..], keys, parse);
      if first == Ok(false) {
        PassFirst(event, rules, keys, parse);
      } else if first == Ok(true) {
        assert FiresFirst(event, rules, keys, parse, 0);
      } else {
        assert forall i :: FiresFirst(event, rules, keys, parse, i) ==> i == 0;
      }
    }
  }

  /** When the first rule passes, the rules that fire first and the rules that all pass are those of the rest, shifted by one. */
  lemma PassFirst(event: map<string, real>, rules: seq<seq<string>>, keys: FeatureKeys, parse: string -> Option<real>)
    requires rules != [] && RuleFires(event, rules[0], keys, parse) == Ok(false)
    ensures (exists i :: FiresFirst(event, rules, keys, parse, i)) <==> (exists i :: FiresFirst(event, rules[1..], keys, parse, i))
    ensures AllPass(event, rules, keys, parse) <==> AllPass(event, rules[1..], keys, parse)
  {
    var rest := rules[1..];
    assert forall j :: 0 <= j < |rest| ==> rest[j] == rules[j + 1];
    if exists i :: FiresFirst(event, rest, keys, parse, i) {
      var i :| FiresFirst(event, rest, keys, parse, i);
      assert FiresFirst(event, rules, keys, parse, i + 1);
    }
    if exists i :: FiresFirst(event, rules, keys, parse, i) {
      var i :| FiresFirst(event, rules, keys, parse, i);
      assert i > 0;
      assert FiresFirst(event, rest, keys, parse, i - 1);
    }
  }

  /** `FilterEvent`: scans the rules and stops at the first that fires or faults. */
  method FilterEvent(acousticEvent: map<string, real>, rules: seq<seq<string>>, keys: FeatureKeys,
                     parse: string -> Option<real>) returns (r: Outcome<Option<map<string, real>>>)
    ensures r == Filtered(acousticEvent, rules, keys, parse)
  {
    for i := 0 to |rules|
      invariant Filtered(acousticEvent, rules, keys, parse) == Filtered(acousticEvent, rules[i..], keys, parse)
    {
      var fires := RuleFires(acousticEvent, rules[i], keys, parse);
      assert rules[i..][1..] == rules[i + 1..];
      if fires.Fail? {
        return Fail(fires.fault);
      }
      if fires.value {
        return Ok(None);
      }
    }
    r := Ok(Some(acousticEvent));
  }

  // ---------------------------------------------------------------------------
  // ROC curve
  // ---------------------------------------------------------------------------

  /** A row counts as a true positive when its TP column is 1, else as a false positive when its FP column is. */
  predicate CountsAsTP(row: Row)
  {
    row.tp == 1
  }

  predicate CountsAsFP(row: Row)
  {
    row.tp != 1 && row.fp == 1
  }

  /** `count / total` as the source computes a rate in doubles. */
  function Rate(count: nat, total: int): (r: real)
    requires total != 0
    ensures total > 0 ==> r >= 0.0
  {
    count as real / total as real
  }

  /** The mean of recall and precision, with precision `tp / (tp + fp)`. */
  function Accuracy(recall: real, tp: nat, fp: nat): real
    requires tp + fp > 0
  {
    (recall + Rate(tp, tp + fp)) / 2.0
  }

  /** The area added by one row: specificity times the rise in recall. */
  function AreaStep(specificity: real, recall: real, previousRecall: real): (d: real)
    ensures specificity >= 0.0 && recall >= previousRecall ==> d >= 0.0
  {
    specificity * (recall - previousRecall)
  }

  /** The state of the ROC scan after some rows. */
  datatype RocState = RocState(cumulativeTP: nat, cumulativeFP: nat, previousRecall: real, area: real,
                               curve: seq<real>, maxAccuracy: real, optimumCount: nat, count: nat)

  const RocStart: RocState := RocState(0, 0, 0.0, 0.0, [], 0.0, 0, 0)

  /**
   * One row of the scan, for non-zero totals: update the counters, take
   * recall and specificity, update the best accuracy (skipped while
   * precision is 0/0), and add `specificity * (recall - previousRecall)` to
   * the area, keeping the positive steps as the curve.
   */
  function RocStep(s: RocState, row: Row, totalPositiveCount: int, totalNegativeCount: int): RocState
    requires totalPositiveCount != 0 && totalNegativeCount != 0
  {
    var tp := if CountsAsTP(row) then s.cumulativeTP + 1 else s.cumulativeTP;
    var fp := if CountsAsFP(row) then s.cumulativeFP + 1 else s.cumulativeFP;
    var recall := Rate(tp, totalPositiveCount);
    var specificity := Rate(fp, totalNegativeCount);
    var better := tp + fp > 0 && Accuracy(recall, tp, fp) > s.maxAccuracy;
    var maxAccuracy := if better then Accuracy(recall, tp, fp) else s.maxAccuracy;
    var optimumCount := if better then s.count else s.optimumCount;
    var delta := AreaStep(specificity, recall, s.previousRecall);
    RocState(tp, fp, recall, s.area + delta, if delta > 0.0 then s.curve + [delta] else s.curve,
             maxAccuracy, optimumCount, s.count + 1)
  }

  /** The scan over the rows in the order given. */
  function RocScan(rows: seq<Row>, totalPositiveCount: int, totalNegativeCount: int): RocState
    requires totalPositiveCount != 0 && totalNegativeCount != 0
  {
    if rows == [] then RocStart
    else RocStep(RocScan(rows[..|rows| - 1], totalPositiveCount, totalNegativeCount), rows[|rows| - 1],
                 totalPositiveCount, totalNegativeCount)
  }

  lemma RocScanStep(rows: seq<Row>, i: int, totalPositiveCount: int, totalNegativeCount: int)
    requires totalPositiveCount != 0 && totalNegativeCount != 0 && 0 <= i < |rows|
    ensures RocScan(rows[..i + 1], totalPositiveCount, totalNegativeCount) ==
      RocStep(RocScan(rows[..i], totalPositiveCount, totalNegativeCount), rows[i], totalPositiveCount, totalNegativeCount)
  {
    assert rows[..i + 1][..i] == rows[..i];
  }

  function CountTP(rows: seq<Row>): nat
  {
    if rows == [] then 0 else CountTP(rows[..|rows| - 1]) + if CountsAsTP(rows[|rows| - 1]) then 1 else 0
  }

  function CountFP(rows: seq<Row>): nat
  {
    if rows == [] then 0 else CountFP(rows[..|rows| - 1]) + if CountsAsFP(rows[|rows| - 1]) then 1 else 0
  }

  /**
   * The counters after any prefix are the numbers of rows in it counted as
   * TP and as FP, and they never decrease along the scan.
   */
  lemma {:induction false} RocCounters(rows: seq<Row>, i: int, totalPositiveCount: int, totalNegativeCount: int)
    requires totalPositiveCount != 0 && totalNegativeCount != 0 && 0 <= i <= |rows|
    ensures var s := RocScan(rows, totalPositiveCount, totalNegativeCount);
      var p := RocScan(rows[..i], totalPositiveCount, totalNegativeCount);
      s.cumulativeTP == CountTP(rows) && s.cumulativeFP == CountFP(rows) &&
      p.cumulativeTP <= s.cumulativeTP && p.cumulativeFP <= s.cumulativeFP && s.count == |rows|
    decreases |rows|
  {
    if rows != [] {
      var n := |rows| - 1;
      if i <= n {
        assert rows[..n][..i] == rows[..i];
        RocCounters(rows[..n], i, totalPositiveCount, totalNegativeCount);
      } else {
        assert rows[..i] == rows;
        RocCounters(rows[..n], n, totalPositiveCount, totalNegativeCount);
      }
    }
  }

  /**
   * With positive totals every step of the area is non-negative (recall
   * never decreases), so the area is the sum of the curve's steps.
   */
  lemma {:induction false} RocAreaIsCurveSum(rows: seq<Row>, totalPositiveCount: int, totalNegativeCount: int)
    requires totalPositiveCount > 0 && totalNegativeCount > 0
    ensures var s := RocScan(rows, totalPositiveCount, totalNegativeCount);
      s.area == Sum(s.curve) && s.area >= 0.0 && s.maxAccuracy >= 0.0 &&
      s.previousRecall == Rate(s.cumulativeTP, totalPositiveCount)
    decreases |rows|
  {
    if rows != [] {
      var n := |rows| - 1;
      var s := RocScan(rows[..n], totalPositiveCount, totalNegativeCount);
      RocAreaIsCurveSum(rows[..n], totalPositiveCount, totalNegativeCount);
      var s' := RocStep(s, rows[n], totalPositiveCount, totalNegativeCount);
      RateMonotone(s.cumulativeTP, s'.cumulativeTP, totalPositiveCount);
      var delta := AreaStep(Rate(s'.cumulativeFP, totalNegativeCount), s'.previousRecall, s.previousRecall);
      assert s'.area == s.area + delta;
      if delta > 0.0 {
        assert s'.curve == s.curve + [delta];
        assert (s.curve + [delta])[..|s.curve|] == s.curve;
      }
    }
  }

  lemma RateMonotone(a: nat, b: nat, total: int)
    requires a <= b && total > 0
    ensures Rate(a, total) <= Rate(b, total)
  {
    assert Rate(b, total) - Rate(a, total) == (b - a) as real / total as real;
  }

  /** The summary the scan reports. */
  datatype RocSummary = RocSummary(area: real, curve: seq<real>, maxAccuracy: real, optimumCount: nat)

  /**
   * `ROCCurve` over rows already sorted by score: the area under the curve,
   * the positive steps, the best accuracy and where it was reached. A zero
   * total makes every step non-finite, which the model reports as a fault.
   */
  method RocCurve(rows: seq<Row>, totalPositiveCount: int, totalNegativeCount: int) returns (r: Outcome<RocSummary>)
    ensures rows != [] && (totalPositiveCount == 0 || totalNegativeCount == 0) <==> r == Fail(NotANumber)
    ensures r.Ok? && totalPositiveCount != 0 && totalNegativeCount != 0 ==>
      var s := RocScan(rows, totalPositiveCount, totalNegativeCount);
      r.value == RocSummary(s.area, s.curve, s.maxAccuracy, s.optimumCount)
    ensures r.Ok? && (totalPositiveCount == 0 || totalNegativeCount == 0) ==> r.value == RocSummary(0.0, [], 0.0, 0)
  {
    if rows != [] && (totalPositiveCount == 0 || totalNegativeCount == 0) {
      return Fail(NotANumber);
    }
    if rows == [] {
      return Ok(RocSummary(0.0, [], 0.0, 0));
    }
    var scan := RocStart;
    for i := 0 to |rows|
      invariant scan == RocScan(rows[..i], totalPositiveCount, totalNegativeCount)
    {
      RocScanStep(rows, i, totalPositiveCount, totalNegativeCount);
      scan := ScanRow(scan, rows[i], totalPositiveCount, totalNegativeCount);
    }
    assert rows[..|rows|] == rows;
    r := Ok(RocSummary(scan.area, scan.curve, scan.maxAccuracy, scan.optimumCount));
  }

  /** The body of `ROCCurve`'s loop: one row updates the counters, the best accuracy and the area. */
  method ScanRow(scan: RocState, row: Row, totalPositiveCount: int, totalNegativeCount: int) returns (next: RocState)
    requires totalPositiveCount != 0 && totalNegativeCount != 0
    ensures next == RocStep(scan, row, totalPositiveCount, totalNegativeCount)
  {
    var cumulativeTP, cumulativeFP := scan.cumulativeTP, scan.cumulativeFP;
    var maxAccuracy, optimumCount := scan.maxAccuracy, scan.optimumCount;
    if row.tp == 1 {
      cumulativeTP := cumulativeTP + 1;
    } else if row.fp == 1 {
      cumulativeFP := cumulativeFP + 1;
    }
    var recall := Rate(cumulativeTP, totalPositiveCount);
    var specificity := Rate(cumulativeFP, totalNegativeCount);
    if cumulativeTP + cumulativeFP > 0 {
      var accuracy := Accuracy(recall, cumulativeTP, cumulativeFP);
      if accuracy > maxAccuracy {
        optimumCount := scan.count;
        maxAccuracy := accuracy;
      }
    }
    var delta := AreaStep(specificity, recall, scan.previousRecall);
    var curve := if delta > 0.0 then scan.curve + [delta] else scan.curve;
    next := RocState(cumulativeTP, cumulativeFP, recall, scan.area + delta, curve, maxAccuracy, optimumCount, scan.count + 1);
  }
}
