/** The calibration registry: research models loaded from files, and the mirrored copy the live path reads. */
module Registry {
  import opened Options
  import opened Reals
  import opened Interpolation
  import RankStatistic
  import LogisticFit

  const SUPPORTED_VERSION := "1.0.0"
  const MIN_OOS_AUC: real := 0.52
  const MIN_SAMPLE_SIZE: int := 100

  datatype CalibrationFile = CalibrationFile(
    version: string,
    strategy: string,
    oosAUC: real,
    nSamples: int,
    kind: string,
    params: map<string, real>,
    bins: seq<Bin>)

  /** A directory entry: something that does not parse, or a parsed file. */
  datatype Entry = Unreadable | Parsed(file: CalibrationFile)

  datatype JsonModel = JsonModel(strategyID: string, kind: string, a: real, b: real, bins: seq<Bin>, version: string, nSamples: int)

  function Param(f: CalibrationFile, name: string): real {
    if name in f.params then f.params[name] else 0.0
  }

  function ModelOf(f: CalibrationFile): JsonModel {
    if f.kind == "logistic" then
      JsonModel(f.strategy, f.kind, Param(f, "a"), Param(f, "b"), [], f.version, f.nSamples)
    else
      JsonModel(f.strategy, f.kind, 0.0, 0.0, f.bins, f.version, f.nSamples)
  }

  // ----- Which files count -----

  /** The entry passes the quality gate. */
  ghost predicate Eligible(e: Entry) {
    && e.Parsed?
    && e.file.version == SUPPORTED_VERSION
    && e.file.strategy != ""
    && e.file.oosAUC >= MIN_OOS_AUC
    && e.file.nSamples >= MIN_SAMPLE_SIZE
    && (e.file.kind == "logistic" || (e.file.kind == "isotonic" && Rising(e.file.bins)))
  }

  ghost predicate EligibleFor(e: Entry, sid: string) {
    Eligible(e) && e.file.strategy == sid
  }

  /** Entry `i` has more samples than every eligible entry of its strategy before it. */
  ghost predicate Record(h: seq<Entry>, i: nat, sid: string)
    requires i < |h|
  {
    EligibleFor(h[i], sid) && forall j :: 0 <= j < i && EligibleFor(h[j], sid) ==> h[j].file.nSamples < h[i].file.nSamples
  }

  /** The last record of a strategy among the first `n` entries. */
  ghost function LastRecord(h: seq<Entry>, n: nat, sid: string): (r: Option<nat>)
    requires n <= |h|
    ensures r.Some? ==> r.value < n && Record(h, r.value, sid)
  {
    if n == 0 then None else if Record(h, n - 1, sid) then Some(n - 1) else LastRecord(h, n - 1, sid)
  }

  /** The last record that is a logistic model. */
  ghost function LastLogistic(h: seq<Entry>, n: nat, sid: string): (r: Option<nat>)
    requires n <= |h|
    ensures r.Some? ==> r.value < n && Record(h, r.value, sid) && h[r.value].file.kind == "logistic"
  {
    if n == 0 then None
    else if Record(h, n - 1, sid) && h[n - 1].file.kind == "logistic" then Some(n - 1)
    else LastLogistic(h, n - 1, sid)
  }

  /** The last record is the earliest eligible entry with the greatest sample count. */
  lemma {:induction false} LastRecordIsBest(h: seq<Entry>, n: nat, sid: string)
    requires n <= |h|
    ensures match LastRecord(h, n, sid)
            case Some(i) => forall j :: 0 <= j < n && EligibleFor(h[j], sid) ==>
              h[j].file.nSamples <= h[i].file.nSamples && (j < i ==> h[j].file.nSamples < h[i].file.nSamples)
            case None => forall j :: 0 <= j < n ==> !EligibleFor(h[j], sid)
  {
    if n > 0 {
      LastRecordIsBest(h, n - 1, sid);
    }
  }

  lemma {:induction false} RecordsOfPrefix(h: seq<Entry>, more: seq<Entry>, n: nat, sid: string)
    requires n <= |h|
    ensures LastRecord(h + more, n, sid) == LastRecord(h, n, sid)
    ensures LastLogistic(h + more, n, sid) == LastLogistic(h, n, sid)
  {
    if n > 0 {
      RecordsOfPrefix(h, more, n - 1, sid);
      RecordOfPrefix(h, more, n - 1, sid);
    }
  }

  lemma {:induction false} RecordOfPrefix(h: seq<Entry>, more: seq<Entry>, i: nat, sid: string)
    requires i < |h|
    ensures (h + more)[i] == h[i] && (Record(h + more, i, sid) <==> Record(h, i, sid))
  {
    assert forall j :: 0 <= j <= i ==> (h + more)[j] == h[j];
    if !Record(h, i, sid) && EligibleFor(h[i], sid) {
      var j :| 0 <= j < i && EligibleFor(h[j], sid) && h[j].file.nSamples >= h[i].file.nSamples;
      assert EligibleFor((h + more)[j], sid);
    }
  }

  /** A new entry changes the standing of a strategy exactly if it is eligible for it and beats the incumbent. */
  lemma {:induction false} NewEntry(h: seq<Entry>, e: Entry, sid: string)
    ensures var h' := h + [e];
      var before := LastRecord(h, |h|, sid);
      var wins := EligibleFor(e, sid) && (before.Some? ==> h[before.value].file.nSamples < e.file.nSamples);
      && LastRecord(h', |h'|, sid) == (if wins then Some(|h|) else before)
      && LastLogistic(h', |h'|, sid) == (if wins && e.file.kind == "logistic" then Some(|h|) else LastLogistic(h, |h|, sid))
  {
    var h' := h + [e];
    RecordsOfPrefix(h, [e], |h|, sid);
    LastRecordIsBest(h, |h|, sid);
    assert h'[|h|] == e && forall j :: 0 <= j < |h| ==> h'[j] == h[j];
    var before := LastRecord(h, |h|, sid);
    if before.Some? && EligibleFor(e, sid) {
      assert EligibleFor(h'[before.value], sid);
    }
  }

  /** The winning sample count never falls as more files are loaded. */
  lemma {:induction false} SamplesNeverFall(h: seq<Entry>, more: seq<Entry>, sid: string)
    ensures LastRecord(h, |h|, sid).Some? ==>
      && LastRecord(h + more, |h + more|, sid).Some?
      && h[LastRecord(h, |h|, sid).value].file.nSamples
         <= (h + more)[LastRecord(h + more, |h + more|, sid).value].file.nSamples
  {
    LastRecordIsBest(h + more, |h + more|, sid);
    if LastRecord(h, |h|, sid).Some? {
      var i := LastRecord(h, |h|, sid).value;
      assert (h + more)[i] == h[i] && EligibleFor((h + more)[i], sid);
    }
  }

  // ----- The objects -----

  class CalibrationModel {
    const strategyID: string
    var sigmoidA: real
    var sigmoidB: real
    var sampleSize: int
    var isActive: bool
    var status: string

    constructor (strategyID: string, a: real, b: real, sampleSize: int, isActive: bool, status: string)
      ensures this.strategyID == strategyID && sigmoidA == a && sigmoidB == b
      ensures this.sampleSize == sampleSize && this.isActive == isActive && this.status == status
    {
      this.strategyID := strategyID;
      sigmoidA, sigmoidB := a, b;
      this.sampleSize, this.isActive, this.status := sampleSize, isActive, status;
    }

    /** The model may surface a probability. */
    predicate Validated()
      reads this
    {
      isActive && (status == "VALIDATED" || status == "PROMOTED")
    }

    ghost predicate Mirrors(f: CalibrationFile)
      reads this
    {
      && sigmoidA == Param(f, "a") && sigmoidB == Param(f, "b") && sampleSize == f.nSamples
      && isActive && status == "VALIDATED"
    }
  }

  /** The strategies that have a provisional default. */
  const SEEDED: set<string> := {"STANDARD_SCALPING", "ULTRA_SCALPING", "STANDARD_SWING", "TREND_SWING"}

  class Consumer {
    var models: map<string, CalibrationModel>
    var jsonModels: map<string, JsonModel>
    ghost var history: seq<Entry>   // every entry ever offered to the loader

    /** Each strategy's research model is its best file so far. */
    ghost predicate Valid()
      reads this
    {
      && (forall sid :: sid in models ==> models[sid].strategyID == sid)
      && forall sid :: Current(sid)
    }

    ghost predicate Current(sid: string)
      reads this
    {
      match LastRecord(history, |history|, sid)
      case Some(i) => sid in jsonModels && jsonModels[sid] == ModelOf(history[i].file)
      case None => sid !in jsonModels
    }

    /** The live copy is the last logistic record; a strategy without one serves nothing. */
    ghost predicate Mirrored()
      reads this, models.Values
    {
      forall sid :: Faithful(sid)
    }

    ghost predicate Faithful(sid: string)
      reads this, models.Values
    {
      match LastLogistic(history, |history|, sid)
      case Some(i) => sid in models && models[sid].Mirrors(history[i].file)
      case None => sid in models ==> !models[sid].Validated()
    }

    constructor ()
      ensures Valid() && Mirrored() && history == [] && models == map[]
    {
      models, jsonModels, history := map[], map[], [];
    }

    method SetModel(model: CalibrationModel)
      requires Valid()
      modifies this
      ensures Valid() && history == old(history) && jsonModels == old(jsonModels)
      ensures models == old(models)[model.strategyID := model]
    {
      models := models[model.strategyID := model];
      assert forall sid :: old(Current(sid)) ==> Current(sid);
    }

    /** The live model of `sid` is an unvalidated default with these coefficients. */
    ghost predicate Provisional(sid: string, a: real, b: real)
      reads this, models.Values
    {
      && sid in models && models[sid].sigmoidA == a && models[sid].sigmoidB == b
      && models[sid].sampleSize == 100 && models[sid].isActive && models[sid].status == "PROVISIONAL"
    }

    /** Install the provisional defaults over whatever live models their strategies have. The live copies stay
        faithful exactly if none of those strategies has a logistic record yet. */
    method SeedDefaultModels()
      requires Valid()
      modifies this
      ensures Valid() && history == old(history) && jsonModels == old(jsonModels)
      ensures Provisional("STANDARD_SCALPING", 2.5, -0.5) && Provisional("ULTRA_SCALPING", 3.0, -0.8)
      ensures Provisional("STANDARD_SWING", 2.0, -0.3) && Provisional("TREND_SWING", 1.8, -0.2)
      ensures models.Keys == old(models).Keys + SEEDED
      ensures forall sid :: sid in old(models) && sid !in SEEDED ==> models[sid] == old(models)[sid]
      ensures old(Mirrored()) ==>
        (Mirrored() <==> forall sid :: sid in SEEDED ==> LastLogistic(history, |history|, sid) == None)
    {
      InstallDefaults();
      if old(Mirrored()) {
        forall sid | sid !in SEEDED
          ensures Faithful(sid)
        {
          assert old(Faithful(sid));
        }
        MirroredBesideSeeds();
      }
    }

    method InstallDefaults()
      requires Valid()
      modifies this
      ensures Valid() && history == old(history) && jsonModels == old(jsonModels)
      ensures Provisional("STANDARD_SCALPING", 2.5, -0.5) && Provisional("ULTRA_SCALPING", 3.0, -0.8)
      ensures Provisional("STANDARD_SWING", 2.0, -0.3) && Provisional("TREND_SWING", 1.8, -0.2)
      ensures models.Keys == old(models).Keys + SEEDED
      ensures forall sid :: sid in old(models) && sid !in SEEDED ==> models[sid] == old(models)[sid]
    {
      SeedOne("STANDARD_SCALPING", 2.5, -0.5);
      SeedOne("ULTRA_SCALPING", 3.0, -0.8);
      SeedOne("STANDARD_SWING", 2.0, -0.3);
      SeedOne("TREND_SWING", 1.8, -0.2);
    }

    lemma {:induction false} MirroredBesideSeeds()
      requires forall sid :: sid !in SEEDED ==> Faithful(sid)
      requires forall sid :: sid in SEEDED ==> sid in models && !models[sid].Validated()
      ensures Mirrored() <==> forall sid :: sid in SEEDED ==> LastLogistic(history, |history|, sid) == None
    {
      if forall sid :: sid in SEEDED ==> LastLogistic(history, |history|, sid) == None {
        assert forall sid :: Faithful(sid);
      } else {
        var sid :| sid in SEEDED && LastLogistic(history, |history|, sid).Some?;
        assert !Faithful(sid);
      }
    }

    method SeedOne(sid: string, a: real, b: real)
      requires Valid()
      modifies this
      ensures Valid() && history == old(history) && jsonModels == old(jsonModels)
      ensures Provisional(sid, a, b) && models == old(models)[sid := models[sid]]
    {
      var m := new CalibrationModel(sid, a, b, 100, true, "PROVISIONAL");
      SetModel(m);
    }

    /** One directory scan. */
    method LoadJSONModels(entries: seq<Entry>)
      requires Valid() && Mirrored()
      modifies this, models.Values
      ensures Valid() && Mirrored() && history == old(history) + entries
    {
      ghost var before := history;
      for i := 0 to |entries|
        invariant Valid() && Mirrored() && history == before + entries[..i]
        invariant forall m :: m in models.Values ==> m in old(models.Values) || fresh(m)
      {
        assert before + entries[..i + 1] == before + entries[..i] + [entries[i]];
        LoadEntry(entries[i]);
      }
      assert entries[..|entries|] == entries;
    }

    method LoadEntry(e: Entry)
      requires Valid() && Mirrored()
      modifies this, models.Values
      ensures Valid() && Mirrored() && history == old(history) + [e]
      ensures forall m :: m in models.Values ==> m in old(models.Values) || fresh(m)
    {
      var ok := PassesGate(e);
      if !ok {
        Skip(e);
        return;
      }
      var f := e.file;
      if f.strategy in jsonModels && jsonModels[f.strategy].nSamples >= f.nSamples {
        assert Current(f.strategy);
        Skip(e);
        return;
      }
      Install(e);
    }

    /** The quality gate, in the loader's order. */
    method PassesGate(e: Entry) returns (ok: bool)
      ensures ok <==> Eligible(e)
    {
      if e.Unreadable? {
        return false;
      }
      var f := e.file;
      if f.version != SUPPORTED_VERSION {
        return false;
      }
      if f.strategy == "" {
        return false;
      }
      if f.oosAUC < MIN_OOS_AUC {
        return false;
      }
      if f.nSamples < MIN_SAMPLE_SIZE {
        return false;
      }
      if f.kind == "isotonic" {
        var rising := BinsMonotonic(f.bins);
        if !rising {
          return false;
        }
      }
      return f.kind == "logistic" || f.kind == "isotonic";
    }

    /** The entry is of no strategy's interest, or does not beat the incumbent. */
    ghost predicate Beaten(e: Entry)
      reads this
    {
      Eligible(e) ==>
        var best := LastRecord(history, |history|, e.file.strategy);
        best.Some? && history[best.value].file.nSamples >= e.file.nSamples
    }

    ghost method Skip(e: Entry)
      requires Valid() && Mirrored() && Beaten(e)
      modifies this`history
      ensures Valid() && Mirrored() && history == old(history) + [e]
    {
      ghost var h := history;
      history := history + [e];
      forall sid
        ensures Current(sid) && Faithful(sid)
      {
        NewEntry(h, e, sid);
        assert old(Current(sid)) && old(Faithful(sid));
      }
    }

    method Install(e: Entry)
      requires Valid() && Mirrored() && Eligible(e) && !Beaten(e)
      modifies this, models.Values
      ensures Valid() && Mirrored() && history == old(history) + [e]
      ensures forall m :: m in models.Values ==> m in old(models.Values) || fresh(m)
    {
      ghost var h := history;
      var f := e.file;
      var sid := f.strategy;
      jsonModels := jsonModels[sid := ModelOf(f)];
      if f.kind == "logistic" {
        Mirror(f);
      }
      history := history + [e];
      forall s
        ensures Current(s) && Faithful(s)
      {
        NewEntry(h, e, s);
        assert old(Current(s)) && old(Faithful(s));
      }
    }

    /** Copy a logistic file into the live model of its strategy, creating the model if there is none. */
    method Mirror(f: CalibrationFile)
      requires forall sid :: sid in models ==> models[sid].strategyID == sid
      modifies this`models, models.Values
      ensures forall sid :: sid in models ==> models[sid].strategyID == sid
      ensures models.Keys == old(models.Keys) + {f.strategy} && models[f.strategy].Mirrors(f)
      ensures forall sid :: sid in models && sid != f.strategy ==> models[sid] == old(models)[sid] && unchanged(models[sid])
      ensures forall m :: m in models.Values ==> m in old(models.Values) || fresh(m)
    {
      var sid := f.strategy;
      if sid !in models {
        var blank := new CalibrationModel(sid, 0.0, 0.0, 0, false, "");
        models := models[sid := blank];
      }
      var cm := models[sid];
      cm.sigmoidA := Param(f, "a");
      cm.sigmoidB := Param(f, "b");
      cm.sampleSize := f.nSamples;
      cm.isActive := true;
      cm.status := "VALIDATED";
    }

    // ----- Serving -----

    /** The live path: a probability only from a validated model. */
    function Calibrate(exp: real -> real, sid: string, rawScore: real): Option<real>
      requires LogisticFit.IsExp(exp)
      reads this, models.Values
    {
      if sid !in models || !models[sid].Validated() then None
      else
        var x := OnUnitScale(ClampScore(rawScore));
        Some(LogisticFit.Sigmoid(exp, Times(models[sid].sigmoidA, x) + models[sid].sigmoidB))
    }

    /** The research path: logistic or isotonic, whatever file won. */
    function ProbabilityFor(exp: real -> real, sid: string, rawScore: real): Option<real>
      requires LogisticFit.IsExp(exp)
      reads this
    {
      if sid !in jsonModels then None
      else
        var m := jsonModels[sid];
        var x := OnUnitScale(ClampScore(rawScore));
        if m.kind == "isotonic" then Some(InterpBins(m.bins, x))
        else Some(LogisticFit.Sigmoid(exp, Times(m.a, x) + m.b))
    }
  }

  function ClampScore(s: real): real {
    if s < 0.0 then 0.0 else if s > 100.0 then 100.0 else s
  }

  function OnUnitScale(s: real): real {
    s / 100.0
  }

  // ----- What the two paths serve -----

  /** The live path serves a strategy exactly if some logistic file ever set a record for it, and the research
      path exactly if any eligible file was ever offered: nothing below the gate surfaces. */
  lemma {:induction false} ServedExactlyWhen(c: Consumer, exp: real -> real, sid: string, score: real)
    requires c.Valid() && c.Mirrored() && LogisticFit.IsExp(exp)
    ensures c.Calibrate(exp, sid, score).Some? <==>
      exists i :: 0 <= i < |c.history| && Record(c.history, i, sid) && c.history[i].file.kind == "logistic"
    ensures c.ProbabilityFor(exp, sid, score).Some? <==>
      exists i :: 0 <= i < |c.history| && EligibleFor(c.history[i], sid)
  {
    assert c.Current(sid) && c.Faithful(sid);
    LastRecordIsBest(c.history, |c.history|, sid);
    NoLogisticRecord(c.history, |c.history|, sid);
  }

  lemma {:induction false} NoLogisticRecord(h: seq<Entry>, n: nat, sid: string)
    requires n <= |h|
    ensures LastLogistic(h, n, sid) == None ==>
      forall i :: 0 <= i < n ==> !(Record(h, i, sid) && h[i].file.kind == "logistic")
  {
    if n > 0 {
      NoLogisticRecord(h, n - 1, sid);
    }
  }

  /** Both paths serve from the same file exactly while the best file is logistic (or there is none at all and no
      earlier logistic record): an isotonic winner leaves the live path on the last logistic record. */
  lemma {:induction false} SameSourceExactlyWhen(h: seq<Entry>, n: nat, sid: string)
    requires n <= |h|
    ensures LastLogistic(h, n, sid) == LastRecord(h, n, sid) <==>
      LastRecord(h, n, sid).Some? ==> h[LastRecord(h, n, sid).value].file.kind == "logistic"
  {
    if n > 0 && !Record(h, n - 1, sid) {
      SameSourceExactlyWhen(h, n - 1, sid);
    }
  }

  /** Whenever the best file is logistic, the two paths give the same probability for every score. */
  lemma {:induction false} PathsAgree(c: Consumer, exp: real -> real, sid: string, score: real)
    requires c.Valid() && c.Mirrored() && LogisticFit.IsExp(exp)
    requires sid in c.jsonModels && c.jsonModels[sid].kind == "logistic"
    ensures c.Calibrate(exp, sid, score).Some? && c.Calibrate(exp, sid, score) == c.ProbabilityFor(exp, sid, score)
  {
    assert c.Current(sid) && c.Faithful(sid);
    SameSourceExactlyWhen(c.history, |c.history|, sid);
  }

  /** A provisional default serves nothing on the live path, even if a logistic file had set a record before the
      defaults were installed; the research path goes on serving that strategy. */
  lemma {:induction false} SeededServesNothing(c: Consumer, exp: real -> real, sid: string, a: real, b: real, score: real)
    requires c.Valid() && c.Provisional(sid, a, b) && LogisticFit.IsExp(exp)
    ensures c.Calibrate(exp, sid, score) == None
    ensures c.ProbabilityFor(exp, sid, score).Some? <==>
      exists i :: 0 <= i < |c.history| && EligibleFor(c.history[i], sid)
  {
    assert c.Current(sid);
    LastRecordIsBest(c.history, |c.history|, sid);
  }

  /** A logistic file followed by a larger isotonic one: the research path moves on, the live path does not. */
  lemma {:induction false} StaleWitness(logistic: CalibrationFile, isotonic: CalibrationFile)
    requires Eligible(Parsed(logistic)) && logistic.kind == "logistic"
    requires Eligible(Parsed(isotonic)) && isotonic.kind == "isotonic"
    requires isotonic.strategy == logistic.strategy && isotonic.nSamples > logistic.nSamples
    ensures var h := [Parsed(logistic), Parsed(isotonic)];
      LastRecord(h, 2, logistic.strategy) == Some(1) && LastLogistic(h, 2, logistic.strategy) == Some(0)
  {
    var h, sid := [Parsed(logistic), Parsed(isotonic)], logistic.strategy;
    assert Record(h, 0, sid) && Record(h, 1, sid);
    assert LastLogistic(h, 1, sid) == Some(0);
  }

  /** The research path serves probabilities that never fall as the score rises exactly unless the winner is a
      logistic file with a negative slope: the gate checks isotonic knots but not the sign of a logistic slope. */
  lemma {:induction false} ResearchPathMonotoneExactlyWhen(c: Consumer, exp: real -> real, sid: string)
    requires c.Valid() && LogisticFit.IsExp(exp) && sid in c.jsonModels
    ensures (forall s, t :: s <= t ==> c.ProbabilityFor(exp, sid, s).value <= c.ProbabilityFor(exp, sid, t).value)
            <==> (c.jsonModels[sid].kind == "logistic" ==> c.jsonModels[sid].a >= 0.0)
  {
    if c.jsonModels[sid].kind == "logistic" && c.jsonModels[sid].a < 0.0 {
      ScoreAsNormalized(0.0);
      ScoreAsNormalized(100.0);
      LogisticFit.FallingSlope(exp, c.jsonModels[sid].a, c.jsonModels[sid].b);
      assert c.ProbabilityFor(exp, sid, 100.0).value < c.ProbabilityFor(exp, sid, 0.0).value;
    } else {
      forall s, t | s <= t
        ensures c.ProbabilityFor(exp, sid, s).value <= c.ProbabilityFor(exp, sid, t).value
      {
        ResearchPathMonotone(c, exp, sid, s, t);
      }
    }
  }

  /** A file with slope -1 passes the gate; served by the research path it promises less for score 100 than for 0. */
  lemma {:induction false} FallingModelWitness(c: Consumer, exp: real -> real)
    requires c.Valid() && LogisticFit.IsExp(exp) && c.history == [Parsed(FALLING)]
    ensures Eligible(Parsed(FALLING))
    ensures c.ProbabilityFor(exp, FALLING.strategy, 0.0).Some? && c.ProbabilityFor(exp, FALLING.strategy, 100.0).Some?
    ensures c.ProbabilityFor(exp, FALLING.strategy, 100.0).value < c.ProbabilityFor(exp, FALLING.strategy, 0.0).value
  {
    var h, sid := [Parsed(FALLING)], FALLING.strategy;
    assert Record(h, 0, sid) && LastRecord(h, 1, sid) == Some(0);
    assert c.Current(sid);
    ScoreAsNormalized(0.0);
    ScoreAsNormalized(100.0);
    LogisticFit.FallingSlope(exp, -1.0, 0.0);
  }

  const FALLING: CalibrationFile :=
    CalibrationFile(SUPPORTED_VERSION, "TREND_SWING", 0.6, 1000, "logistic", map["a" := -1.0, "b" := 0.0], [])

  lemma {:induction false} ResearchPathMonotone(c: Consumer, exp: real -> real, sid: string, s: real, t: real)
    requires c.Valid() && LogisticFit.IsExp(exp) && sid in c.jsonModels && s <= t
    requires c.jsonModels[sid].kind == "logistic" ==> c.jsonModels[sid].a >= 0.0
    ensures c.ProbabilityFor(exp, sid, s).value <= c.ProbabilityFor(exp, sid, t).value
  {
    assert c.Current(sid);
    var m := c.jsonModels[sid];
    ScoreAsNormalized(s);
    ScoreAsNormalized(t);
    LogisticFit.NormalizeMonotone(s, t);
    if m.kind == "isotonic" {
      GateImpliesMonotone(m.bins, OnUnitScale(ClampScore(s)), OnUnitScale(ClampScore(t)));
    } else {
      LogisticFit.RisingSlope(exp, m.a, m.b, s, t);
    }
  }

  /** The loader's clamp-then-scale is the calibrator's scale-then-clamp. */
  lemma {:induction false} ScoreAsNormalized(s: real)
    ensures OnUnitScale(ClampScore(s)) == RankStatistic.Normalize(s)
  {
  }

  // ----- In plain terms -----

  /** The gate: a parsed file of version 1.0.0 for a named strategy, with an out-of-sample AUC of at least 0.52 and at
      least 100 samples, logistic or isotonic with probabilities that never fall. */
  lemma {:induction false} EligibleExactlyWhen(e: Entry)
    ensures Eligible(e) <==>
      && e.Parsed? && e.file.version == "1.0.0" && e.file.strategy != ""
      && e.file.oosAUC >= 0.52 && e.file.nSamples >= 100
      && (e.file.kind == "logistic"
          || (e.file.kind == "isotonic" && e.file.bins != []
              && forall i, j :: 0 <= i <= j < |e.file.bins| ==> e.file.bins[i].p <= e.file.bins[j].p))
  {
  }

  /** The score on the unit scale. */
  function OnScale(score: real): real {
    if score < 0.0 then 0.0 else if score > 100.0 then 1.0 else score / 100.0
  }

  /** The probability the file's own parameters give a score. */
  ghost function Logistic(exp: real -> real, f: CalibrationFile, score: real): real
    requires LogisticFit.IsExp(exp)
  {
    var a := if "a" in f.params then f.params["a"] else 0.0;
    var b := if "b" in f.params then f.params["b"] else 0.0;
    Over(1.0, 1.0 + exp(-(Times(a, OnScale(score)) + b)))
  }

  /** The live path gives the probability of the last logistic record, from that file's own parameters. */
  lemma {:induction false} LiveProbability(c: Consumer, exp: real -> real, sid: string, score: real)
    requires c.Valid() && c.Mirrored() && LogisticFit.IsExp(exp) && LastLogistic(c.history, |c.history|, sid).Some?
    ensures var f := c.history[LastLogistic(c.history, |c.history|, sid).value].file;
      c.Calibrate(exp, sid, score) == Some(Logistic(exp, f, score))
  {
    assert c.Faithful(sid);
    assert OnUnitScale(ClampScore(score)) == OnScale(score);
  }

  /** The research path gives the probability of the best file, by its own kind. */
  lemma {:induction false} ResearchProbability(c: Consumer, exp: real -> real, sid: string, score: real)
    requires c.Valid() && LogisticFit.IsExp(exp) && LastRecord(c.history, |c.history|, sid).Some?
    ensures var f := c.history[LastRecord(c.history, |c.history|, sid).value].file;
      c.ProbabilityFor(exp, sid, score)
      == Some(if f.kind == "isotonic" then InterpBins(f.bins, OnScale(score)) else Logistic(exp, f, score))
  {
    assert c.Current(sid);
    assert OnUnitScale(ClampScore(score)) == OnScale(score);
  }
}
