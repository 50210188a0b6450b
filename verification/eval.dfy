/**
 * The single-process passes `run_eval` and `run_embed`: the guard both apply
 * before any device, model or data setup, and the callback list and metric
 * results that `run_eval` assembles around the (external) evaluation epoch.
 */
module EvalDispatch {
  import opened Results
  import opened PyValues

  const SavePredictions := "save_predictions"

  datatype PassKind = EvalPass | EmbedPass

  /** The exceptions the eval and embed passes raise. */
  datatype PassError =
    | AttributeMissing(name: string)      // AttributeError on `args.<name>`
    | NoPretrainedModel                   // ValueError("Must specify pretrained model")
    | DistributedUnsupported(pass: PassKind)  // ValueError("TAPE does not support distributed ... pass")
    | NotANameList(name: string)          // TypeError iterating a non-list, or a non-string name
    | MissingOutput(key: string)          // KeyError on `save_outputs[key]`
    | NoBatches                           // IndexError on `save_outputs[0]`
    | MissingField(key: string)           // KeyError on `output[key]` of a later batch

  /**
   * `from_pretrained is None` is refused first, then `local_rank != -1`;
   * nothing else is read before these two checks pass.
   */
  function CheckSingleProcess(args: Bag, pass: PassKind): (r: Result<(), PassError>)
    ensures r.Ok? <==>
      "from_pretrained" in args && !args["from_pretrained"].None?
      && "local_rank" in args && EqualsInt(args["local_rank"], -1)
    ensures "from_pretrained" in args && args["from_pretrained"].None? ==> r == Err(NoPretrainedModel)
    ensures r == Err(DistributedUnsupported(pass)) <==>
      "from_pretrained" in args && !args["from_pretrained"].None?
      && "local_rank" in args && !EqualsInt(args["local_rank"], -1)
    ensures "from_pretrained" !in args ==> r == Err(AttributeMissing("from_pretrained"))
    ensures ("from_pretrained" in args && !args["from_pretrained"].None? && "local_rank" !in args) ==>
      r == Err(AttributeMissing("local_rank"))
  {
    if "from_pretrained" !in args then Err(AttributeMissing("from_pretrained"))
    else if args["from_pretrained"].None? then Err(NoPretrainedModel)
    else if "local_rank" !in args then Err(AttributeMissing("local_rank"))
    else if !EqualsInt(args["local_rank"], -1) then Err(DistributedUnsupported(pass))
    else Ok(())
  }

  /** Reads a list-of-names field such as `args.save_callback` or `args.metrics`. */
  function NameList(args: Bag, name: string): (r: Result<seq<string>, PassError>)
    ensures r.Ok? ==> name in args && args[name].List? && |r.value| == |args[name].items|
    ensures r.Ok? ==> forall i :: 0 <= i < |r.value| ==> args[name].items[i] == Str(r.value[i])
    ensures name !in args ==> r == Err(AttributeMissing(name))
    ensures name in args && !args[name].List? ==> r == Err(NotANameList(name))
    ensures r.Ok? <==>
      (name in args && args[name].List?
       && forall i :: 0 <= i < |args[name].items| ==> args[name].items[i].Str?)
    ensures r.Err? && name in args ==> r.error == NotANameList(name)
  {
    if name !in args then Err(AttributeMissing(name))
    else if !args[name].List? then Err(NotANameList(name))
    else Names(args[name].items, name)
  }

  /** The strings of `names` as a Python list value. */
  function StrList(names: seq<string>): (v: Value)
    ensures v.List? && |v.items| == |names|
    ensures forall i :: 0 <= i < |names| ==> v.items[i] == Str(names[i])
  {
    List(seq(|names|, i requires 0 <= i < |names| => Str(names[i])))
  }

  /** A list of names stored in the namespace reads back as exactly those names. */
  lemma {:induction false} NameListReadsBack(args: Bag, name: string, names: seq<string>)
    ensures NameList(args[name := StrList(names)], name) == Ok(names)
  {
    var r := NameList(args[name := StrList(names)], name);
    assert r.Ok?;
    assert r.value == names;
  }

  function Names(items: seq<Value>, name: string): (r: Result<seq<string>, PassError>)
    ensures r.Ok? <==> forall i :: 0 <= i < |items| ==> items[i].Str?
    ensures r.Ok? ==> |r.value| == |items| && forall i :: 0 <= i < |items| ==> items[i] == Str(r.value[i])
    ensures r.Err? ==> r.error == NotANameList(name)
  {
    if |items| == 0 then Ok([])
    else if !items[0].Str? then Err(NotANameList(name))
    else match Names(items[1..], name)
      case Err(e) => Err(e)
      case Ok(rest) =>
        assert forall i :: 1 <= i < |items| ==> items[i] == items[1..][i - 1];
        Ok([items[0].s] + rest)
  }

  /**
   * The save callbacks of an eval pass: the requested ones in order, with
   * `save_predictions` appended when metrics are asked for and it was not
   * requested.
   */
  function SaveCallbacks(requested: seq<string>, metrics: seq<string>): (r: seq<string>)
    ensures |r| >= |requested| && r[..|requested|] == requested
    ensures |metrics| > 0 && SavePredictions !in requested ==> r == requested + [SavePredictions]
    ensures |metrics| == 0 || SavePredictions in requested ==> r == requested
  {
    if |metrics| > 0 && SavePredictions !in requested then requested + [SavePredictions] else requested
  }

  /** `save_predictions` runs exactly when it was requested or a metric needs the predictions. */
  lemma SavePredictionsRunsIff(requested: seq<string>, metrics: seq<string>)
    ensures SavePredictions in SaveCallbacks(requested, metrics) <==> SavePredictions in requested || |metrics| > 0
    ensures forall c :: c in SaveCallbacks(requested, metrics) && c != SavePredictions ==> c in requested
  {
  }

  /** Assembling twice adds nothing: `save_predictions` is never appended a second time. */
  lemma SaveCallbacksIdempotent(requested: seq<string>, metrics: seq<string>)
    ensures SaveCallbacks(SaveCallbacks(requested, metrics), metrics) == SaveCallbacks(requested, metrics)
  {
  }

  /**
   * One result per requested metric, each computed from the target and
   * prediction fields of the accumulated outputs. With no metric names
   * nothing is indexed, so missing keys only matter when a metric is
   * requested. `metric(name, targets, predictions)` stands for the
   * registry's metric function of that name.
   */
  function MetricResults(names: seq<string>, outputs: map<string, Value>, targetKey: string,
                         predictionKey: string, metric: (string, Value, Value) -> Value)
    : (r: Result<map<string, Value>, PassError>)
    ensures |names| == 0 ==> r == Ok(map[])
    ensures r.Err? <==> |names| > 0 && (targetKey !in outputs || predictionKey !in outputs)
    ensures r.Err? && targetKey !in outputs ==> r.error == MissingOutput(targetKey)
    ensures r.Err? && targetKey in outputs ==> r.error == MissingOutput(predictionKey)
    ensures r.Ok? ==> r.value.Keys == SetOf(names)
    ensures r.Ok? ==> forall n :: n in r.value ==>
      r.value[n] == metric(n, outputs[targetKey], outputs[predictionKey])
  {
    if |names| == 0 then Ok(map[])
    else if targetKey !in outputs then Err(MissingOutput(targetKey))
    else if predictionKey !in outputs then Err(MissingOutput(predictionKey))
    else Ok(map n | n in names :: metric(n, outputs[targetKey], outputs[predictionKey]))
  }

  /** What an eval pass hands back and writes to `results.pkl`. */
  datatype EvalOutcome = EvalOutcome(
    callbacks: seq<string>,
    metrics: map<string, Value>,
    saved: map<string, Value>)

  /**
   * `run_eval` with the evaluation epoch as a parameter: `runEpoch` maps the
   * callback names to the accumulated `save_outputs`.
   */
  function RunEval(args: Bag, targetKey: string, predictionKey: string,
                   runEpoch: seq<string> -> map<string, Value>,
                   metric: (string, Value, Value) -> Value): (r: Result<EvalOutcome, PassError>)
    ensures CheckSingleProcess(args, EvalPass).Err? ==> r == Err(CheckSingleProcess(args, EvalPass).error)
    ensures r.Ok? ==> CheckSingleProcess(args, EvalPass).Ok?
    ensures CheckSingleProcess(args, EvalPass).Ok? && NameList(args, "save_callback").Err? ==>
      r == Err(NameList(args, "save_callback").error)
    ensures (CheckSingleProcess(args, EvalPass).Ok? && NameList(args, "save_callback").Ok?
             && NameList(args, "metrics").Err?) ==> r == Err(NameList(args, "metrics").error)
    ensures (CheckSingleProcess(args, EvalPass).Ok? && NameList(args, "save_callback").Ok?
             && NameList(args, "metrics").Ok?
             && MetricResults(NameList(args, "metrics").value,
                              runEpoch(SaveCallbacks(NameList(args, "save_callback").value, NameList(args, "metrics").value)),
                              targetKey, predictionKey, metric).Err?) ==>
      r == Err(MetricResults(NameList(args, "metrics").value,
                             runEpoch(SaveCallbacks(NameList(args, "save_callback").value, NameList(args, "metrics").value)),
                             targetKey, predictionKey, metric).error)
    ensures r.Ok? <==>
      && CheckSingleProcess(args, EvalPass).Ok?
      && NameList(args, "save_callback").Ok?
      && NameList(args, "metrics").Ok?
      && MetricResults(NameList(args, "metrics").value,
                       runEpoch(SaveCallbacks(NameList(args, "save_callback").value, NameList(args, "metrics").value)),
                       targetKey, predictionKey, metric).Ok?
    ensures r.Ok? ==>
      && NameList(args, "save_callback").Ok?
      && NameList(args, "metrics").Ok?
      && r.value.callbacks == SaveCallbacks(NameList(args, "save_callback").value, NameList(args, "metrics").value)
      && r.value.metrics.Keys == SetOf(NameList(args, "metrics").value)
      && r.value.metrics
         == MetricResults(NameList(args, "metrics").value, runEpoch(r.value.callbacks), targetKey, predictionKey, metric).value
    ensures r.Ok? ==> var out := runEpoch(r.value.callbacks);
      && r.value.saved.Keys == out.Keys + r.value.metrics.Keys
      && (forall k :: k in r.value.metrics ==> r.value.saved[k] == r.value.metrics[k])
      && (forall k :: k in out && k !in r.value.metrics ==> r.value.saved[k] == out[k])
  {
    if CheckSingleProcess(args, EvalPass).Err? then Err(CheckSingleProcess(args, EvalPass).error)
    else
      var requested :- NameList(args, "save_callback");
      var metricNames :- NameList(args, "metrics");
      var callbacks := SaveCallbacks(requested, metricNames);
      var outputs := runEpoch(callbacks);
      var metrics :- MetricResults(metricNames, outputs, targetKey, predictionKey, metric);
      Ok(EvalOutcome(callbacks, metrics, outputs + metrics))
  }

  /** The guard is decided before any setup: a refused pass never reaches the epoch. */
  lemma EvalGuardPrecedesSetup(args: Bag, targetKey: string, predictionKey: string,
                               epoch1: seq<string> -> map<string, Value>,
                               epoch2: seq<string> -> map<string, Value>,
                               metric: (string, Value, Value) -> Value)
    requires CheckSingleProcess(args, EvalPass).Err?
    ensures RunEval(args, targetKey, predictionKey, epoch1, metric)
         == RunEval(args, targetKey, predictionKey, epoch2, metric)
  {
  }
}
