/**
 * The train dispatcher `run_train`: two preconditions checked in a fixed
 * order, then the by-name reconciliation of the namespace with the
 * parameter list the training workflow declares.
 */
module TrainDispatch {
  import opened Results
  import opened PyValues

  const GradientAccumulationSteps := "gradient_accumulation_steps"

  /** The exceptions `run_train` raises before it calls the workflow. */
  datatype TrainError =
    | AttributeMissing(name: string)                   // AttributeError on `args.<name>`
    | NotComparable(name: string)                      // TypeError from `<` against an int
    | InvalidGradientAccumulationSteps(steps: Value)   // ValueError
    | ApexRequired                                     // ImportError: fp16 or distributed without apex
    | MissingArguments(names: set<string>)             // RuntimeError("Missing arguments: ...")

  /** A gradient accumulation step count below one is refused. */
  function CheckGradientAccumulation(args: Bag): (r: Result<(), TrainError>)
    ensures r.Ok? <==>
      GradientAccumulationSteps in args
      && IsNumber(args[GradientAccumulationSteps])
      && AsReal(args[GradientAccumulationSteps]) >= 1.0
    ensures r.Err? && r.error.InvalidGradientAccumulationSteps? ==>
      && GradientAccumulationSteps in args
      && IsNumber(args[GradientAccumulationSteps])
      && r.error.steps == args[GradientAccumulationSteps]
      && AsReal(r.error.steps) < 1.0
    ensures GradientAccumulationSteps !in args ==> r == Err(AttributeMissing(GradientAccumulationSteps))
    ensures GradientAccumulationSteps in args && !IsNumber(args[GradientAccumulationSteps]) ==>
      r == Err(NotComparable(GradientAccumulationSteps))
  {
    if GradientAccumulationSteps !in args then Err(AttributeMissing(GradientAccumulationSteps))
    else if !IsNumber(args[GradientAccumulationSteps]) then Err(NotComparable(GradientAccumulationSteps))
    else if AsReal(args[GradientAccumulationSteps]) < 1.0 then
      Err(InvalidGradientAccumulationSteps(args[GradientAccumulationSteps]))
    else Ok(())
  }

  /**
   * Whether fp16 or distributed training is asked for. Python's `or`
   * short-circuits, so `local_rank` is only read when `fp16` is falsy.
   */
  function WantsApex(args: Bag): (r: Result<bool, TrainError>)
    ensures "fp16" in args && Truthy(args["fp16"]) ==> r == Ok(true)
    ensures "fp16" in args && !Truthy(args["fp16"]) && "local_rank" in args ==>
      r == Ok(!EqualsInt(args["local_rank"], -1))
    ensures "fp16" !in args ==> r == Err(AttributeMissing("fp16"))
    ensures ("fp16" in args && !Truthy(args["fp16"]) && "local_rank" !in args) ==>
      r == Err(AttributeMissing("local_rank"))
  {
    if "fp16" !in args then Err(AttributeMissing("fp16"))
    else if Truthy(args["fp16"]) then Ok(true)
    else if "local_rank" !in args then Err(AttributeMissing("local_rank"))
    else Ok(!EqualsInt(args["local_rank"], -1))
  }

  /** fp16 and distributed training need the apex extension. */
  function CheckApex(args: Bag, apexFound: bool): (r: Result<(), TrainError>)
    ensures r == Err(ApexRequired) <==> WantsApex(args) == Ok(true) && !apexFound
    ensures r.Ok? <==> WantsApex(args).Ok? && (WantsApex(args).value ==> apexFound)
    ensures WantsApex(args).Err? ==> r == Err(WantsApex(args).error)
  {
    match WantsApex(args)
    case Err(e) => Err(e)
    case Ok(wants) => if wants && !apexFound then Err(ApexRequired) else Ok(())
  }

  /**
   * By-name resolution: the declared names the namespace lacks are an error;
   * otherwise the keyword arguments are the namespace restricted to them.
   */
  function ResolveArguments(args: Bag, declared: seq<string>): (r: Result<map<string, Value>, TrainError>)
    ensures r.Err? <==> exists n :: n in declared && n !in args
    ensures r.Err? ==> r.error == MissingArguments(SetOf(declared) - args.Keys) && r.error.names != {}
    ensures r.Ok? ==> r.value.Keys == SetOf(declared)
    ensures r.Ok? ==> forall k :: k in r.value ==> k in args && r.value[k] == args[k]
  {
    var missing := SetOf(declared) - args.Keys;
    if missing != {} then
      var n :| n in missing;
      assert n in declared && n !in args;
      Err(MissingArguments(missing))
    else
      assert forall n :: n in declared ==> n in args by {
        forall n | n in declared ensures n in args {
          assert n in SetOf(declared);
          assert n !in missing;
        }
      }
      Ok(map n | n in declared :: args[n])
  }

  /**
   * `run_train`: the keyword arguments the training workflow is called with,
   * or the exception raised before the call.
   */
  function RunTrain(args: Bag, declared: seq<string>, apexFound: bool): (r: Result<map<string, Value>, TrainError>)
    ensures r.Ok? ==> CheckGradientAccumulation(args).Ok? && CheckApex(args, apexFound).Ok?
    ensures CheckGradientAccumulation(args).Err? ==> r == Err(CheckGradientAccumulation(args).error)
    ensures CheckGradientAccumulation(args).Ok? && CheckApex(args, apexFound).Err? ==>
      r == Err(CheckApex(args, apexFound).error)
    ensures r.Ok? ==> r.value.Keys == SetOf(declared)
    ensures r.Ok? ==> forall k :: k in r.value ==> k in args && r.value[k] == args[k]
  {
    if CheckGradientAccumulation(args).Err? then Err(CheckGradientAccumulation(args).error)
    else if CheckApex(args, apexFound).Err? then Err(CheckApex(args, apexFound).error)
    else ResolveArguments(args, declared)
  }

  /** The gradient-accumulation check comes first: it wins over every later failure. */
  lemma GradientCheckFirst(args: Bag, declared: seq<string>, apexFound: bool)
    requires GradientAccumulationSteps in args
    requires IsNumber(args[GradientAccumulationSteps]) && AsReal(args[GradientAccumulationSteps]) < 1.0
    ensures RunTrain(args, declared, apexFound) == Err(InvalidGradientAccumulationSteps(args[GradientAccumulationSteps]))
  {
  }

  /** Only once the step count is valid is a missing apex reported, and before any name is resolved. */
  lemma ApexCheckSecond(args: Bag, declared: seq<string>)
    requires CheckGradientAccumulation(args).Ok?
    requires "fp16" in args
    requires Truthy(args["fp16"]) || ("local_rank" in args && !EqualsInt(args["local_rank"], -1))
    ensures RunTrain(args, declared, false) == Err(ApexRequired)
  {
  }

  /** With both preconditions met, the workflow is invoked exactly when no declared name is missing. */
  lemma ResolutionDecides(args: Bag, declared: seq<string>, apexFound: bool)
    requires CheckGradientAccumulation(args).Ok? && CheckApex(args, apexFound).Ok?
    ensures RunTrain(args, declared, apexFound).Ok? <==> SetOf(declared) <= args.Keys
    ensures !(SetOf(declared) <= args.Keys) ==>
      RunTrain(args, declared, apexFound) == Err(MissingArguments(SetOf(declared) - args.Keys))
  {
    if !(SetOf(declared) <= args.Keys) {
      var n :| n in SetOf(declared) && n !in args;
      assert n in declared;
    }
  }

  /** Extra namespace fields are dropped: adding fields the workflow does not declare changes nothing. */
  lemma ExtraFieldsIgnored(args: Bag, extra: Bag, declared: seq<string>)
    requires extra.Keys !! SetOf(declared)
    ensures ResolveArguments(args + extra, declared) == ResolveArguments(args, declared)
  {
    assert SetOf(declared) - (args + extra).Keys == SetOf(declared) - args.Keys;
    if SetOf(declared) <= args.Keys {
      var a := map n | n in declared :: args[n];
      var b := map n | n in declared :: (args + extra)[n];
      assert forall n :: n in declared ==> n !in extra by {
        forall n | n in declared ensures n !in extra {
          assert n in SetOf(declared);
        }
      }
      assert a == b;
    }
  }

  /**
   * The resolved arguments together with the dropped fields give back the
   * namespace, and resolving them again is the identity.
   */
  lemma ResolvedRecomposes(args: Bag, declared: seq<string>)
    requires ResolveArguments(args, declared).Ok?
    ensures var kw := ResolveArguments(args, declared).value;
      kw + (args - kw.Keys) == args && ResolveArguments(kw, declared) == Ok(kw)
  {
    var kw := ResolveArguments(args, declared).value;
    assert kw + (args - kw.Keys) == args;
    assert (map n | n in declared :: kw[n]) == kw;
  }

  /**
   * The `missing` set and the `train_args` comprehension of `run_train`,
   * done by walking the declared names once to collect the missing ones and
   * once to build the keyword dict.
   */
  method ResolveByScan(args: Bag, declared: seq<string>) returns (r: Result<map<string, Value>, TrainError>)
    ensures r == ResolveArguments(args, declared)
  {
    var missing: set<string> := {};
    var i := 0;
    while i < |declared|
      invariant 0 <= i <= |declared|
      invariant missing == SetOf(declared[..i]) - args.Keys
    {
      assert declared[..i + 1] == declared[..i] + [declared[i]];
      if declared[i] !in args {
        missing := missing + {declared[i]};
      }
      i := i + 1;
    }
    assert declared[..i] == declared;
    if missing != {} {
      return Err(MissingArguments(missing));
    }
    var kwargs: map<string, Value> := map[];
    i := 0;
    while i < |declared|
      invariant 0 <= i <= |declared|
      invariant kwargs.Keys == SetOf(declared[..i])
      invariant forall k :: k in kwargs ==> k in args && kwargs[k] == args[k]
    {
      assert declared[..i + 1] == declared[..i] + [declared[i]];
      assert declared[i] in SetOf(declared);
      assert declared[i] in args by {
        assert declared[i] !in missing;
      }
      kwargs := kwargs[declared[i] := args[declared[i]]];
      i := i + 1;
    }
    assert declared[..i] == declared;
    r := Ok(kwargs);
    assert kwargs == map n | n in declared :: args[n];
  }
}
