# TAPE driver decision rules in Dafny

This project models the pure decision logic of the TAPE command-line driver
(`tape_pytorch/main.py`). The driver trains, evaluates and embeds protein
sequence models. Torch, argparse, process launch and pickling are left out. What
remains are the rules that decide whether a run may start, what it is called
with, and what it produces:

- **Train dispatch** (`run_train`). Two preconditions are checked in a fixed
  order: gradient accumulation of at least one step, then apex when fp16 or
  distributed training is asked for. After that, the namespace is reconciled
  by name with the parameter list the training workflow declares. Either the
  exact set of missing names is reported, or the keyword arguments are the
  namespace restricted to the declared names.
- **Eval and embed guards** (`run_eval`, `run_embed`). A pass without a
  pretrained model is refused, then a distributed pass is refused. Both checks
  happen before any setup. Eval appends `save_predictions` to the save
  callbacks when metrics need it. It keys the metric results by the requested
  names and merges them into the saved outputs.
- **Embed flattening** (`run_embed`). A list of per-batch dicts becomes one
  dict of per-example lists. The keys are the first batch's keys. Each field is
  the concatenation across batches in iteration order.
- **Gridsearch expansion** (`run_gridsearch`). The config is split into fixed
  fields and grid fields. Grid fields are the list-valued ones other than
  `metrics`. The model takes the cartesian product of the grid in
  `itertools.product` order and builds one namespace per combination, with
  the name `<base>_<i>`, `log_level = 'WARN'` and `save_callback = []`.
  After each run the base namespace's `master_addr` goes up by one. With an
  int address every run gets its own address (for a float, see
  `Gridsearch.AddOne` under "Left out"). With a non-numeric one the loop
  raises after the first run. Without one, the first run already fails (see
  `Gridsearch.Dispatch` under "Left out").

Layout, one module per file:

| file | module | contents |
|---|---|---|
| `results.dfy` | `Results` | `Result` (value or raised exception) and `Lookup` (dict indexing) |
| `values.dfy` | `PyValues` | Python values, truthiness, numeric `==`/`<`, the namespace `Bag` |
| `dicts.dfy` | `OrderedDicts` | insertion-ordered dicts as `(key, value)` sequences, `setattr` folding |
| `train.dfy` | `TrainDispatch` | `run_train` preconditions and by-name argument resolution |
| `eval.dfy` | `EvalDispatch` | the eval/embed guard, save callbacks, metric results, `run_eval` |
| `embed.dfy` | `EmbedDispatch` | per-batch output flattening and `run_embed` |
| `decimal.dfy` | `Decimal` | `str(i)`, zero padding, and the parser that inverts them |
| `gridsearch.dfy` | `Gridsearch` | config split, product order, per-run namespaces |

Python exceptions become `Err` values of per-component error datatypes, and
each constructor carries a comment naming the exception it stands for. Two
kinds of value are inputs rather than computed: the collaborators' (callees')
outputs (the training workflow's declared parameter names, the evaluation
epoch's accumulated outputs, the per-batch embedding outputs) and the random
gridsearch suffix.

## Model

| member | source | states |
|---|---|---|
| TrainDispatch.CheckGradientAccumulation | tape_pytorch/main.py:181-184 | passes exactly when the field is present, numeric and at least 1; an absent field is the AttributeError, a non-number the TypeError of `<`, and a value below 1 is reported with the offending value |
| TrainDispatch.WantsApex | tape_pytorch/main.py:186 | `fp16 or local_rank != -1` with short-circuit: a truthy fp16 decides without reading local_rank; otherwise the answer is whether local_rank differs from -1; an absent fp16, or an absent local_rank when fp16 is falsy, is the AttributeError for that name |
| TrainDispatch.CheckApex | tape_pytorch/main.py:186-189 | the apex error is raised exactly when fp16/distributed is wanted and apex is absent; an attribute error while deciding that is passed on unchanged |
| TrainDispatch.ResolveArguments | tape_pytorch/main.py:191-197 | fails exactly when some declared name is not a namespace key, carrying the set difference; on success the keys are exactly the declared names, each bound to its namespace value |
| TrainDispatch.RunTrain | tape_pytorch/main.py:181-199 | the step-count error is the result whenever that check fails, then the apex check's error; the workflow is only invoked once both preconditions pass, and with the namespace restricted to the declared names |
| TrainDispatch.GradientCheckFirst | tape_pytorch/main.py:181-189 | a step count below 1 is the reported error whatever apex or the declared names are |
| TrainDispatch.ApexCheckSecond | tape_pytorch/main.py:181-192 | with a valid step count, fp16 or distributed training without apex fails with the apex error before names are resolved |
| TrainDispatch.ResolutionDecides | tape_pytorch/main.py:192-199 | with both preconditions met, the workflow runs iff every declared name is a key, and otherwise fails with exactly the missing names |
| TrainDispatch.ExtraFieldsIgnored | tape_pytorch/main.py:191-197 | adding namespace fields the workflow does not declare never changes the outcome |
| TrainDispatch.ResolvedRecomposes | tape_pytorch/main.py:191-197 | the resolved arguments plus the dropped fields give back the namespace, and resolving them again is the identity |
| TrainDispatch.ResolveByScan | tape_pytorch/main.py:194-197 | walking the declared names to collect the missing set and build the dict gives the same outcome as the set-based resolution |
| EvalDispatch.CheckSingleProcess | tape_pytorch/main.py:208-211 | an absent `from_pretrained` is the AttributeError; a `None` pretrained path is refused next; then an absent local_rank is the AttributeError, and the pass is refused as distributed iff local_rank differs from -1; it passes iff neither refusal holds |
| EvalDispatch.NameList | tape_pytorch/main.py:235-239 | an absent field is the AttributeError; the read succeeds exactly when the field is a list of strings, giving those strings in order; any other present value is `NotANameList` |
| EvalDispatch.NameListReadsBack | tape_pytorch/main.py:235-239 | a list of names stored in the namespace reads back as exactly those names |
| EvalDispatch.SaveCallbacks | tape_pytorch/main.py:235-238 | the requested callbacks stay a prefix in order; `save_predictions` is appended once when metrics are requested and it was not requested, and otherwise the list is unchanged |
| EvalDispatch.SavePredictionsRunsIff | tape_pytorch/main.py:235-238 | `save_predictions` is among the callbacks iff it was requested or some metric is requested, and no other callback is added |
| EvalDispatch.SaveCallbacksIdempotent | tape_pytorch/main.py:237-238 | assembling the callback list a second time adds nothing |
| EvalDispatch.MetricResults | tape_pytorch/main.py:243-246 | with no metrics the result is empty and no output is indexed; otherwise a missing target or prediction field is a KeyError, the target field being looked up first, and the result has exactly the requested names, each mapped to its metric of the two fields |
| EvalDispatch.RunEval | tape_pytorch/main.py:202-253 | the errors come in source order: the guard, then reading `save_callback`, then reading `metrics`; the pass succeeds exactly when the guard passes, both lists are read and the metric results of the epoch's outputs exist; on success the callbacks are the assembled list, the metrics are those results, keyed by the requested names, and the saved outputs are the epoch outputs updated with the metrics |
| EvalDispatch.EvalGuardPrecedesSetup | tape_pytorch/main.py:208-213 | when the guard refuses, the outcome does not depend on the epoch at all |
| EmbedDispatch.Column | tape_pytorch/main.py:303 | a field's chain exists iff every batch has the field, and its length is the sum of the per-batch lengths |
| EmbedDispatch.FlattenFields | tape_pytorch/main.py:302-304 | builds the fields in key order, each the chain of its key; it fails iff some key's chain fails, and the failure is a missing-field KeyError |
| EmbedDispatch.FlattenFieldsFirstMissing | tape_pytorch/main.py:302-304 | a failed flattening names the first key whose chain is missing, every earlier key's chain being present |
| EmbedDispatch.Flatten | tape_pytorch/main.py:301-304 | an empty batch list is the indexing error; otherwise the output keys are the first batch's keys, each field is that field's chain across all batches with the summed length, and it succeeds iff every batch has every first-batch key; on failure the error names the first of the first batch's keys that some batch lacks |
| EmbedDispatch.RunEmbed | tape_pytorch/main.py:262-304 | the guard's refusal is the result; once the guard passes, the result is the flattening of the batch outputs |
| EmbedDispatch.ColumnAppend | tape_pytorch/main.py:303 | chaining a concatenated batch stream is concatenating the chains of its parts |
| EmbedDispatch.ColumnPlacesBatch | tape_pytorch/main.py:301-304 | batch `i`'s values for a field sit in the flattened field right after the values of the batches before it: example order is preserved |
| EmbedDispatch.FieldCountAppend | tape_pytorch/main.py:303 | per-field lengths add up over concatenated batch streams |
| EmbedDispatch.SingleBatch | tape_pytorch/main.py:301-304 | flattening a single batch gives that batch back |
| EmbedDispatch.ColumnByLoop | tape_pytorch/main.py:303 | chaining batch by batch gives the same field as the recursive definition, or the KeyError |
| EmbedDispatch.FlattenByLoop | tape_pytorch/main.py:301-304 | the key-by-key comprehension with per-field chaining gives the same outcome as `Flatten` |
| Decimal.NatToString | tape_pytorch/main.py:372 | `str(i)` is a non-empty string of digits with no leading zero except for 0 |
| Decimal.ParseNatToString | tape_pytorch/main.py:372 | reading back the decimal form of `i` gives `i` |
| Decimal.NatToStringInjective | tape_pytorch/main.py:372 | distinct indices have distinct decimal forms |
| Decimal.ZeroPad | tape_pytorch/main.py:354 | `{:0>6d}` padding: length is the larger of the width and the digit count, the digits end the string, and only zeros precede them |
| Decimal.ParseZeros | tape_pytorch/main.py:354 | any number of leading zeros leaves the value of a digit string unchanged |
| Decimal.ParseZeroPad | tape_pytorch/main.py:354 | padding with zeros does not change the value the digits denote |
| Gridsearch.Split | tape_pytorch/main.py:342-349 | every config entry lands in exactly one of the two halves |
| Gridsearch.SplitSound | tape_pytorch/main.py:345-349 | fixed entries are config entries that are not grid fields; grid entries are list-valued config entries other than `metrics` |
| Gridsearch.SplitComplete | tape_pytorch/main.py:345-349 | a list-valued field other than `metrics` is in the grid with its items; every other field is in the fixed half unchanged |
| Gridsearch.SplitAppend | tape_pytorch/main.py:345-349 | the split keeps config order: splitting a concatenation concatenates the splits |
| Gridsearch.SplitKeys | tape_pytorch/main.py:342-351 | the two halves' key sets partition the config's keys, and with distinct config keys each half has distinct keys |
| Gridsearch.Combinations | tape_pytorch/main.py:367-369 | there are as many combinations as the product of the dimension lengths |
| Gridsearch.CrossAt | tape_pytorch/main.py:367-369 | position `q * R + r` of one dimension crossed with `R` tails holds value `q` in front of tail `r` |
| Gridsearch.CombinationAt | tape_pytorch/main.py:369 | combination `q * R + r`, with `R` tail combinations, takes value `q` of the first dimension and tail combination `r`: dimensions in insertion order, the last varying fastest |
| Gridsearch.CrossMember | tape_pytorch/main.py:367-369 | every member of a cross is one of the dimension's values in front of one of the tails |
| Gridsearch.CombinationFits | tape_pytorch/main.py:367-369 | every combination names each dimension once, in order, with one of that dimension's values |
| Gridsearch.ConsShape | tape_pytorch/main.py:367-369 | a value of the first dimension in front of a fitting tail combination fits the whole grid |
| Gridsearch.CombinationShape | tape_pytorch/main.py:367-369 | combination `i` has one entry per dimension, in order, holding one of that dimension's values |
| Gridsearch.ProductZero | tape_pytorch/main.py:369 | there is no combination exactly when some grid list is empty |
| Gridsearch.FixedField | tape_pytorch/main.py:345-349 | a fixed field is a config entry, and with distinct config keys no grid dimension has its name |
| Gridsearch.GridsearchName | tape_pytorch/main.py:354 | the base name is `gridsearch_` followed by at least six digits that read back as the random suffix |
| Gridsearch.RunName | tape_pytorch/main.py:372 | run `i`'s name is the base name, `_`, then digits that read back as `i` |
| Gridsearch.RunNameInjective | tape_pytorch/main.py:372 | two indices give the same run name only if they are equal |
| Gridsearch.BaseArgs | tape_pytorch/main.py:351-355 | the base namespace has the fixed fields plus the three forced ones, with `log_level = 'WARN'`, the base experiment name and `save_callback = []` |
| Gridsearch.BaseArgsFixed | tape_pytorch/main.py:351-355 | a fixed field other than the forced ones keeps its config value in the base namespace |
| Gridsearch.AddOne | tape_pytorch/main.py:378 | `+ 1` on a Python number adds one to its numeric value; a bool becomes an int and a float stays a float |
| Gridsearch.Incremented | tape_pytorch/main.py:378 | after `n` increments the address's numeric value has gone up by `n`; after at least one, a float is still a float and anything else is an int |
| Gridsearch.ArgsBefore | tape_pytorch/main.py:371-378 | the base namespace copied for run `i` has the same fields as the initial one; a numeric `master_addr` has gone up by `i` and every other field is unchanged |
| Gridsearch.RunArgs | tape_pytorch/main.py:371-374 | run `i`'s namespace has the base fields plus the combination's; `exp_name` is `<base>_<i>` unless the combination sets it; the combination's values win; every other field is the base's as copied before run `i` |
| Gridsearch.Expand | tape_pytorch/main.py:369-374 | one namespace per combination |
| Gridsearch.ExpandCount | tape_pytorch/main.py:342-370 | no grid field gives exactly one run; an empty grid list gives none |
| Gridsearch.ExpandRunName | tape_pytorch/main.py:370-372 | unless `exp_name` is itself a grid field, run `i` is named `<base>_<i>` |
| Gridsearch.ExpandNamesDistinct | tape_pytorch/main.py:370-372 | unless `exp_name` is a grid field, the runs' names are pairwise distinct |
| Gridsearch.ExpandGridValue | tape_pytorch/main.py:369-374 | run `i` holds, for each grid dimension, its combination's value, which is one of that dimension's items |
| Gridsearch.ExpandForcedFields | tape_pytorch/main.py:353-374 | unless they are grid fields, every run has `log_level = 'WARN'` and `save_callback = []` |
| Gridsearch.ExpandFixedValue | tape_pytorch/main.py:349-378 | a fixed field other than the three forced ones reaches every run as the config gives it, except a numeric `master_addr`, which run `i` sees raised by `i` |
| Gridsearch.ExpandAddressesDistinct | tape_pytorch/main.py:371-378 | with a numeric `master_addr` in the config, no two runs have the same address |
| Gridsearch.ExpandKeys | tape_pytorch/main.py:351-374 | every run has exactly the config's fields plus `log_level`, `exp_name` and `save_callback` |
| Gridsearch.Dispatch | tape_pytorch/main.py:370-378 | the loop hands over every run when there is none or the base address is a number; otherwise it hands over only run 0 and then stops with the increment's error |
| Gridsearch.DispatchEnd | tape_pytorch/main.py:351-378 | read off the config: no `master_addr`, or a list-valued one, is the AttributeError; a non-numeric one is the TypeError; a numeric one lets the loop finish |
| Gridsearch.DispatchNames | tape_pytorch/main.py:370-377 | unless `exp_name` is a grid field, call `i` is named `<base>_<i>` |
| Gridsearch.RunGridsearch | tape_pytorch/main.py:342-378 | at most one call per combination, and unless `exp_name` is a grid field, call `i` is named `gridsearch_<padded suffix>_<i>` |

## Behaviour of the code worth knowing

- The grid values are written onto each run after the forced `log_level`,
  `exp_name` and `save_callback`. So a config that makes one of those a list
  turns it into a grid dimension, and that dimension overrides the forced
  value. The lemmas about forced fields and run names state this as a
  hypothesis ("unless it is a grid field").
- The errors are plain Python exceptions: `ValueError` for the guard and the
  step count, `ImportError` for apex, `RuntimeError` for missing workflow
  arguments. There are no dedicated error classes.
- The only address change is `args.master_addr += 1` on the base namespace,
  after each run. Each run copies the base first, so run `i` sees the
  address after `i` increments. On the config-file path the base holds only
  the config's fixed fields. So:
  - a numeric `master_addr` gives run `i` the address plus `i`. These are
    all distinct for an int or bool address. A float address of 2**53 or
    more can repeat, because `+ 1` is rounded away;
  - a string (or other non-numeric) `master_addr` raises `TypeError` after
    run 0;
  - a list-valued `master_addr` is a grid dimension and never reaches the
    base, so the increment raises `AttributeError` after run 0;
  - with no `master_addr` at all, `run_train_distributed` already raises
    `AttributeError` when it reads the address for run 0 (line 325). The
    model does not see inside that call, so it reports the increment's
    `AttributeError` after run 0 instead.
- `local_rank != -1` and `gradient_accumulation_steps < 1` follow Python's
  numeric rules. A bool or float counts as a number (`-1.0 == -1`), a
  non-number never equals -1, and `<` on a non-number is a `TypeError`.

## Left out

- Parser construction (`create_*_parser`, lines 38-169): argparse
  configuration. Its validators live in a `utils` module that is not part of
  this model.
- Device, seeding, logging and model setup (lines 213-233 and 267-287):
  `setup_distributed`, `set_random_seeds`, `models.get`, `DataParallel`,
  `set_grad_enabled`, `model.eval()`. These are foreign library calls.
- EvalDispatch.RunEval: it reads `save_callback` and `metrics` right after the
  guard. It skips the attribute reads the setup calls make in between
  (`no_cuda`, `log_level`, `seed`, `model_type`, `task`, and so on, from
  line 213), so a namespace missing one of those fails in the code but not
  in the model.
- EmbedDispatch.RunEmbed: it flattens right after the guard. It skips the
  attribute reads of the setup calls (lines 267-284) and the `outfile` read
  of the final write (line 306), so a namespace missing one of those fails in
  the code but not in the model.
- The training workflow, `ForwardRunner`, `run_eval_epoch` and the data
  loaders are external collaborators. Here they are inputs: the declared
  parameter names, the epoch function from callbacks to outputs, and the
  per-batch embedding outputs.
- Registry lookups (`get_callback`, `get_metric`) are opaque. Callbacks are
  kept as names, and a metric is a parameter `(name, targets, predictions)`.
  The registry's error for an unknown name is not modelled.
- EvalDispatch.NameList: accepts only a list of strings. Any other value is
  reported as `NotANameList`, while Python would iterate any iterable (a
  string, character by character).
- `run_train_distributed`, `launch_process_group` and `get_expname`
  (lines 310-325): process spawning and concurrency.
- Gridsearch.Dispatch: assumes each `run_train_distributed` call returns. The
  attribute reads that call makes (`task`, `model_type`, `nproc_per_node`,
  `master_addr` and others) are not checked. So with no `master_addr` in the
  config the model reports the increment's `AttributeError` after run 0,
  where the code raises at line 325 before run 0 is launched.
- `os.environ = env`, the gridsearch logger, tqdm, and the pickle writes of
  `results.pkl` and the embed output file: I/O. The `.with_suffix('.pkl')`
  renaming of the output path is left out too, because its corner cases
  (dot files, trailing dots) vary between Python versions.
- The random gridsearch suffix (line 354) is a parameter of
  `Gridsearch.GridsearchName` and `Gridsearch.RunGridsearch`.
  `Gridsearch.Expand` and `Gridsearch.Dispatch` take the base name.
- `run_gridsearch` called with `args` supplied leaves `grid_values` unbound
  (lines 335-369), so it fails with `UnboundLocalError`. This is a defect of
  the code. Only the config-file path is modelled.
- A JSON config that is not an object (`config.items()` fails) is not
  modelled. Config keys are assumed to be distinct wherever a lemma needs it,
  as they are in a Python dict.
- A JSON object as a config value (a nested dict) has no case in
  `PyValues.Value`, so such a config cannot be written down in the model.
  In the code it would be a fixed field passed through unchanged.
- Floats are Dafny reals: NaN, infinities and rounding are not modelled.
- Gridsearch.AddOne: `+ 1` on a float is exact real addition, where Python
  rounds to the nearest double (`1e16 + 1 == 1e16`). So
  `Gridsearch.ExpandAddressesDistinct` holds for int and bool addresses but,
  for floats, only under exact arithmetic. With a float address of 2**53 or
  more, consecutive runs share an address in the code.
