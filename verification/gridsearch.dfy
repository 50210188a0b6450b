/**
 * The gridsearch expander `run_gridsearch` on its config-file path: the
 * split of the config into fixed and grid fields, the `itertools.product`
 * of the grid dimensions, and one argument namespace per combination.
 */
module Gridsearch {
  import opened PyValues
  import opened OrderedDicts
  import opened Decimal

  const MetricsField := "metrics"
  const LogLevelField := "log_level"
  const ExpNameField := "exp_name"
  const SaveCallbackField := "save_callback"

  /** A list value is a grid dimension, except `metrics`, which is always a list. */
  predicate IsGridField(key: string, value: Value)
  {
    value.List? && key != MetricsField
  }

  datatype Partition = Partition(fixed: Entries<Value>, grid: Entries<seq<Value>>)

  /** The pass over the config items that fills the fixed and the grid values. */
  function Split(config: Entries<Value>): (p: Partition)
    ensures |p.fixed| + |p.grid| == |config|
  {
    if |config| == 0 then Partition([], [])
    else
      var rest := Split(config[1..]);
      if IsGridField(config[0].0, config[0].1) then
        Partition(rest.fixed, [(config[0].0, config[0].1.items)] + rest.grid)
      else
        Partition([config[0]] + rest.fixed, rest.grid)
  }

  /** Splitting keeps config order: the split of a concatenation is the concatenation of the splits. */
  lemma {:induction false} SplitAppend(a: Entries<Value>, b: Entries<Value>)
    ensures Split(a + b).fixed == Split(a).fixed + Split(b).fixed
    ensures Split(a + b).grid == Split(a).grid + Split(b).grid
  {
    if |a| == 0 {
      assert a + b == b;
    } else {
      assert (a + b)[0] == a[0];
      assert (a + b)[1..] == a[1..] + b;
      SplitAppend(a[1..], b);
    }
  }

  /** Nothing is invented: fixed fields are non-grid config fields, grid fields come from config lists. */
  lemma {:induction false} SplitSound(config: Entries<Value>)
    ensures forall e :: e in Split(config).fixed ==> e in config && !IsGridField(e.0, e.1)
    ensures forall e :: e in Split(config).grid ==> (e.0, List(e.1)) in config && e.0 != MetricsField
  {
    if |config| > 0 {
      SplitSound(config[1..]);
      assert forall e :: e in config[1..] ==> e in config;
    }
  }

  /** Every config field lands in one half: a grid field with its list items, any other field as it is. */
  lemma {:induction false} SplitComplete(config: Entries<Value>, k: int)
    requires 0 <= k < |config|
    ensures var e := config[k];
      if IsGridField(e.0, e.1) then (e.0, e.1.items) in Split(config).grid else e in Split(config).fixed
  {
    if k > 0 {
      SplitComplete(config[1..], k - 1);
      assert config[1..][k - 1] == config[k];
    }
  }

  /** The key sets of the two halves partition the config's key set. */
  lemma {:induction false} SplitKeys(config: Entries<Value>)
    ensures SetOfKeys(Split(config).fixed) + SetOfKeys(Split(config).grid) == SetOfKeys(config)
    ensures DistinctKeys(config) ==>
      DistinctKeys(Split(config).fixed) && DistinctKeys(Split(config).grid)
      && SetOfKeys(Split(config).fixed) !! SetOfKeys(Split(config).grid)
  {
    if |config| > 0 {
      SplitKeys(config[1..]);
      var p, rest := Split(config), Split(config[1..]);
      assert SetOfKeys(config) == {config[0].0} + SetOfKeys(config[1..]) by {
        assert forall e :: e in config <==> e == config[0] || e in config[1..];
      }
      if IsGridField(config[0].0, config[0].1) {
        assert p.grid == [(config[0].0, config[0].1.items)] + rest.grid;
        ConsKeys((config[0].0, config[0].1.items), rest.grid);
      } else {
        assert p.fixed == [config[0]] + rest.fixed;
        ConsKeys(config[0], rest.fixed);
      }
      if DistinctKeys(config) {
        assert DistinctKeys(config[1..]) by {
          forall i, j | 0 <= i < j < |config[1..]| ensures config[1..][i].0 != config[1..][j].0 {
            assert config[1..][i] == config[i + 1] && config[1..][j] == config[j + 1];
          }
        }
        assert config[0].0 !in SetOfKeys(config[1..]) by {
          forall e | e in config[1..] ensures e.0 != config[0].0 {
            var j :| 0 <= j < |config[1..]| && config[1..][j] == e;
            assert config[j + 1] == e;
          }
        }
      }
    }
  }

  /** A fixed field comes from the config, and with distinct config keys no grid dimension shares its name. */
  lemma FixedField(config: Entries<Value>, k: int)
    requires DistinctKeys(config)
    requires 0 <= k < |Split(config).fixed|
    ensures Split(config).fixed[k] in config && DistinctKeys(Split(config).fixed)
    ensures Split(config).fixed[k].0 !in SetOfKeys(Split(config).grid)
  {
    var p := Split(config);
    assert p.fixed[k] in p.fixed;
    SplitSound(config);
    SplitKeys(config);
    assert p.fixed[k].0 in SetOfKeys(p.fixed);
  }

  lemma ConsKeys<V>(e: (string, V), d: Entries<V>)
    ensures SetOfKeys([e] + d) == {e.0} + SetOfKeys(d)
    ensures e.0 !in SetOfKeys(d) && DistinctKeys(d) ==> DistinctKeys([e] + d)
  {
    assert forall x :: x in [e] + d <==> x == e || x in d;
    if e.0 !in SetOfKeys(d) && DistinctKeys(d) {
      forall i, j | 0 <= i < j < |[e] + d| ensures ([e] + d)[i].0 != ([e] + d)[j].0 {
        if i == 0 {
          assert ([e] + d)[j] == d[j - 1] && d[j - 1] in d;
        } else {
          assert ([e] + d)[i] == d[i - 1] && ([e] + d)[j] == d[j - 1];
        }
      }
    }
  }

  /** The number of combinations: the product of the dimension lengths. */
  function Product(dims: Entries<seq<Value>>): nat
  {
    if |dims| == 0 then 1 else |dims[0].1| * Product(dims[1..])
  }

  /** Every tail combination with `e` put in front. */
  function PrependAll(e: (string, Value), tails: seq<Entries<Value>>): (r: seq<Entries<Value>>)
    ensures |r| == |tails|
    ensures forall i :: 0 <= i < |tails| ==> r[i] == [e] + tails[i]
  {
    seq(|tails|, i requires 0 <= i < |tails| => [e] + tails[i])
  }

  /** One dimension crossed with the combinations of the rest, its first value first. */
  function Cross(key: string, values: seq<Value>, tails: seq<Entries<Value>>): (r: seq<Entries<Value>>)
    ensures |r| == |values| * |tails|
  {
    if |values| == 0 then []
    else PrependAll((key, values[0]), tails) + Cross(key, values[1..], tails)
  }

  /**
   * The cartesian product of the grid, as `itertools.product` yields it:
   * dimensions in order, the last one varying fastest.
   */
  function Combinations(dims: Entries<seq<Value>>): (cs: seq<Entries<Value>>)
    ensures |cs| == Product(dims)
  {
    if |dims| == 0 then [[]]
    else Cross(dims[0].0, dims[0].1, Combinations(dims[1..]))
  }

  /** Position `q * |tails| + r` of a cross holds value `q` in front of tail `r`. */
  lemma {:induction false} CrossAt(key: string, values: seq<Value>, tails: seq<Entries<Value>>, q: int, r: int)
    requires 0 <= q < |values| && 0 <= r < |tails|
    ensures 0 <= q * |tails| + r < |Cross(key, values, tails)|
    ensures Cross(key, values, tails)[q * |tails| + r] == [(key, values[q])] + tails[r]
    decreases |values|
  {
    var n := |tails|;
    var rest := Cross(key, values[1..], tails);
    assert |values| * n == n + (|values| - 1) * n;
    if q > 0 {
      CrossAt(key, values[1..], tails, q - 1, r);
      assert q * n + r == n + ((q - 1) * n + r);
    }
  }

  /**
   * Combination `q * R + r`, where `R` is the number of tail combinations,
   * takes value `q` of the first dimension and tail combination `r`: the
   * mixed-radix order of `itertools.product`, last dimension fastest.
   */
  lemma {:induction false} CombinationAt(dims: Entries<seq<Value>>, q: int, r: int)
    requires |dims| > 0
    requires 0 <= q < |dims[0].1| && 0 <= r < Product(dims[1..])
    ensures 0 <= q * Product(dims[1..]) + r < Product(dims)
    ensures Combinations(dims)[q * Product(dims[1..]) + r]
      == [(dims[0].0, dims[0].1[q])] + Combinations(dims[1..])[r]
  {
    var n := Product(dims[1..]);
    var tails := Combinations(dims[1..]);
    var all := Combinations(dims);
    assert all == Cross(dims[0].0, dims[0].1, tails);
    assert |tails| == n && |all| == Product(dims);
    CrossAt(dims[0].0, dims[0].1, tails, q, r);
    assert q * n + r < |all|;
  }

  /** Every member of a cross is a value of the dimension in front of one of the tails. */
  lemma {:induction false} CrossMember(key: string, values: seq<Value>, tails: seq<Entries<Value>>, c: Entries<Value>)
    returns (v: Value, t: Entries<Value>)
    requires c in Cross(key, values, tails)
    ensures v in values && t in tails && c == [(key, v)] + t
    decreases |values|
  {
    if c in PrependAll((key, values[0]), tails) {
      var i :| 0 <= i < |tails| && PrependAll((key, values[0]), tails)[i] == c;
      v, t := values[0], tails[i];
    } else {
      v, t := CrossMember(key, values[1..], tails, c);
    }
  }

  /** A combination names every dimension once, in order, with one of that dimension's values. */
  ghost predicate FitsDims(c: Entries<Value>, dims: Entries<seq<Value>>)
  {
    |c| == |dims| && forall j :: 0 <= j < |dims| ==> c[j].0 == dims[j].0 && c[j].1 in dims[j].1
  }

  lemma {:induction false} CombinationFits(dims: Entries<seq<Value>>, c: Entries<Value>)
    requires c in Combinations(dims)
    ensures FitsDims(c, dims)
    decreases |dims|
  {
    if |dims| > 0 {
      var v, t := CrossMember(dims[0].0, dims[0].1, Combinations(dims[1..]), c);
      CombinationFits(dims[1..], t);
      ConsShape(dims, v, t);
    }
  }

  /** Each combination names every dimension once, in order, with one of that dimension's values. */
  lemma {:induction false} CombinationShape(dims: Entries<seq<Value>>, i: int)
    requires 0 <= i < Product(dims)
    ensures FitsDims(Combinations(dims)[i], dims)
  {
    CombinationFits(dims, Combinations(dims)[i]);
  }

  /** A value of the first dimension in front of a fitting tail combination fits the whole grid. */
  lemma ConsShape(dims: Entries<seq<Value>>, v: Value, tail: Entries<Value>)
    requires |dims| > 0 && v in dims[0].1
    requires FitsDims(tail, dims[1..])
    ensures FitsDims([(dims[0].0, v)] + tail, dims)
  {
    var c := [(dims[0].0, v)] + tail;
    forall j | 0 <= j < |dims| ensures c[j].0 == dims[j].0 && c[j].1 in dims[j].1 {
      if j > 0 {
        assert c[j] == tail[j - 1];
        assert dims[j] == dims[1..][j - 1];
      }
    }
  }

  /** There is no combination at all exactly when some dimension is an empty list. */
  lemma {:induction false} ProductZero(dims: Entries<seq<Value>>)
    ensures Product(dims) == 0 <==> exists j :: 0 <= j < |dims| && |dims[j].1| == 0
    decreases |dims|
  {
    if |dims| > 0 {
      ProductZero(dims[1..]);
      if exists j :: 0 <= j < |dims[1..]| && |dims[1..][j].1| == 0 {
        var j :| 0 <= j < |dims[1..]| && |dims[1..][j].1| == 0;
        assert dims[j + 1] == dims[1..][j];
      }
      if exists j :: 0 <= j < |dims| && |dims[j].1| == 0 {
        var j :| 0 <= j < |dims| && |dims[j].1| == 0;
        if j > 0 {
          assert dims[1..][j - 1] == dims[j];
        }
      }
    }
  }

  /** The base experiment name: `gridsearch_` and the random suffix padded to six digits. */
  function GridsearchName(suffix: nat): (name: string)
    ensures |name| >= 17 && name[..11] == "gridsearch_"
    ensures AllDigits(name[11..]) && ParseDigits(name[11..]) == suffix
  {
    var name := "gridsearch_" + ZeroPad(NatToString(suffix), 6);
    assert name[11..] == ZeroPad(NatToString(suffix), 6);
    ParseZeroPad(NatToString(suffix), 6);
    ParseNatToString(suffix);
    name
  }

  /** The name of run `i`: the base name, an underscore and the index, which reads back from the name. */
  function RunName(expName: string, i: nat): (name: string)
    ensures |name| > |expName| + 1 && name[..|expName|] == expName && name[|expName|] == '_'
    ensures AllDigits(name[|expName| + 1..]) && ParseDigits(name[|expName| + 1..]) == i
  {
    var name := expName + "_" + NatToString(i);
    assert name[|expName| + 1..] == NatToString(i);
    ParseNatToString(i);
    name
  }

  /** Runs of one gridsearch never share a name. */
  lemma RunNameInjective(expName: string, i: nat, j: nat)
    requires RunName(expName, i) == RunName(expName, j)
    ensures i == j
  {
    var a := RunName(expName, i);
    assert ParseDigits(a[|expName| + 1..]) == i;
  }

  /** The namespace of the fixed fields, then the forced `log_level`, `exp_name` and `save_callback`. */
  function BaseArgs(fixed: Entries<Value>, expName: string): (b: Bag)
    ensures b.Keys == SetOfKeys(fixed) + {LogLevelField, ExpNameField, SaveCallbackField}
    ensures b[LogLevelField] == Str("WARN") && b[ExpNameField] == Str(expName)
    ensures b[SaveCallbackField] == List([])
  {
    SetAllKeys(map[], fixed);
    SetAll(map[], fixed)[LogLevelField := Str("WARN")][ExpNameField := Str(expName)][SaveCallbackField := List([])]
  }

  /** A fixed field other than the forced ones keeps its config value in the base namespace. */
  lemma BaseArgsFixed(fixed: Entries<Value>, expName: string, k: int)
    requires DistinctKeys(fixed)
    requires 0 <= k < |fixed|
    requires fixed[k].0 !in {LogLevelField, ExpNameField, SaveCallbackField}
    ensures fixed[k].0 in BaseArgs(fixed, expName) && BaseArgs(fixed, expName)[fixed[k].0] == fixed[k].1
  {
    SetAllAt(map[], fixed, k);
  }

  const MasterAddrField := "master_addr"

  /** `v + 1` for a Python number: a bool counts as 0 or 1 and the sum is an int. */
  function AddOne(v: Value): (w: Value)
    requires IsNumber(v)
    ensures IsNumber(w) && AsReal(w) == AsReal(v) + 1.0
    ensures w.Float? <==> v.Float?
    ensures !v.Float? ==> w.Int?
  {
    if v.Float? then Float(v.x + 1.0)
    else if v.Int? then Int(v.i + 1)
    else Int(if v.b then 2 else 1)
  }

  /** A numeric address after `n` of the increments that follow each run. */
  function Incremented(v: Value, n: nat): (w: Value)
    requires IsNumber(v)
    ensures IsNumber(w) && AsReal(w) == AsReal(v) + n as real
    ensures n > 0 ==> (w.Float? <==> v.Float?) && (!v.Float? ==> w.Int?)
  {
    if n == 0 then v else AddOne(Incremented(v, n - 1))
  }

  /**
   * The base namespace as run `i` copies it: the increment after each
   * earlier run has raised a numeric `master_addr` by one, and nothing else
   * of the base changes between runs.
   */
  function ArgsBefore(fixed: Entries<Value>, expName: string, i: nat): (b: Bag)
    ensures b.Keys == BaseArgs(fixed, expName).Keys
    ensures forall k :: k in b ==>
      b[k] == (if k == MasterAddrField && IsNumber(BaseArgs(fixed, expName)[k])
               then Incremented(BaseArgs(fixed, expName)[k], i) else BaseArgs(fixed, expName)[k])
  {
    var base := BaseArgs(fixed, expName);
    if MasterAddrField in base && IsNumber(base[MasterAddrField]) then
      base[MasterAddrField := Incremented(base[MasterAddrField], i)]
    else base
  }

  /** `copy(args)` before run `i`, the indexed name, then `setattr` of each grid value of the combination. */
  function RunArgs(fixed: Entries<Value>, expName: string, i: nat, combo: Entries<Value>): (r: Bag)
    ensures r.Keys == BaseArgs(fixed, expName).Keys + SetOfKeys(combo)
    ensures ExpNameField !in SetOfKeys(combo) ==> r[ExpNameField] == Str(RunName(expName, i))
    ensures forall k :: k in r && k !in SetOfKeys(combo) && k != ExpNameField ==> r[k] == ArgsBefore(fixed, expName, i)[k]
    ensures DistinctKeys(combo) ==> forall j :: 0 <= j < |combo| ==> r[combo[j].0] == combo[j].1
  {
    var base := ArgsBefore(fixed, expName, i)[ExpNameField := Str(RunName(expName, i))];
    SetAllKeys(base, combo);
    SetAllOthers(base, combo);
    SetAllDistinct(base, combo);
    SetAll(base, combo)
  }

  /**
   * The namespace built for each combination, in launch order. Run `i` is
   * only built once the increments after runs `0 .. i-1` have succeeded;
   * `Dispatch` says how many are.
   */
  function Expand(config: Entries<Value>, expName: string): (runs: seq<Bag>)
    ensures |runs| == Product(Split(config).grid)
  {
    var p := Split(config);
    var combos := Combinations(p.grid);
    seq(|combos|, i requires 0 <= i < |combos| => RunArgs(p.fixed, expName, i, combos[i]))
  }

  /** With no grid field there is exactly one run; an empty grid list means no run at all. */
  lemma {:induction false} ExpandCount(config: Entries<Value>, expName: string)
    ensures |Split(config).grid| == 0 ==> |Expand(config, expName)| == 1
    ensures (exists e :: e in config && IsGridField(e.0, e.1) && |e.1.items| == 0) ==> |Expand(config, expName)| == 0
  {
    var g := Split(config).grid;
    if exists e :: e in config && IsGridField(e.0, e.1) && |e.1.items| == 0 {
      var e :| e in config && IsGridField(e.0, e.1) && |e.1.items| == 0;
      var k :| 0 <= k < |config| && config[k] == e;
      SplitComplete(config, k);
      var j :| 0 <= j < |g| && g[j] == (e.0, e.1.items);
      ProductZero(g);
    }
  }

  lemma {:induction false} CombinationKeys(dims: Entries<seq<Value>>, i: int)
    requires 0 <= i < Product(dims)
    ensures SetOfKeys(Combinations(dims)[i]) == SetOfKeys(dims)
    ensures DistinctKeys(dims) ==> DistinctKeys(Combinations(dims)[i])
  {
    var c := Combinations(dims)[i];
    CombinationShape(dims, i);
    forall k | k in SetOfKeys(c) ensures k in SetOfKeys(dims) {
      var e :| e in c && e.0 == k;
      var j :| 0 <= j < |c| && c[j] == e;
      assert dims[j] in dims;
    }
    forall k | k in SetOfKeys(dims) ensures k in SetOfKeys(c) {
      var e :| e in dims && e.0 == k;
      var j :| 0 <= j < |dims| && dims[j] == e;
      assert c[j] in c;
    }
    if DistinctKeys(dims) {
      forall a, b | 0 <= a < b < |c| ensures c[a].0 != c[b].0 {
        assert c[a].0 == dims[a].0 && c[b].0 == dims[b].0;
      }
    }
  }

  /** Unless a grid dimension is itself called `exp_name`, run `i` is named `<base>_<i>`. */
  lemma {:induction false} ExpandRunName(config: Entries<Value>, expName: string, i: int)
    requires 0 <= i < |Expand(config, expName)|
    requires ExpNameField !in SetOfKeys(Split(config).grid)
    ensures ExpNameField in Expand(config, expName)[i]
    ensures Expand(config, expName)[i][ExpNameField] == Str(RunName(expName, i))
  {
    CombinationKeys(Split(config).grid, i);
  }

  /** Unless `exp_name` is a grid dimension, the runs of one gridsearch have pairwise distinct names. */
  lemma {:induction false} ExpandNamesDistinct(config: Entries<Value>, expName: string, i: int, j: int)
    requires 0 <= i < |Expand(config, expName)| && 0 <= j < |Expand(config, expName)| && i != j
    requires ExpNameField !in SetOfKeys(Split(config).grid)
    ensures ExpNameField in Expand(config, expName)[i] && ExpNameField in Expand(config, expName)[j]
    ensures Expand(config, expName)[i][ExpNameField] != Expand(config, expName)[j][ExpNameField]
  {
    ExpandRunName(config, expName, i);
    ExpandRunName(config, expName, j);
    if RunName(expName, i) == RunName(expName, j) {
      RunNameInjective(expName, i, j);
    }
  }

  /**
   * Run `i` carries, for every grid dimension, the value its combination
   * picks, and that value is one of the dimension's list items.
   */
  lemma {:induction false} ExpandGridValue(config: Entries<Value>, expName: string, i: int, j: int)
    requires DistinctKeys(config)
    requires 0 <= i < |Expand(config, expName)|
    requires 0 <= j < |Split(config).grid|
    ensures var p := Split(config); var c := Combinations(p.grid)[i];
      |c| == |p.grid| && c[j].0 == p.grid[j].0 && c[j].1 in p.grid[j].1
      && p.grid[j].0 in Expand(config, expName)[i]
      && Expand(config, expName)[i][p.grid[j].0] == c[j].1
  {
    var p := Split(config);
    SplitKeys(config);
    CombinationShape(p.grid, i);
    CombinationKeys(p.grid, i);
  }

  /** Unless they are grid dimensions, every run logs at WARN and saves nothing. */
  lemma {:induction false} ExpandForcedFields(config: Entries<Value>, expName: string, i: int)
    requires 0 <= i < |Expand(config, expName)|
    ensures LogLevelField !in SetOfKeys(Split(config).grid) ==>
      LogLevelField in Expand(config, expName)[i] && Expand(config, expName)[i][LogLevelField] == Str("WARN")
    ensures SaveCallbackField !in SetOfKeys(Split(config).grid) ==>
      SaveCallbackField in Expand(config, expName)[i] && Expand(config, expName)[i][SaveCallbackField] == List([])
  {
    CombinationKeys(Split(config).grid, i);
  }

  /**
   * A fixed config field that is not one of the forced ones reaches every
   * run as the config gives it, except a numeric `master_addr`, which run
   * `i` sees raised by `i`.
   */
  lemma {:induction false} ExpandFixedValue(config: Entries<Value>, expName: string, i: int, k: int)
    requires DistinctKeys(config)
    requires 0 <= i < |Expand(config, expName)|
    requires 0 <= k < |Split(config).fixed|
    requires Split(config).fixed[k].0 !in {LogLevelField, ExpNameField, SaveCallbackField}
    ensures var e := Split(config).fixed[k];
      e in config && e.0 in Expand(config, expName)[i]
    ensures var e := Split(config).fixed[k];
      Expand(config, expName)[i][e.0] == if e.0 == MasterAddrField && IsNumber(e.1) then Incremented(e.1, i) else e.1
  {
    var p := Split(config);
    var e := p.fixed[k];
    FixedField(config, k);
    BaseArgsFixed(p.fixed, expName, k);
    var c := Combinations(p.grid)[i];
    CombinationKeys(p.grid, i);
    assert e.0 !in SetOfKeys(c);
    var run := RunArgs(p.fixed, expName, i, c);
    assert Expand(config, expName)[i] == run;
    assert e.0 in run && run[e.0] == ArgsBefore(p.fixed, expName, i)[e.0];
  }

  /** A numeric `master_addr` in the config gives every run its own address. */
  lemma {:induction false} ExpandAddressesDistinct(config: Entries<Value>, expName: string, addr: Value, i: int, j: int)
    requires DistinctKeys(config)
    requires (MasterAddrField, addr) in config && IsNumber(addr)
    requires 0 <= i < |Expand(config, expName)| && 0 <= j < |Expand(config, expName)| && i != j
    ensures MasterAddrField in Expand(config, expName)[i] && MasterAddrField in Expand(config, expName)[j]
    ensures Expand(config, expName)[i][MasterAddrField] != Expand(config, expName)[j][MasterAddrField]
  {
    var n :| 0 <= n < |config| && config[n] == (MasterAddrField, addr);
    SplitComplete(config, n);
    var p := Split(config);
    var k :| 0 <= k < |p.fixed| && p.fixed[k] == (MasterAddrField, addr);
    ExpandFixedValue(config, expName, i, k);
    ExpandFixedValue(config, expName, j, k);
  }

  /** Every run has exactly the config's fields plus the three forced ones. */
  lemma {:induction false} ExpandKeys(config: Entries<Value>, expName: string, i: int)
    requires 0 <= i < |Expand(config, expName)|
    ensures Expand(config, expName)[i].Keys == SetOfKeys(config) + {LogLevelField, ExpNameField, SaveCallbackField}
  {
    var p := Split(config);
    SplitKeys(config);
    CombinationKeys(p.grid, i);
  }

  /** How the gridsearch loop ends. */
  datatype LoopEnd =
    | Finished
      /** The increment raised AttributeError: the base namespace has no `master_addr`. */
    | AddressMissing
      /** The increment raised TypeError: the address is not a number. */
    | AddressNotNumber(addr: Value)

  datatype GridsearchOutcome = GridsearchOutcome(calls: seq<Bag>, end: LoopEnd)

  /**
   * The namespaces handed to `run_train_distributed`, in order, and how the
   * loop ends, given that each of those calls returns. The increment of the
   * base `master_addr` after a call is where the loop itself raises, and
   * when it does, it does so after the first call.
   */
  function Dispatch(config: Entries<Value>, expName: string): (o: GridsearchOutcome)
    ensures o.end.Finished? ==> o.calls == Expand(config, expName)
    ensures !o.end.Finished? ==> |Expand(config, expName)| > 0 && o.calls == Expand(config, expName)[..1]
    ensures o.end.Finished? <==>
      (|Expand(config, expName)| == 0
       || (MasterAddrField in BaseArgs(Split(config).fixed, expName)
           && IsNumber(BaseArgs(Split(config).fixed, expName)[MasterAddrField])))
    ensures o.end.AddressNotNumber? ==> !IsNumber(o.end.addr)
  {
    var runs := Expand(config, expName);
    var base := BaseArgs(Split(config).fixed, expName);
    if |runs| == 0 then GridsearchOutcome([], Finished)
    else if MasterAddrField !in base then GridsearchOutcome(runs[..1], AddressMissing)
    else if !IsNumber(base[MasterAddrField]) then GridsearchOutcome(runs[..1], AddressNotNumber(base[MasterAddrField]))
    else GridsearchOutcome(runs, Finished)
  }

  /**
   * The end of the loop read off the config: no `master_addr` at all, or
   * one that is a grid dimension, raises AttributeError; a non-numeric
   * fixed one raises TypeError; a numeric one lets every run go ahead.
   */
  lemma {:induction false} DispatchEnd(config: Entries<Value>, expName: string)
    requires DistinctKeys(config)
    requires |Expand(config, expName)| > 0
    ensures Get(config, MasterAddrField).Missing? ==> Dispatch(config, expName).end == AddressMissing
    ensures Get(config, MasterAddrField).Found? ==>
      var a := Get(config, MasterAddrField).value;
      Dispatch(config, expName).end
        == if a.List? then AddressMissing else if IsNumber(a) then Finished else AddressNotNumber(a)
  {
    var p := Split(config);
    var base := BaseArgs(p.fixed, expName);
    GetFound(config, MasterAddrField);
    SplitKeys(config);
    if Get(config, MasterAddrField).Found? {
      var a := Get(config, MasterAddrField).value;
      var n :| 0 <= n < |config| && config[n] == (MasterAddrField, a);
      SplitComplete(config, n);
      if a.List? {
        assert (MasterAddrField, a.items) in p.grid;
        assert MasterAddrField in SetOfKeys(p.grid);
      } else {
        var k :| 0 <= k < |p.fixed| && p.fixed[k] == (MasterAddrField, a);
        SetAllAt(map[], p.fixed, k);
        assert base[MasterAddrField] == a;
      }
    } else {
      assert MasterAddrField !in SetOfKeys(config) by {
        forall e | e in config ensures e.0 != MasterAddrField {
          var n :| 0 <= n < |config| && config[n] == e;
          assert Keys(config)[n] == e.0;
        }
      }
    }
  }

  /** Unless `exp_name` is a grid dimension, call `i` is named `<base>_<i>`. */
  lemma {:induction false} DispatchNames(config: Entries<Value>, expName: string)
    ensures ExpNameField !in SetOfKeys(Split(config).grid) ==>
      forall i :: 0 <= i < |Dispatch(config, expName).calls| ==>
        ExpNameField in Dispatch(config, expName).calls[i]
        && Dispatch(config, expName).calls[i][ExpNameField] == Str(RunName(expName, i))
  {
    var o := Dispatch(config, expName);
    if ExpNameField !in SetOfKeys(Split(config).grid) {
      forall i | 0 <= i < |o.calls|
        ensures ExpNameField in o.calls[i] && o.calls[i][ExpNameField] == Str(RunName(expName, i))
      {
        ExpandRunName(config, expName, i);
      }
    }
  }

  /**
   * `run_gridsearch` on a config file, with `suffix` standing for the random
   * draw: the calls it makes, each named `gridsearch_<suffix>_<i>` unless
   * `exp_name` is a grid dimension, and how its loop ends.
   */
  function RunGridsearch(config: Entries<Value>, suffix: nat): (o: GridsearchOutcome)
    ensures |o.calls| <= Product(Split(config).grid)
    ensures ExpNameField !in SetOfKeys(Split(config).grid) ==>
      forall i :: 0 <= i < |o.calls| ==>
        ExpNameField in o.calls[i] && o.calls[i][ExpNameField] == Str(RunName(GridsearchName(suffix), i))
  {
    DispatchNames(config, GridsearchName(suffix));
    Dispatch(config, GridsearchName(suffix))
  }
}
