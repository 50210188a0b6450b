/**
 * The embed pass `run_embed`: the shared single-process guard, then the
 * flattening of the per-batch outputs of the `save_embedding` callback into
 * one dict of per-example lists.
 */
module EmbedDispatch {
  import opened Results
  import opened PyValues
  import opened OrderedDicts
  import opened EvalDispatch

  /** What `save_embedding` returns for one batch: field name to per-example values. */
  type BatchOutput = Entries<seq<Value>>

  /** Concatenation of two partial columns; a KeyError on either side is a KeyError. */
  function Join(a: Lookup<seq<Value>>, b: Lookup<seq<Value>>): Lookup<seq<Value>>
  {
    if a.Found? && b.Found? then Found(a.value + b.value) else Missing
  }

  /** How many values the batches hold under `key`, counting a batch without it as none. */
  function FieldCount(batches: seq<BatchOutput>, key: string): nat
  {
    if |batches| == 0 then 0
    else
      var own := if Get(batches[0], key).Found? then |Get(batches[0], key).value| else 0;
      own + FieldCount(batches[1..], key)
  }

  /** One output field: the field's lists of all batches chained in iteration order, or a KeyError. */
  function Column(batches: seq<BatchOutput>, key: string): (r: Lookup<seq<Value>>)
    ensures r.Found? <==> forall i :: 0 <= i < |batches| ==> Get(batches[i], key).Found?
    ensures r.Found? ==> |r.value| == FieldCount(batches, key)
  {
    if |batches| == 0 then Found([])
    else
      assert forall i :: 1 <= i < |batches| ==> batches[i] == batches[1..][i - 1];
      Join(Get(batches[0], key), Column(batches[1..], key))
  }

  /** Builds the output fields in the order of `keys`, failing at the first key some batch lacks. */
  function FlattenFields(keys: seq<string>, batches: seq<BatchOutput>): (r: Result<Entries<seq<Value>>, PassError>)
    ensures r.Ok? <==> forall i :: 0 <= i < |keys| ==> Column(batches, keys[i]).Found?
    ensures r.Ok? ==> Keys(r.value) == keys
    ensures r.Ok? ==> forall i :: 0 <= i < |keys| ==> Column(batches, keys[i]) == Found(r.value[i].1)
    ensures r.Err? ==> r.error.MissingField?
  {
    if |keys| == 0 then Ok([])
    else match Column(batches, keys[0])
      case Missing => Err(MissingField(keys[0]))
      case Found(col) =>
        match FlattenFields(keys[1..], batches)
        case Err(e) =>
          ghost var i :| 0 <= i < |keys[1..]| && Column(batches, keys[1..][i]).Missing?;
          assert keys[1..][i] == keys[i + 1];
          Err(e)
        case Ok(rest) =>
          var fields := [(keys[0], col)] + rest;
          assert forall i :: 1 <= i < |keys| ==> fields[i] == rest[i - 1] && keys[i] == keys[1..][i - 1];
          Ok(fields)
  }

  /** Key `i` is the first of `keys` whose chain is missing. */
  ghost predicate FirstMissing(keys: seq<string>, batches: seq<BatchOutput>, i: int)
  {
    0 <= i < |keys| && Column(batches, keys[i]).Missing?
    && forall j :: 0 <= j < i ==> Column(batches, keys[j]).Found?
  }

  /** A failed flattening reports the first key some batch lacks. */
  lemma {:induction false} FlattenFieldsFirstMissing(keys: seq<string>, batches: seq<BatchOutput>)
    ensures FlattenFields(keys, batches).Err? ==>
      exists i :: FirstMissing(keys, batches, i) && FlattenFields(keys, batches).error == MissingField(keys[i])
    decreases |keys|
  {
    var r := FlattenFields(keys, batches);
    if r.Err? {
      if Column(batches, keys[0]).Missing? {
        assert FirstMissing(keys, batches, 0);
      } else {
        FlattenFieldsFirstMissing(keys[1..], batches);
        var i :| FirstMissing(keys[1..], batches, i) && r.error == MissingField(keys[1..][i]);
        assert FirstMissing(keys, batches, i + 1) by {
          forall j | 0 <= j < i + 1 ensures Column(batches, keys[j]).Found? {
            if j > 0 {
              assert keys[j] == keys[1..][j - 1];
            }
          }
        }
      }
    }
  }

  /**
   * The flattening after the embedding loop: the keys are the first batch's
   * keys and each field is that field of every batch, concatenated in
   * iteration order.
   */
  function Flatten(batches: seq<BatchOutput>): (r: Result<Entries<seq<Value>>, PassError>)
    ensures |batches| == 0 <==> r == Err(NoBatches)
    ensures r.Ok? ==> Keys(r.value) == Keys(batches[0])
    ensures r.Ok? ==> forall i :: 0 <= i < |r.value| ==>
      Column(batches, r.value[i].0) == Found(r.value[i].1)
      && |r.value[i].1| == FieldCount(batches, r.value[i].0)
    ensures |batches| > 0 ==>
      (r.Ok? <==> forall b, k :: 0 <= b < |batches| && k in Keys(batches[0]) ==> Get(batches[b], k).Found?)
    ensures |batches| > 0 && r.Err? ==>
      exists i :: FirstMissing(Keys(batches[0]), batches, i) && r.error == MissingField(Keys(batches[0])[i])
  {
    if |batches| == 0 then Err(NoBatches)
    else
      var r := FlattenFields(Keys(batches[0]), batches);
      FlattenFieldsFirstMissing(Keys(batches[0]), batches);
      assert r.Ok? <==> forall b, k :: 0 <= b < |batches| && k in Keys(batches[0]) ==> Get(batches[b], k).Found? by {
        if r.Ok? {
          forall b, k | 0 <= b < |batches| && k in Keys(batches[0]) ensures Get(batches[b], k).Found? {
            var i :| 0 <= i < |Keys(batches[0])| && Keys(batches[0])[i] == k;
            assert Column(batches, Keys(batches[0])[i]).Found?;
          }
        }
        if forall b, k :: 0 <= b < |batches| && k in Keys(batches[0]) ==> Get(batches[b], k).Found? {
          var keys := Keys(batches[0]);
          forall i | 0 <= i < |keys| ensures Column(batches, keys[i]).Found? {
            assert keys[i] in keys;
          }
        }
      }
      r
  }

  /** `run_embed`: the guard, then the flattened outputs written to `outfile`. */
  function RunEmbed(args: Bag, batches: seq<BatchOutput>): (r: Result<Entries<seq<Value>>, PassError>)
    ensures CheckSingleProcess(args, EmbedPass).Err? ==> r == Err(CheckSingleProcess(args, EmbedPass).error)
    ensures CheckSingleProcess(args, EmbedPass).Ok? ==> r == Flatten(batches)
  {
    if CheckSingleProcess(args, EmbedPass).Err? then Err(CheckSingleProcess(args, EmbedPass).error)
    else Flatten(batches)
  }

  lemma JoinAssociative(a: Lookup<seq<Value>>, b: Lookup<seq<Value>>, c: Lookup<seq<Value>>)
    ensures Join(a, Join(b, c)) == Join(Join(a, b), c)
  {
    if a.Found? && b.Found? && c.Found? {
      assert a.value + (b.value + c.value) == (a.value + b.value) + c.value;
    }
  }

  /** Splitting the batch stream anywhere splits every column at the same point. */
  lemma {:induction false} ColumnAppend(b1: seq<BatchOutput>, b2: seq<BatchOutput>, key: string)
    ensures Column(b1 + b2, key) == Join(Column(b1, key), Column(b2, key))
  {
    if |b1| == 0 {
      assert b1 + b2 == b2;
      if Column(b2, key).Found? {
        assert [] + Column(b2, key).value == Column(b2, key).value;
      }
    } else {
      assert (b1 + b2)[0] == b1[0];
      assert (b1 + b2)[1..] == b1[1..] + b2;
      ColumnAppend(b1[1..], b2, key);
      JoinAssociative(Get(b1[0], key), Column(b1[1..], key), Column(b2, key));
    }
  }

  /**
   * Order is preserved: the values batch `i` holds under `key` sit in the
   * flattened column right after those of the batches before it.
   */
  lemma ColumnPlacesBatch(batches: seq<BatchOutput>, key: string, i: int)
    requires 0 <= i < |batches|
    requires Column(batches, key).Found?
    ensures var before := FieldCount(batches[..i], key);
      var own := Get(batches[i], key).value;
      before + |own| <= |Column(batches, key).value|
      && Column(batches, key).value[before .. before + |own|] == own
  {
    assert batches == batches[..i] + ([batches[i]] + batches[i + 1..]);
    ColumnAppend(batches[..i], [batches[i]] + batches[i + 1..], key);
    ColumnAppend([batches[i]], batches[i + 1..], key);
    assert Column([batches[i]], key) == Join(Get(batches[i], key), Found([])) by {
      assert [batches[i]][1..] == [];
    }
  }

  /** The per-field lengths of several batches add up. */
  lemma {:induction false} FieldCountAppend(b1: seq<BatchOutput>, b2: seq<BatchOutput>, key: string)
    ensures FieldCount(b1 + b2, key) == FieldCount(b1, key) + FieldCount(b2, key)
  {
    if |b1| == 0 {
      assert b1 + b2 == b2;
    } else {
      assert (b1 + b2)[1..] == b1[1..] + b2;
      FieldCountAppend(b1[1..], b2, key);
    }
  }

  /** Flattening one batch gives that batch back. */
  lemma SingleBatch(b: BatchOutput)
    requires DistinctKeys(b)
    ensures Flatten([b]) == Ok(b)
  {
    var r := Flatten([b]);
    forall i | 0 <= i < |b| ensures Column([b], b[i].0) == Found(b[i].1) {
      GetAt(b, i);
      assert [b][1..] == [];
      assert Column([b][1..], b[i].0) == Found([]);
      assert b[i].1 + [] == b[i].1;
    }
    forall bi, k | 0 <= bi < |[b]| && k in Keys([b][0]) ensures Get([b][bi], k).Found? {
      GetFound(b, k);
    }
    assert r.Ok?;
    assert |r.value| == |Keys(r.value)| == |b|;
    forall i | 0 <= i < |b| ensures r.value[i] == b[i] {
      assert Keys(r.value)[i] == Keys(b)[i];
      assert Column([b], r.value[i].0) == Found(r.value[i].1);
      assert Column([b], b[i].0) == Found(b[i].1);
    }
    assert r.value == b;
  }

  function Prefixed(out: Entries<seq<Value>>, r: Result<Entries<seq<Value>>, PassError>): Result<Entries<seq<Value>>, PassError>
  {
    if r.Ok? then Ok(out + r.value) else r
  }

  /** One step of `FlattenFields` seen from position `k` of the key list. */
  lemma FlattenFieldsStep(keys: seq<string>, k: int, batches: seq<BatchOutput>)
    requires 0 <= k < |keys|
    ensures Column(batches, keys[k]).Missing? ==> FlattenFields(keys[k..], batches) == Err(MissingField(keys[k]))
    ensures Column(batches, keys[k]).Found? ==>
      FlattenFields(keys[k..], batches)
      == Prefixed([(keys[k], Column(batches, keys[k]).value)], FlattenFields(keys[k + 1..], batches))
  {
    assert keys[k..][0] == keys[k] && keys[k..][1..] == keys[k + 1..];
  }

  lemma PrefixedTwice(a: Entries<seq<Value>>, b: Entries<seq<Value>>, r: Result<Entries<seq<Value>>, PassError>)
    ensures Prefixed(a, Prefixed(b, r)) == Prefixed(a + b, r)
  {
    if r.Ok? {
      assert a + (b + r.value) == (a + b) + r.value;
    }
  }

  /** One output field gathered batch by batch, as the chaining generator does. */
  method ColumnByLoop(batches: seq<BatchOutput>, key: string) returns (c: Lookup<seq<Value>>)
    ensures c == Column(batches, key)
  {
    var col: seq<Value> := [];
    var b := 0;
    assert batches[0..] == batches;
    assert Join(Found([]), Column(batches, key)) == Column(batches, key) by {
      if Column(batches, key).Found? {
        assert [] + Column(batches, key).value == Column(batches, key).value;
      }
    }
    while b < |batches|
      invariant 0 <= b <= |batches|
      invariant Column(batches, key) == Join(Found(col), Column(batches[b..], key))
    {
      var cell := Get(batches[b], key);
      assert batches[b..][0] == batches[b] && batches[b..][1..] == batches[b + 1..];
      if cell.Missing? {
        return Missing;
      }
      JoinAssociative(Found(col), cell, Column(batches[b + 1..], key));
      col := col + cell.value;
      b := b + 1;
    }
    assert col + [] == col;
    c := Found(col);
  }

  /**
   * The `output_dict` comprehension of `run_embed`, step by step: a pass
   * over the first batch's keys, each field gathered by chaining the
   * batches in order.
   */
  method FlattenByLoop(batches: seq<BatchOutput>) returns (r: Result<Entries<seq<Value>>, PassError>)
    ensures r == Flatten(batches)
  {
    if |batches| == 0 {
      return Err(NoBatches);
    }
    var keys := Keys(batches[0]);
    var out: Entries<seq<Value>> := [];
    var k := 0;
    assert keys[k..] == keys;
    assert Prefixed(out, FlattenFields(keys, batches)) == FlattenFields(keys, batches) by {
      if FlattenFields(keys, batches).Ok? {
        assert out + FlattenFields(keys, batches).value == FlattenFields(keys, batches).value;
      }
    }
    while k < |keys|
      invariant 0 <= k <= |keys|
      invariant FlattenFields(keys, batches) == Prefixed(out, FlattenFields(keys[k..], batches))
    {
      var col := ColumnByLoop(batches, keys[k]);
      FlattenFieldsStep(keys, k, batches);
      if col.Missing? {
        return Err(MissingField(keys[k]));
      }
      PrefixedTwice(out, [(keys[k], col.value)], FlattenFields(keys[k + 1..], batches));
      out := out + [(keys[k], col.value)];
      k := k + 1;
    }
    assert keys[k..] == [];
    assert out + [] == out;
    r := Ok(out);
  }
}
