/** The model wrapper of m3inference/m3inference.py: which checkpoint variant is
    used, how its weights are found, fetched and loaded, and how per-batch
    predictions are joined back to the input records. The network itself is
    opaque: its per-batch outputs are inputs here. */
module Inference {
  import opened Common
  import opened Consts
  import opened Checkpoint
  import Dataset

  // ---------------------------------------------------------------------------
  // Model variant and weight loading
  // ---------------------------------------------------------------------------

  /** The checkpoint variant: the full model when images are used. */
  function ModelType(useFullModel: bool): (t: string)
    ensures t == "full_model" <==> useFullModel
    ensures t == "text_model" <==> !useFullModel
    ensures t in PretrainedModelArchiveMap && t in PretrainedModelMd5Map
  {
    if useFullModel then "full_model" else "text_model"
  }

  /** What `load_pretrained_model` did. */
  datatype LoadAction =
    | LoadedChecked(digestMatches: bool)   // the file existed: checked, then loaded whatever its digest
    | FetchedAndLoaded                     // the file was missing: fetched, then loaded unchecked
    | NotAttempted                         // the file was missing and the variant has no mirrors

  class M3Inference {
    const useFullModel: bool
    const modelType: string
    const modelDir: string
    /** The loaded state dict, as the checkpoint bytes it was read from. */
    var weights: Option<Bytes>

    /** The field set-up of `__init__` (the `pretrained=False` path). */
    constructor (modelDir: string, useFullModel: bool)
      ensures this.modelDir == modelDir && this.useFullModel == useFullModel
      ensures modelType == ModelType(useFullModel)
      ensures weights == None
    {
      this.modelDir := modelDir;
      this.useFullModel := useFullModel;
      modelType := ModelType(useFullModel);
      weights := None;
    }

    /** Where the checkpoint of this variant lives. */
    function ModelPath(): string
    {
      JoinPath(modelDir, modelType + ".mdl")
    }

    /** `load_model_weight`: optionally run the MD5 gate, then load the file.
        The gate's verdict is returned but does not stop the load. */
    method LoadModelWeight(fs: FileSystem, path: string, needCheck: bool, md5: Bytes -> string)
      returns (r: Result<Option<bool>>)
      modifies this
      ensures needCheck && modelType !in PretrainedModelMd5Map ==>
                r.Failure? && r.error.AssertionError? && weights == old(weights)
      ensures (!needCheck || modelType in PretrainedModelMd5Map) && path !in fs.files ==>
                r == Failure(FileNotFound(path)) && weights == old(weights)
      ensures (!needCheck || modelType in PretrainedModelMd5Map) && path in fs.files ==>
                && weights == Some(fs.files[path])
                && r == Success(if needCheck then Some(md5(fs.files[path]) == PretrainedModelMd5Map[modelType]) else None)
    {
      var verdict: Option<bool> := None;
      if needCheck {
        var check := CheckFileMd5(modelType, path, fs.files, md5);
        if check.Failure? {
          return Failure(check.error);
        }
        verdict := Some(check.value);
      }
      if path !in fs.files {
        return Failure(FileNotFound(path));
      }
      weights := Some(fs.files[path]);
      r := Success(verdict);
    }

    /** `load_pretrained_model`: a present checkpoint is checked and loaded; a
        missing one is fetched and loaded unchecked when the variant has
        mirrors, and otherwise nothing is loaded. */
    method LoadPretrainedModel(fs: FileSystem, mirrors: seq<string>, downloads: seq<Download>, md5: Bytes -> string)
      returns (r: Result<LoadAction>)
      requires |downloads| == |mirrors|
      requires modelType in PretrainedModelArchiveMap ==>
                 multiset(mirrors) == multiset(PretrainedModelArchiveMap[modelType])
      modifies this, fs
      ensures var path := ModelPath();
        path in old(fs.files) ==>
          && fs.files == old(fs.files)
          && (modelType in PretrainedModelMd5Map ==>
                && weights == Some(old(fs.files)[path])
                && r == Success(LoadedChecked(md5(old(fs.files)[path]) == PretrainedModelMd5Map[modelType])))
          && (modelType !in PretrainedModelMd5Map ==> r.Failure? && weights == old(weights))
      ensures var path := ModelPath();
        path !in old(fs.files) && modelType in PretrainedModelArchiveMap ==>
          match Written(downloads, None, PretrainedModelMd5Map[modelType], md5)
          case None => fs.files == old(fs.files) && r == Failure(FileNotFound(path)) && weights == old(weights)
          case Some(c) => fs.files == old(fs.files)[path := c] && r == Success(FetchedAndLoaded) && weights == Some(c)
      ensures var path := ModelPath();
        path !in old(fs.files) && modelType !in PretrainedModelArchiveMap ==>
          fs.files == old(fs.files) && r == Success(NotAttempted) && weights == old(weights)
    {
      var path := ModelPath();
      if path !in fs.files {
        if modelType in PretrainedModelArchiveMap {
          CheckpointMapsAgree();
          var fetched := FetchPretrainedModel(fs, modelType, path, mirrors, downloads, md5);
          var loaded := LoadModelWeight(fs, path, false, md5);
          if loaded.Failure? {
            return Failure(loaded.error);
          }
          r := Success(FetchedAndLoaded);
        } else {
          r := Success(NotAttempted);
        }
      } else {
        var loaded := LoadModelWeight(fs, path, true, md5);
        if loaded.Failure? {
          return Failure(loaded.error);
        }
        r := Success(LoadedChecked(loaded.value.value));
      }
    }
  }

  /** `M3Inference(model_dir, pretrained, use_full_model)`: set up the fields
      and, when pretrained weights are asked for, load them (the exceptions of
      loading propagate out of the constructor). */
  method Create(fs: FileSystem, modelDir: string, pretrained: bool, useFullModel: bool,
                mirrors: seq<string>, downloads: seq<Download>, md5: Bytes -> string)
    returns (r: Result<M3Inference>)
    requires |downloads| == |mirrors|
    requires multiset(mirrors) == multiset(PretrainedModelArchiveMap[ModelType(useFullModel)])
    modifies fs
    ensures r.Success? ==> fresh(r.value) && r.value.modelType == ModelType(useFullModel) && r.value.modelDir == modelDir
    ensures !pretrained ==> r.Success? && r.value.weights == None && fs.files == old(fs.files)
    ensures pretrained ==>
      var path := JoinPath(modelDir, ModelType(useFullModel) + ".mdl");
      var fetched := Written(downloads, None, PretrainedModelMd5Map[ModelType(useFullModel)], md5);
      && (path in old(fs.files) ==> r.Success? && r.value.weights == Some(old(fs.files)[path]) && fs.files == old(fs.files))
      && (path !in old(fs.files) ==> (r.Success? <==> fetched.Some?) && (r.Success? ==> r.value.weights == fetched))
      && (path !in old(fs.files) ==> fs.files == match fetched
                                                case None => old(fs.files)
                                                case Some(c) => old(fs.files)[path := c])
    /** Both variants have mirrors, so a pretrained instance never ends up
        without weights: the "not in our pretrained model list" branch is
        unreachable from the constructor. */
    ensures pretrained && r.Success? ==> r.value.weights.Some?
  {
    var m := new M3Inference(modelDir, useFullModel);
    if pretrained {
      var loaded := m.LoadPretrainedModel(fs, mirrors, downloads, md5);
      if loaded.Failure? {
        return Failure(loaded.error);
      }
    }
    r := Success(m);
  }

  // ---------------------------------------------------------------------------
  // Flattening batch predictions
  // ---------------------------------------------------------------------------

  /** The probabilities of one record, one vector per category. */
  type Prediction = seq<seq<real>>

  /** The network's output for one batch: `b[c][i]` is category c's vector for row i. */
  type Batch = seq<seq<seq<real>>>

  /** What the flattening comprehension indexes without raising: three outputs,
      each with at least as many rows as the first. */
  predicate Indexable(b: Batch)
  {
    |b| >= 3 && |b[1]| >= |b[0]| && |b[2]| >= |b[0]|
  }

  function TotalRows(batches: seq<Batch>): nat
    requires forall j :: 0 <= j < |batches| ==> Indexable(batches[j])
  {
    if batches == [] then 0 else assert Indexable(batches[0]); |batches[0][0]| + TotalRows(batches[1..])
  }

  /** The (gender, age, org) triples of one batch, in row order. */
  function BatchRows(b: Batch): (rows: seq<Prediction>)
    requires Indexable(b)
    ensures |rows| == |b[0]|
    ensures forall i :: 0 <= i < |rows| ==> rows[i] == [b[0][i], b[1][i], b[2][i]]
  {
    seq(|b[0]|, i requires 0 <= i < |b[0]| => [b[0][i], b[1][i], b[2][i]])
  }

  /** Batches in order, rows in order within each batch. */
  function Flatten(batches: seq<Batch>): (rows: seq<Prediction>)
    requires forall j :: 0 <= j < |batches| ==> Indexable(batches[j])
    ensures |rows| == TotalRows(batches)
    ensures forall k :: 0 <= k < |rows| ==> |rows[k]| == 3
  {
    if batches == [] then [] else BatchRows(batches[0]) + Flatten(batches[1..])
  }

  /** Row i of batch j lands after all rows of the earlier batches. */
  lemma {:induction false} FlattenAt(batches: seq<Batch>, j: nat, i: nat)
    requires forall j :: 0 <= j < |batches| ==> Indexable(batches[j])
    requires j < |batches| && Indexable(batches[j]) && i < |batches[j][0]|
    ensures TotalRows(batches[..j]) + i < |Flatten(batches)|
    ensures Flatten(batches)[TotalRows(batches[..j]) + i] == [batches[j][0][i], batches[j][1][i], batches[j][2][i]]
  {
    if j == 0 {
      assert batches[..0] == [];
    } else {
      var rest := batches[1..];
      assert batches[..j][1..] == rest[..j - 1];
      FlattenAt(rest, j - 1, i);
    }
  }

  // ---------------------------------------------------------------------------
  // The JSON join
  // ---------------------------------------------------------------------------

  /** The first n pairs of `zip(keys, values)` as a dictionary, a later pair
      overwriting an earlier one with the same key. */
  function ZipMapUpTo<K(!new), V>(keys: seq<K>, values: seq<V>, n: nat): (m: map<K, V>)
    requires n <= |keys| && n <= |values|
    ensures forall k :: k in m <==> k in keys[..n]
  {
    if n == 0 then map[]
    else
      assert keys[..n] == keys[..n - 1] + [keys[n - 1]];
      ZipMapUpTo(keys, values, n - 1)[keys[n - 1] := values[n - 1]]
  }

  /** `{k: v for k, v in zip(keys, values)}`: pairs up to the shorter list. */
  function ZipMap<K(!new), V>(keys: seq<K>, values: seq<V>): (m: map<K, V>)
    ensures forall k :: k in m <==> k in keys[..Min(|keys|, |values|)]
  {
    ZipMapUpTo(keys, values, Min(|keys|, |values|))
  }

  /** With distinct keys, each of the first n keys maps to its partner. */
  lemma {:induction false} ZipMapUpToAt<K(!new), V>(keys: seq<K>, values: seq<V>, n: nat, j: nat)
    requires Distinct(keys)
    requires j < n <= |keys| && n <= |values|
    ensures keys[j] in ZipMapUpTo(keys, values, n) && ZipMapUpTo(keys, values, n)[keys[j]] == values[j]
  {
    var m := ZipMapUpTo(keys, values, n - 1);
    assert ZipMapUpTo(keys, values, n) == m[keys[n - 1] := values[n - 1]];
    if j < n - 1 {
      ZipMapUpToAt(keys, values, n - 1, j);
      assert keys[j] != keys[n - 1];
    }
  }

  /** With distinct keys, each key maps to its partner. */
  lemma ZipMapAt<K(!new), V>(keys: seq<K>, values: seq<V>, j: nat)
    requires Distinct(keys)
    requires j < |keys| && j < |values|
    ensures keys[j] in ZipMap(keys, values) && ZipMap(keys, values)[keys[j]] == values[j]
  {
    ZipMapUpToAt(keys, values, Min(|keys|, |values|), j);
  }

  /** One record's nested prediction: category name to (label to value). */
  type Nested = map<string, map<string, real>>

  function CategoryNames(): seq<string>
  {
    seq(|PredCats|, c requires 0 <= c < |PredCats| => PredCats[c].name)
  }

  function NestedPred(pred: Prediction): Nested
  {
    ZipMap(CategoryNames(),
           seq(Min(|PredCats|, |pred|), c requires 0 <= c < Min(|PredCats|, |pred|) =>
                 ZipMap(PredCats[c].labels, pred[c])))
  }

  lemma CategoryNamesDistinct()
    ensures CategoryNames() == ["gender", "age", "org"]
    ensures Distinct(CategoryNames())
  {
    assert CategoryNames() == ["gender", "age", "org"];
  }

  lemma LabelsDistinct(c: nat)
    requires c < |PredCats|
    ensures Distinct(PredCats[c].labels)
  {
  }

  /** A flattened triple becomes exactly the keys gender, age and org, each
      mapping its labels, in order, to the triple's values. */
  lemma NestedPredShape(pred: Prediction)
    requires |pred| == 3
    ensures NestedPred(pred).Keys == {"gender", "age", "org"}
    ensures forall c, j :: 0 <= c < 3 && 0 <= j < Min(|PredCats[c].labels|, |pred[c]|) ==>
              && PredCats[c].name in NestedPred(pred)
              && PredCats[c].labels[j] in NestedPred(pred)[PredCats[c].name]
              && NestedPred(pred)[PredCats[c].name][PredCats[c].labels[j]] == pred[c][j]
  {
    CategoryNamesDistinct();
    assert CategoryNames()[..Min(3, |pred|)] == ["gender", "age", "org"];
    var inner := seq(Min(|PredCats|, |pred|), c requires 0 <= c < Min(|PredCats|, |pred|) =>
                       ZipMap(PredCats[c].labels, pred[c]));
    assert NestedPred(pred) == ZipMap(CategoryNames(), inner);
    forall c, j | 0 <= c < 3 && 0 <= j < Min(|PredCats[c].labels|, |pred[c]|)
      ensures && PredCats[c].name in NestedPred(pred)
              && PredCats[c].labels[j] in NestedPred(pred)[PredCats[c].name]
              && NestedPred(pred)[PredCats[c].name][PredCats[c].labels[j]] == pred[c][j]
    {
      ZipMapAt(CategoryNames(), inner, c);
      LabelsDistinct(c);
      ZipMapAt(PredCats[c].labels, pred[c], j);
    }
  }

  /** The ordered dictionary built so far, plus the ids skipped with a warning. */
  datatype Joined<V> = Joined(keys: seq<string>, entries: map<string, V>, skipped: seq<string>)

  /** The join of the first n (id, entry) pairs: an id seen before is
      skipped, a new one is appended with its entry. */
  function Join<V>(ids: seq<string>, vals: seq<V>, n: nat): (r: Joined<V>)
    requires n <= |ids| && n <= |vals|
    ensures |r.keys| + |r.skipped| == n
  {
    if n == 0 then Joined([], map[], [])
    else
      var prev := Join(ids, vals, n - 1);
      var id := ids[n - 1];
      if id in prev.entries then prev.(skipped := prev.skipped + [id])
      else Joined(prev.keys + [id], prev.entries[id := vals[n - 1]], prev.skipped)
  }

  /** The entries are keyed by exactly the listed keys, which are exactly the
      ids seen. */
  lemma {:induction false} JoinEntries<V>(ids: seq<string>, vals: seq<V>, n: nat)
    requires n <= |ids| && n <= |vals|
    ensures forall x :: x in Join(ids, vals, n).entries <==> x in Join(ids, vals, n).keys
    ensures forall x :: x in Join(ids, vals, n).entries <==> x in ids[..n]
  {
    if n > 0 {
      JoinEntries(ids, vals, n - 1);
      assert ids[..n] == ids[..n - 1] + [ids[n - 1]];
    }
  }

  /** No key is listed twice. */
  lemma {:induction false} JoinDistinct<V>(ids: seq<string>, vals: seq<V>, n: nat)
    requires n <= |ids| && n <= |vals|
    ensures Distinct(Join(ids, vals, n).keys)
  {
    if n > 0 {
      JoinDistinct(ids, vals, n - 1);
      JoinEntries(ids, vals, n - 1);
    }
  }

  /** Every pair is either listed or skipped, and only seen ids are skipped. */
  lemma {:induction false} JoinSkipped<V>(ids: seq<string>, vals: seq<V>, n: nat)
    requires n <= |ids| && n <= |vals|
    ensures |Join(ids, vals, n).keys| + |Join(ids, vals, n).skipped| == n
    ensures forall k :: 0 <= k < |Join(ids, vals, n).skipped| ==> Join(ids, vals, n).skipped[k] in Join(ids, vals, n).entries
  {
    if n > 0 {
      JoinSkipped(ids, vals, n - 1);
    }
  }

  /** Position of the first occurrence of x in s at or after lo. */
  function FirstIndexFrom(s: seq<string>, x: string, lo: nat): (i: nat)
    requires exists p :: lo <= p < |s| && s[p] == x
    ensures lo <= i < |s| && s[i] == x
    ensures forall k :: lo <= k < i ==> s[k] != x
    decreases |s| - lo
  {
    if s[lo] == x then lo else FirstIndexFrom(s, x, lo + 1)
  }

  /** Position of the first occurrence of x in s. */
  function FirstIndex(s: seq<string>, x: string): (i: nat)
    requires x in s
    ensures i < |s| && s[i] == x
    ensures forall k :: 0 <= k < i ==> s[k] != x
  {
    FirstIndexFrom(s, x, 0)
  }

  /** The first record with an id decides its entry. */
  lemma {:induction false} JoinFirstWins<V>(ids: seq<string>, vals: seq<V>, n: nat, k: nat)
    requires n <= |ids| && n <= |vals| && k < n
    requires forall k' :: 0 <= k' < k ==> ids[k'] != ids[k]
    ensures ids[k] in Join(ids, vals, n).entries
    ensures Join(ids, vals, n).entries[ids[k]] == vals[k]
  {
    if k < n - 1 {
      JoinFirstWins(ids, vals, n - 1, k);
    } else {
      JoinEntries(ids, vals, n - 1);
      assert ids[k] !in ids[..n - 1];
    }
  }

  /** An element of a prefix first occurs inside that prefix. */
  lemma FirstIndexBefore(ids: seq<string>, x: string, m: nat)
    requires m <= |ids| && x in ids[..m]
    ensures x in ids && FirstIndex(ids, x) < m
  {
    var p :| 0 <= p < m && ids[..m][p] == x;
    assert ids[p] == x;
  }

  /** Every key is one of the first n ids. */
  lemma JoinKeysFromIds<V>(ids: seq<string>, vals: seq<V>, n: nat)
    requires n <= |ids| && n <= |vals|
    ensures forall a :: 0 <= a < |Join(ids, vals, n).keys| ==>
              Join(ids, vals, n).keys[a] in ids[..n] && FirstIndex(ids, Join(ids, vals, n).keys[a]) < n
  {
    var j := Join(ids, vals, n);
    JoinEntries(ids, vals, n);
    forall a | 0 <= a < |j.keys| ensures j.keys[a] in ids[..n] && FirstIndex(ids, j.keys[a]) < n {
      FirstIndexBefore(ids, j.keys[a], n);
    }
  }

  /** `keys` are ids listed in the order of their first occurrences. */
  predicate InFirstOccurrenceOrder(ids: seq<string>, keys: seq<string>)
  {
    && (forall a :: 0 <= a < |keys| ==> keys[a] in ids)
    && (forall a, b :: 0 <= a < b < |keys| ==> FirstIndex(ids, keys[a]) < FirstIndex(ids, keys[b]))
  }

  /** Appending an id that first occurs after all listed keys keeps the order. */
  lemma OrderedAppend(ids: seq<string>, keys: seq<string>, id: string, m: nat)
    requires InFirstOccurrenceOrder(ids, keys)
    requires forall a :: 0 <= a < |keys| ==> FirstIndex(ids, keys[a]) < m
    requires id in ids && FirstIndex(ids, id) == m
    ensures InFirstOccurrenceOrder(ids, keys + [id])
  {
    var r := keys + [id];
    forall a, b | 0 <= a < b < |r| ensures FirstIndex(ids, r[a]) < FirstIndex(ids, r[b]) {
      assert r[a] == keys[a];
      if b < |keys| {
        assert r[b] == keys[b];
      }
    }
  }

  /** Keys come in the order of their ids' first occurrences. */
  lemma {:induction false} JoinKeyOrder<V>(ids: seq<string>, vals: seq<V>, n: nat)
    requires n <= |ids| && n <= |vals|
    ensures InFirstOccurrenceOrder(ids, Join(ids, vals, n).keys)
  {
    if n > 0 {
      JoinKeyOrder(ids, vals, n - 1);
      var prev := Join(ids, vals, n - 1);
      var id := ids[n - 1];
      if id !in prev.entries {
        JoinEntries(ids, vals, n - 1);
        assert FirstIndex(ids, id) == n - 1 by {
          assert id in ids[..n];
          FirstIndexBefore(ids, id, n);
        }
        JoinKeysFromIds(ids, vals, n - 1);
        OrderedAppend(ids, prev.keys, id, n - 1);
      }
    }
  }

  /** Every record's entry is the prediction paired with the first record that
      carries its id. */
  lemma JoinedPredictions(ids: seq<string>, preds: seq<Prediction>, n: nat, k: nat)
    requires n <= |ids| && n <= |preds| && k < n
    ensures ids[k] in Join(ids, NestedPreds(preds), n).entries
    ensures Join(ids, NestedPreds(preds), n).entries[ids[k]] == NestedPred(preds[FirstIndex(ids, ids[k])])
  {
    JoinFirstWins(ids, NestedPreds(preds), n, FirstIndex(ids, ids[k]));
  }

  function NestedPreds(preds: seq<Prediction>): (r: seq<Nested>)
    ensures |r| == |preds| && forall k :: 0 <= k < |preds| ==> r[k] == NestedPred(preds[k])
  {
    seq(|preds|, k requires 0 <= k < |preds| => NestedPred(preds[k]))
  }

  function Ids(data: seq<Dataset.Profile>): (ids: seq<string>)
    ensures |ids| == |data| && forall k :: 0 <= k < |data| ==> ids[k] == data[k].id
  {
    seq(|data|, k requires 0 <= k < |data| => data[k].id)
  }

  /** One more pair: a seen id is skipped, a new one is appended. */
  lemma JoinStep<V>(ids: seq<string>, vals: seq<V>, n: nat)
    requires 0 < n <= |ids| && n <= |vals|
    ensures var prev := Join(ids, vals, n - 1);
      Join(ids, vals, n) ==
        if ids[n - 1] in prev.entries then Joined(prev.keys, prev.entries, prev.skipped + [ids[n - 1]])
        else Joined(prev.keys + [ids[n - 1]], prev.entries[ids[n - 1] := vals[n - 1]], prev.skipped)
  {
  }

  /** The loop of `format_json_output` over the paired (id, entry) lists:
      the ordered dictionary keeps the first entry per id and skips the rest. */
  method JoinPairs<V>(ids: seq<string>, vals: seq<V>) returns (out: Joined<V>)
    ensures out == Join(ids, vals, Min(|ids|, |vals|))
  {
    var keys: seq<string> := [];
    var entries: map<string, V> := map[];
    var skipped: seq<string> := [];
    var m := Min(|ids|, |vals|);
    var n := 0;
    while n < m
      invariant n <= m
      invariant Joined(keys, entries, skipped) == Join(ids, vals, n)
    {
      var id := ids[n];
      JoinStep(ids, vals, n + 1);
      if id in entries {
        skipped := skipped + [id];
      } else {
        keys := keys + [id];
        entries := entries[id := vals[n]];
      }
      n := n + 1;
    }
    out := Joined(keys, entries, skipped);
  }

  /** `format_json_output`: flatten the batches, pair records with predictions
      up to the shorter list, and keep the first entry per id. */
  method FormatJsonOutput(data: seq<Dataset.Profile>, batches: seq<Batch>) returns (out: Joined<Nested>)
    requires forall j :: 0 <= j < |batches| ==> Indexable(batches[j])
    ensures var preds := Flatten(batches); out == Join(Ids(data), NestedPreds(preds), Min(|data|, |preds|))
  {
    out := JoinPairs(Ids(data), NestedPreds(Flatten(batches)));
  }

  // ---------------------------------------------------------------------------
  // The dataframe layout
  // ---------------------------------------------------------------------------

  /** `f'{category}_{label}'` for every label of every category, in order. */
  function ColumnNames(cats: seq<PredCat>): seq<string>
  {
    if cats == [] then []
    else CategoryColumns(cats[0]) + ColumnNames(cats[1..])
  }

  function Columns(): seq<string>
  {
    ColumnNames(PredCats)
  }

  /** The columns of one category, in label order. */
  function CategoryColumns(cat: PredCat): (cols: seq<string>)
    ensures |cols| == |cat.labels|
    ensures forall j :: 0 <= j < |cols| ==> cols[j] == cat.name + "_" + cat.labels[j]
  {
    seq(|cat.labels|, j requires 0 <= j < |cat.labels| => cat.name + "_" + cat.labels[j])
  }

  lemma ColumnsLayout()
    ensures Columns() == ["gender_male", "gender_female", "age_<=18", "age_19-29", "age_30-39", "age_>=40",
                          "org_non-org", "org_is-org"]
  {
    var gender, age, org := PredCats[0], PredCats[1], PredCats[2];
    assert "gender" + "_" + "male" == "gender_male" && "gender" + "_" + "female" == "gender_female";
    assert "age" + "_" + "<=18" == "age_<=18" && "age" + "_" + "19-29" == "age_19-29";
    assert "age" + "_" + "30-39" == "age_30-39" && "age" + "_" + ">=40" == "age_>=40";
    assert "org" + "_" + "non-org" == "org_non-org" && "org" + "_" + "is-org" == "org_is-org";
    assert CategoryColumns(gender) == ["gender_male", "gender_female"];
    assert CategoryColumns(age) == ["age_<=18", "age_19-29", "age_30-39", "age_>=40"];
    assert CategoryColumns(org) == ["org_non-org", "org_is-org"];
    assert PredCats[1..][1..][1..] == [];
    assert Columns() == CategoryColumns(gender) + CategoryColumns(age) + CategoryColumns(org);
  }

  function Concat(vs: seq<seq<real>>): (r: seq<real>)
  {
    if vs == [] then [] else vs[0] + Concat(vs[1..])
  }

  /** `np.hstack` of a batch's outputs needs them all to have the same rows. */
  predicate Stackable(b: Batch)
  {
    |b| > 0 && forall c :: 0 <= c < |b| ==> |b[c]| == |b[0]|
  }

  /** The rows of `np.vstack([np.hstack(b) for b in batches])`. */
  function StackedRows(batches: seq<Batch>): seq<seq<real>>
    requires forall j :: 0 <= j < |batches| ==> Stackable(batches[j])
  {
    if batches == [] then []
    else
      var b := batches[0];
      assert Stackable(b);
      seq(|b[0]|, i requires 0 <= i < |b[0]| => Concat(seq(|b|, c requires 0 <= c < |b| => b[c][i])))
      + StackedRows(batches[1..])
  }

  /** The frame: the id column first, then one column per category label. */
  datatype Frame = Frame(columns: seq<string>, ids: seq<string>, values: seq<seq<real>>)

  /** The frame and whether the duplicate-id warning was logged. */
  datatype FrameOutput = FrameOutput(frame: Frame, duplicateWarning: bool)

  /** When numpy and pandas accept the predictions: a non-empty batch list of
      stackable batches, rows as wide as the label columns, one row per record. */
  predicate FrameOk(data: seq<Dataset.Profile>, batches: seq<Batch>)
  {
    && batches != []
    && (forall j :: 0 <= j < |batches| ==> Stackable(batches[j]))
    && (forall k :: 0 <= k < |StackedRows(batches)| ==> |StackedRows(batches)[k]| == |Columns()|)
    && |data| == |StackedRows(batches)|
  }

  /** `format_dataframe_output`; numpy and pandas raise ValueError on an empty
      batch list, ragged outputs, a width other than the 8 labels, or an id
      list of a different length than the rows. */
  function FormatDataframeOutput(data: seq<Dataset.Profile>, batches: seq<Batch>): (r: Result<FrameOutput>)
    ensures r.Success? <==> FrameOk(data, batches)
    ensures r.Success? ==> && r.value.frame.columns == ["id"] + Columns()
                           && r.value.frame.values == StackedRows(batches)
                           && r.value.frame.ids == Ids(data)
                           && |r.value.frame.values| == |data|
                           && (forall k :: 0 <= k < |data| ==> |r.value.frame.values[k]| == 8)
                           && (r.value.duplicateWarning <==> !Distinct(Ids(data)))
    ensures r.Failure? ==> r.error.ValueError?
  {
    if batches == [] then Failure(ValueError("need at least one array to concatenate"))
    else if !(forall j :: 0 <= j < |batches| ==> Stackable(batches[j])) then
      Failure(ValueError("all the input array dimensions except for the concatenation axis must match"))
    else
      var rows := StackedRows(batches);
      if !(forall k :: 0 <= k < |rows| ==> |rows[k]| == |Columns()|) then Failure(ValueError("Length mismatch"))
      else if |data| != |rows| then Failure(ValueError("Length of values does not match length of index"))
      else
        ColumnsLayout();
        Success(FrameOutput(Frame(["id"] + Columns(), Ids(data), rows), !Distinct(Ids(data))))
  }

  /** Row k of the frame holds record k's flattened prediction, category by
      category: the dataframe and the JSON output agree. */
  lemma {:induction false} StackedRowsAgree(batches: seq<Batch>)
    requires forall j :: 0 <= j < |batches| ==> |batches[j]| == 3 && Stackable(batches[j])
    ensures |StackedRows(batches)| == |Flatten(batches)|
    ensures forall k :: 0 <= k < |StackedRows(batches)| ==>
              StackedRows(batches)[k] == Flatten(batches)[k][0] + Flatten(batches)[k][1] + Flatten(batches)[k][2]
  {
    if batches != [] {
      StackedRowsAgree(batches[1..]);
      var b := batches[0];
      var head := seq(|b[0]|, i requires 0 <= i < |b[0]| => Concat(seq(|b|, c requires 0 <= c < |b| => b[c][i])));
      assert StackedRows(batches) == head + StackedRows(batches[1..]);
      assert Flatten(batches) == BatchRows(b) + Flatten(batches[1..]);
      forall i | 0 <= i < |b[0]| ensures head[i] == b[0][i] + b[1][i] + b[2][i] {
        var cs := seq(|b|, c requires 0 <= c < |b| => b[c][i]);
        assert cs == [b[0][i], b[1][i], b[2][i]];
        assert Concat(cs[2..]) == b[2][i] by { assert cs[2..][1..] == []; }
        assert Concat(cs[1..]) == b[1][i] + b[2][i] by { assert cs[1..][1..] == cs[2..]; }
      }
    }
  }
}
