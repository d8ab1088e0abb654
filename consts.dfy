/** The constant tables the encoder, the checkpoint manager and the output
    join depend on (m3inference/consts.py). */
module Consts {
  import opened Common

  /** Fixed capacities of the three encoded text fields. */
  const UsernameLen: nat := 30
  const ScreenNameLen: nat := 16
  const DesLen: nat := 200

  /** The known language codes, in the order that fixes their indices. */
  const LangCodes: seq<string> :=
    ["en", "cs", "fr", "nl", "ar", "ro", "bs", "da", "it", "pt", "no", "es", "hr", "tr", "de", "fi", "el", "he",
     "ru", "bg", "hu", "sk", "et", "pl", "lv", "sl", "lt", "ga", "eu", "mt", "cy", "rm", "is", "un"]

  const UnknownLang: string := "un"

  /** `{k: v for v, k in enumerate(codes)}`: entries are added in list order, so
      a later duplicate would overwrite an earlier one. */
  function IndexMap(codes: seq<string>): (m: map<string, nat>)
    ensures m.Keys == set k | 0 <= k < |codes| :: codes[k]
    ensures forall c :: c in m ==> m[c] < |codes|
  {
    if codes == [] then map[]
    else
      var front := codes[..|codes| - 1];
      var m := IndexMap(front)[codes[|codes| - 1] := |codes| - 1];
      assert forall c :: c in codes ==> c in front || c == codes[|codes| - 1];
      m
  }

  /** The language index table `LANGS`. */
  function Langs(): map<string, nat>
  {
    IndexMap(LangCodes)
  }

  /** Number of rows of the language embedding: one per code plus one. */
  function EmbeddingInputSizeLangs(): nat
  {
    |Langs()| + 1
  }

  /** A category of the prediction output and its labels, in output order. */
  datatype PredCat = PredCat(name: string, labels: seq<string>)

  const PredCats: seq<PredCat> := [
    PredCat("gender", ["male", "female"]),
    PredCat("age", ["<=18", "19-29", "30-39", ">=40"]),
    PredCat("org", ["non-org", "is-org"])
  ]

  /** Mirror URLs of each pretrained checkpoint variant. */
  const PretrainedModelArchiveMap: map<string, seq<string>> := map[
    "full_model" := ["https://nlp.stanford.edu/~zijwang/m3inference/full_model.mdl",
                     "https://blablablab.si.umich.edu/projects/m3/models/full_model.mdl"],
    "text_model" := ["https://nlp.stanford.edu/~zijwang/m3inference/text_model.mdl",
                     "https://blablablab.si.umich.edu/projects/m3/models/text_model.mdl"]
  ]

  /** Recorded MD5 digest (hex) of each checkpoint variant. */
  const PretrainedModelMd5Map: map<string, string> := map[
    "full_model" := "7dd11b9d89d7fd209e3baa0058baa4a1",
    "text_model" := "c9a9fbd953b3ad5d84e792c3c50392ad"
  ]

  // ---------------------------------------------------------------------------
  // Properties of the tables
  // ---------------------------------------------------------------------------

  /** A two-letter code packed into one integer; distinct packings mean distinct codes. */
  function Packed(c: string): int
  {
    if |c| == 2 then (c[0] as int) * 256 + c[1] as int else -1
  }

  const PackedLangCodes: seq<int> :=
    [25966, 25459, 26226, 28268, 24946, 29295, 25203, 25697, 26996, 28788, 28271, 25971, 26738, 29810, 25701, 26217,
     25964, 26725, 29301, 25191, 26741, 29547, 25972, 28780, 27766, 29548, 27764, 26465, 25973, 28020, 25465, 29293,
     26995, 30062]

  lemma PackedLangCodesAgree()
    ensures |PackedLangCodes| == |LangCodes| == 34
    ensures forall i :: 0 <= i < |LangCodes| ==> Packed(LangCodes[i]) == PackedLangCodes[i]
  {
  }

  lemma PackedLangCodesDistinct()
    ensures forall i, j :: 0 <= i < j < |PackedLangCodes| ==> PackedLangCodes[i] != PackedLangCodes[j]
  {
  }

  lemma LangCodesDistinct()
    ensures |LangCodes| == 34
    ensures Distinct(LangCodes)
  {
    PackedLangCodesAgree();
    PackedLangCodesDistinct();
  }

  /** With distinct codes, the comprehension maps each code to its position. */
  lemma {:induction false} IndexMapAt(codes: seq<string>, i: nat)
    requires Distinct(codes)
    requires i < |codes|
    ensures codes[i] in IndexMap(codes) && IndexMap(codes)[codes[i]] == i
  {
    var n := |codes| - 1;
    if i < n {
      var front := codes[..n];
      assert front[i] == codes[i];
      IndexMapAt(front, i);
      assert codes[n] != codes[i];
    }
  }

  lemma {:induction false} IndexMapSize(codes: seq<string>)
    requires Distinct(codes)
    ensures |IndexMap(codes)| == |codes|
  {
    if codes != [] {
      var n := |codes| - 1;
      var front := codes[..n];
      IndexMapSize(front);
      assert codes[n] !in IndexMap(front);
    }
  }

  /** `LANGS` maps each of its 34 distinct codes to its list position. */
  lemma LangsIndex()
    ensures |Langs()| == 34
    ensures forall i :: 0 <= i < |LangCodes| ==> LangCodes[i] in Langs() && Langs()[LangCodes[i]] == i
    ensures forall c :: c in Langs() ==> Langs()[c] < 34
  {
    LangCodesDistinct();
    IndexMapSize(LangCodes);
    forall i | 0 <= i < |LangCodes|
      ensures LangCodes[i] in Langs() && Langs()[LangCodes[i]] == i
    {
      IndexMapAt(LangCodes, i);
    }
  }

  /** The unknown-language code is a key of `LANGS`, with the last index. */
  lemma UnknownLangIndex()
    ensures UnknownLang in Langs() && Langs()[UnknownLang] == 33
  {
    LangsIndex();
    assert LangCodes[33] == UnknownLang;
  }

  /** Every language index is a valid row of the 35-row language embedding. */
  lemma LangEmbeddingRows()
    ensures EmbeddingInputSizeLangs() == 35
    ensures forall c :: c in Langs() ==> Langs()[c] < EmbeddingInputSizeLangs()
  {
    LangsIndex();
  }

  /** Categories gender (2 labels), age (4) and org (2), in that order. */
  lemma PredCatsShape()
    ensures |PredCats| == 3
    ensures PredCats[0].name == "gender" && |PredCats[0].labels| == 2
    ensures PredCats[1].name == "age" && |PredCats[1].labels| == 4
    ensures PredCats[2].name == "org" && |PredCats[2].labels| == 2
  {
  }

  /** The archive map and the MD5 map cover the same two variants. */
  lemma CheckpointMapsAgree()
    ensures PretrainedModelArchiveMap.Keys == PretrainedModelMd5Map.Keys == {"full_model", "text_model"}
  {
  }
}
