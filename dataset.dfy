/** The feature encoder (m3inference/dataset.py, M3InferenceDataset): profile
    records are normalised into rows, and each row is encoded into three
    fixed-capacity integer tensors with valid lengths plus a language index. */
module Dataset {
  import opened Common
  import opened Consts
  import opened Text
  import Packing

  /** One input record, with each field already converted by `str(...)`. */
  datatype Profile = Profile(
    id: string, lang: string, name: string, screenName: string, description: string, imgPath: string)

  /** One row of `self.data`; the image path is present exactly when images are used. */
  datatype Entry = Entry(
    id: string, lang: string, username: string, screenName: string, description: string, imgPath: Option<string>)

  /** The normalisation applied by the constructor to one record. */
  function NormalizeEntry(p: Profile, useImg: bool): (r: Entry)
    ensures r.id == p.id && r.lang == p.lang
    ensures r.imgPath.Some? <==> useImg
    ensures useImg ==> r.imgPath == Some(p.imgPath)
    ensures |r.username| == |p.name| && forall k :: 0 <= k < |r.username| ==> !IsControlSpace(r.username[k])
    ensures |r.screenName| == |p.screenName| && forall k :: 0 <= k < |r.screenName| ==> !IsControlSpace(r.screenName[k])
  {
    Entry(p.id, p.lang, NormalizeSpace(p.name), NormalizeSpace(p.screenName),
          NormalizeUrl(NormalizeSpace(p.description)), if useImg then Some(p.imgPath) else None)
  }

  /** The vocabulary key used for an empty field. */
  const EmptyToken: string := "<empty>"

  /** Screen-name placeholder: the code point of ' '. */
  const SpaceCode: int := 32

  /** The username mapping: the vocabulary index, or `len(EMB) + 1` if absent. */
  function UsernameCode(emb: map<string, int>): (code: char --> int)
    ensures forall c :: code.requires(c)
    ensures forall c :: [c] in emb ==> code(c) == emb[[c]]
  {
    c => if [c] in emb then emb[[c]] else |emb| + 1
  }

  /** The screen-name mapping: the code point. */
  function ScreenNameCode(): (code: char --> int)
    ensures forall c :: code.requires(c) && 0 <= code(c)
  {
    c => c as int
  }

  /** The description mapping `EMB.get(c, EMB[category(c)])`. The default is
      evaluated first, so the category must be a key even when `c` is one. */
  function DescriptionCode(emb: map<string, int>, category: char -> string): (code: char --> int)
    ensures forall c :: category(c) in emb ==> code.requires(c)
    ensures forall c :: category(c) in emb && [c] in emb ==> code(c) == emb[[c]]
  {
    c requires category(c) in emb => if [c] in emb then emb[[c]] else emb[category(c)]
  }

  /** What one encoded field is: `capacity` entries, a valid length in
      1..capacity, zeros from the valid length on; an all-space field gives the
      placeholder at 0 with length 1; any other field is truncated to the
      capacity and position k holds the code of character k. */
  ghost predicate Encodes(tensor: seq<int>, len: nat, s: string, capacity: nat, placeholder: int, code: char --> int)
  {
    && |tensor| == capacity
    && 1 <= len <= capacity
    && (forall k :: len <= k < capacity ==> tensor[k] == 0)
    && (Strip(s) == [] ==> len == 1 && tensor[0] == placeholder)
    && (Strip(s) != [] ==>
          && len == Min(|s|, capacity)
          && forall k :: 0 <= k < len ==> code.requires(s[k]) && tensor[k] == code(s[k]))
  }

  /** One field of `_preprocess_data`: `[0] * LEN`, then either the placeholder
      at slot 0 or truncation followed by `tensor[:len] = [code(c) for c in s]`. */
  method FillField(s: string, capacity: nat, placeholder: int, code: char --> int) returns (tensor: seq<int>, len: nat)
    requires capacity >= 1
    requires Strip(s) != [] ==> forall k :: 0 <= k < Min(|s|, capacity) ==> code.requires(s[k])
    ensures Encodes(tensor, len, s, capacity, placeholder, code)
  {
    var t := new int[capacity](_ => 0);
    if Strip(s) == [] {
      t[0] := placeholder;
      len := 1;
    } else {
      StripEmptyIffAllSpaces(s);
      var field := s;
      if |field| > capacity {
        field := field[..capacity];
      }
      len := |field|;
      for k := 0 to len
        invariant forall j :: 0 <= j < k ==> t[j] == code(field[j])
        invariant forall j :: k <= j < capacity ==> t[j] == 0
      {
        t[k] := code(field[k]);
      }
    }
    tensor := t[..];
  }

  /** Encoding is deterministic: the description above fixes tensor and length. */
  lemma EncodesUnique(t1: seq<int>, l1: nat, t2: seq<int>, l2: nat, s: string, capacity: nat,
                      placeholder: int, code: char --> int)
    requires Encodes(t1, l1, s, capacity, placeholder, code)
    requires Encodes(t2, l2, s, capacity, placeholder, code)
    ensures l1 == l2 && t1 == t2
  {
    assert forall k :: 0 <= k < capacity ==> t1[k] == t2[k];
  }

  /** The first character (within the first `n`) whose category is not a key. */
  function MissingCategory(s: string, n: nat, emb: map<string, int>, category: char -> string): (r: Option<nat>)
    ensures r.None? <==> forall k :: 0 <= k < Min(|s|, n) ==> category(s[k]) in emb
    ensures r.Some? ==> r.value < Min(|s|, n) && category(s[r.value]) !in emb
                        && forall k :: 0 <= k < r.value ==> category(s[k]) in emb
  {
    if s == [] || n == 0 then None
    else if category(s[0]) !in emb then Some(0)
    else match MissingCategory(s[1..], n - 1, emb, category)
      case None => None
      case Some(k) => Some(k + 1)
  }

  /** The encoded form of one row (the image is loaded from `imgPath` by I/O). */
  datatype Encoded = Encoded(
    lang: nat,
    username: seq<int>, usernameLen: nat,
    screenName: seq<int>, screenNameLen: nat,
    description: seq<int>, desLen: nat,
    imgPath: Option<string>)

  /** The shape every successful encoding has. */
  predicate WellShaped(e: Encoded)
  {
    && e.lang < EmbeddingInputSizeLangs()
    && |e.username| == UsernameLen && 1 <= e.usernameLen <= UsernameLen
    && |e.screenName| == ScreenNameLen && 1 <= e.screenNameLen <= ScreenNameLen
    && |e.description| == DesLen && 1 <= e.desLen <= DesLen
  }

  /** Does encoding `entry` raise a KeyError, and for which key? Checked in the
      order the source evaluates: language, username placeholder, description
      placeholder, then the description's characters left to right. */
  function EncodingError(entry: Entry, emb: map<string, int>, category: char -> string): Option<string>
  {
    if entry.lang !in Langs() then Some(entry.lang)
    else if Strip(entry.username) == [] && EmptyToken !in emb then Some(EmptyToken)
    else if Strip(entry.description) == [] && EmptyToken !in emb then Some(EmptyToken)
    else if Strip(entry.description) != [] && MissingCategory(entry.description, DesLen, emb, category).Some? then
      Some(category(entry.description[MissingCategory(entry.description, DesLen, emb, category).value]))
    else None
  }

  /** The tensors of a row that raises no KeyError. */
  method EncodeEntry(entry: Entry, emb: map<string, int>, category: char -> string) returns (e: Encoded)
    requires EncodingError(entry, emb, category).None?
    ensures var placeholder := if EmptyToken in emb then emb[EmptyToken] else 0;
      && WellShaped(e)
      && e.lang == Langs()[entry.lang]
      && e.imgPath == entry.imgPath
      && Encodes(e.username, e.usernameLen, entry.username, UsernameLen, placeholder, UsernameCode(emb))
      && Encodes(e.screenName, e.screenNameLen, entry.screenName, ScreenNameLen, SpaceCode, ScreenNameCode())
      && Encodes(e.description, e.desLen, entry.description, DesLen, placeholder, DescriptionCode(emb, category))
  {
    LangEmbeddingRows();
    var langTensor := Langs()[entry.lang];
    var emptyIndex := if EmptyToken in emb then emb[EmptyToken] else 0;
    var username, usernameLen := FillField(entry.username, UsernameLen, emptyIndex, UsernameCode(emb));
    var screenName, screenNameLen := FillField(entry.screenName, ScreenNameLen, SpaceCode, ScreenNameCode());
    var des, desLen := FillField(entry.description, DesLen, emptyIndex, DescriptionCode(emb, category));
    e := Encoded(langTensor, username, usernameLen, screenName, screenNameLen, des, desLen, entry.imgPath);
  }

  /** What encoding one row yields on a dataset built with `useImg`: the
      ValueError of a row whose shape does not match, the KeyError that
      `EncodingError` names, or the language index and three encoded fields. */
  ghost predicate Preprocessed(useImg: bool, entry: Entry, emb: map<string, int>, category: char -> string,
                               r: Result<Encoded>)
  {
    var placeholder := if EmptyToken in emb then emb[EmptyToken] else 0;
    if entry.imgPath.Some? != useImg then r == Failure(ValueError("unpack"))
    else if EncodingError(entry, emb, category).Some? then
      r == Failure(KeyError(EncodingError(entry, emb, category).value))
    else
      && r.Success?
      && WellShaped(r.value)
      && r.value.lang == Langs()[entry.lang]
      && r.value.imgPath == entry.imgPath
      && Encodes(r.value.username, r.value.usernameLen, entry.username, UsernameLen, placeholder, UsernameCode(emb))
      && Encodes(r.value.screenName, r.value.screenNameLen, entry.screenName, ScreenNameLen,
                 SpaceCode, ScreenNameCode())
      && Encodes(r.value.description, r.value.desLen, entry.description, DesLen,
                 placeholder, DescriptionCode(emb, category))
  }

  class M3InferenceDataset {
    const useImg: bool
    var data: seq<Entry>

    /** Keeps one normalised row per record, in input order. */
    constructor (records: seq<Profile>, useImg: bool)
      ensures this.useImg == useImg
      ensures |data| == |records| == Len()
      ensures forall i :: 0 <= i < |records| ==> data[i] == NormalizeEntry(records[i], useImg)
    {
      this.useImg := useImg;
      data := [];
      new;
      for i := 0 to |records|
        invariant |data| == i
        invariant forall j :: 0 <= j < i ==> data[j] == NormalizeEntry(records[j], useImg)
      {
        data := data + [NormalizeEntry(records[i], useImg)];
      }
    }

    /** `__len__`. */
    function Len(): nat
      reads this
    {
      |data|
    }

    /** `_preprocess_data` for one row: the language index and the three encoded
        fields, or the KeyError the source raises. */
    method PreprocessData(entry: Entry, emb: map<string, int>, category: char -> string) returns (r: Result<Encoded>)
      ensures Preprocessed(useImg, entry, emb, category, r)
    {
      if entry.imgPath.Some? != useImg {
        return Failure(ValueError("unpack"));
      }
      if entry.lang !in Langs() {
        return Failure(KeyError(entry.lang));
      }
      if Strip(entry.username) == [] && EmptyToken !in emb {
        return Failure(KeyError(EmptyToken));
      }
      if Strip(entry.description) == [] && EmptyToken !in emb {
        return Failure(KeyError(EmptyToken));
      }
      if Strip(entry.description) != [] {
        var missing := MissingCategory(entry.description, DesLen, emb, category);
        if missing.Some? {
          return Failure(KeyError(category(entry.description[missing.value])));
        }
      }
      var encoded := EncodeEntry(entry, emb, category);
      r := Success(encoded);
    }

    /** `__getitem__`: encode row `idx`; as with any Python list, a negative
        index counts from the end. */
    method GetItem(idx: int, emb: map<string, int>, category: char -> string) returns (r: Result<Encoded>)
      ensures !(-|data| <= idx < |data|) ==> r.Failure? && r.error.IndexError?
      ensures -|data| <= idx < |data| ==>
                Preprocessed(useImg, data[if idx < 0 then |data| + idx else idx], emb, category, r)
    {
      if !(-|data| <= idx < |data|) {
        return Failure(IndexError("list index out of range"));
      }
      var row := if idx < 0 then |data| + idx else idx;
      r := PreprocessData(data[row], emb, category);
    }
  }

  // ---------------------------------------------------------------------------
  // Consequences of the field description
  // ---------------------------------------------------------------------------

  /** An all-space (or empty) username or description encodes to the `<empty>`
      index at position 0 with valid length 1; the screen name to 32. */
  lemma EmptyFieldPlaceholder(t: seq<int>, len: nat, s: string, capacity: nat, placeholder: int, code: char --> int)
    requires Encodes(t, len, s, capacity, placeholder, code)
    requires forall k :: 0 <= k < |s| ==> s[k] == ' '
    ensures len == 1 && t[0] == placeholder
    ensures forall k :: 1 <= k < capacity ==> t[k] == 0
  {
    StripEmptyIffAllSpaces(s);
  }

  /** Leading and trailing spaces of a non-blank field are counted in its length. */
  lemma SpacesCounted(t: seq<int>, len: nat, s: string, capacity: nat, placeholder: int, code: char --> int)
    requires Encodes(t, len, s, capacity, placeholder, code)
    requires exists k :: 0 <= k < |s| && s[k] != ' '
    ensures len == Min(|s|, capacity)
  {
    StripEmptyIffAllSpaces(s);
  }

  /** Screen name "abc" encodes to 97, 98, 99 then zeros, with valid length 3. */
  lemma ScreenNameAbc(t: seq<int>, len: nat)
    requires Encodes(t, len, "abc", ScreenNameLen, SpaceCode, ScreenNameCode())
    ensures len == 3
    ensures t == [97, 98, 99] + seq(13, _ => 0)
  {
    StripEmptyIffAllSpaces("abc");
    assert "abc"[0] != ' ';
    assert t[0] == 'a' as int == 97;
    assert t[1] == 'b' as int == 98;
    assert t[2] == 'c' as int == 99;
  }

  /** A username longer than 30 characters fills all 30 positions. */
  lemma LongUsernameTruncated(t: seq<int>, len: nat, s: string, emb: map<string, int>, placeholder: int)
    requires Encodes(t, len, s, UsernameLen, placeholder, UsernameCode(emb))
    requires |s| > UsernameLen && exists k :: 0 <= k < |s| && s[k] != ' '
    ensures len == 30
    ensures forall k :: 0 <= k < 30 ==> t[k] == UsernameCode(emb)(s[k])
  {
    StripEmptyIffAllSpaces(s);
  }

  /** The valid lengths of one field over a batch. */
  function FieldLengths(batch: seq<Encoded>, field: Encoded -> nat): (r: seq<int>)
    ensures |r| == |batch|
    ensures forall i :: 0 <= i < |batch| ==> r[i] == field(batch[i])
  {
    seq(|batch|, i requires 0 <= i < |batch| => field(batch[i]) as int)
  }

  /** The tensors of one field over a batch. */
  function FieldRows(batch: seq<Encoded>, field: Encoded -> seq<int>): (r: seq<seq<int>>)
    ensures |r| == |batch|
  {
    seq(|batch|, i requires 0 <= i < |batch| => field(batch[i]))
  }

  /** One field of a batch packs when every valid length in it is at least 1. */
  lemma FieldPacks(batch: seq<Encoded>, field: Encoded -> seq<int>, len: Encoded -> nat)
    requires forall i :: 0 <= i < |batch| ==> len(batch[i]) >= 1
    ensures Packing.Pack(FieldRows(batch, field), FieldLengths(batch, len)).Success?
  {
    var lengths := FieldLengths(batch, len);
    assert forall k :: 0 <= k < |lengths| ==> lengths[k] >= 1;
  }

  /** Every successfully encoded batch can be packed: the valid lengths of all
      three fields are at least 1. */
  lemma EncodedBatchPacks(batch: seq<Encoded>)
    requires forall i :: 0 <= i < |batch| ==> WellShaped(batch[i])
    ensures Packing.Pack(FieldRows(batch, (e: Encoded) => e.username), FieldLengths(batch, (e: Encoded) => e.usernameLen)).Success?
    ensures Packing.Pack(FieldRows(batch, (e: Encoded) => e.screenName), FieldLengths(batch, (e: Encoded) => e.screenNameLen)).Success?
    ensures Packing.Pack(FieldRows(batch, (e: Encoded) => e.description), FieldLengths(batch, (e: Encoded) => e.desLen)).Success?
  {
    FieldPacks(batch, (e: Encoded) => e.username, (e: Encoded) => e.usernameLen);
    FieldPacks(batch, (e: Encoded) => e.screenName, (e: Encoded) => e.screenNameLen);
    FieldPacks(batch, (e: Encoded) => e.description, (e: Encoded) => e.desLen);
  }
}
