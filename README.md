# m3inference: encoding, packing, checkpoint and output bookkeeping in Dafny

m3inference predicts the gender, age bracket and organisation status of a
Twitter account from its profile: name, screen name, biography, language and
avatar. This project models everything around the neural network. The network
itself is treated as an opaque function from an encoded batch to three
prediction vectors. The model covers:

- **Consts** (`consts.dfy`): the language table. It holds 34 distinct codes,
  maps each code to its list position, puts `un` at 33 and has 35 embedding
  rows. It also holds the field capacities 30, 16 and 200, the prediction
  categories gender, age and org with their labels, and the mirror and MD5
  tables of the two checkpoint variants.
- **Text** (`text.dfy`):
  - `normalize_space` as a per-character map;
  - `strip(" ")` and its emptiness test;
  - `normalize_url` as a left-to-right maximal-munch scanner that replaces each
    URL with U+20CC;
  - `get_lang` with the detector and `str.isprintable` as parameters.
- **Packing** (`packing.dfy`): `pack_wrapper` and `unpack_wrapper`.
  - Packing sorts the indices by length, descending, by insertion, then gathers
    the rows. It fails as `pack_padded_sequence` does when a length is below 1.
  - Unpacking scatters the rows into a fresh array.
- **Checkpoint** (`checkpoint.dfy`):
  - the file system is a class over a path-to-bytes map;
  - `check_file_md5` takes MD5 as an uninterpreted function;
  - `fetch_pretrained_model` is a loop over given per-mirror download outcomes.
- **Dataset** (`dataset.dfy`): the `M3InferenceDataset` class.
  - The constructor keeps one normalised row per record.
  - `_preprocess_data` fills the three fixed-capacity tensors and computes the
    valid lengths, with each field's own fallback and the KeyErrors the source
    raises.
- **Inference** (`inference.dfy`):
  - the `M3Inference` class: its model variant and its load/fetch/check
    decision;
  - the flattening of per-batch predictions;
  - the first-occurrence-wins join of `format_json_output`;
  - the column layout and duplicate-id warning of `format_dataframe_output`.
- **Twitter** (`twitter.dfy`):
  - `get_extension`;
  - screen-name normalisation;
  - `_get_twitter_attrib`;
  - the field, language and image-path rules of `transform_jsonl_object` and
    `process_twitter`. Each download these would start is recorded as a value.
- **Common** (`common.dfy`): the shared Option and Result types, the error
  kinds the source raises, and `os.path.join`.

Where the design description of the system and its code disagree, the model follows
the code:

- **Username fallback.** A username character missing from the vocabulary gets
  `len(EMB) + 1`, with no Unicode-category fallback. A description character
  falls back to `EMB[category(c)]` with no out-of-vocabulary index, and that
  fallback is evaluated eagerly. So a category missing from the vocabulary is a
  KeyError even for characters that are in it.
- **Sort stability.** The length sort is `torch.sort(descending=True)`, which
  promises no order for ties. The round trip is proved for every permutation
  that sorts the lengths, so it holds whatever the tie order.
- **Checksum mismatch.** A mismatch does not stop the load: `load_model_weight`
  ignores the verdict of `check_file_md5`. A download is written to the target
  file before its checksum is checked, and a file whose digest is wrong stays
  on disk.
- **All mirrors failing.** When every mirror fails, `fetch_pretrained_model`
  returns without raising or warning (see Findings). The subsequent load then
  fails because the file is missing.

## Model

| member | source | states |
|---|---|---|
| Common.JoinPath | m3inference/m3inference.py:80 | `os.path.join`: the result ends with the name; a relative name is appended to the directory, an absolute one replaces it |
| Consts.IndexMap | m3inference/consts.py:42 | the enumerate comprehension has exactly the listed codes as keys and every value is a list position |
| Consts.IndexMapAt | m3inference/consts.py:42 | over a list of distinct codes, the code at position i maps to i |
| Consts.IndexMapSize | m3inference/consts.py:42 | over distinct codes the table has as many entries as the list |
| Consts.LangCodesDistinct | m3inference/consts.py:40-41 | the language list has 34 entries, all distinct |
| Consts.LangsIndex | m3inference/consts.py:40-42 | LANGS has 34 keys, maps the code at list position i to i, and every index is below 34 |
| Consts.UnknownLangIndex | m3inference/consts.py:41-43 | UNKNOWN_LANG is a key of LANGS, with index 33 |
| Consts.LangEmbeddingRows | m3inference/consts.py:46 | EMBEDDING_INPUT_SIZE_LANGS is 35 and every LANGS index is a valid embedding row |
| Consts.PredCatsShape | m3inference/consts.py:50-54 | the categories are gender (2 labels), age (4) and org (2), in that order |
| Consts.CheckpointMapsAgree | m3inference/consts.py:24-34 | the archive map and the MD5 map both have exactly the keys full_model and text_model |
| Text.ReplaceChar | m3inference/utils.py:67 | `str.replace` of one character keeps the length and replaces exactly the matching positions |
| Text.NormalizeSpace | m3inference/utils.py:66-67 | the result has the input's length and no tab, newline or carriage return |
| Text.NormalizeSpaceChars | m3inference/utils.py:66-67 | normalize_space keeps the length, maps tab, newline and carriage return to a space, leaves every other character, and leaves none of the three |
| Text.NormalizeSpaceIdempotent | m3inference/utils.py:66-67 | normalize_space applied twice equals applied once |
| Text.TrimLeftEmpty | m3inference/dataset.py:51 | stripping leading spaces leaves nothing exactly when the string is all spaces |
| Text.TrimRightEmpty | m3inference/dataset.py:51 | on a string not starting with a space, stripping trailing spaces leaves nothing only for the empty string |
| Text.Strip | m3inference/dataset.py:51 | `strip(" ")` is no longer than its input and neither starts nor ends with a space |
| Text.StripEmptyIffAllSpaces | m3inference/dataset.py:51 | `strip(" ") == ""` holds exactly when every character is a space |
| Text.UrlRun | m3inference/utils.py:63 | the URL-character run is maximal: every character in it is a URL character and the next one is not |
| Text.NormalizeUrl | m3inference/utils.py:62-63 | normalize_url never lengthens the text |
| Text.NormalizeUrlWithoutScheme | m3inference/utils.py:63 | text containing neither "http://" nor "https://" is returned unchanged |
| Text.NormalizeUrlReplacesUrl | m3inference/utils.py:63 | a scheme, a maximal non-empty run of URL characters, then the rest: the URL becomes one U+20CC and scanning resumes on the rest |
| Text.UrlRunOf | m3inference/utils.py:63 | a run of URL characters followed by a non-URL character is matched in full |
| Text.CopiedPrefix | m3inference/utils.py:63 | text before the first match is copied unchanged; a match there becomes U+20CC; without a match the text is unchanged |
| Text.NormalizeUrlIdempotent | m3inference/utils.py:63 | normalize_url applied twice equals applied once |
| Text.Filter | m3inference/utils.py:58 | the kept characters all satisfy the test, and there are at most as many as the input has |
| Text.GetLang | m3inference/utils.py:57-59 | the result is always a key of LANGS: the detected code when it is one, `un` otherwise |
| Packing.IndicesCount | m3inference/utils.py:45 | the multiset 0..n-1 holds each index below n once and nothing else |
| Packing.PermutationFacts | m3inference/utils.py:45 | a permutation of 0..n-1 has length n, stays below n, is distinct and contains every index |
| Packing.Gather | m3inference/utils.py:46 | `sents[idx_sorted]`: row k is the input row idx[k] |
| Packing.InsertCount | m3inference/utils.py:45 | inserting an index adds exactly that index to the multiset |
| Packing.InsertSorted | m3inference/utils.py:45 | inserting into an index list sorted by key, descending, keeps it sorted |
| Packing.InsertNext | m3inference/utils.py:45 | inserting index n-1 into an arrangement of 0..n-2 gives an arrangement of 0..n-1 |
| Packing.SortIndicesDesc | m3inference/utils.py:45 | `lengths.sort(descending=True)` indices: a permutation of 0..n-1 whose keys are non-increasing |
| Packing.Pack | m3inference/utils.py:44-48 | succeeds exactly when every length is at least 1; then idx is a permutation, the sorted lengths are non-increasing and equal lengths[idx[k]], and the rows are sents[idx[k]] |
| Packing.Scatter | m3inference/utils.py:53 | `scatter_` keeps the shape of the base |
| Packing.ScatterAt | m3inference/utils.py:53 | with distinct targets, row k lands at idx[k] and untouched rows keep the base |
| Packing.UnsortSort | m3inference/utils.py:44-54 | scattering the gathered rows back through the same permutation restores the input exactly |
| Packing.UnpackPack | m3inference/utils.py:44-54 | after packing, any row-wise computation, then unpacking, row i holds the result for input row i, for every length vector including ties |
| Packing.Unpack | m3inference/utils.py:51-54 | the array written in place equals the scatter into zeros, and row idx[k] holds row k |
| Checkpoint.FileSystem.Write | m3inference/utils.py:108-109 | copying to the target path replaces that file and nothing else |
| Checkpoint.CheckFileMd5 | m3inference/utils.py:117-128 | an unknown variant is an AssertionError, a missing file is FileNotFound, otherwise the result is true exactly when the digest is the recorded one |
| Checkpoint.Md5GateDecides | m3inference/utils.py:120-128 | a file with the recorded digest passes; after an edit that changes its digest it fails |
| Checkpoint.Written | m3inference/utils.py:93-114 | the target file after the loop: failed downloads skipped, each completed one copied over it, and the loop stopped by the first whose digest verifies |
| Checkpoint.WrittenIsDownloaded | m3inference/utils.py:108-109 | whatever the loop leaves in the file, if it changed it, is the content of one of the completed downloads |
| Checkpoint.Attempts | m3inference/utils.py:77-114 | no more mirrors are tried than there are |
| Checkpoint.FetchPretrainedModel | m3inference/utils.py:70-114 | an unknown variant is an AssertionError that writes nothing; otherwise it tries mirrors up to and including the first verified download, warns exactly when no download completed, and leaves the file holding the first verified download, else the last completed one, else unchanged |
| Checkpoint.NothingWrittenIffNoneCompleted | m3inference/utils.py:93-109 | the target file is written exactly when some download completes |
| Checkpoint.StopsAtFirstVerified | m3inference/utils.py:108-114 | with a verified download at k and none before, the file holds download k and k+1 mirrors are tried |
| Checkpoint.NoVerifiedDownload | m3inference/utils.py:77-114 | without a verified download every mirror is tried and whatever the file holds has the wrong digest (or was already there) |
| Checkpoint.WarnsAsWritten | m3inference/utils.py:77-114 | the download loop as written never issues the all-mirrors-failed warning, whatever the downloads, including when every one fails |
| Dataset.UsernameCode | m3inference/dataset.py:58 | defined for every character, never raising; a character of the vocabulary gets its own index |
| Dataset.ScreenNameCode | m3inference/dataset.py:68 | defined for every character, with a non-negative code point |
| Dataset.DescriptionCode | m3inference/dataset.py:78 | defined wherever the character's category is a vocabulary key, and then a character of the vocabulary gets its own index |
| Dataset.FillField | m3inference/dataset.py:50-78 | a field becomes `capacity` entries with a valid length in 1..capacity and zeros after it; an all-space field gives the placeholder with length 1; any other field is truncated to min(len, capacity) and position k encodes character k |
| Dataset.EncodesUnique | m3inference/dataset.py:50-78 | the field description determines the tensor and the length uniquely |
| Dataset.MissingCategory | m3inference/dataset.py:78 | finds the first description character whose Unicode category is not in the vocabulary, or none when every category is |
| Dataset.NormalizeEntry | m3inference/dataset.py:23-31 | id and language kept; the image path present exactly when images are used, and then the record's; name and screen name keep their length and lose every tab, newline and carriage return |
| Dataset.M3InferenceDataset.constructor | m3inference/dataset.py:17-33 | one row per record in input order; name and screen name space-normalised, description space- then URL-normalised; the image path kept only with images; `__len__` is the record count |
| Dataset.EncodeEntry | m3inference/dataset.py:56-85 | a row with no KeyError gets LANGS[lang] and three well-shaped fields, each encoded as FillField states |
| Dataset.M3InferenceDataset.PreprocessData | m3inference/dataset.py:39-85 | a row whose shape disagrees with use_img fails to unpack; an unknown language, a missing `<empty>` entry or a missing category is a KeyError for that key, in the order the source meets them; otherwise the language index is LANGS[lang] and the three fields encode as FillField states with their own placeholder and character mapping |
| Dataset.M3InferenceDataset.Len | m3inference/dataset.py:87-88 | `__len__` is the number of rows, which the constructor makes the number of records |
| Dataset.M3InferenceDataset.GetItem | m3inference/dataset.py:35-37 | an index outside -len..len-1 is an IndexError; any other index, a negative one counting from the end, yields exactly what PreprocessData yields for that row: the shape ValueError, the KeyError of the first missing key, or the language index and the three encoded fields |
| Dataset.EmptyFieldPlaceholder | m3inference/dataset.py:51-73 | an all-space field encodes as the placeholder followed by zeros |
| Dataset.SpacesCounted | m3inference/dataset.py:55-57 | for a field with a non-space character, the valid length is min(len, capacity), counting its own leading and trailing spaces |
| Dataset.ScreenNameAbc | m3inference/dataset.py:60-68 | the screen name "abc" encodes as 97, 98, 99 followed by 13 zeros, with length 3 |
| Dataset.LongUsernameTruncated | m3inference/dataset.py:55-58 | a username longer than 30 characters that is not all spaces fills all 30 positions with its first 30 characters |
| Dataset.FieldPacks | m3inference/dataset.py:51-77 | a field whose valid lengths are all at least 1 packs successfully |
| Dataset.EncodedBatchPacks | m3inference/dataset.py:51-77 | a batch of encoded records packs successfully in all three fields |
| Inference.ModelType | m3inference/m3inference.py:46 | the variant is full_model exactly when the full model is used, text_model otherwise, and both have mirrors and a digest |
| Inference.M3Inference.constructor | m3inference/m3inference.py:41-54 | the fields are set from the arguments and no weights are loaded |
| Inference.M3Inference.ModelPath | m3inference/m3inference.py:80 | the checkpoint path: `os.path.join` of the model directory and `<model_type>.mdl`, as Common.JoinPath states it |
| Inference.M3Inference.LoadModelWeight | m3inference/m3inference.py:94-98 | with a check, an unknown variant is an AssertionError; a missing file is FileNotFound; otherwise the file's bytes are loaded whatever the digest verdict, and the verdict is returned |
| Inference.M3Inference.LoadPretrainedModel | m3inference/m3inference.py:74-92 | a present file is checked and loaded without changing files; a missing one is fetched, then loaded unchecked, failing if nothing was written; a variant without mirrors loads nothing |
| Inference.Create | m3inference/m3inference.py:30-72 | without pretraining nothing is loaded and the files are untouched; with it, an existing checkpoint file is loaded and the files are untouched; a missing one receives the first download whose digest verifies, else the last completed one, and creation fails exactly when no download completes; a created pretrained instance always holds weights |
| Inference.BatchRows | m3inference/m3inference.py:139 | one (gender, age, org) triple per row of a batch, in row order |
| Inference.Flatten | m3inference/m3inference.py:139 | one triple per row over all batches |
| Inference.FlattenAt | m3inference/m3inference.py:139 | row i of batch j sits after the rows of the earlier batches and holds that row's triple |
| Inference.ZipMapUpTo | m3inference/m3inference.py:150 | the keys of the dict built from the first n pairs are exactly the first n keys |
| Inference.ZipMap | m3inference/m3inference.py:150 | `dict(zip(keys, values))` has exactly the keys paired with a value |
| Inference.ZipMapUpToAt | m3inference/m3inference.py:150 | with distinct keys, each of the first n keys maps to its partner |
| Inference.ZipMapAt | m3inference/m3inference.py:150 | with distinct keys, each paired key maps to its partner value |
| Inference.CategoryNamesDistinct | m3inference/m3inference.py:149 | the categories are gender, age and org, in that order, and distinct |
| Inference.LabelsDistinct | m3inference/consts.py:50-54 | each category's labels are distinct |
| Inference.NestedPred | m3inference/m3inference.py:148-150 | one record's nested dictionary, category to label to value, whose shape NestedPredShape states |
| Inference.NestedPredShape | m3inference/m3inference.py:148-151 | a nested entry has exactly the keys gender, age and org, and each maps label j to prediction value j |
| Inference.Join | m3inference/m3inference.py:142-151 | the OrderedDict over the first n pairs: each pair is either appended as a new key or skipped as a duplicate, so keys and skipped ids together number n |
| Inference.JoinEntries | m3inference/m3inference.py:142-151 | the joined ids are exactly the ids of the paired records, and the ordered keys are the entry keys |
| Inference.JoinDistinct | m3inference/m3inference.py:142-151 | the ordered keys are distinct |
| Inference.JoinSkipped | m3inference/m3inference.py:145-147 | every paired record is kept or skipped with a warning, and each skipped id has an entry |
| Inference.JoinFirstWins | m3inference/m3inference.py:143-151 | the first record with an id determines its entry |
| Inference.JoinKeyOrder | m3inference/m3inference.py:142-151 | the keys appear in first-occurrence order |
| Inference.JoinedPredictions | m3inference/m3inference.py:139-151 | each paired id maps to the nested prediction of its first record |
| Inference.JoinPairs | m3inference/m3inference.py:142-152 | the OrderedDict loop computes the join of ids and entries up to the shorter list |
| Inference.FormatJsonOutput | m3inference/m3inference.py:136-152 | flattens the batches, pairs records with predictions up to the shorter list, and joins them |
| Inference.CategoryColumns | m3inference/m3inference.py:159 | one `category_label` column per label, in order |
| Inference.ColumnsLayout | m3inference/m3inference.py:159 | the eight columns, gender_male through org_is-org, in PRED_CATS order |
| Inference.FormatDataframeOutput | m3inference/m3inference.py:154-167 | it succeeds exactly when the batch list is non-empty, every batch stacks, every stacked row is as wide as the label columns and there is one row per record, and a ValueError otherwise; the frame is the id column then the eight label columns, the ids of the records, the stacked rows as values, and the duplicate warning exactly when an id repeats |
| Inference.StackedRows | m3inference/m3inference.py:156 | the rows of the vstack of per-batch hstacks, which StackedRowsAgree ties to the flattened predictions |
| Inference.StackedRowsAgree | m3inference/m3inference.py:156 | stacking gives one row per record, the concatenation of its gender, age and org values, matching the JSON flattening |
| Twitter.LastIndexOf | m3inference/m3twitter.py:26 | `rfind`: -1 or a position holding the character, with none after it |
| Twitter.LastSegment | m3inference/m3twitter.py:24 | `split('/')[-1]`: a suffix with no '/', preceded by '/' when shorter than the path |
| Twitter.Lower | m3inference/m3twitter.py:126 | lowercasing maps each character and keeps the length |
| Twitter.ReplaceAll | m3inference/m3twitter.py:87 | `str.replace` of every non-overlapping occurrence, left to right, as ReplaceAllNoMatch and ReplaceAllAround state |
| Twitter.ReplaceAllNoMatch | m3inference/m3twitter.py:87 | `str.replace` leaves text without the pattern unchanged |
| Twitter.ReplaceAllAround | m3inference/m3twitter.py:87 | `str.replace` rewrites the first occurrence and continues after it |
| Twitter.DotInLastSegment | m3inference/m3twitter.py:24-26 | the last segment contains '.' exactly when the last '.' comes after the last '/' |
| Twitter.GetExtension | m3inference/m3twitter.py:23-30 | 'png' when no '.' follows the last '/' |
| Twitter.GetExtensionNoDot | m3inference/m3twitter.py:24-25 | 'png' when the last segment has no '.' |
| Twitter.GetExtensionShape | m3inference/m3twitter.py:26-30 | the result is 'png' or the text after the last '.', containing neither '/' nor '.' |
| Twitter.GetExtensionOf | m3inference/m3twitter.py:26-30 | `stem.ext` with a non-gif extension gives exactly that extension |
| Twitter.GifSavedAsPng | m3inference/m3twitter.py:28-29 | a gif extension in any letter case gives 'png' |
| Twitter.ExtensionlessSavedAsPng | m3inference/m3twitter.py:24-25 | a final segment without '.' gives 'png' |
| Twitter.FullSizeSuffix | m3inference/m3twitter.py:242 | the full-size suffix is empty exactly when no '.' follows the last '/', otherwise '.' and the text after the last '.' |
| Twitter.FullSizeSuffixNoDot | m3inference/m3twitter.py:242 | the suffix is empty exactly when the last segment has no '.' |
| Twitter.NormalizeScreenName | m3inference/m3twitter.py:126-128 | an empty name is an IndexError; otherwise the result has no upper-case letters and drops only a leading '@' |
| Twitter.ScreenNameAtOptional | m3inference/m3twitter.py:126-128 | a name with or without one leading '@' normalises to the same lowercased name |
| Twitter.GetTwitterAttrib | m3inference/m3twitter.py:215-220 | a present key gives its value, a missing one "" |
| Twitter.Record | m3inference/m3twitter.py:109-116 | the record has exactly the six keys, each holding its value |
| Twitter.BioLang | m3inference/m3twitter.py:232-235 | the language is a LANGS key: `un` for an empty bio, otherwise the detected language |
| Twitter.DerivedLangKnown | m3inference/m3twitter.py:100-107 | without lang_key the chosen language is always a LANGS key |
| Twitter.SelectLang | m3inference/m3twitter.py:100-107 | lang_key in the user, then in the object, then `un` for an empty bio, then detection; it succeeds exactly when a lang_key value is found or the bio is a string, and otherwise is a TypeError |
| Twitter.M3Twitter.constructor | m3inference/m3twitter.py:34-43 | keeps the cache directory and the package directory |
| Twitter.M3Twitter.KeyedImage | m3inference/m3twitter.py:68-81 | a given image path is kept, or resized into the cache under the user's id with its extension; it succeeds exactly when no resize is asked for, or the id and the path are strings; a missing id_str is a KeyError |
| Twitter.M3Twitter.ProfileImage | m3inference/m3twitter.py:82-95 | a default profile uses the default image; otherwise the user's own image resized under the user's id; it succeeds exactly when default_profile_image is present and either truthy or backed by string image URL and id; a missing default_profile_image is a KeyError |
| Twitter.M3Twitter.OwnImage | m3inference/m3twitter.py:86-95 | the 400x400 URL is resized into the cache, downloaded only when not cached, and kept at full size when asked |
| Twitter.M3Twitter.SelectImage | m3inference/m3twitter.py:68-95 | img_path_key in the user, then in the object, then the profile image; it succeeds exactly when the chosen rule succeeds |
| Twitter.UserRecord | m3inference/m3twitter.py:96-116 | the output record of transform_jsonl_object: it succeeds exactly when description, id_str, name and screen_name are present and the language rule succeeds, and then has exactly the six keys with the user's fields, the bio, the image path and the language rule's value |
| Twitter.M3Twitter.TransformJsonlObject | m3inference/m3twitter.py:54-117 | the fields come from `user` when present; it succeeds exactly when `user` is an object, the image rule and the language rule succeed and description, id_str, name and screen_name are present; the record then has exactly the six keys, with the user's id, name and screen name, a null bio read as "", and the image and language rules |
| Twitter.M3Twitter.UpscaledImage | m3inference/m3twitter.py:241-246 | `_200x200` and `_normal` become `_400x400`; the image is resized into the cache under the id and kept at full size |
| Twitter.M3Twitter.TwitterImage | m3inference/m3twitter.py:237-246 | an empty URL or a default_profile URL uses the default image with no download; otherwise the upscaled image under the id; it succeeds exactly when the URL is a string and, when a download is needed, the id is a string |
| Twitter.M3Twitter.ProcessTwitter | m3inference/m3twitter.py:222-255 | missing attributes read as "", an empty id becomes "dummy", the language is `un` for an empty bio and otherwise detected, and the image follows the process_twitter rule; it succeeds exactly when the bio is a string and the image rule succeeds |

## Left out

- The neural network (text_model.py and the full model): LSTMs, dense layers, ReLU and softmax are floating-point tensor numerics over pretrained weights. `Packing.UnpackPack` takes the row-wise computation as a function parameter, and the per-batch outputs are inputs to `Inference.FormatJsonOutput`.
- Rounding predictions to 4 decimals and building the pandas DataFrame: floating point and library behaviour. Prediction values are opaque reals, and a frame is its columns, ids and rows.
- `infer`: reading JSONL, the DataLoader loop, device placement and the choice of output format are I/O and library plumbing around the modelled formatters.
- Image loading in `_preprocess_data` (`_image_loader`), preprocess.py and `download_resize_img`: image I/O. Each download the Twitter code would start is returned as a `DownloadCall` value, and `os.path.isfile` is a parameter.
- `os.makedirs` of the model and cache directories, logging, `set_seed`, CUDA and `nn.DataParallel`: side effects, randomness and hardware with no bearing on the modelled results.
- `torch.load` and `load_state_dict`: the loaded weights are the checkpoint file's bytes.
- Checkpoint.FetchPretrainedModel: the random `shuffle` of the mirror list is an arbitrary permutation given by the caller; streaming, temporary files and tqdm are reduced to one outcome per mirror.
- Checkpoint.CheckFileMd5: MD5 is an uninterpreted function of the file's bytes.
- cld2 language detection and `str.isprintable` are parameters of `Text.GetLang`: foreign code.
- `unicodedata.category` is a function parameter and the pickled vocabulary EMB a map argument of the encoder: foreign data.
- The `str(...)` conversion of non-string record fields in the dataset constructor: records are taken with their fields already strings. Records missing a field, a KeyError in the source through `DotDict`, are not modelled either: a `Dataset.Profile` always has every field.
- Twitter.Lower: lowercases ASCII letters only; Python's full Unicode case mapping is not modelled.
- Twitter.M3Twitter.TransformJsonlObject: JSON parsing of a string input is not modelled; the input is an already-parsed object. Most values of the wrong JSON type are reported as a TypeError where Python would fail; where Python's failure is an AttributeError instead (a non-string image path or URL, at the `.split` and `.replace` calls of m3inference/m3twitter.py:24, 87 and 241), the model still reports a TypeError. The next lines list where the model is stricter than Python. JSON numbers are one `Num` case holding a real: Python's distinction between int and float is not modelled.
- Twitter.M3Twitter.KeyedImage: a non-string id_str is a TypeError in the model, while Python formats it into the file name (`None_224x224.png`, say).
- Twitter.M3Twitter.ProfileImage: a non-string id_str is a TypeError in the model, while Python formats it into the file name.
- Twitter.M3Twitter.TwitterImage: a non-string id is a TypeError in the model, while Python formats it into the file name.
- Twitter.SelectLang: a bio that is a JSON object, or an array of strings, is a TypeError in the model, while Python hands it to language detection, which iterates over its keys or elements and succeeds.
- Twitter.M3Twitter.ProcessTwitter: a bio that is a JSON object or an array of strings is a TypeError in the model, while Python hands it to language detection and succeeds; an image URL that is a JSON object or array holding "default_profile" is a TypeError in the model, while Python's `in` test takes the default image.
- Twitter.M3Twitter.constructor: the inherited `M3Inference.__init__` call (m3inference/m3twitter.py:36-37) is not modelled; the model keeps only the fields M3Twitter adds, and loading the network is the business of Inference.Create.
- The network and cache plumbing in m3twitter.py: `twitter_init`, `twitter_init_from_file`, `_twitter_api`, the cache reads and writes in `infer_id` and `infer_screen_name`, and the file loop of `transform_jsonl`. These are OAuth/HTTP and file I/O; only the screen-name normalisation and the record rules are modelled.
- Twitter.M3Twitter.ProcessTwitter: the final `infer` call and the `{"input", "output"}` wrapper are left out with the network; the method returns the input record it builds.
- Packing.Pack: a batch of zero rows and the packed-sequence layout of `pack_padded_sequence` are not modelled; the result is the sorted rows, lengths and index.

## Findings

| source | as written | input that shows it | evidently intended | confidence | as-written member | corrected member |
|---|---|---|---|---|---|---|
| m3inference/utils.py:93-104 | `download_flag = True` is set at the end of the `try` block and every failed download `continue`s, so the test `if not download_flag` after it can never be true: the "Download from all mirrors failed" warning is unreachable | two mirrors whose downloads both raise: the loop ends without the warning | warn after the loop when no mirror's download completed | not executed | Checkpoint.WarnsAsWritten | Checkpoint.FetchPretrainedModel |
