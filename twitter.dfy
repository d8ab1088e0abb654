/** The Twitter front end of m3inference/m3twitter.py: turning a tweet or user
    object into an input record for the model, naming cached image files, and
    normalising screen names. Downloads and API calls are not performed: the
    downloads a call would start are returned, file existence and language
    detection are parameters. */
module Twitter {
  import opened Common
  import opened Consts
  import opened Text

  /** A parsed JSON value, as far as the selection logic looks into it. */
  datatype Json = Null | Bool(b: bool) | Num(n: real) | Str(s: string) | Arr(items: seq<Json>) | Obj(fields: map<string, Json>)

  /** Python truthiness of a JSON value. */
  predicate Truthy(j: Json)
  {
    match j
    case Null => false
    case Bool(b) => b
    case Num(n) => n != 0.0
    case Str(s) => s != []
    case Arr(items) => |items| > 0
    case Obj(f) => |f| > 0
  }

  // ---------------------------------------------------------------------------
  // String helpers
  // ---------------------------------------------------------------------------

  /** The last position of c before n, or -1. */
  function LastIndexBefore(s: string, c: char, n: nat): (i: int)
    requires n <= |s|
    ensures -1 <= i < n
    ensures i >= 0 ==> s[i] == c
    ensures forall k :: i < k < n ==> s[k] != c
  {
    if n == 0 then -1
    else if s[n - 1] == c then n - 1
    else LastIndexBefore(s, c, n - 1)
  }

  /** `s.rfind(c)`: the last position of c, or -1. */
  function LastIndexOf(s: string, c: char): (i: int)
    ensures -1 <= i < |s|
    ensures i >= 0 ==> s[i] == c
    ensures forall k :: i < k < |s| ==> s[k] != c
  {
    LastIndexBefore(s, c, |s|)
  }

  function LastSegment(s: string): (r: string)
    ensures '/' !in r
    ensures |r| <= |s| && r == s[|s| - |r|..]
    ensures |r| < |s| ==> s[|s| - |r| - 1] == '/'
  {
    s[LastIndexOf(s, '/') + 1..]
  }

  function LowerChar(c: char): char
  {
    if 'A' <= c <= 'Z' then (c as int - 'A' as int + 'a' as int) as char else c
  }

  /** `s.lower()` on ASCII letters. */
  function Lower(s: string): (r: string)
    ensures |r| == |s| && forall k :: 0 <= k < |s| ==> r[k] == LowerChar(s[k])
  {
    seq(|s|, k requires 0 <= k < |s| => LowerChar(s[k]))
  }

  /** `s.startswith(pat)`, one character at a time. */
  predicate StartsWith(s: string, pat: string)
  {
    pat == [] || (s != [] && s[0] == pat[0] && StartsWith(s[1..], pat[1..]))
  }

  lemma {:induction false} StartsWithIsPrefix(s: string, pat: string)
    ensures StartsWith(s, pat) <==> |pat| <= |s| && s[..|pat|] == pat
  {
    if pat != [] && s != [] {
      StartsWithIsPrefix(s[1..], pat[1..]);
      if |pat| <= |s| {
        assert s[..|pat|] == [s[0]] + s[1..][..|pat| - 1];
        assert pat == [pat[0]] + pat[1..];
      }
    }
  }

  /** `s.replace(pat, rep)`: every non-overlapping occurrence, left to right. */
  function ReplaceAll(s: string, pat: string, rep: string): string
    requires pat != []
    decreases |s|
  {
    if |s| < |pat| then s
    else if StartsWith(s, pat) then rep + ReplaceAll(s[|pat|..], pat, rep)
    else [s[0]] + ReplaceAll(s[1..], pat, rep)
  }

  /** A string without the pattern is left as it is. */
  lemma {:induction false} ReplaceAllNoMatch(s: string, pat: string, rep: string)
    requires pat != [] && !Contains(s, pat)
    ensures ReplaceAll(s, pat, rep) == s
    decreases |s|
  {
    if |s| >= |pat| {
      assert !StartsWith(s, pat) by { assert !OccursAt(s, pat, 0); StartsWithIsPrefix(s, pat); }
      assert !Contains(s[1..], pat) by {
        if Contains(s[1..], pat) {
          var i: nat :| i <= |s[1..]| && OccursAt(s[1..], pat, i);
          assert s[i + 1..i + 1 + |pat|] == s[1..][i..i + |pat|];
          assert OccursAt(s, pat, i + 1);
        }
      }
      ReplaceAllNoMatch(s[1..], pat, rep);
    }
  }

  /** An occurrence at the front is rewritten. */
  lemma ReplaceAllHead(b: string, pat: string, rep: string)
    requires pat != []
    ensures ReplaceAll(pat + b, pat, rep) == rep + ReplaceAll(b, pat, rep)
  {
    var s := pat + b;
    assert s[..|pat|] == pat && s[|pat|..] == b;
    StartsWithIsPrefix(s, pat);
  }

  /** A front character that does not start an occurrence is kept. */
  lemma ReplaceAllSkip(a: string, b: string, pat: string, rep: string)
    requires pat != [] && a != []
    requires !OccursAt(a + pat, pat, 0)
    ensures ReplaceAll(a + pat + b, pat, rep) == [a[0]] + ReplaceAll(a[1..] + pat + b, pat, rep)
  {
    var s := a + pat + b;
    assert s[..|pat|] == (a + pat)[0..|pat|];
    StartsWithIsPrefix(s, pat);
    assert s[1..] == a[1..] + pat + b;
  }

  /** Occurrences move one place when a character is put in front. */
  lemma OccursAtShift(c: char, s: string, pat: string, i: nat)
    ensures OccursAt([c] + s, pat, i + 1) <==> OccursAt(s, pat, i)
  {
    if i + |pat| <= |s| {
      var t := [c] + s;
      assert t[i + 1..i + 1 + |pat|] == s[i..i + |pat|] by {
        forall k | i + 1 <= k < i + 1 + |pat| ensures t[k] == s[k - 1] { }
      }
    }
  }

  /** No occurrence within `a + pat` before `pat` itself, one character on. */
  lemma NoEarlierOccurrenceTail(a: string, pat: string)
    requires a != []
    requires forall i :: 0 <= i < |a| ==> !OccursAt(a + pat, pat, i)
    ensures forall i :: 0 <= i < |a[1..]| ==> !OccursAt(a[1..] + pat, pat, i)
  {
    assert a + pat == [a[0]] + (a[1..] + pat);
    forall i | 0 <= i < |a[1..]| ensures !OccursAt(a[1..] + pat, pat, i) {
      assert !OccursAt(a + pat, pat, i + 1);
      OccursAtShift(a[0], a[1..] + pat, pat, i);
    }
  }

  /** The first occurrence is rewritten and the scan resumes after it. */
  lemma {:induction false} ReplaceAllAround(a: string, b: string, pat: string, rep: string)
    requires pat != []
    requires forall i :: 0 <= i < |a| ==> !OccursAt(a + pat, pat, i)
    ensures ReplaceAll(a + pat + b, pat, rep) == a + rep + ReplaceAll(b, pat, rep)
    decreases |a|
  {
    if a == [] {
      assert a + pat + b == pat + b;
      ReplaceAllHead(b, pat, rep);
    } else {
      var tail := a[1..];
      NoEarlierOccurrenceTail(a, pat);
      calc {
        ReplaceAll(a + pat + b, pat, rep);
        == { ReplaceAllSkip(a, b, pat, rep); }
        [a[0]] + ReplaceAll(tail + pat + b, pat, rep);
        == { ReplaceAllAround(tail, b, pat, rep); }
        [a[0]] + (tail + rep + ReplaceAll(b, pat, rep));
        == { assert a == [a[0]] + tail; }
        a + rep + ReplaceAll(b, pat, rep);
      }
    }
  }

  // ---------------------------------------------------------------------------
  // Image file naming
  // ---------------------------------------------------------------------------

  /** The last segment holds a '.' exactly when the last '.' comes after the
      last '/'. */
  lemma DotInLastSegment(path: string)
    ensures '.' in LastSegment(path) <==> LastIndexOf(path, '/') < LastIndexOf(path, '.')
  {
    var slash := LastIndexOf(path, '/');
    var dot := LastIndexOf(path, '.');
    var seg := LastSegment(path);
    assert seg == path[slash + 1..];
    if slash < dot {
      assert seg[dot - slash - 1] == '.';
    }
    if '.' in seg {
      var k :| 0 <= k < |seg| && seg[k] == '.';
      assert path[slash + 1 + k] == '.';
    }
  }

  /** The text after a last '.' that follows the last '/' holds neither. */
  lemma ExtensionShape(path: string)
    requires LastIndexOf(path, '/') < LastIndexOf(path, '.')
    ensures var e := path[LastIndexOf(path, '.') + 1..];
      && |e| < |path| && path[|path| - |e|..] == e && path[|path| - |e| - 1] == '.'
      && '/' !in e && '.' !in e
  {
    var dot := LastIndexOf(path, '.');
    var e := path[dot + 1..];
    forall j | 0 <= j < |e| ensures e[j] != '/' && e[j] != '.' {
      assert e[j] == path[dot + 1 + j];
    }
  }

  /** `ext.lower() == "gif"`, compared letter by letter. */
  predicate IsGif(ext: string)
  {
    |ext| == 3 && LowerChar(ext[0]) == 'g' && LowerChar(ext[1]) == 'i' && LowerChar(ext[2]) == 'f'
  }

  /** `get_extension`: the image format to save a profile image under. The
      test "no '.' in the last segment" is written as "the last '.' does not
      follow the last '/'", which DotInLastSegment shows is the same. */
  function GetExtension(path: string): (ext: string)
    ensures LastIndexOf(path, '.') <= LastIndexOf(path, '/') ==> ext == "png"
  {
    if LastIndexOf(path, '.') <= LastIndexOf(path, '/') then "png"
    else
      var extension := path[LastIndexOf(path, '.') + 1..];
      if IsGif(extension) then "png" else extension
  }

  /** A last segment without '.' gives "png". */
  lemma GetExtensionNoDot(path: string)
    ensures '.' !in LastSegment(path) ==> GetExtension(path) == "png"
  {
    DotInLastSegment(path);
  }

  /** Any other extension is the text after the path's last '.', and holds
      neither '.' nor '/'. */
  lemma GetExtensionShape(path: string)
    ensures var ext := GetExtension(path);
      || ext == "png"
      || (&& |ext| < |path| && path[|path| - |ext|..] == ext && path[|path| - |ext| - 1] == '.'
          && '/' !in ext && '.' !in ext)
  {
    if LastIndexOf(path, '/') < LastIndexOf(path, '.') {
      ExtensionShape(path);
    }
  }

  /** A stem, a dot and an extension without '.', '/' or any spelling of "gif"
      name an image saved under that extension. */
  lemma GetExtensionOf(stem: string, ext: string)
    requires '.' !in ext && '/' !in ext && !IsGif(ext)
    ensures GetExtension(stem + "." + ext) == ext
  {
    var path := stem + "." + ext;
    assert path[|stem|] == '.';
    assert LastIndexOf(path, '.') == |stem|;
    assert LastIndexOf(path, '/') < |stem| + 1;
    assert path[|stem| + 1..] == ext;
  }

  /** GIF images, in any letter case, are saved as PNG. */
  lemma GifSavedAsPng(stem: string, ext: string)
    requires IsGif(ext)
    ensures GetExtension(stem + "." + ext) == "png"
  {
    var path := stem + "." + ext;
    assert '.' !in ext by {
      forall k | 0 <= k < |ext| ensures ext[k] != '.' {
        assert LowerChar(ext[k]) in "gif";
      }
    }
    assert '/' !in ext by {
      forall k | 0 <= k < |ext| ensures ext[k] != '/' {
        assert LowerChar(ext[k]) in "gif";
      }
    }
    assert path[|stem|] == '.';
    assert LastIndexOf(path, '.') == |stem|;
    assert LastIndexOf(path, '/') < |stem| + 1;
  }

  /** A path whose last segment has no '.' is saved as PNG. */
  lemma ExtensionlessSavedAsPng(dir: string, name: string)
    requires '.' !in name && '/' !in name
    ensures GetExtension(dir + "/" + name) == "png"
  {
    var path := dir + "/" + name;
    assert path[|dir|] == '/';
    assert LastIndexOf(path, '/') == |dir|;
    assert LastIndexOf(path, '.') < |dir|;
  }

  /** What `process_twitter` appends to a full-size image name: "." and the
      text after the last '.', when the last segment has a '.'; otherwise
      nothing. */
  function FullSizeSuffix(path: string): (suffix: string)
    ensures suffix == [] <==> LastIndexOf(path, '.') <= LastIndexOf(path, '/')
    ensures suffix != [] ==> suffix[0] == '.' && suffix[1..] == path[LastIndexOf(path, '.') + 1..]
  {
    if LastIndexOf(path, '.') <= LastIndexOf(path, '/') then ""
    else "." + path[LastIndexOf(path, '.') + 1..]
  }

  /** Without a '.' in the last segment the full-size name has no suffix. */
  lemma FullSizeSuffixNoDot(path: string)
    ensures FullSizeSuffix(path) == [] <==> '.' !in LastSegment(path)
  {
    DotInLastSegment(path);
  }

  /** `"{cache_dir}/{id}_224x224.{ext}"`: the resized image of a user. */
  function ResizedPath(cacheDir: string, id: string, ext: string): string
  {
    cacheDir + "/" + id + "_224x224." + ext
  }

  /** `TW_DEFAULT_PROFILE_IMG`: the bundled default image of the package. */
  function DefaultProfileImg(packageDir: string): string
  {
    JoinPath(JoinPath(packageDir, "data"), "tw_default_profile.png")
  }

  /** A `download_resize_img(url, resized, full)` call the code would make. */
  datatype DownloadCall = DownloadCall(url: string, resized: string, full: Option<string>)

  // ---------------------------------------------------------------------------
  // Screen names and attributes
  // ---------------------------------------------------------------------------

  /** The screen-name normalisation at the top of `infer_screen_name`: lower
      case, then drop one leading '@' (indexing an empty name raises). */
  function NormalizeScreenName(screenName: string): (r: Result<string>)
    ensures screenName == [] <==> r.Failure?
    ensures r.Failure? ==> r.error.IndexError?
    ensures r.Success? ==> forall k :: 0 <= k < |r.value| ==> !('A' <= r.value[k] <= 'Z')
    ensures r.Success? ==> |r.value| == |screenName| - (if screenName[0] == '@' then 1 else 0)
  {
    var lowered := Lower(screenName);
    if lowered == [] then Failure(IndexError("string index out of range"))
    else if lowered[0] == '@' then Success(lowered[1..])
    else Success(lowered)
  }

  /** The leading '@' is optional and letter case does not matter. */
  lemma ScreenNameAtOptional(name: string)
    requires name != [] && name[0] != '@'
    ensures NormalizeScreenName("@" + name) == NormalizeScreenName(name)
    ensures NormalizeScreenName(name) == Success(Lower(name))
  {
    assert Lower("@" + name)[1..] == Lower(name);
  }

  /** `_get_twitter_attrib`: the attribute, or "" when it is missing. */
  function GetTwitterAttrib(key: string, data: map<string, Json>): (r: Json)
    ensures key in data ==> r == data[key]
    ensures key !in data ==> r == Str("")
  {
    if key in data then data[key] else Str("")
  }

  // ---------------------------------------------------------------------------
  // Building model input records
  // ---------------------------------------------------------------------------

  /** The keys of a model input record. */
  const RecordKeys: set<string> := {"description", "id", "img_path", "lang", "name", "screen_name"}

  /** A model input record: the six keys and their values. */
  function Record(description: Json, id: Json, imgPath: Json, lang: Json, name: Json, screenName: Json)
    : (m: map<string, Json>)
    ensures m.Keys == RecordKeys
    ensures m["description"] == description && m["id"] == id && m["img_path"] == imgPath
    ensures m["lang"] == lang && m["name"] == name && m["screen_name"] == screenName
  {
    map["description" := description, "id" := id, "img_path" := imgPath,
        "lang" := lang, "name" := name, "screen_name" := screenName]
  }

  /** The language `process_twitter` gives a bio: "un" for an empty one,
      otherwise the detected one; always a key of the language table. */
  function BioLang(bio: string, detect: string -> string, isPrintable: char -> bool): (lang: string)
    ensures lang in Langs()
    ensures bio == "" ==> lang == UnknownLang
    ensures bio != "" ==> lang == GetLang(bio, detect, isPrintable)
  {
    UnknownLangIndex();
    if bio == "" then UnknownLang else GetLang(bio, detect, isPrintable)
  }

  /** The object whose fields are read: the tweet's user, or the object itself. */
  function UserOf(input: map<string, Json>): map<string, Json>
  {
    if "user" in input && input["user"].Obj? then input["user"].fields else input
  }

  /** The bio, with a null one read as "". */
  function Bio(user: map<string, Json>): Json
    requires "description" in user
  {
    if user["description"] == Null then Str("") else user["description"]
  }


  /** The language of a record: the value under lang_key (in the user, else in
      the object), else "un" for an empty bio, else the detected one. */
  predicate LangRule(input: map<string, Json>, user: map<string, Json>, bio: Json, langKey: Option<string>,
                     detect: string -> string, isPrintable: char -> bool, lang: Json)
  {
    if langKey.Some? && langKey.value in user then lang == user[langKey.value]
    else if langKey.Some? && langKey.value in input then lang == input[langKey.value]
    else if bio == Str("") then lang == Str(UnknownLang)
    else bio.Str? && lang == Str(GetLang(bio.s, detect, isPrintable))
  }

  /** Without lang_key the language is always a key of the language table. */
  lemma DerivedLangKnown(input: map<string, Json>, user: map<string, Json>, bio: Json,
                         detect: string -> string, isPrintable: char -> bool, lang: Json)
    requires LangRule(input, user, bio, None, detect, isPrintable, lang)
    ensures lang.Str? && lang.s in Langs()
  {
    UnknownLangIndex();
  }

  /** The language part of `transform_jsonl_object`. */
  method SelectLang(input: map<string, Json>, user: map<string, Json>, bio: Json, langKey: Option<string>,
                    detect: string -> string, isPrintable: char -> bool)
    returns (r: Result<Json>)
    ensures r.Success? <==> LangOk(input, user, bio, langKey)
    ensures r.Success? ==> LangRule(input, user, bio, langKey, detect, isPrintable, r.value)
    ensures r.Failure? ==> r.error.TypeError? && !bio.Str?
  {
    if langKey.Some? && langKey.value in user {
      r := Success(user[langKey.value]);
    } else if langKey.Some? && langKey.value in input {
      r := Success(input[langKey.value]);
    } else if bio == Str("") {
      r := Success(Str(UnknownLang));
    } else if bio.Str? {
      r := Success(Str(GetLang(bio.s, detect, isPrintable)));
    } else {
      r := Failure(TypeError("description"));
    }
  }

  /** The bio, language and output part of `transform_jsonl_object`, once the
      image path is chosen. */
  method UserRecord(input: map<string, Json>, user: map<string, Json>, img: Json, langKey: Option<string>,
                    detect: string -> string, isPrintable: char -> bool)
    returns (r: Result<map<string, Json>>)
    ensures r.Success? <==> && "description" in user && LangOk(input, user, Bio(user), langKey)
                            && "id_str" in user && "name" in user && "screen_name" in user
    ensures r.Success? ==>
      && r.value.Keys == RecordKeys
      && r.value["id"] == user["id_str"] && r.value["name"] == user["name"]
      && r.value["screen_name"] == user["screen_name"]
      && r.value["description"] == Bio(user) && r.value["img_path"] == img
      && LangRule(input, user, Bio(user), langKey, detect, isPrintable, r.value["lang"])
  {
    if "description" !in user {
      return Failure(KeyError("description"));
    }
    var bio := user["description"];
    if bio == Null {
      bio := Str("");
    }

    var lang := SelectLang(input, user, bio, langKey, detect, isPrintable);
    if lang.Failure? {
      return Failure(lang.error);
    }

    if "id_str" !in user {
      return Failure(KeyError("id_str"));
    }
    if "name" !in user {
      return Failure(KeyError("name"));
    }
    if "screen_name" !in user {
      return Failure(KeyError("screen_name"));
    }
    r := Success(Record(bio, user["id_str"], img, lang.value, user["name"], user["screen_name"]));
  }

  /** When the language can be chosen: lang_key is found, or the bio is a string. */
  predicate LangOk(input: map<string, Json>, user: map<string, Json>, bio: Json, langKey: Option<string>)
  {
    (langKey.Some? && (langKey.value in user || langKey.value in input)) || bio.Str?
  }

  /** When an image given under img_path_key can be used: as is, or resized
      when it is a string path and the user has a string id. */
  predicate KeyedImageOk(given: Json, user: map<string, Json>, resizeImg: bool)
  {
    !resizeImg || ("id_str" in user && user["id_str"].Str? && given.Str?)
  }

  /** When the profile image can be chosen: a default profile, or a string
      image URL and a string id. */
  predicate ProfileImageOk(user: map<string, Json>)
  {
    && "default_profile_image" in user
    && (|| Truthy(user["default_profile_image"])
        || ("profile_image_url_https" in user && user["profile_image_url_https"].Str?
            && "id_str" in user && user["id_str"].Str?))
  }

  /** When the image branch `transform_jsonl_object` takes succeeds. */
  predicate ImageOk(input: map<string, Json>, user: map<string, Json>, imgPathKey: Option<string>, resizeImg: bool)
  {
    if imgPathKey.Some? && imgPathKey.value in user then KeyedImageOk(user[imgPathKey.value], user, resizeImg)
    else if imgPathKey.Some? && imgPathKey.value in input then KeyedImageOk(input[imgPathKey.value], user, resizeImg)
    else ProfileImageOk(user)
  }

  /** When `transform_jsonl_object` returns a record: `user` (if present) is an
      object, the image and language branches succeed, and the four fields the
      record reads are present. */
  predicate TransformOk(input: map<string, Json>, imgPathKey: Option<string>, langKey: Option<string>, resizeImg: bool)
  {
    && ("user" in input ==> input["user"].Obj?)
    && var user := UserOf(input);
       && ImageOk(input, user, imgPathKey, resizeImg)
       && "description" in user
       && LangOk(input, user, Bio(user), langKey)
       && "id_str" in user && "name" in user && "screen_name" in user
  }

  /** When the image rule of `process_twitter` succeeds: a string URL that is
      empty or names a default profile, or any string URL with a string id. */
  predicate TwitterImageOk(img: Json, id: Json)
  {
    img.Str? && (img.s == "" || Contains(img.s, "default_profile") || id.Str?)
  }

  class M3Twitter {
    const cacheDir: string
    const packageDir: string

    constructor (cacheDir: string, packageDir: string)
      ensures this.cacheDir == cacheDir && this.packageDir == packageDir
    {
      this.cacheDir := cacheDir;
      this.packageDir := packageDir;
    }

    /** An image given under img_path_key: used as is, or resized into the
        cache under the user's id with the image's extension. */
    predicate KeyedImageRule(given: Json, user: map<string, Json>, resizeImg: bool, img: Json, downloads: seq<DownloadCall>)
    {
      if !resizeImg then img == given && downloads == []
      else
        && given.Str? && "id_str" in user && user["id_str"].Str?
        && img == Str(ResizedPath(cacheDir, user["id_str"].s, GetExtension(given.s)))
        && downloads == [DownloadCall(given.s, img.s, None)]
    }

    /** The user's own image at 400x400, resized into the cache under the
        user's id unless it is there already (and kept at full size too when
        asked). */
    predicate OwnImageRule(urlField: string, id: string, keepFullSizeImg: bool, isFile: string -> bool,
                           img: Json, downloads: seq<DownloadCall>)
    {
      var url := ReplaceAll(urlField, "_normal", "_400x400");
      var resized := ResizedPath(cacheDir, id, GetExtension(url));
      var full := cacheDir + "/" + id + "." + url[LastIndexOf(url, '.') + 1..];
      && img == Str(resized)
      && downloads == if isFile(resized) then []
                      else [DownloadCall(url, resized, if keepFullSizeImg then Some(full) else None)]
    }

    /** Without an image under img_path_key: the default image for a default
        profile, otherwise the user's own image. */
    predicate ProfileImageRule(user: map<string, Json>, keepFullSizeImg: bool, isFile: string -> bool,
                               img: Json, downloads: seq<DownloadCall>)
    {
      if "default_profile_image" in user && Truthy(user["default_profile_image"]) then
        img == Str(DefaultProfileImg(packageDir)) && downloads == []
      else
        && "profile_image_url_https" in user && user["profile_image_url_https"].Str?
        && "id_str" in user && user["id_str"].Str?
        && OwnImageRule(user["profile_image_url_https"].s, user["id_str"].s, keepFullSizeImg, isFile, img, downloads)
    }

    /** Where `transform_jsonl_object` takes the image path from and which
        download it starts: img_path_key is looked up in the user, then in the
        object itself. */
    predicate ImageRule(input: map<string, Json>, user: map<string, Json>, imgPathKey: Option<string>,
                        resizeImg: bool, keepFullSizeImg: bool, isFile: string -> bool,
                        img: Json, downloads: seq<DownloadCall>)
    {
      if imgPathKey.Some? && imgPathKey.value in user then
        KeyedImageRule(user[imgPathKey.value], user, resizeImg, img, downloads)
      else if imgPathKey.Some? && imgPathKey.value in input then
        KeyedImageRule(input[imgPathKey.value], user, resizeImg, img, downloads)
      else ProfileImageRule(user, keepFullSizeImg, isFile, img, downloads)
    }

    method KeyedImage(given: Json, user: map<string, Json>, resizeImg: bool)
      returns (r: Result<Json>, downloads: seq<DownloadCall>)
      ensures r.Success? <==> KeyedImageOk(given, user, resizeImg)
      ensures r.Success? ==> KeyedImageRule(given, user, resizeImg, r.value, downloads)
      ensures resizeImg && "id_str" !in user ==> r == Failure(KeyError("id_str"))
    {
      downloads := [];
      if resizeImg {
        if "id_str" !in user {
          return Failure(KeyError("id_str")), downloads;
        }
        if !user["id_str"].Str? || !given.Str? {
          return Failure(TypeError("img_path")), downloads;
        }
        var resized := ResizedPath(cacheDir, user["id_str"].s, GetExtension(given.s));
        downloads := downloads + [DownloadCall(given.s, resized, None)];
        r := Success(Str(resized));
      } else {
        r := Success(given);
      }
    }

    method ProfileImage(user: map<string, Json>, keepFullSizeImg: bool, isFile: string -> bool)
      returns (r: Result<Json>, downloads: seq<DownloadCall>)
      ensures r.Success? <==> ProfileImageOk(user)
      ensures r.Success? ==> ProfileImageRule(user, keepFullSizeImg, isFile, r.value, downloads)
      ensures "default_profile_image" !in user ==> r == Failure(KeyError("default_profile_image"))
    {
      if "default_profile_image" !in user {
        return Failure(KeyError("default_profile_image")), [];
      }
      if Truthy(user["default_profile_image"]) {
        return Success(Str(DefaultProfileImg(packageDir))), [];
      }
      if "profile_image_url_https" !in user {
        return Failure(KeyError("profile_image_url_https")), [];
      }
      if !user["profile_image_url_https"].Str? {
        return Failure(TypeError("profile_image_url_https")), [];
      }
      if "id_str" !in user {
        return Failure(KeyError("id_str")), [];
      }
      if !user["id_str"].Str? {
        return Failure(TypeError("id_str")), [];
      }
      var img;
      img, downloads := OwnImage(user["profile_image_url_https"].s, user["id_str"].s, keepFullSizeImg, isFile);
      r := Success(img);
    }

    method OwnImage(urlField: string, id: string, keepFullSizeImg: bool, isFile: string -> bool)
      returns (img: Json, downloads: seq<DownloadCall>)
      ensures OwnImageRule(urlField, id, keepFullSizeImg, isFile, img, downloads)
    {
      var imgPath := ReplaceAll(urlField, "_normal", "_400x400");
      var dotpos := LastIndexOf(imgPath, '.');
      var imgFileFull := cacheDir + "/" + id + "." + imgPath[dotpos + 1..];
      var resized := ResizedPath(cacheDir, id, GetExtension(imgPath));
      if isFile(resized) {
        downloads := [];
      } else {
        downloads := [DownloadCall(imgPath, resized, if keepFullSizeImg then Some(imgFileFull) else None)];
      }
      img := Str(resized);
    }

    /** The image part of `transform_jsonl_object`. */
    method SelectImage(input: map<string, Json>, user: map<string, Json>, imgPathKey: Option<string>,
                       resizeImg: bool, keepFullSizeImg: bool, isFile: string -> bool)
      returns (r: Result<Json>, downloads: seq<DownloadCall>)
      ensures r.Success? <==> ImageOk(input, user, imgPathKey, resizeImg)
      ensures r.Success? ==> ImageRule(input, user, imgPathKey, resizeImg, keepFullSizeImg, isFile, r.value, downloads)
    {
      if imgPathKey.Some? && imgPathKey.value in user {
        r, downloads := KeyedImage(user[imgPathKey.value], user, resizeImg);
      } else if imgPathKey.Some? && imgPathKey.value in input {
        r, downloads := KeyedImage(input[imgPathKey.value], user, resizeImg);
      } else {
        r, downloads := ProfileImage(user, keepFullSizeImg, isFile);
      }
    }

    /** `transform_jsonl_object` on a parsed tweet or user object: the record
        has exactly the six input keys, with the user's id, name, screen name
        and bio (a null bio read as ""), and the image and language rules. */
    method TransformJsonlObject(input: map<string, Json>, imgPathKey: Option<string>, langKey: Option<string>,
                                resizeImg: bool, keepFullSizeImg: bool, isFile: string -> bool,
                                detect: string -> string, isPrintable: char -> bool)
      returns (r: Result<map<string, Json>>, downloads: seq<DownloadCall>)
      ensures r.Success? <==> TransformOk(input, imgPathKey, langKey, resizeImg)
      ensures "user" in input && !input["user"].Obj? ==> r.Failure? && r.error.TypeError?
      ensures var user := UserOf(input);
        "id_str" !in user || "description" !in user || "name" !in user || "screen_name" !in user ==> r.Failure?
      ensures r.Success? ==>
        var user := UserOf(input);
        var out := r.value;
        && out.Keys == RecordKeys
        && "id_str" in user && "description" in user && "name" in user && "screen_name" in user
        && out["id"] == user["id_str"] && out["name"] == user["name"] && out["screen_name"] == user["screen_name"]
        && out["description"] == Bio(user)
        && LangRule(input, user, Bio(user), langKey, detect, isPrintable, out["lang"])
        && ImageRule(input, user, imgPathKey, resizeImg, keepFullSizeImg, isFile, out["img_path"], downloads)
    {
      downloads := [];
      var user := input;
      if "user" in input {
        if !input["user"].Obj? {
          return Failure(TypeError("user")), downloads;
        }
        user := input["user"].fields;
      }

      var img;
      img, downloads := SelectImage(input, user, imgPathKey, resizeImg, keepFullSizeImg, isFile);
      if img.Failure? {
        return Failure(img.error), downloads;
      }

      r := UserRecord(input, user, img.value, langKey, detect, isPrintable);
    }

    /** A usable profile image URL: its 400x400 version, downloaded at full
        size and resized into the cache under the record's id. */
    predicate UpscaledImageRule(url: string, id: string, path: string, downloads: seq<DownloadCall>)
    {
      var big := ReplaceAll(ReplaceAll(url, "_200x200", "_400x400"), "_normal", "_400x400");
      var full := cacheDir + "/" + id + FullSizeSuffix(big);
      && path == ResizedPath(cacheDir, id, GetExtension(big))
      && downloads == [DownloadCall(big, path, Some(full))]
    }

    /** The image rule of `process_twitter`: the default image when the URL
        is empty or names a default profile image, otherwise the upscaled one. */
    predicate TwitterImageRule(img: Json, id: Json, path: string, downloads: seq<DownloadCall>)
    {
      if img == Str("") || (img.Str? && Contains(img.s, "default_profile")) then
        path == DefaultProfileImg(packageDir) && downloads == []
      else img.Str? && id.Str? && UpscaledImageRule(img.s, id.s, path, downloads)
    }

    method UpscaledImage(url: string, id: string) returns (path: string, downloads: seq<DownloadCall>)
      ensures UpscaledImageRule(url, id, path, downloads)
    {
      var big := ReplaceAll(ReplaceAll(url, "_200x200", "_400x400"), "_normal", "_400x400");
      var imgFileFull := cacheDir + "/" + id + FullSizeSuffix(big);
      path := ResizedPath(cacheDir, id, GetExtension(big));
      downloads := [DownloadCall(big, path, Some(imgFileFull))];
    }

    method TwitterImage(img: Json, id: Json) returns (r: Result<string>, downloads: seq<DownloadCall>)
      ensures r.Success? <==> TwitterImageOk(img, id)
      ensures r.Success? ==> TwitterImageRule(img, id, r.value, downloads)
      ensures r.Failure? ==> r.error.TypeError?
      ensures img == Str("") ==> r == Success(DefaultProfileImg(packageDir)) && downloads == []
    {
      if img == Str("") || (img.Str? && Contains(img.s, "default_profile")) {
        return Success(DefaultProfileImg(packageDir)), [];
      }
      if !img.Str? || !id.Str? {
        return Failure(TypeError("profile_image_url")), [];
      }
      var path;
      path, downloads := UpscaledImage(img.s, id.s);
      r := Success(path);
    }

    /** The record-building part of `process_twitter` on an API user object:
        missing attributes read as "", an empty id becomes "dummy", the
        language is "un" for an empty bio, and the image follows
        TwitterImageRule. */
    method ProcessTwitter(data: map<string, Json>, detect: string -> string, isPrintable: char -> bool)
      returns (r: Result<map<string, Json>>, downloads: seq<DownloadCall>)
      ensures var id := GetTwitterAttrib("id_str", data);
        r.Success? <==> GetTwitterAttrib("description", data).Str? &&
                        TwitterImageOk(GetTwitterAttrib("profile_image_url", data), if id == Str("") then Str("dummy") else id)
      ensures r.Success? ==>
        var out := r.value;
        var id := GetTwitterAttrib("id_str", data);
        var bio := GetTwitterAttrib("description", data);
        && out.Keys == RecordKeys
        && out["screen_name"] == GetTwitterAttrib("screen_name", data)
        && out["name"] == GetTwitterAttrib("name", data)
        && out["description"] == bio
        && out["id"] == (if id == Str("") then Str("dummy") else id)
        && out["lang"].Str? && out["lang"].s in Langs()
        && (bio == Str("") ==> out["lang"] == Str(UnknownLang))
        && (bio != Str("") ==> bio.Str? && out["lang"] == Str(GetLang(bio.s, detect, isPrintable)))
        && out["img_path"].Str?
        && TwitterImageRule(GetTwitterAttrib("profile_image_url", data), out["id"], out["img_path"].s, downloads)
      ensures "description" !in data && "profile_image_url" !in data ==>
                r.Success? && r.value["lang"] == Str(UnknownLang) && r.value["img_path"] == Str(DefaultProfileImg(packageDir))
    {
      var screenName := GetTwitterAttrib("screen_name", data);
      var id := GetTwitterAttrib("id_str", data);
      var bio := GetTwitterAttrib("description", data);
      var name := GetTwitterAttrib("name", data);
      var imgPath := GetTwitterAttrib("profile_image_url", data);
      if id == Str("") {
        id := Str("dummy");
      }

      if !bio.Str? {
        return Failure(TypeError("description")), [];
      }
      var lang := BioLang(bio.s, detect, isPrintable);

      var imgFileResize;
      imgFileResize, downloads := TwitterImage(imgPath, id);
      if imgFileResize.Failure? {
        return Failure(imgFileResize.error), downloads;
      }

      r := Success(Record(bio, id, Str(imgFileResize.value), Str(lang), name, screenName));
    }
  }
}
