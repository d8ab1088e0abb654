/** Text normalisation applied before encoding, and language selection
    (m3inference/utils.py: normalize_space, normalize_url, get_lang), plus
    Python's `str.strip(" ")`, which the encoder's emptiness test uses. */
module Text {
  import opened Common
  import opened Consts

  // ---------------------------------------------------------------------------
  // normalize_space
  // ---------------------------------------------------------------------------

  /** `s.replace(a, b)` for a one-character pattern. */
  function ReplaceChar(s: string, a: char, b: char): (r: string)
    ensures |r| == |s|
    ensures forall k :: 0 <= k < |s| ==> r[k] == (if s[k] == a then b else s[k])
  {
    seq(|s|, k requires 0 <= k < |s| => if s[k] == a then b else s[k])
  }

  /** Tab, newline and carriage return become a space, in three passes. */
  function NormalizeSpace(s: string): (r: string)
    ensures |r| == |s|
    ensures forall k :: 0 <= k < |r| ==> !IsControlSpace(r[k])
  {
    ReplaceChar(ReplaceChar(ReplaceChar(s, '\t', ' '), '\n', ' '), '\r', ' ')
  }

  predicate IsControlSpace(c: char)
  {
    c == '\t' || c == '\n' || c == '\r'
  }

  /** The three passes amount to one per-character map: same length, the three
      control characters become ' ', every other character is kept. */
  lemma NormalizeSpaceChars(s: string)
    ensures |NormalizeSpace(s)| == |s|
    ensures forall k :: 0 <= k < |s| ==> NormalizeSpace(s)[k] == if IsControlSpace(s[k]) then ' ' else s[k]
    ensures forall k :: 0 <= k < |s| ==> !IsControlSpace(NormalizeSpace(s)[k])
  {
  }

  /** Applying it twice changes nothing more. */
  lemma NormalizeSpaceIdempotent(s: string)
    ensures NormalizeSpace(NormalizeSpace(s)) == NormalizeSpace(s)
  {
    NormalizeSpaceChars(s);
    NormalizeSpaceChars(NormalizeSpace(s));
  }

  // ---------------------------------------------------------------------------
  // str.strip(" ")
  // ---------------------------------------------------------------------------

  function TrimLeft(s: string): (r: string)
    ensures |r| <= |s|
    ensures r == [] || r[0] != ' '
    decreases |s|
  {
    if s != [] && s[0] == ' ' then TrimLeft(s[1..]) else s
  }

  function TrimRight(s: string): (r: string)
    ensures r <= s
    ensures r == [] || r[|r| - 1] != ' '
    decreases |s|
  {
    if s != [] && s[|s| - 1] == ' ' then TrimRight(s[..|s| - 1]) else s
  }

  /** `s.strip(" ")`: spaces removed from both ends, nothing else. */
  function Strip(s: string): (r: string)
    ensures |r| <= |s|
    ensures r == [] || (r[0] != ' ' && r[|r| - 1] != ' ')
  {
    TrimRight(TrimLeft(s))
  }

  predicate AllSpaces(s: string)
  {
    forall k :: 0 <= k < |s| ==> s[k] == ' '
  }

  lemma {:induction false} TrimLeftEmpty(s: string)
    ensures TrimLeft(s) == [] <==> AllSpaces(s)
    decreases |s|
  {
    if s != [] && s[0] == ' ' {
      TrimLeftEmpty(s[1..]);
      assert AllSpaces(s) <==> AllSpaces(s[1..]) by {
        if AllSpaces(s[1..]) {
          forall k | 0 <= k < |s| ensures s[k] == ' ' {
            if k > 0 { assert s[k] == s[1..][k - 1]; }
          }
        }
      }
    }
  }

  lemma {:induction false} TrimRightEmpty(s: string)
    requires s == [] || s[0] != ' '
    ensures TrimRight(s) == [] <==> s == []
    decreases |s|
  {
    if s != [] && s[|s| - 1] == ' ' {
      TrimRightEmpty(s[..|s| - 1]);
    }
  }

  /** The stripped string is empty exactly when the string is all spaces
      (tabs and other whitespace do not count). */
  lemma StripEmptyIffAllSpaces(s: string)
    ensures Strip(s) == [] <==> AllSpaces(s)
  {
    TrimLeftEmpty(s);
    TrimRightEmpty(TrimLeft(s));
  }

  // ---------------------------------------------------------------------------
  // normalize_url
  // ---------------------------------------------------------------------------

  /** U+20CC, the character each URL is replaced with. */
  const UrlSentinel: char := '⃌'

  /** One repetition of the regex group
      `(?:[a-zA-Z]|[0-9]|[$-_@.&+]|[!*\(\),]|(?:%[0-9a-fA-F][0-9a-fA-F]))`.
      `[$-_@.&+]` is the range '$'..'_' plus four characters inside it. The `%XX`
      alternative is never needed: '%' is already in '$'..'_', so a greedy
      repetition consumes exactly the longest run of characters listed here. */
  predicate IsUrlChar(c: char)
  {
    || ('a' <= c <= 'z') || ('A' <= c <= 'Z')
    || ('0' <= c <= '9')
    || ('$' <= c <= '_') || c == '@' || c == '.' || c == '&' || c == '+'
    || c == '!' || c == '*' || c == '(' || c == ')' || c == ','
  }

  /** Length of the longest prefix of URL characters. */
  function UrlRun(s: string): (n: nat)
    ensures n <= |s|
    ensures forall k :: 0 <= k < n ==> IsUrlChar(s[k])
    ensures n < |s| ==> !IsUrlChar(s[n])
  {
    if s != [] && IsUrlChar(s[0]) then 1 + UrlRun(s[1..]) else 0
  }

  /** Length of the `http[s]?://` prefix of `s`, 0 if there is none. */
  function SchemeLen(s: string): nat
  {
    if OccursAt(s, "https://", 0) then 8
    else if OccursAt(s, "http://", 0) then 7
    else 0
  }

  /** Length of the regex match anchored at the start of `s`, 0 if none. With
      "https://" and no URL character after it, backtracking to "http" cannot
      help, since "://" would then have to start at the 's'. */
  function MatchLen(s: string): (n: nat)
    ensures n <= |s|
  {
    var scheme := SchemeLen(s);
    if scheme > 0 && UrlRun(s[scheme..]) > 0 then scheme + UrlRun(s[scheme..]) else 0
  }

  /** `re.sub(pattern, '⃌', s)`: scan left to right; where a match starts,
      replace the whole (maximal) match by one sentinel and go on after it;
      elsewhere copy one character. The result is never longer than `s`. */
  function NormalizeUrl(s: string): (r: string)
    ensures |r| <= |s|
    decreases |s|
  {
    if s == [] then []
    else if MatchLen(s) > 0 then [UrlSentinel] + NormalizeUrl(s[MatchLen(s)..])
    else [s[0]] + NormalizeUrl(s[1..])
  }

  lemma SchemeOccurs(s: string)
    ensures SchemeLen(s) > 0 ==> OccursAt(s, "https://", 0) || OccursAt(s, "http://", 0)
  {
  }

  lemma ContainsTail(s: string, pat: string)
    requires s != []
    requires Contains(s[1..], pat)
    ensures Contains(s, pat)
  {
    var i: nat :| i <= |s[1..]| && OccursAt(s[1..], pat, i);
    assert s[i + 1..i + 1 + |pat|] == s[1..][i..i + |pat|];
    assert OccursAt(s, pat, i + 1);
  }

  /** A string with neither "http://" nor "https://" in it is left unchanged. */
  lemma {:induction false} NormalizeUrlWithoutScheme(s: string)
    requires !Contains(s, "http://") && !Contains(s, "https://")
    ensures NormalizeUrl(s) == s
    decreases |s|
  {
    if s != [] {
      assert !OccursAt(s, "http://", 0) && !OccursAt(s, "https://", 0);
      assert MatchLen(s) == 0;
      if Contains(s[1..], "http://") { ContainsTail(s, "http://"); }
      if Contains(s[1..], "https://") { ContainsTail(s, "https://"); }
      NormalizeUrlWithoutScheme(s[1..]);
    }
  }

  /** A URL (scheme and a maximal run of URL characters) becomes one sentinel,
      and scanning resumes right after it. */
  lemma NormalizeUrlReplacesUrl(scheme: string, url: string, rest: string)
    requires scheme == "http://" || scheme == "https://"
    requires url != [] && forall k :: 0 <= k < |url| ==> IsUrlChar(url[k])
    requires rest == [] || !IsUrlChar(rest[0])
    ensures NormalizeUrl(scheme + url + rest) == [UrlSentinel] + NormalizeUrl(rest)
  {
    var s := scheme + url + rest;
    assert s[..|scheme|] == scheme;
    assert OccursAt(s, scheme, 0);
    if scheme == "http://" {
      assert s[4] == ':';
      assert !OccursAt(s, "https://", 0);
    }
    assert SchemeLen(s) == |scheme|;
    UrlRunOf(url, rest);
    assert s[|scheme|..] == url + rest;
    assert s[MatchLen(s)..] == rest;
  }

  lemma {:induction false} UrlRunOf(url: string, rest: string)
    requires forall k :: 0 <= k < |url| ==> IsUrlChar(url[k])
    requires rest == [] || !IsUrlChar(rest[0])
    ensures UrlRun(url + rest) == |url|
    decreases |url|
  {
    if url != [] {
      assert (url + rest)[1..] == url[1..] + rest;
      UrlRunOf(url[1..], rest);
    }
  }

  /** Index of the first position where a match starts, |t| if none. */
  function FirstMatch(t: string): (f: nat)
    ensures f <= |t|
    decreases |t|
  {
    if t == [] then 0 else if MatchLen(t) > 0 then 0 else 1 + FirstMatch(t[1..])
  }

  /** Up to the first match the output copies the input; at the first match it
      holds the sentinel; with no match it is the input itself. */
  lemma {:induction false} CopiedPrefix(t: string)
    ensures |NormalizeUrl(t)| >= FirstMatch(t)
    ensures NormalizeUrl(t)[..FirstMatch(t)] == t[..FirstMatch(t)]
    ensures FirstMatch(t) < |t| ==> |NormalizeUrl(t)| > FirstMatch(t) && NormalizeUrl(t)[FirstMatch(t)] == UrlSentinel
    ensures FirstMatch(t) == |t| ==> NormalizeUrl(t) == t
    decreases |t|
  {
    if t != [] && MatchLen(t) == 0 {
      var t1 := t[1..];
      CopiedPrefix(t1);
      var r1 := NormalizeUrl(t1);
      var f1 := FirstMatch(t1);
      assert NormalizeUrl(t) == [t[0]] + r1;
      assert FirstMatch(t) == 1 + f1;
      assert t == [t[0]] + t1;
      assert ([t[0]] + r1)[..1 + f1] == [t[0]] + r1[..f1];
      assert t[..1 + f1] == [t[0]] + t1[..f1];
    }
  }

  /** Whether a match starts at the front depends only on the first
      SchemeLen + 1 characters. */
  lemma MatchDependsOnPrefix(x: string, y: string)
    requires MatchLen(x) > 0
    requires |y| > SchemeLen(x) && y[..SchemeLen(x) + 1] == x[..SchemeLen(x) + 1]
    ensures MatchLen(y) > 0
  {
    var n := SchemeLen(x);
    if n == 8 {
      assert y[..8] == x[..8];
      assert OccursAt(y, "https://", 0);
    } else {
      assert y[..7] == x[..7];
      assert y[..8] == x[..8];
      assert OccursAt(y, "http://", 0);
    }
    assert SchemeLen(y) == n;
    assert y[n] == x[n];
  }

  lemma SchemeNoSentinel(x: string)
    requires MatchLen(x) > 0
    ensures forall k :: 0 <= k <= SchemeLen(x) ==> x[k] != UrlSentinel
  {
    var n := SchemeLen(x);
    SchemeOccurs(x);
    assert IsUrlChar(x[n..][0]);
    if n == 8 {
      assert x[..8] == "https://";
      assert forall k :: 0 <= k < 8 ==> x[k] == "https://"[k];
    } else {
      assert x[..7] == "http://";
      assert forall k :: 0 <= k < 7 ==> x[k] == "http://"[k];
    }
  }

  /** After a copied character, no match can start where none started in the input. */
  lemma CopyKeepsNoMatch(s: string)
    requires s != [] && MatchLen(s) == 0
    ensures MatchLen([s[0]] + NormalizeUrl(s[1..])) == 0
  {
    CopiedPrefix(s[1..]);
    NoMatchAfterCopy(s, NormalizeUrl(s[1..]), FirstMatch(s[1..]));
  }

  /** The same, for any `r` that copies `s[1..]` up to `f` and then has the sentinel. */
  lemma NoMatchAfterCopy(s: string, r: string, f: nat)
    requires s != [] && MatchLen(s) == 0
    requires f <= |s| - 1 && |r| >= f && r[..f] == s[1..][..f]
    requires f < |s| - 1 ==> |r| > f && r[f] == UrlSentinel
    requires f == |s| - 1 ==> r == s[1..]
    ensures MatchLen([s[0]] + r) == 0
  {
    var out := [s[0]] + r;
    if f == |s| - 1 {
      assert s == [s[0]] + s[1..];
    }
    if MatchLen(out) > 0 {
      assert out[1..1 + f] == r[..f];
      assert s[1..1 + f] == s[1..][..f];
      SchemeNoSentinel(out);
      SameUpToScheme(s, out, f);
      MatchDependsOnPrefix(out, s);
    }
  }

  lemma SameUpToScheme(s: string, out: string, f: nat)
    requires s != [] && f <= |s| - 1
    requires |out| >= 1 + f && out[0] == s[0] && out[1..1 + f] == s[1..1 + f]
    requires f < |s| - 1 ==> |out| > 1 + f && out[1 + f] == UrlSentinel
    requires f == |s| - 1 ==> out == s
    requires MatchLen(out) > 0
    requires forall k :: 0 <= k <= SchemeLen(out) ==> out[k] != UrlSentinel
    ensures |s| > SchemeLen(out) && s[..SchemeLen(out) + 1] == out[..SchemeLen(out) + 1]
  {
    var n := SchemeLen(out);
    if f < |s| - 1 {
      assert n + 1 <= 1 + f;
      forall k | 0 <= k < n + 1 ensures out[k] == s[k] {
        if k > 0 { assert out[k] == out[1..1 + f][k - 1]; }
      }
    }
  }

  /** Re-applying normalize_url changes nothing: no match survives in its output. */
  lemma {:induction false} NormalizeUrlIdempotent(s: string)
    ensures NormalizeUrl(NormalizeUrl(s)) == NormalizeUrl(s)
    decreases |s|
  {
    if s != [] {
      var out := NormalizeUrl(s);
      if MatchLen(s) > 0 {
        var tail := NormalizeUrl(s[MatchLen(s)..]);
        assert out == [UrlSentinel] + tail;
        assert !OccursAt(out, "https://", 0) && !OccursAt(out, "http://", 0) by {
          assert out[0] == UrlSentinel;
        }
        assert MatchLen(out) == 0;
        assert out[1..] == tail;
        NormalizeUrlIdempotent(s[MatchLen(s)..]);
      } else {
        CopyKeepsNoMatch(s);
        assert out[1..] == NormalizeUrl(s[1..]);
        NormalizeUrlIdempotent(s[1..]);
      }
    }
  }

  // ---------------------------------------------------------------------------
  // get_lang
  // ---------------------------------------------------------------------------

  /** The characters of `s` that satisfy `keep`, in order. */
  function Filter(s: string, keep: char -> bool): (r: string)
    ensures |r| <= |s|
    ensures forall k :: 0 <= k < |r| ==> keep(r[k])
  {
    if s == [] then []
    else (if keep(s[0]) then [s[0]] else []) + Filter(s[1..], keep)
  }

  /** `get_lang`: the detector (abstract here) runs on the printable characters
      of the sentence; a detected code outside `LANGS` becomes 'un'. The result
      is always a key of `LANGS`, and it is the detected code whenever that is one. */
  function GetLang(sent: string, detect: string -> string, isPrintable: char -> bool): (r: string)
    ensures r in Langs()
    ensures detect(Filter(sent, isPrintable)) in Langs() ==> r == detect(Filter(sent, isPrintable))
    ensures detect(Filter(sent, isPrintable)) !in Langs() ==> r == UnknownLang
  {
    UnknownLangIndex();
    var lang := detect(Filter(sent, isPrintable));
    if lang !in Langs() then UnknownLang else lang
  }
}
