/** The pretrained-checkpoint plumbing of m3inference/utils.py: the MD5 gate
    (check_file_md5) and the mirror-retry download (fetch_pretrained_model).
    Hashing is an uninterpreted function; each mirror's download outcome is
    given, in the order the shuffled mirror list is tried. */
module Checkpoint {
  import opened Common
  import opened Consts

  type Bytes = seq<bv8>

  /** The part of the file system the checkpoint code touches: path to contents. */
  class FileSystem {
    var files: map<string, Bytes>

    constructor (files: map<string, Bytes>)
      ensures this.files == files
    {
      this.files := files;
    }

    /** Write `content` to `path`, replacing any previous file. */
    method Write(path: string, content: Bytes)
      modifies this
      ensures files == old(files)[path := content]
    {
      files := files[path := content];
    }
  }

  /** `check_file_md5`: asserts the variant is known, reads the file and
      compares its digest with the recorded one. */
  function CheckFileMd5(name: string, path: string, files: map<string, Bytes>, md5: Bytes -> string): (r: Result<bool>)
    ensures name !in PretrainedModelMd5Map <==> r.Failure? && r.error.AssertionError?
    ensures name in PretrainedModelMd5Map && path !in files <==> r.Failure? && r.error.FileNotFound?
    ensures r.Success? ==> (r.value <==> md5(files[path]) == PretrainedModelMd5Map[name])
  {
    if name !in PretrainedModelMd5Map then Failure(AssertionError("model_name in PRETRAINED_MODEL_MD5_MAP"))
    else if path !in files then Failure(FileNotFound(path))
    else Success(PretrainedModelMd5Map[name] == md5(files[path]))
  }

  /** A file passes the gate exactly when its digest is the recorded one: a
      file whose digest changed fails, an unchanged one passes. */
  lemma Md5GateDecides(name: string, path: string, files: map<string, Bytes>, md5: Bytes -> string, altered: Bytes)
    requires name in PretrainedModelMd5Map && path in files
    requires md5(files[path]) == PretrainedModelMd5Map[name]
    requires md5(altered) != md5(files[path])
    ensures CheckFileMd5(name, path, files, md5) == Success(true)
    ensures CheckFileMd5(name, path, files[path := altered], md5) == Success(false)
  {
  }

  /** What one mirror's download does: raise somewhere, or complete with content. */
  datatype Download = Failed | Completed(content: Bytes)

  /** What the loop leaves in the target file, given what it held so far:
      failed downloads are skipped, a completed one is written, and the loop
      stops at the first completed download whose digest is the expected one. */
  function Written(downloads: seq<Download>, written: Option<Bytes>, expected: string, md5: Bytes -> string): Option<Bytes>
  {
    if downloads == [] then written
    else match downloads[0]
      case Failed => Written(downloads[1..], written, expected, md5)
      case Completed(c) =>
        if md5(c) == expected then Some(c) else Written(downloads[1..], Some(c), expected, md5)
  }

  /** Whatever the loop leaves behind, if it changed the file, is the content of
      one of the downloads. */
  lemma {:induction false} WrittenIsDownloaded(downloads: seq<Download>, written: Option<Bytes>, expected: string,
                                               md5: Bytes -> string)
    ensures var r := Written(downloads, written, expected, md5);
      r != written ==> r.Some? && Completed(r.value) in downloads
  {
    if downloads != [] {
      WrittenIsDownloaded(downloads[1..], written, expected, md5);
      if downloads[0].Completed? {
        WrittenIsDownloaded(downloads[1..], Some(downloads[0].content), expected, md5);
      }
      assert downloads == [downloads[0]] + downloads[1..];
    }
  }

  /** How many mirrors the loop tries. */
  function Attempts(downloads: seq<Download>, expected: string, md5: Bytes -> string): (n: nat)
    ensures n <= |downloads|
  {
    if downloads == [] then 0
    else if downloads[0].Completed? && md5(downloads[0].content) == expected then 1
    else 1 + Attempts(downloads[1..], expected, md5)
  }

  predicate NoneCompleted(downloads: seq<Download>)
  {
    forall k :: 0 <= k < |downloads| ==> downloads[k].Failed?
  }

  /** What fetch_pretrained_model reports: mirrors tried and whether it warned
      that every mirror failed. */
  datatype FetchReport = FetchReport(tried: nat, warnedAllFailed: bool)

  /** `fetch_pretrained_model`, with the warning for an exhausted mirror list
      issued after the loop (see WarnsAsWritten). `mirrors` is the
      shuffled URL list and `downloads[k]` the outcome of trying mirrors[k]. */
  method FetchPretrainedModel(fs: FileSystem, name: string, path: string, mirrors: seq<string>,
                              downloads: seq<Download>, md5: Bytes -> string)
    returns (r: Result<FetchReport>)
    requires |downloads| == |mirrors|
    requires name in PretrainedModelArchiveMap ==> multiset(mirrors) == multiset(PretrainedModelArchiveMap[name])
    modifies fs
    ensures name !in PretrainedModelArchiveMap ==> r.Failure? && r.error.AssertionError? && fs.files == old(fs.files)
    ensures name in PretrainedModelArchiveMap ==>
      && r.Success?
      && r.value.tried == Attempts(downloads, PretrainedModelMd5Map[name], md5)
      && r.value.warnedAllFailed == NoneCompleted(downloads)
      && fs.files == match Written(downloads, None, PretrainedModelMd5Map[name], md5)
                     case None => old(fs.files)
                     case Some(c) => old(fs.files)[path := c]
  {
    if name !in PretrainedModelArchiveMap {
      return Failure(AssertionError("model_name in PRETRAINED_MODEL_ARCHIVE_MAP"));
    }
    CheckpointMapsAgree();
    var expected := PretrainedModelMd5Map[name];
    ghost var written: Option<Bytes> := None;
    var downloadFlag := false;
    var idx := 0;
    while idx < |mirrors|
      invariant 0 <= idx <= |mirrors|
      invariant downloadFlag <==> !NoneCompleted(downloads[..idx])
      invariant written.None? <==> !downloadFlag
      invariant fs.files == match written case None => old(fs.files) case Some(c) => old(fs.files)[path := c]
      invariant Written(downloads, None, expected, md5) == Written(downloads[idx..], written, expected, md5)
      invariant Attempts(downloads, expected, md5) == idx + Attempts(downloads[idx..], expected, md5)
    {
      TryingNext(downloads, idx, written, expected, md5);
      match downloads[idx]
      case Failed =>
        idx := idx + 1;
      case Completed(content) =>
        downloadFlag := true;
        fs.Write(path, content);
        written := Some(content);
        var ok := CheckFileMd5(name, path, fs.files, md5);
        idx := idx + 1;
        if downloadFlag && ok == Success(true) {
          assert Attempts(downloads[idx - 1..], expected, md5) == 1;
          return Success(FetchReport(idx, false));
        }
    }
    assert downloads[..idx] == downloads;
    return Success(FetchReport(idx, !downloadFlag));
  }

  /** One loop iteration on mirror `idx`, unfolded: what is left to write, how
      many mirrors remain to try, and whether a completed download was seen. */
  lemma TryingNext(downloads: seq<Download>, idx: nat, w: Option<Bytes>, expected: string, md5: Bytes -> string)
    requires idx < |downloads|
    ensures Written(downloads[idx..], w, expected, md5) ==
      match downloads[idx]
      case Failed => Written(downloads[idx + 1..], w, expected, md5)
      case Completed(c) => if md5(c) == expected then Some(c) else Written(downloads[idx + 1..], Some(c), expected, md5)
    ensures Attempts(downloads[idx..], expected, md5) ==
      if downloads[idx].Completed? && md5(downloads[idx].content) == expected then 1
      else 1 + Attempts(downloads[idx + 1..], expected, md5)
    ensures NoneCompleted(downloads[..idx + 1]) <==> NoneCompleted(downloads[..idx]) && downloads[idx].Failed?
  {
    assert downloads[idx..][1..] == downloads[idx + 1..];
    assert downloads[..idx + 1] == downloads[..idx] + [downloads[idx]];
  }

  /** Nothing is written exactly when no download completes. */
  lemma {:induction false} NothingWrittenIffNoneCompleted(downloads: seq<Download>, expected: string, md5: Bytes -> string)
    ensures Written(downloads, None, expected, md5).None? <==> NoneCompleted(downloads)
  {
    if downloads != [] {
      NothingWrittenIffNoneCompleted(downloads[1..], expected, md5);
      if downloads[0].Completed? {
        WrittenKeepsSome(downloads[1..], downloads[0].content, expected, md5);
      }
    }
  }

  lemma {:induction false} WrittenKeepsSome(downloads: seq<Download>, c: Bytes, expected: string, md5: Bytes -> string)
    ensures Written(downloads, Some(c), expected, md5).Some?
  {
    if downloads != [] {
      match downloads[0]
      case Failed => WrittenKeepsSome(downloads[1..], c, expected, md5);
      case Completed(c') =>
        if md5(c') != expected { WrittenKeepsSome(downloads[1..], c', expected, md5); }
    }
  }

  /** The file ends up holding the first download that completes and passes the
      check, when there is one; the loop tries mirrors up to and including it. */
  lemma {:induction false} StopsAtFirstVerified(downloads: seq<Download>, w: Option<Bytes>, k: nat,
                                                expected: string, md5: Bytes -> string)
    requires k < |downloads| && downloads[k].Completed? && md5(downloads[k].content) == expected
    requires forall j :: 0 <= j < k ==> !(downloads[j].Completed? && md5(downloads[j].content) == expected)
    ensures Written(downloads, w, expected, md5) == Some(downloads[k].content)
    ensures Attempts(downloads, expected, md5) == k + 1
  {
    if k > 0 {
      var w' := if downloads[0].Completed? then Some(downloads[0].content) else w;
      StopsAtFirstVerified(downloads[1..], w', k - 1, expected, md5);
    }
  }

  /** Without a verified download, every mirror is tried and the file holds the
      last completed download (a file whose digest is wrong stays on disk). */
  lemma {:induction false} NoVerifiedDownload(downloads: seq<Download>, w: Option<Bytes>, expected: string, md5: Bytes -> string)
    requires forall j :: 0 <= j < |downloads| ==> !(downloads[j].Completed? && md5(downloads[j].content) == expected)
    ensures Attempts(downloads, expected, md5) == |downloads|
    ensures Written(downloads, w, expected, md5).Some? ==>
              md5(Written(downloads, w, expected, md5).value) != expected || Written(downloads, w, expected, md5) == w
  {
    if downloads != [] {
      var w' := if downloads[0].Completed? then Some(downloads[0].content) else w;
      NoVerifiedDownload(downloads[1..], w', expected, md5);
    }
  }

  // ---------------------------------------------------------------------------
  // The exhausted-mirrors warning as written
  // ---------------------------------------------------------------------------

  /** The download loop as written, reduced to what decides the warning: a
      failed download `continue`s from the `except` branch, a completed one
      sets `download_flag` just before the test `if not download_flag`, and a
      download whose digest matches ends the loop. Whether the loop issues the
      "Download from all mirrors failed" warning: never, even when every
      mirror fails. */
  method WarnsAsWritten(downloads: seq<Download>, expected: string, md5: Bytes -> string) returns (warned: bool)
    ensures !warned
  {
    var downloadFlag := false;
    warned := false;
    for i := 0 to |downloads|
      invariant !warned
    {
      if downloads[i].Failed? {
        continue;
      }
      downloadFlag := true;
      if !downloadFlag {
        warned := true;
        break;
      }
      if md5(downloads[i].content) == expected {
        break;
      }
    }
  }
}
