/** The `deploy s3` command of entrypoint.py: upload every file of a build
    directory to a bucket, tag each upload with the build tags, and ask
    CloudFront to invalidate the objects that were overwritten.

    The directory walk, the MD5 digests and the content-type guesses are
    inputs (`WalkedFile`); `head_object` is a lookup in `Remote`, where an
    absent key stands for any failure of that call.

    The change test at entrypoint.py:138 compares the entity tag with `md5`,
    a name the module never defines, so it raises `NameError`, which the bare
    `except` at :144-145 swallows. `ProbeAsWritten` models that code;
    `ProbeIntended` models the comparison the comment at :135 describes
    (`etag == file_md5`). `Comparison` selects one of the two. */
module S3Sync {
  import opened Aws
  import opened PyBuiltins
  import opened BuildTags

  /** A file under the source directory: its local path, its path relative
      to the directory, its MD5 hex digest and `mimetypes.guess_type`'s guess. */
  datatype WalkedFile = WalkedFile(localPath: string, relativePath: string, md5: string, contentType: Option<string>)

  /** The bucket as `head_object` sees it: key to the reported `ETag`. */
  type Remote = map<string, string>

  /** The exceptions the `try` block at :132-143 can raise. */
  datatype Failure = HeadObjectFailed | NameError(name: string)

  /** How the `try` block at :132-143 ends for one file. */
  datatype Probe = Raised(failure: Failure) | SkipIdentical | WillOverwrite

  datatype Comparison = AsWritten | Intended

  /** `os.path.join(s3_prefix, relative_path)` */
  function S3Path(prefix: string, file: WalkedFile): string {
    PathJoin(prefix, file.relativePath)
  }

  /** The `try` block as written: a missing object makes `head_object`
      raise; for an existing one the comparison with the undefined `md5`
      raises `NameError` before either the `continue` or the append. */
  function ProbeAsWritten(remote: Remote, s3Path: string, fileMd5: string): Probe {
    if s3Path !in remote then Raised(HeadObjectFailed)
    else
      var etag := StripOuter(remote[s3Path]);
      Raised(NameError("md5"))
  }

  /** The `try` block with the comparison the comment at :135 describes. */
  function ProbeIntended(remote: Remote, s3Path: string, fileMd5: string): Probe {
    if s3Path !in remote then Raised(HeadObjectFailed)
    else
      var etag := StripOuter(remote[s3Path]);
      if etag == fileMd5 then SkipIdentical else WillOverwrite
  }

  function ProbeFile(comparison: Comparison, remote: Remote, s3Path: string, fileMd5: string): Probe {
    match comparison
    case AsWritten => ProbeAsWritten(remote, s3Path, fileMd5)
    case Intended => ProbeIntended(remote, s3Path, fileMd5)
  }

  /** `ExtraArgs={'ContentType': content_type} if content_type else None` */
  function UploadContentType(guess: Option<string>): Option<string> {
    if Truthy(guess) then guess else None
  }

  /** The upload and the tagging issued for a file that is not skipped. */
  function FileRequests(bucket: string, s3Path: string, file: WalkedFile, tags: seq<TagRecord>): seq<Request> {
    [ UploadFile(file.localPath, bucket, s3Path, UploadContentType(file.contentType)),
      PutObjectTagging(bucket, s3Path, tags) ]
  }

  datatype SyncResult = SyncResult(overwrittenFiles: seq<string>, requests: seq<Request>)

  /** The state of the loop at :121-150 after it has handled `files`. */
  function Plan(comparison: Comparison, files: seq<WalkedFile>, remote: Remote,
                bucket: string, prefix: string, tags: seq<TagRecord>): SyncResult
    decreases |files|
  {
    if files == [] then SyncResult([], [])
    else
      var before := Plan(comparison, files[..|files| - 1], remote, bucket, prefix, tags);
      var file := files[|files| - 1];
      var s3Path := S3Path(prefix, file);
      match ProbeFile(comparison, remote, s3Path, file.md5)
      case SkipIdentical => before
      case WillOverwrite =>
        SyncResult(before.overwrittenFiles + [s3Path], before.requests + FileRequests(bucket, s3Path, file, tags))
      case Raised(_) =>
        SyncResult(before.overwrittenFiles, before.requests + FileRequests(bucket, s3Path, file, tags))
  }

  /** `invalidate_cloudfront`: one batch for all overwritten keys, or nothing
      when there is no distribution or nothing was overwritten. */
  function InvalidateCloudfront(cloudfrontDistributionId: Option<string>, overwrittenFiles: seq<string>,
                                callerReference: string): (requests: seq<Request>)
    ensures |requests| <= 1
    ensures |requests| == 1 <==> Truthy(cloudfrontDistributionId) && |overwrittenFiles| > 0
    ensures |requests| == 1 ==>
      && requests[0].CreateInvalidation?
      && requests[0].distributionId == cloudfrontDistributionId.value
      && requests[0].callerReference == callerReference
      && requests[0].quantity == |requests[0].items| == |overwrittenFiles|
      && forall i :: 0 <= i < |overwrittenFiles| ==> requests[0].items[i] == "/" + overwrittenFiles[i]
  {
    if Truthy(cloudfrontDistributionId) then
      var pathsToInvalidate := seq(|overwrittenFiles|, i requires 0 <= i < |overwrittenFiles| => "/" + overwrittenFiles[i]);
      var numObjectsToInvalidate := |pathsToInvalidate|;
      if numObjectsToInvalidate > 0 then
        [CreateInvalidation(cloudfrontDistributionId.value, |overwrittenFiles|, pathsToInvalidate, callerReference)]
      else []
    else []
  }

  /** Every invalidation path names one overwritten key under the root `/`:
      dropping the leading `/` gives the keys back, in order. */
  lemma InvalidationPathsNameKeys(cloudfrontDistributionId: Option<string>, overwrittenFiles: seq<string>,
                                  callerReference: string)
    requires Truthy(cloudfrontDistributionId) && |overwrittenFiles| > 0
    ensures var batch := InvalidateCloudfront(cloudfrontDistributionId, overwrittenFiles, callerReference)[0];
      forall i :: 0 <= i < |overwrittenFiles| ==>
        |batch.items[i]| > 0 && batch.items[i][0] == '/' && batch.items[i][1..] == overwrittenFiles[i]
  {
    var batch := InvalidateCloudfront(cloudfrontDistributionId, overwrittenFiles, callerReference)[0];
    forall i | 0 <= i < |overwrittenFiles|
      ensures |batch.items[i]| > 0 && batch.items[i][0] == '/' && batch.items[i][1..] == overwrittenFiles[i]
    {
      assert batch.items[i] == "/" + overwrittenFiles[i];
    }
  }

  /** The `s3` command: the walk loop, then `invalidate_cloudfront`.
      `callerReference` stands for `datetime.utcnow().isoformat()`. */
  method S3(
    comparison: Comparison,
    build: CIBuildMetadata,
    s3Bucket: string,
    files: seq<WalkedFile>,
    remote: Remote,
    cloudfrontDistributionId: Option<string>,
    s3Prefix: string,
    callerReference: string)
    returns (overwrittenFiles: seq<string>, requests: seq<Request>)
    ensures var plan := Plan(comparison, files, remote, s3Bucket, s3Prefix, TagSet(build, true));
      && overwrittenFiles == plan.overwrittenFiles
      && requests == plan.requests + InvalidateCloudfront(cloudfrontDistributionId, overwrittenFiles, callerReference)
    ensures comparison == AsWritten ==>
      overwrittenFiles == [] && forall r :: r in requests ==> !r.CreateInvalidation?
  {
    overwrittenFiles := [];
    requests := [];
    var i := 0;
    while i < |files|
      invariant 0 <= i <= |files|
      invariant SyncResult(overwrittenFiles, requests) ==
        Plan(comparison, files[..i], remote, s3Bucket, s3Prefix, TagSet(build, true))
    {
      var file := files[i];
      assert files[..i + 1][..i] == files[..i];
      var s3Path := PathJoin(s3Prefix, file.relativePath);
      var probe := ProbeFile(comparison, remote, s3Path, file.md5);
      if !probe.SkipIdentical? {
        // a raised exception is swallowed by the bare `except: pass`
        if probe.WillOverwrite? {
          overwrittenFiles := overwrittenFiles + [s3Path];
        }
        var contentType := file.contentType;
        requests := requests + [UploadFile(file.localPath, s3Bucket, s3Path, UploadContentType(contentType))];
        var tags := ToTags(build, true);
        requests := requests + [PutObjectTagging(s3Bucket, s3Path, tags)];
      }
      i := i + 1;
    }
    assert files[..|files|] == files;
    if comparison == AsWritten {
      AsWrittenNeverOverwrites(files, remote, s3Bucket, s3Prefix, TagSet(build, true));
    }
    requests := requests + InvalidateCloudfront(cloudfrontDistributionId, overwrittenFiles, callerReference);
    if comparison == AsWritten {
      AsWrittenOnlyUploadsAndTags(files, remote, s3Bucket, s3Prefix, TagSet(build, true));
    }
  }

  /** As written, nothing is ever recorded as overwritten: every existing
      object trips the `NameError` before the append at :142. */
  lemma {:induction false} AsWrittenNeverOverwrites(files: seq<WalkedFile>, remote: Remote,
                                                    bucket: string, prefix: string, tags: seq<TagRecord>)
    ensures Plan(AsWritten, files, remote, bucket, prefix, tags).overwrittenFiles == []
    decreases |files|
  {
    if files != [] {
      AsWrittenNeverOverwrites(files[..|files| - 1], remote, bucket, prefix, tags);
    }
  }

  /** As written, every walked file is uploaded and then tagged, in walk
      order, at `join(prefix, relative_path)`, whether or not the bucket
      already holds identical content; the upload names a content type
      exactly when the guess is a non-empty string. */
  lemma {:induction false} AsWrittenUploadsEveryFile(files: seq<WalkedFile>, remote: Remote,
                                                     bucket: string, prefix: string, tags: seq<TagRecord>)
    ensures var requests := Plan(AsWritten, files, remote, bucket, prefix, tags).requests;
      && |requests| == 2 * |files|
      && forall i :: 0 <= i < |files| ==>
           && requests[2 * i] == UploadFile(files[i].localPath, bucket, S3Path(prefix, files[i]),
                                            UploadContentType(files[i].contentType))
           && (requests[2 * i].contentType.Some? <==> files[i].contentType.Some? && files[i].contentType.value != "")
           && requests[2 * i + 1] == PutObjectTagging(bucket, S3Path(prefix, files[i]), tags)
    decreases |files|
  {
    if files != [] {
      var init := files[..|files| - 1];
      AsWrittenUploadsEveryFile(init, remote, bucket, prefix, tags);
      var requests := Plan(AsWritten, files, remote, bucket, prefix, tags).requests;
      var before := Plan(AsWritten, init, remote, bucket, prefix, tags).requests;
      var last := files[|files| - 1];
      assert requests == before + FileRequests(bucket, S3Path(prefix, last), last, tags);
      forall i | 0 <= i < |files|
        ensures requests[2 * i] == UploadFile(files[i].localPath, bucket, S3Path(prefix, files[i]),
                                              UploadContentType(files[i].contentType))
        ensures requests[2 * i + 1] == PutObjectTagging(bucket, S3Path(prefix, files[i]), tags)
      {
        if i < |init| {
          assert files[i] == init[i];
        }
      }
    }
  }

  /** As written, the command issues uploads and taggings only. */
  lemma AsWrittenOnlyUploadsAndTags(files: seq<WalkedFile>, remote: Remote,
                                    bucket: string, prefix: string, tags: seq<TagRecord>)
    ensures forall r :: r in Plan(AsWritten, files, remote, bucket, prefix, tags).requests ==>
      r.UploadFile? || r.PutObjectTagging?
  {
    var requests := Plan(AsWritten, files, remote, bucket, prefix, tags).requests;
    AsWrittenUploadsEveryFile(files, remote, bucket, prefix, tags);
    forall r | r in requests ensures r.UploadFile? || r.PutObjectTagging? {
      var j :| 0 <= j < |requests| && requests[j] == r;
      var i := j / 2;
      assert j == 2 * i || j == 2 * i + 1;
    }
  }

  /** Requests come in pairs: an upload to the bucket, then the tagging of
      the same key with the build tags. So every upload is tagged and every
      tagging follows the upload of its key. */
  ghost predicate UploadTagPairs(requests: seq<Request>, bucket: string, tags: seq<TagRecord>) {
    && |requests| % 2 == 0
    && forall j :: 0 <= j < |requests| / 2 ==>
         && requests[2 * j].UploadFile?
         && requests[2 * j].bucket == bucket
         && requests[2 * j + 1] == PutObjectTagging(bucket, requests[2 * j].key, tags)
  }

  lemma {:induction false} PlanPairsUploadsWithTags(comparison: Comparison, files: seq<WalkedFile>, remote: Remote,
                                                    bucket: string, prefix: string, tags: seq<TagRecord>)
    ensures UploadTagPairs(Plan(comparison, files, remote, bucket, prefix, tags).requests, bucket, tags)
    decreases |files|
  {
    if files != [] {
      var init := files[..|files| - 1];
      PlanPairsUploadsWithTags(comparison, init, remote, bucket, prefix, tags);
      var before := Plan(comparison, init, remote, bucket, prefix, tags).requests;
      var requests := Plan(comparison, files, remote, bucket, prefix, tags).requests;
      if requests != before {
        var last := files[|files| - 1];
        var added := FileRequests(bucket, S3Path(prefix, last), last, tags);
        assert requests == before + added;
        forall j | 0 <= j < |requests| / 2
          ensures requests[2 * j].UploadFile? && requests[2 * j].bucket == bucket
          ensures requests[2 * j + 1] == PutObjectTagging(bucket, requests[2 * j].key, tags)
        {
          if j < |before| / 2 {
            assert requests[2 * j] == before[2 * j] && requests[2 * j + 1] == before[2 * j + 1];
          } else {
            assert 2 * j == |before|;
          }
        }
      }
    }
  }

  /** The bucket already holds this file's content. */
  predicate Identical(remote: Remote, prefix: string, file: WalkedFile) {
    var key := S3Path(prefix, file);
    key in remote && StripOuter(remote[key]) == file.md5
  }

  /** The bucket holds different content under this file's key. */
  predicate Changed(remote: Remote, prefix: string, file: WalkedFile) {
    var key := S3Path(prefix, file);
    key in remote && StripOuter(remote[key]) != file.md5
  }

  /** With the intended comparison, a key is recorded as overwritten exactly
      when some walked file maps to it and the bucket held different content
      there: new objects and identical ones are never recorded. */
  lemma {:induction false} IntendedOverwrittenIff(files: seq<WalkedFile>, remote: Remote,
                                                  bucket: string, prefix: string, tags: seq<TagRecord>, key: string)
    ensures key in Plan(Intended, files, remote, bucket, prefix, tags).overwrittenFiles <==>
      exists i :: 0 <= i < |files| && S3Path(prefix, files[i]) == key && Changed(remote, prefix, files[i])
    decreases |files|
  {
    if files != [] {
      var init := files[..|files| - 1];
      var last := files[|files| - 1];
      var overwritten := Plan(Intended, files, remote, bucket, prefix, tags).overwrittenFiles;
      var before := Plan(Intended, init, remote, bucket, prefix, tags).overwrittenFiles;
      assert overwritten == before + (if Changed(remote, prefix, last) then [S3Path(prefix, last)] else []);
      IntendedOverwrittenIff(init, remote, bucket, prefix, tags, key);
      if key in overwritten {
        if key in before {
          var i :| 0 <= i < |init| && S3Path(prefix, init[i]) == key && Changed(remote, prefix, init[i]);
          assert files[i] == init[i];
        } else {
          assert S3Path(prefix, files[|files| - 1]) == key && Changed(remote, prefix, files[|files| - 1]);
        }
      }
      if exists i :: 0 <= i < |files| && S3Path(prefix, files[i]) == key && Changed(remote, prefix, files[i]) {
        var i :| 0 <= i < |files| && S3Path(prefix, files[i]) == key && Changed(remote, prefix, files[i]);
        if i < |init| {
          assert init[i] == files[i];
        }
      }
    }
  }

  /** The keys of the uploads in a request log. */
  function UploadedKeys(requests: seq<Request>): set<string> {
    set j | 0 <= j < |requests| && requests[j].UploadFile? :: requests[j].key
  }

  lemma UploadedKeysAppend(a: seq<Request>, b: seq<Request>)
    ensures UploadedKeys(a + b) == UploadedKeys(a) + UploadedKeys(b)
  {
    var ab := a + b;
    forall k | k in UploadedKeys(ab) ensures k in UploadedKeys(a) + UploadedKeys(b) {
      var j :| 0 <= j < |ab| && ab[j].UploadFile? && ab[j].key == k;
      if j >= |a| {
        assert b[j - |a|] == ab[j];
      }
    }
    forall k | k in UploadedKeys(b) ensures k in UploadedKeys(ab) {
      var j :| 0 <= j < |b| && b[j].UploadFile? && b[j].key == k;
      assert ab[j + |a|] == b[j];
    }
    forall k | k in UploadedKeys(a) ensures k in UploadedKeys(ab) {
      var j :| 0 <= j < |a| && a[j].UploadFile? && a[j].key == k;
      assert ab[j] == a[j];
    }
  }

  /** One more file under the intended comparison: skipped when identical,
      otherwise its upload and tagging are appended. */
  lemma IntendedLastFile(files: seq<WalkedFile>, remote: Remote,
                         bucket: string, prefix: string, tags: seq<TagRecord>)
    requires files != []
    ensures var last := files[|files| - 1];
      Plan(Intended, files, remote, bucket, prefix, tags).requests ==
        Plan(Intended, files[..|files| - 1], remote, bucket, prefix, tags).requests
        + (if Identical(remote, prefix, last) then [] else FileRequests(bucket, S3Path(prefix, last), last, tags))
  {
  }

  /** With the intended comparison, a key is uploaded exactly when some
      walked file maps to it whose content the bucket does not already hold
      (new or changed); identical files cause no upload and, by
      `PlanPairsUploadsWithTags`, no tagging. */
  lemma {:induction false} IntendedUploadIff(files: seq<WalkedFile>, remote: Remote,
                                             bucket: string, prefix: string, tags: seq<TagRecord>, key: string)
    ensures key in UploadedKeys(Plan(Intended, files, remote, bucket, prefix, tags).requests) <==>
      exists i :: 0 <= i < |files| && S3Path(prefix, files[i]) == key && !Identical(remote, prefix, files[i])
    decreases |files|
  {
    if files != [] {
      var init := files[..|files| - 1];
      var last := files[|files| - 1];
      var before := Plan(Intended, init, remote, bucket, prefix, tags).requests;
      var added: seq<Request> :=
        if Identical(remote, prefix, last) then [] else FileRequests(bucket, S3Path(prefix, last), last, tags);
      IntendedLastFile(files, remote, bucket, prefix, tags);
      IntendedUploadIff(init, remote, bucket, prefix, tags, key);
      UploadedKeysAppend(before, added);
      assert UploadedKeys(added) == if Identical(remote, prefix, last) then {} else {S3Path(prefix, last)} by {
        if !Identical(remote, prefix, last) {
          assert added[0].UploadFile? && added[0].key == S3Path(prefix, last);
        }
      }
      if exists i :: 0 <= i < |init| && S3Path(prefix, init[i]) == key && !Identical(remote, prefix, init[i]) {
        var i :| 0 <= i < |init| && S3Path(prefix, init[i]) == key && !Identical(remote, prefix, init[i]);
        assert files[i] == init[i];
      }
      if exists i :: 0 <= i < |files| && S3Path(prefix, files[i]) == key && !Identical(remote, prefix, files[i]) {
        var i :| 0 <= i < |files| && S3Path(prefix, files[i]) == key && !Identical(remote, prefix, files[i]);
        if i < |init| {
          assert init[i] == files[i];
        }
      }
    }
  }

  /** The discrepancy on one file: a file whose content the bucket already
      holds is uploaded and tagged again as written, and skipped with the
      intended comparison. */
  lemma UnchangedFileUploadedAsWritten(file: WalkedFile, remote: Remote, bucket: string,
                                       prefix: string, tags: seq<TagRecord>)
    requires Identical(remote, prefix, file)
    ensures Plan(AsWritten, [file], remote, bucket, prefix, tags).requests
         == FileRequests(bucket, S3Path(prefix, file), file, tags)
    ensures Plan(Intended, [file], remote, bucket, prefix, tags).requests == []
  {
    assert [file][..0] == [];
  }
}
