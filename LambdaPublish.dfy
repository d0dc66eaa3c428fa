/** The `deploy lambda-func` command of entrypoint.py: upload a zip package
    under a commit-qualified key, tag it, and point every named function at it. */
module LambdaPublish {
  import opened Aws
  import opened PyBuiltins
  import opened BuildTags

  /** `os.path.join(s3_prefix, os.path.basename(path_to_zip) + '.' + build.commit_id)` */
  function PackageKey(s3Prefix: string, pathToZip: string, commitId: string): string {
    PathJoin(s3Prefix, Basename(pathToZip) + "." + commitId)
  }

  /** The key keeps the package's file name with the commit as a suffix:
      its base name is exactly `basename(path_to_zip) + "." + commit_id`
      whenever the commit id holds no '/'. */
  lemma PackageKeyBasename(s3Prefix: string, pathToZip: string, commitId: string)
    requires '/' !in commitId
    ensures Basename(PackageKey(s3Prefix, pathToZip, commitId)) == Basename(pathToZip) + "." + commitId
  {
    var base := Basename(pathToZip);
    var name := base + "." + commitId;
    assert '/' !in base && '/' !in ".";
    assert '/' !in name;
    BasenameOfJoin(s3Prefix, name);
  }

  /** `lambda_func`: one upload, one tagging, then one
      `update_function_code` per function name, in the given order, all
      naming the same bucket and key. Returns the key and the requests. */
  method LambdaFunc(
    build: CIBuildMetadata,
    functionName: seq<string>,
    pathToZip: string,
    s3Bucket: string,
    s3Prefix: string)
    returns (s3Key: string, requests: seq<Request>)
    ensures s3Key == PackageKey(s3Prefix, pathToZip, build.commitId)
    ensures |requests| == 2 + |functionName|
    ensures requests[0] == UploadFile(pathToZip, s3Bucket, s3Key, None)
    ensures requests[1] == PutObjectTagging(s3Bucket, s3Key, TagSet(build, true))
    ensures forall i :: 0 <= i < |functionName| ==>
      requests[2 + i] == UpdateFunctionCode(functionName[i], s3Bucket, s3Key)
  {
    s3Key := PathJoin(s3Prefix, Basename(pathToZip) + "." + build.commitId);
    requests := [UploadFile(pathToZip, s3Bucket, s3Key, None)];
    var tags := ToTags(build, true);
    requests := requests + [PutObjectTagging(s3Bucket, s3Key, tags)];

    for j := 0 to |functionName|
      invariant |requests| == 2 + j
      invariant requests[0] == UploadFile(pathToZip, s3Bucket, s3Key, None)
      invariant requests[1] == PutObjectTagging(s3Bucket, s3Key, TagSet(build, true))
      invariant forall i :: 0 <= i < j ==> requests[2 + i] == UpdateFunctionCode(functionName[i], s3Bucket, s3Key)
    {
      requests := requests + [UpdateFunctionCode(functionName[j], s3Bucket, s3Key)];
    }
  }
}
