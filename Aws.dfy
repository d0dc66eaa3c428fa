/** The values exchanged with the cloud provider. Every mutating call the
    helper makes is recorded as a `Request` appended to a log. The read-only
    calls (`describe_task_definition`, `head_object`) are not logged; what
    they and the mutating calls return (a described task definition, an
    object's entity tag, a new revision number) is supplied to the model as
    a parameter. */
module Aws {

  datatype Option<T> = None | Some(value: T)

  /** Python truthiness of an optional string: neither `None` nor "". */
  predicate Truthy(s: Option<string>) {
    s.Some? && s.value != ""
  }

  /** A JSON value as the ECS API returns it (numbers are integers here). */
  datatype Value =
    | Null
    | Bool(b: bool)
    | Num(n: int)
    | Str(s: string)
    | Arr(items: seq<Value>)
    | Obj(fields: map<string, Value>)

  /** A top-level JSON object, e.g. a task definition: field name to value. */
  type Document = map<string, Value>

  /** One `{key_field: k, value_field: v}` dict of a tag list. */
  type TagRecord = map<string, string>

  function TagRecordValue(t: TagRecord): Value {
    Obj(map k | k in t :: Str(t[k]))
  }

  /** A tag list as it sits inside a JSON document. */
  function TagListValue(tags: seq<TagRecord>): Value {
    Arr(seq(|tags|, i requires 0 <= i < |tags| => TagRecordValue(tags[i])))
  }

  /** The mutating calls the helper issues, with the arguments it passes. */
  datatype Request =
      /** `s3.upload_file(local, bucket, key, ExtraArgs=...)`; `contentType` is
          `Some` exactly when `ExtraArgs={'ContentType': ...}` is passed. */
    | UploadFile(localPath: string, bucket: string, key: string, contentType: Option<string>)
      /** `s3.put_object_tagging(Bucket, Key, Tagging={'TagSet': tagSet})` */
    | PutObjectTagging(bucket: string, key: string, tagSet: seq<TagRecord>)
      /** `cloudfront.create_invalidation(DistributionId, InvalidationBatch)` */
    | CreateInvalidation(distributionId: string, quantity: nat, items: seq<string>, callerReference: string)
      /** `lambda.update_function_code(FunctionName, S3Bucket, S3Key)` */
    | UpdateFunctionCode(functionName: string, bucket: string, key: string)
      /** `ecs.register_task_definition(**document)` */
    | RegisterTaskDefinition(document: Document)
      /** `ecs.update_service(cluster, service, taskDefinition[, forceNewDeployment])`;
          `None` when the keyword is not passed at all. */
    | UpdateService(cluster: string, service: string, taskDefinition: string, forceNewDeployment: Option<bool>)
}
