# aws-deploy-container, modelled in Dafny

A CI deployment helper over the AWS APIs. From one set of build metadata
(commit id, branch, build number, committer) it can:

- register a new revision of an ECS task definition that points at the
  freshly built image, then roll the service over to it;
- synchronise a build directory to an S3 bucket, tagging each upload, then
  invalidate the overwritten objects in CloudFront;
- upload a Lambda package under a commit-qualified key and point one or more
  functions at it.

It also lets branch-prefixed environment variables override plain ones.

The model replaces every mutating remote call with a `Request` record
appended to a log (`Aws.dfy`). The read-only calls are not logged. What a
call returns is a parameter of the model:

- the described task definition;
- the bucket's entity tags, where an absent key means `head_object` raised;
- the newly assigned revision number.

The directory walk, the MD5 digests and the content-type guesses are inputs
too (`S3Sync.WalkedFile`).

Modules:

- `PyBuiltins`: the Python built-ins the code relies on. These are ASCII
  `upper`, `replace`, `startswith`, slicing, `posixpath.join`/`basename` and
  `str(int)`.
- `Aws`: `Option`, JSON values and documents, tag records and the request log.
- `BuildTags`: `CIBuildMetadata`, `to_tags` and `unpack_dict` of entrypoint.py.
  A Python dict is a sequence of pairs in insertion order.
- `Environment`: `resolve_envvars`. It is a loop over a snapshot of the keys
  that updates a map.
- `TaskDefinition`: the document rewrite shared by both ECS scripts, and the
  `family:revision` reference.
- `EcsDeploy`: `register_ecs_task_definition`, `update_ecs_service` and the
  `ecs` command of entrypoint.py.
- `DeployEcsService`: deploy-ecs-service.py.
- `S3Sync`: the `s3` command and `invalidate_cloudfront`.
- `LambdaPublish`: `lambda_func`.

## Points worth knowing about the code

The model follows the code in each case.

- Tag casing. S3's `put_object_tagging` expects `Key`/`Value` records and
  ECS's `register_task_definition` expects `key`/`value`. entrypoint.py passes
  the opposite spelling to each. S3 objects are tagged with `to_tags()`,
  which is lowercase (entrypoint.py:150). The task definition gets
  `to_tags(lowercase_keys=False)`, which is capitalised (entrypoint.py:223).
  deploy-ecs-service.py uses lowercase for ECS.
- entrypoint.py's tag list has no `CI_MESSAGE` entry, although the build
  metadata carries the message. deploy-ecs-service.py includes it, together
  with `CI_BUILD_URL`.
- deploy-ecs-service.py sends `update_service` without `forceNewDeployment`.
  entrypoint.py forces a new deployment.
- The comment at entrypoint.py:135 says a sync skips identical files, and
  the comments at :118 and :131 say it keeps track of overwritten files. As
  written it does neither (see Findings).
- The code computes a content encoding for each file and never uses it.

## Model

| member | source | states |
|---|---|---|
| `PyBuiltins.PathJoin` | entrypoint.py:129 | `os.path.join` of a relative path: the result starts with the prefix and ends with the path; one `/` is added between them exactly when the prefix is non-empty and does not already end in `/`, so the character before the path is `/` for a non-empty prefix, and an empty prefix gives the path itself |
| `PyBuiltins.StripOuterOfQuoted` | entrypoint.py:136 | `[1:-1]` recovers the digest from a quoted ETag |
| `PyBuiltins.BasenameOfJoin` | entrypoint.py:184 | the base name of `join(dir, name)` is `name` for any directory, when `name` has no `/` |
| `PyBuiltins.DecimalRoundTrip` | entrypoint.py:227 | `str(n)` of a revision is a non-empty digit string that parses back to `n` |
| `BuildTags.Unpacked` | entrypoint.py:194-202 | one record per dict entry, in order, with exactly the two fields of the chosen spelling holding the entry's key and value |
| `BuildTags.UnpackDict` | entrypoint.py:194-202 | the append loop builds exactly `Unpacked(dict, lowercase_keys)` |
| `BuildTags.RepackUnpacked` | entrypoint.py:199-201 | unpacking loses nothing: reading the records back gives the dict's entries in order |
| `BuildTags.ToTags` | entrypoint.py:38-46 | `to_tags` is the unpacked six-entry dict of the build fields |
| `BuildTags.TagSetShape` | entrypoint.py:38-46 | six records ordered CI_COMMIT_ID, CI_BRANCH, CI_BUILD_NUMBER, CI_COMMITTER_EMAIL, CI_COMMITTER_NAME, CI_COMMITTER_USERNAME, each with exactly `key`/`value` or `Key`/`Value`, the build's value for each name, and no CI_MESSAGE |
| `Environment.Normalize` | entrypoint.py:53 | upper-casing and `-`→`_` keep the length of a name |
| `Environment.Step` | entrypoint.py:53-55 | one iteration adds exactly the stripped name of a matching key and nothing for a non-matching one |
| `Environment.ResolveEnvvars` | entrypoint.py:48-55 | the loop over the key snapshot yields `Resolve`: each matching key's current value is copied to `key[len(prefix)+1:]`, so earlier writes are seen |
| `Environment.ResolveKeys` | entrypoint.py:50-55 | no variable is removed; the only new names are the stripped names of matching keys |
| `Environment.ResolveUntouched` | entrypoint.py:50-55 | a variable no matching key writes to keeps its value |
| `Environment.ResolveSingleWriter` | entrypoint.py:53-55 | when one matching key alone writes a name and nothing writes that key, the name gets that key's original value |
| `TaskDefinition.PopFields` | entrypoint.py:213-215 | the `pop(k, None)` loop removes exactly the listed fields, present or not, and keeps every other value |
| `TaskDefinition.RewrittenPromises` | entrypoint.py:213-223 | after the rewrite none of the five control-plane fields is present, the primary image is the new one, and a second identical rewrite changes nothing |
| `TaskDefinition.TaskDefinitionRefRoundTrip` | entrypoint.py:227-231 | `family + ':' + str(revision)` splits at its last `:` into the family and a digit string that parses to the revision |
| `EcsDeploy.RegisterEcsTaskDefinition` | entrypoint.py:204-228 | the document sent lacks the five control-plane fields; container 0's image is `uri:commit` with its other fields and all other containers unchanged; `tags` is the capitalised list; every other field is unchanged; the result is `family:revision` |
| `EcsDeploy.UpdateEcsService` | entrypoint.py:230-232 | the rollout names exactly the given cluster, service and `name:version` reference and always forces a new deployment |
| `EcsDeploy.Ecs` | entrypoint.py:91-105 | one registration of that document, then one `update_service(cluster, service, family:revision, forceNewDeployment=True)` |
| `DeployEcsService.UnpackDict` | deploy-ecs-service.py:54-58 | one `{key, value}` record per entry, in order, always lowercase |
| `DeployEcsService.DeployTagSetShape` | deploy-ecs-service.py:84-93 | eight lowercase records ordered CI_COMMIT_ID, CI_MESSAGE, CI_BRANCH, CI_BUILD_NUMBER, CI_BUILD_URL, CI_COMMITTER_EMAIL, CI_COMMITTER_NAME, CI_COMMITTER_USERNAME, each with the matching parameter |
| `DeployEcsService.RegisterTaskDefinition` | deploy-ecs-service.py:60-98 | the same rewrite as entrypoint.py with the eight-record lowercase tags; the result is `family:revision` |
| `DeployEcsService.UpdateServiceRequest` | deploy-ecs-service.py:100-101 | the rollout names exactly the given cluster, service and reference and passes no `forceNewDeployment` |
| `DeployEcsService.RolloutsDifferOnlyInForce` | deploy-ecs-service.py:100-101 | for the same reference, cluster and service, the two scripts' rollouts differ, and only in the forced deployment |
| `DeployEcsService.Deploy` | deploy-ecs-service.py:36-52 | one registration, then one `update_service(cluster, service, family:revision)` with no `forceNewDeployment` |
| `DeployEcsService.SameDocumentAsEntrypointExceptTags` | deploy-ecs-service.py:71-93 | for the same described document and commit, both scripts register the same fields with the same values except `tags`, which differ |
| `S3Sync.InvalidateCloudfront` | entrypoint.py:154-171 | a batch is issued iff the distribution id is truthy and the list is non-empty; it holds `'/' + key` for each key in order, Quantity equals the number of Items, with the given caller reference |
| `S3Sync.InvalidationPathsNameKeys` | entrypoint.py:156 | dropping the leading `/` from each invalidation path gives the overwritten keys back in order |
| `S3Sync.S3` | entrypoint.py:113-152 | the walk loop produces `Plan`'s overwritten list and requests, followed by `invalidate_cloudfront`'s; as written the list is empty and no invalidation is issued |
| `S3Sync.AsWrittenNeverOverwrites` | entrypoint.py:132-145 | as written, `overwritten_files` stays empty for every input |
| `S3Sync.AsWrittenUploadsEveryFile` | entrypoint.py:128-150 | as written, each walked file yields one upload then one lowercase-tagged tagging at `join(prefix, relpath)`, in walk order; ContentType is passed iff the guess is a non-empty string |
| `S3Sync.AsWrittenOnlyUploadsAndTags` | entrypoint.py:147-152 | as written, the walk issues uploads and taggings and nothing else |
| `S3Sync.PlanPairsUploadsWithTags` | entrypoint.py:149-150 | under either comparison the requests alternate upload and tagging of the same key with the build tags |
| `S3Sync.IntendedOverwrittenIff` | entrypoint.py:135-143 | with `etag == file_md5`, a key is recorded as overwritten iff a walked file maps to it and the bucket holds different content there |
| `S3Sync.IntendedUploadIff` | entrypoint.py:135-150 | with `etag == file_md5`, a key is uploaded iff a walked file maps to it whose content the bucket does not already hold |
| `S3Sync.UnchangedFileUploadedAsWritten` | entrypoint.py:128-150 | for every file whose content the bucket already holds under its key, every prefix and bucket: as written the file is uploaded and tagged again, with the intended comparison it causes no request |
| `LambdaPublish.PackageKeyBasename` | entrypoint.py:184 | when the commit id holds no `/`, the package key's base name is `basename(path_to_zip) + '.' + commit_id` |
| `LambdaPublish.LambdaFunc` | entrypoint.py:179-192 | key `join(prefix, basename(path) + '.' + commit)`; one upload without ContentType, one tagging with the lowercase tags, then one `update_function_code` per function name in order, all on that bucket and key |

## Findings

| source | as written | input that shows it | evidently intended | confidence | as-written member | corrected member |
|---|---|---|---|---|---|---|
| entrypoint.py:138 | compares the ETag with `md5`, a name the module never defines. The `NameError` is swallowed by the bare `except` at :144-145. So no file is skipped, none is recorded as overwritten, and CloudFront is never invalidated | any walked file whose key exists in the bucket, e.g. `b.txt` with ETag `"0cc175b9"` and local digest `0cc175b9` | compare with `file_md5` (the comment at :135): skip identical files, record changed ones | high; not executed | `S3Sync.AsWrittenNeverOverwrites` | `S3Sync.IntendedOverwrittenIff` |

`S3Sync.S3` takes a `Comparison`. `AsWritten` uses `S3Sync.ProbeAsWritten`.
`Intended` uses `S3Sync.ProbeIntended`, for which `IntendedOverwrittenIff`
and `IntendedUploadIff` state the skip and overwrite behaviour.

## Left out

- Command-line parsing (click groups, options, defaults, environment
  fallbacks) is not modelled. This includes the `if envvar_prefix:` guard
  before `resolve_envvars`. Commands take their options as plain parameters.
- boto3 sessions and clients are not modelled. This includes the hard-coded
  profile `quasar-preprod` and region `us-west-2`. The `--aws-region` option
  of deploy-ecs-service.py is accepted and never used.
- Failures of mutating calls are not modelled. These are an upload, a
  tagging, a registration, a service or function update, and boto3's own
  parameter validation, which would reject the tag casing noted above. Each
  would abort the run. The log assumes every call is accepted.
- `get_md5`, `os.walk` and `mimetypes.guess_type` are file I/O and library
  calls. Their results are inputs. The content encoding the code computes is
  unused and not modelled.
- The read-only calls `describe_task_definition` (entrypoint.py:210,
  deploy-ecs-service.py:71) and the per-file `head_object`
  (entrypoint.py:133) are not in the request log. Their answers are inputs:
  the `described` document and the `Remote` map of entity tags. So the ECS
  commands log two requests, not three, and the sync log does not show the
  probes.
- The caller reference `datetime.utcnow().isoformat()` is a clock reading. It
  is a parameter.
- The Datadog set-up, `post_datadog_event` (an empty stub), `print_envvars`
  and every `print` are output only.
- Writes to the real process environment are not modelled.
  `Environment.ResolveEnvvars` works on an explicit map. The host's refusal
  of an empty variable name is not modelled. Any matching key of at most
  `len(prefix) + 1` characters (`MAIN` or `MAIN_` for the prefix `main`)
  strips to "". The code's write at entrypoint.py:55 then raises, uncaught,
  and the whole command aborts. The model writes the name "" into the map
  instead.
- `Environment.Normalize` upper-cases ASCII letters only. Python's
  `str.upper` is Unicode-aware and can change a string's length (`ß` → `SS`).
- `Environment.ResolveSingleWriter` states the resulting value only when one
  matching key alone writes a name and nothing writes that key. With several
  writers, or chained writes, the value is given by `Environment.Resolve`
  itself.
- JSON numbers are integers, and floating-point fields are not modelled. The
  revision is a natural number.
- The code sets the image on the fetched dict in place. The model rebuilds
  the document as a value, so aliasing of the nested container dict is not
  captured. No other reference to it exists in the code.
- The bucket of the Lambda command may be `None` in the code, since the
  option is not required. The model takes a string.
