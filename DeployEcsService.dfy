/** deploy-ecs-service.py: the older stand-alone ECS deployment. Same
    document rewrite as entrypoint.py, but an eight-entry tag list that is
    always lowercase-keyed, and a service update without a forced deployment. */
module DeployEcsService {
  import opened Aws
  import opened PyBuiltins
  import opened BuildTags
  import opened TaskDefinition
  import EcsDeploy

  /** This file's `unpack_dict`: always `key`/`value`. */
  method UnpackDict(dictToUnpack: Dict) returns (unpackedDict: seq<TagRecord>)
    ensures unpackedDict == Unpacked(dictToUnpack, true)
  {
    unpackedDict := [];
    for i := 0 to |dictToUnpack|
      invariant unpackedDict == Unpacked(dictToUnpack[..i], true)
    {
      var (k, v) := dictToUnpack[i];
      unpackedDict := unpackedDict + [map["key" := k, "value" := v]];
    }
    assert dictToUnpack[..|dictToUnpack|] == dictToUnpack;
  }

  /** The build fields this script receives as separate parameters. */
  datatype BuildFields = BuildFields(
    commitId: string,
    message: string,
    branch: string,
    buildNumber: string,
    buildUrl: string,
    committerEmail: string,
    committerName: string,
    committerUsername: string)

  /** The `tags` dict literal of `register_task_definition`, in insertion order. */
  function DeployTagEntries(f: BuildFields): Dict {
    [ ("CI_COMMIT_ID", f.commitId),
      ("CI_MESSAGE", f.message),
      ("CI_BRANCH", f.branch),
      ("CI_BUILD_NUMBER", f.buildNumber),
      ("CI_BUILD_URL", f.buildUrl),
      ("CI_COMMITTER_EMAIL", f.committerEmail),
      ("CI_COMMITTER_NAME", f.committerName),
      ("CI_COMMITTER_USERNAME", f.committerUsername) ]
  }

  function DeployTagSet(f: BuildFields): seq<TagRecord> {
    Unpacked(DeployTagEntries(f), true)
  }

  const DeployTagNames: seq<string> :=
    ["CI_COMMIT_ID", "CI_MESSAGE", "CI_BRANCH", "CI_BUILD_NUMBER",
     "CI_BUILD_URL", "CI_COMMITTER_EMAIL", "CI_COMMITTER_NAME", "CI_COMMITTER_USERNAME"]

  function FieldValues(f: BuildFields): seq<string> {
    [f.commitId, f.message, f.branch, f.buildNumber,
     f.buildUrl, f.committerEmail, f.committerName, f.committerUsername]
  }

  /** Eight lowercase-keyed records, in the fixed order, each carrying the
      parameter of the same name. */
  lemma DeployTagSetShape(f: BuildFields)
    ensures var tags := DeployTagSet(f);
      && |tags| == 8
      && forall i :: 0 <= i < 8 ==>
           && tags[i].Keys == {"key", "value"}
           && tags[i]["key"] == DeployTagNames[i]
           && tags[i]["value"] == FieldValues(f)[i]
  {
  }

  /** `register_task_definition`: `described` is what
      `describe_task_definition` returned, `newRevision` the revision the
      registration call assigns. */
  method RegisterTaskDefinition(
    described: Document,
    taskDefinitionFamily: string,
    ecrRepositoryUri: string,
    fields: BuildFields,
    newRevision: nat)
    returns (registered: Document, newTaskDefinitionName: string)
    requires HasPrimaryContainer(described)
    ensures Rewritten(registered, described, ecrRepositoryUri + ":" + fields.commitId,
                      TagListValue(DeployTagSet(fields)))
    ensures forall i :: 0 <= i < |ControlPlaneFields| ==> ControlPlaneFields[i] !in registered
    ensures newTaskDefinitionName == TaskDefinitionRef(taskDefinitionFamily, newRevision)
  {
    var taskDefinition := PopFields(described, ControlPlaneFields);
    assert "containerDefinitions" !in FieldSet(ControlPlaneFields);

    var newImageLabel := fields.commitId;
    var newImage := ecrRepositoryUri + ":" + newImageLabel;
    var containers := taskDefinition["containerDefinitions"].items;
    var primary := containers[0].fields["image" := Str(newImage)];
    taskDefinition := taskDefinition["containerDefinitions" := Arr(containers[0 := Obj(primary)])];

    var tags := UnpackDict(DeployTagEntries(fields));
    taskDefinition := taskDefinition["tags" := TagListValue(tags)];

    registered := taskDefinition;
    RewrittenPromises(registered, described, newImage, TagListValue(tags));
    newTaskDefinitionName := taskDefinitionFamily + ":" + DecimalString(newRevision);
  }

  /** This file's `update_service`: no `forceNewDeployment` keyword at all. */
  function UpdateServiceRequest(taskDefinition: string, cluster: string, service: string): (r: Request)
    ensures r.UpdateService?
    ensures r.cluster == cluster && r.service == service && r.taskDefinition == taskDefinition
    ensures r.forceNewDeployment.None?
  {
    UpdateService(cluster, service, taskDefinition, None)
  }

  /** The two scripts' rollouts name the same cluster, service and revision
      and differ only in the forced deployment: entrypoint.py asks for one,
      this script leaves the keyword out. */
  lemma RolloutsDifferOnlyInForce(taskDefinition: string, cluster: string, service: string)
    ensures var mine := UpdateServiceRequest(taskDefinition, cluster, service);
      var theirs := EcsDeploy.UpdateEcsService(taskDefinition, cluster, service);
      && mine != theirs
      && mine == theirs.(forceNewDeployment := None)
  {
  }

  /** The `deploy` command (the region option is accepted but not used). */
  method Deploy(
    taskDefinitionFamily: string,
    ecsCluster: string,
    ecrRepositoryUri: string,
    ecsServiceName: string,
    fields: BuildFields,
    described: Document,
    newRevision: nat)
    returns (requests: seq<Request>)
    requires HasPrimaryContainer(described)
    ensures |requests| == 2
    ensures requests[0].RegisterTaskDefinition?
    ensures Rewritten(requests[0].document, described, ecrRepositoryUri + ":" + fields.commitId,
                      TagListValue(DeployTagSet(fields)))
    ensures requests[1] == UpdateService(ecsCluster, ecsServiceName,
                                         TaskDefinitionRef(taskDefinitionFamily, newRevision), None)
  {
    var registered, taskDefinition := RegisterTaskDefinition(
      described, taskDefinitionFamily, ecrRepositoryUri, fields, newRevision);
    requests := [Request.RegisterTaskDefinition(registered)];
    requests := requests + [UpdateServiceRequest(taskDefinition, ecsCluster, ecsServiceName)];
  }

  /** For the same described document and commit, this script registers the
      same document as entrypoint.py's `register_ecs_task_definition` except
      for `tags`: eight lowercase records here, six capitalised ones there. */
  lemma SameDocumentAsEntrypointExceptTags(
    fromEntrypoint: Document, fromDeploy: Document, described: Document,
    ecrRepositoryUri: string, build: CIBuildMetadata, fields: BuildFields)
    requires HasPrimaryContainer(described)
    requires fields.commitId == build.commitId
    requires Rewritten(fromEntrypoint, described, ecrRepositoryUri + ":" + build.commitId,
                       TagListValue(TagSet(build, false)))
    requires Rewritten(fromDeploy, described, ecrRepositoryUri + ":" + fields.commitId,
                       TagListValue(DeployTagSet(fields)))
    ensures fromEntrypoint.Keys == fromDeploy.Keys
    ensures forall f :: f in fromDeploy && f != "tags" ==> fromDeploy[f] == fromEntrypoint[f]
    ensures fromDeploy["tags"] != fromEntrypoint["tags"]
  {
    RewrittenAgreeExceptTags(fromEntrypoint, fromDeploy, described, ecrRepositoryUri + ":" + build.commitId,
                             TagListValue(TagSet(build, false)), TagListValue(DeployTagSet(fields)));
    assert |fromDeploy["tags"].items| == 8;
    assert |fromEntrypoint["tags"].items| == 6;
  }
}
