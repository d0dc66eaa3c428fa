/** The `deploy ecs` command of entrypoint.py: register a new revision of a
    task definition pointing at the freshly built image, then roll the
    service over to it. */
module EcsDeploy {
  import opened Aws
  import opened PyBuiltins
  import opened BuildTags
  import opened TaskDefinition

  /** `register_ecs_task_definition`: `described` is what
      `describe_task_definition` returned, `newRevision` the revision the
      registration call assigns. Returns the document sent to
      `register_task_definition` and the new `family:revision` reference.
      The tags are the capitalised `Key`/`Value` list, as the code has it. */
  method RegisterEcsTaskDefinition(
    described: Document,
    taskDefinitionFamily: string,
    ecrRepositoryUri: string,
    build: CIBuildMetadata,
    newRevision: nat)
    returns (registered: Document, newTaskDefinitionName: string)
    requires HasPrimaryContainer(described)
    ensures Rewritten(registered, described, ecrRepositoryUri + ":" + build.commitId,
                      TagListValue(TagSet(build, false)))
    ensures forall i :: 0 <= i < |ControlPlaneFields| ==> ControlPlaneFields[i] !in registered
    ensures newTaskDefinitionName == TaskDefinitionRef(taskDefinitionFamily, newRevision)
  {
    var taskDefinition := PopFields(described, ControlPlaneFields);
    assert "containerDefinitions" !in FieldSet(ControlPlaneFields);

    var newImageLabel := build.commitId;
    var newImage := ecrRepositoryUri + ":" + newImageLabel;
    var containers := taskDefinition["containerDefinitions"].items;
    var primary := containers[0].fields["image" := Str(newImage)];
    taskDefinition := taskDefinition["containerDefinitions" := Arr(containers[0 := Obj(primary)])];

    var tags := ToTags(build, false);
    taskDefinition := taskDefinition["tags" := TagListValue(tags)];

    registered := taskDefinition;
    RewrittenPromises(registered, described, newImage, TagListValue(tags));
    newTaskDefinitionName := taskDefinitionFamily + ":" + DecimalString(newRevision);
  }

  /** `update_ecs_service`: the rollout request, forcing a new deployment. */
  function UpdateEcsService(taskDefinition: string, cluster: string, service: string): (r: Request)
    ensures r.UpdateService?
    ensures r.cluster == cluster && r.service == service && r.taskDefinition == taskDefinition
    ensures r.forceNewDeployment == Some(true)
  {
    UpdateService(cluster, service, taskDefinition, Some(true))
  }

  /** The `ecs` command: one registration, then one service update naming the
      new revision, with `forceNewDeployment=True`. */
  method Ecs(
    build: CIBuildMetadata,
    taskDefinitionFamily: string,
    ecsCluster: string,
    ecrRepositoryUri: string,
    ecsServiceName: string,
    described: Document,
    newRevision: nat)
    returns (requests: seq<Request>)
    requires HasPrimaryContainer(described)
    ensures |requests| == 2
    ensures requests[0].RegisterTaskDefinition?
    ensures Rewritten(requests[0].document, described, ecrRepositoryUri + ":" + build.commitId,
                      TagListValue(TagSet(build, false)))
    ensures requests[1] == UpdateService(ecsCluster, ecsServiceName,
                                         TaskDefinitionRef(taskDefinitionFamily, newRevision), Some(true))
  {
    var registered, taskDefinition := RegisterEcsTaskDefinition(
      described, taskDefinitionFamily, ecrRepositoryUri, build, newRevision);
    requests := [RegisterTaskDefinition(registered)];
    requests := requests + [UpdateEcsService(taskDefinition, ecsCluster, ecsServiceName)];
  }
}
