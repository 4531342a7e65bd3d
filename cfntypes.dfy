/** The records exchanged with the remote stack service, as far as the
    client, the renderer and the deployer read or build them. An optional
    string field the code reads through `ptr.ToString` is a plain string
    here, with "" standing for nil. */
module CfnTypes {

  import opened Errors

  datatype ChangeAction = Add | Modify | Remove | OtherAction(name: string)

  /** One resource change of a change set; `nestedChangeSetId` is present
      when the resource is a nested stack with its own change set. */
  datatype ResourceChange = ResourceChange(
    action: ChangeAction,
    resourceType: string,
    logicalId: string,
    nestedChangeSetId: Option<string>)

  /** What describing a change set returns. */
  datatype ChangeSetDescription = ChangeSetDescription(
    stackName: string,
    status: string,
    statusReason: string,
    changes: seq<ResourceChange>)

  datatype Stack = Stack(stackId: Option<string>, stackName: string, stackStatus: string)

  datatype Tag = Tag(key: string, value: string)

  datatype Parameter = Parameter(key: string, value: string)

  datatype ChangeSetType = Create | Update

  function ChangeSetTypeName(t: ChangeSetType): string
  {
    match t
    case Create => "CREATE"
    case Update => "UPDATE"
  }

  datatype CreateChangeSetInput = CreateChangeSetInput(
    changeSetType: ChangeSetType,
    changeSetName: string,
    stackName: string,
    tags: seq<Tag>,
    includeNestedStacks: bool,
    parameters: seq<Parameter>,
    templateURL: Option<string>,
    templateBody: Option<string>,
    capabilities: seq<string>,
    roleARN: Option<string>)

  datatype DeleteStackInput = DeleteStackInput(stackName: string, roleARN: Option<string>)

  /** The service's reply to a delete request; only passed through. */
  datatype DeleteStackOutput = DeleteStackOutput(requestId: string)
}
