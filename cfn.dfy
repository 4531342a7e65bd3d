/** The change-set client (cfn/client.go): fetching a stack with the "not
    found" error normalised, deciding between creating and updating,
    building the create request, polling the new change set until it is
    ready, building the delete request and flattening tags.

    The remote service is an oracle: the reply to describing the stack, the
    reply to the create request, and the successive replies to describing
    the change set. The clock is the parameter `now`; the two-second sleep
    between polls does nothing here. */
module Cfn {

  import opened Errors
  import opened Strings
  import opened CfnTypes

  // ---------------------------------------------------------------------
  // Fetching a stack
  // ---------------------------------------------------------------------

  /** The reply to describing a stack by name. */
  datatype DescribeStacksResponse =
    | StacksFound(stacks: seq<Stack>)
    | StackNotFoundException
    | GenericApiError(code: string, text: string)
    | NonApiError(text: string)

  /** The replies `GetStack` handles. An API error with a code other than
      `ValidationError` falls through to reading the first stack of an
      absent reply, and an empty stack list is indexed anyway: both crash. */
  predicate GetStackDefined(resp: DescribeStacksResponse)
  {
    !(resp.GenericApiError? && resp.code != "ValidationError")
    && !(resp.StacksFound? && resp.stacks == [])
  }

  /** `GetStack`: both ways the service reports a missing stack become the
      one sentinel `StackNotExist`; any other error is passed on as it is. */
  function GetStack(resp: DescribeStacksResponse): (r: Result<Stack>)
    requires GetStackDefined(resp)
    ensures r == Err(StackNotExist)
        <==> resp.StackNotFoundException? || (resp.GenericApiError? && resp.code == "ValidationError")
    ensures resp.NonApiError? ==> r == Err(Transport(resp.text))
    ensures resp.StacksFound? ==> r == Ok(resp.stacks[0])
    ensures r.Err? ==> !r.error.ApiError?
  {
    match resp
    case StackNotFoundException => Err(StackNotExist)
    case NonApiError(text) => Err(Transport(text))
    case GenericApiError(_, _) => Err(StackNotExist)
    case StacksFound(stacks) => Ok(stacks[0])
  }

  /** `GetChangeSet`: a lookup in the service's change sets by name. The
      optional stack name only narrows the lookup on the service side. */
  function GetChangeSet(changeSets: map<string, Result<ChangeSetDescription>>, stackName: string, changeSetName: string)
    : (r: Result<ChangeSetDescription>)
    ensures changeSetName !in changeSets ==> r.Err? && r.error.ApiError?
    ensures changeSetName in changeSets ==> r == changeSets[changeSetName]
  {
    if changeSetName in changeSets then changeSets[changeSetName]
    else Err(ApiError("ChangeSetNotFound", "ChangeSet [" + changeSetName + "] does not exist"))
  }

  // ---------------------------------------------------------------------
  // Building the create request
  // ---------------------------------------------------------------------

  /** The change-set type decision: `UPDATE` for a stack that has an id,
      `CREATE` when it has none or does not exist; any other error aborts. */
  function DecideType(existing: Result<Stack>): (r: Result<ChangeSetType>)
    ensures r.Err? <==> existing.Err? && existing.error != StackNotExist
    ensures r.Err? ==> r.error == existing.error
    ensures r == Ok(Update) <==> existing.Ok? && existing.value.stackId.Some?
  {
    if existing.Err? && existing.error != StackNotExist then Err(existing.error)
    else if existing.Ok? && existing.value.stackId.Some? then Ok(Update)
    else Ok(Create)
  }

  /** From the service's reply to the type: a missing stack, reported
      either way, gives `CREATE`. */
  lemma DecideTypeFromReply(resp: DescribeStacksResponse)
    requires GetStackDefined(resp)
    ensures DecideType(GetStack(resp)) == Ok(Create)
        <==> resp.StackNotFoundException? || resp.GenericApiError?
             || (resp.StacksFound? && resp.stacks[0].stackId.None?)
    ensures DecideType(GetStack(resp)) == Ok(Update)
        <==> resp.StacksFound? && resp.stacks[0].stackId.Some?
    ensures DecideType(GetStack(resp)).Err? <==> resp.NonApiError?
  {
  }

  /** The change-set name: the stack name, a dash, and the clock's Unix
      seconds in decimal. */
  function ChangeSetName(stackName: string, now: int): string
  {
    stackName + "-" + IntToDecimal(now)
  }

  /** Stripping `stackName + "-"` from the name gives back the timestamp. */
  lemma ChangeSetNameRoundTrip(stackName: string, now: int)
    ensures HasPrefix(ChangeSetName(stackName, now), stackName + "-")
    ensures ParseDecimal(ChangeSetName(stackName, now)[|stackName| + 1..]) == Some(now)
  {
    var name := ChangeSetName(stackName, now);
    assert name[..|stackName| + 1] == stackName + "-";
    assert name[|stackName| + 1..] == IntToDecimal(now);
    ParseIntToDecimal(now);
  }

  /** Two deployments of one stack at different seconds get different names. */
  lemma ChangeSetNamesDiffer(stackName: string, now1: int, now2: int)
    requires now1 != now2
    ensures ChangeSetName(stackName, now1) != ChangeSetName(stackName, now2)
  {
    ChangeSetNameRoundTrip(stackName, now1);
    ChangeSetNameRoundTrip(stackName, now2);
  }

  /** The template goes in as a URL when it parses as one (`parsed` is the
      parsed URL written back out) and as an inline body otherwise: exactly
      one of the two is set. */
  function TemplateFields(template: string, parsed: Option<string>): (r: (Option<string>, Option<string>))
    ensures r.0.Some? != r.1.Some?
    ensures parsed.Some? ==> r.0 == parsed
    ensures parsed.None? ==> r.1 == Some(template)
  {
    if parsed.Some? then (parsed, None) else (None, Some(template))
  }

  /** The optional role: set only for a non-empty role ARN. */
  function OptionalRole(roleArn: string): (r: Option<string>)
    ensures r.Some? <==> roleArn != ""
    ensures r.Some? ==> r.value == roleArn
  {
    if roleArn != "" then Some(roleArn) else None
  }

  const Capabilities: seq<string> := ["CAPABILITY_NAMED_IAM", "CAPABILITY_AUTO_EXPAND"]

  /** The create request. */
  function CreateInput(
    changeSetType: ChangeSetType, changeSetName: string, stackName: string, tags: seq<Tag>,
    params: seq<Parameter>, template: string, parsed: Option<string>, roleArn: string)
    : (input: CreateChangeSetInput)
    ensures input.changeSetType == changeSetType && input.changeSetName == changeSetName
    ensures input.stackName == stackName && input.tags == tags && input.parameters == params
    ensures input.templateURL.Some? != input.templateBody.Some?
    ensures input.capabilities == ["CAPABILITY_NAMED_IAM", "CAPABILITY_AUTO_EXPAND"]
    ensures input.includeNestedStacks
    ensures input.roleARN.Some? <==> roleArn != ""
  {
    var fields := TemplateFields(template, parsed);
    CreateChangeSetInput(
      changeSetType, changeSetName, stackName, tags, true, params,
      fields.0, fields.1, Capabilities, OptionalRole(roleArn))
  }

  /** The delete request: the role is set only for a non-empty role ARN. */
  function DeleteInput(stackName: string, roleArn: string): (input: DeleteStackInput)
    ensures input.stackName == stackName
    ensures input.roleARN.Some? <==> roleArn != ""
    ensures input.roleARN.Some? ==> input.roleARN.value == roleArn
  {
    DeleteStackInput(stackName, OptionalRole(roleArn))
  }

  /** Deleting and creating treat the role the same way. */
  lemma SameRoleHandling(
    changeSetType: ChangeSetType, changeSetName: string, stackName: string, tags: seq<Tag>,
    params: seq<Parameter>, template: string, parsed: Option<string>, roleArn: string)
    ensures DeleteInput(stackName, roleArn).roleARN
         == CreateInput(changeSetType, changeSetName, stackName, tags, params, template, parsed, roleArn).roleARN
  {
  }

  // ---------------------------------------------------------------------
  // Tags
  // ---------------------------------------------------------------------

  /** `tags` lists every entry of the map exactly once, in some order. */
  predicate IsTagListing(tags: seq<Tag>, m: map<string, string>)
  {
    && |tags| == |m|
    && (forall k :: 0 <= k < |tags| ==> tags[k].key in m && m[tags[k].key] == tags[k].value)
    && (forall j, k :: 0 <= j < k < |tags| ==> tags[j].key != tags[k].key)
    && (forall key :: key in m ==> exists k :: 0 <= k < |tags| && tags[k].key == key)
  }

  /** `makeTags`: one tag per map entry, in the map's iteration order, which
      is unspecified. */
  method MakeTags(m: map<string, string>) returns (tags: seq<Tag>)
    ensures IsTagListing(tags, m)
  {
    tags := [];
    var remaining := m.Keys;
    while remaining != {}
      invariant remaining <= m.Keys
      invariant |tags| + |remaining| == |m.Keys|
      invariant forall k :: 0 <= k < |tags| ==> tags[k].key in m && m[tags[k].key] == tags[k].value
      invariant forall k :: 0 <= k < |tags| ==> tags[k].key !in remaining
      invariant forall j, k :: 0 <= j < k < |tags| ==> tags[j].key != tags[k].key
      invariant forall key :: key in m && key !in remaining ==> exists k :: 0 <= k < |tags| && tags[k].key == key
      decreases remaining
    {
      var key :| key in remaining;
      var before := tags;
      tags := tags + [Tag(key, m[key])];
      remaining := remaining - {key};
      forall other | other in m && other !in remaining
        ensures exists k :: 0 <= k < |tags| && tags[k].key == other
      {
        if other == key {
          assert tags[|before|].key == other;
        } else {
          var k :| 0 <= k < |before| && before[k].key == other;
          assert tags[k] == before[k];
        }
      }
    }
  }

  // ---------------------------------------------------------------------
  // Polling the new change set
  // ---------------------------------------------------------------------

  /** A describe reply that ends the poll: an error, the status `FAILED`,
      or a status ending in `_COMPLETE`. */
  predicate Terminal(reply: Result<ChangeSetDescription>)
  {
    reply.Err? || reply.value.status == "FAILED" || HasSuffix(reply.value.status, "_COMPLETE")
  }

  /** The service eventually gives a reply that ends the poll; otherwise
      the loop never returns. */
  predicate EventuallyTerminal(replies: seq<Result<ChangeSetDescription>>)
  {
    exists i :: 0 <= i < |replies| && Terminal(replies[i])
  }

  /** The index of the first reply that ends the poll. */
  function FirstTerminal(replies: seq<Result<ChangeSetDescription>>): (i: nat)
    requires EventuallyTerminal(replies)
    ensures i < |replies| && Terminal(replies[i])
    ensures forall j :: 0 <= j < i ==> !Terminal(replies[j])
  {
    if Terminal(replies[0]) then 0
    else
      assert EventuallyTerminal(replies[1..]) by {
        var i :| 0 <= i < |replies| && Terminal(replies[i]);
        assert replies[1..][i - 1] == replies[i];
      }
      1 + FirstTerminal(replies[1..])
  }

  /** What a reply that ends the poll means: the describe error, an error
      whose text is the status reason, or success. */
  function PollOutcome(reply: Result<ChangeSetDescription>): (err: Option<Error>)
    requires Terminal(reply)
    ensures reply.Err? ==> err == Some(reply.error)
    ensures reply.Ok? && reply.value.status == "FAILED" ==> err.Some? && Text(err.value) == reply.value.statusReason
    ensures err.None? <==> reply.Ok? && reply.value.status != "FAILED"
  {
    match reply
    case Err(e) => Some(e)
    case Ok(d) => if d.status == "FAILED" then Some(Message(d.statusReason)) else None
  }

  /** A poll succeeds only on a status ending in `_COMPLETE`. */
  lemma PollSucceedsOnComplete(reply: Result<ChangeSetDescription>)
    requires Terminal(reply) && PollOutcome(reply).None?
    ensures reply.Ok? && HasSuffix(reply.value.status, "_COMPLETE")
  {
  }

  /** What the service does in one `CreateChangeSet` run. */
  datatype Remote = Remote(
    describeStacks: DescribeStacksResponse,
    createReply: Option<Error>,
    describeReplies: seq<Result<ChangeSetDescription>>)

  /** The change set is created and polled when the type decision succeeds
      and the service accepts the create request. */
  predicate Polls(stackReply: DescribeStacksResponse, remote: Remote)
    requires GetStackDefined(stackReply)
  {
    DecideType(GetStack(stackReply)).Ok? && remote.createReply.None?
  }

  /** The error a `CreateChangeSet` run ends with, `None` for success: the
      failed stack lookup, the rejected request, or what the first reply
      that ends the poll means. */
  function CreateError(remote: Remote): Option<Error>
    requires GetStackDefined(remote.describeStacks)
    requires Polls(remote.describeStacks, remote) ==> EventuallyTerminal(remote.describeReplies)
  {
    var decided := DecideType(GetStack(remote.describeStacks));
    if decided.Err? then Some(decided.error)
    else if remote.createReply.Some? then remote.createReply
    else PollOutcome(remote.describeReplies[FirstTerminal(remote.describeReplies)])
  }

  /** A run succeeds only when the stack lookup succeeded, the request was
      accepted and the change set reached a `_COMPLETE` status before any
      describe call failed or reported `FAILED`. */
  lemma CreateSucceedsOnlyWhenComplete(remote: Remote)
    requires GetStackDefined(remote.describeStacks)
    requires Polls(remote.describeStacks, remote) ==> EventuallyTerminal(remote.describeReplies)
    requires CreateError(remote).None?
    ensures Polls(remote.describeStacks, remote)
    ensures var reply := remote.describeReplies[FirstTerminal(remote.describeReplies)];
      reply.Ok? && HasSuffix(reply.value.status, "_COMPLETE")
    ensures forall j :: 0 <= j < FirstTerminal(remote.describeReplies) ==>
      var reply := remote.describeReplies[j];
      reply.Ok? && reply.value.status != "FAILED" && !HasSuffix(reply.value.status, "_COMPLETE")
  {
    PollSucceedsOnComplete(remote.describeReplies[FirstTerminal(remote.describeReplies)]);
  }

  /** `CreateChangeSet`: decides the type, builds and submits the request,
      then polls until the change set is ready or has failed. Returns the
      change-set name, the error (`None` for nil), the request it submitted
      and the number of describe calls it made. */
  method CreateChangeSet(
    template: string, parsed: Option<string>, params: seq<Parameter>, tags: map<string, string>,
    stackName: string, roleArn: string, now: int, remote: Remote)
    returns (name: string, err: Option<Error>, submitted: Option<CreateChangeSetInput>, polls: nat)
    requires GetStackDefined(remote.describeStacks)
    requires Polls(remote.describeStacks, remote) ==> EventuallyTerminal(remote.describeReplies)
    // a failed stack lookup aborts before anything is created
    ensures DecideType(GetStack(remote.describeStacks)).Err? ==>
      && name == "" && submitted.None? && polls == 0
      && err == Some(DecideType(GetStack(remote.describeStacks)).error)
    // otherwise the request is the one built from the inputs, with the tags listed
    ensures DecideType(GetStack(remote.describeStacks)).Ok? ==>
      && name == ChangeSetName(stackName, now)
      && submitted.Some?
      && IsTagListing(submitted.value.tags, tags)
      && submitted.value == CreateInput(DecideType(GetStack(remote.describeStacks)).value, name, stackName,
                                        submitted.value.tags, params, template, parsed, roleArn)
    // a rejected request is reported without polling
    ensures DecideType(GetStack(remote.describeStacks)).Ok? && remote.createReply.Some? ==>
      err == remote.createReply && polls == 0
    // the error is the one the run's outcome calls for
    ensures err == CreateError(remote)
    // polling stops at the first reply that ends it, and that reply decides
    ensures Polls(remote.describeStacks, remote) ==>
      && polls == FirstTerminal(remote.describeReplies) + 1
      && err == PollOutcome(remote.describeReplies[polls - 1])
  {
    var existing := GetStack(remote.describeStacks);
    if existing.Err? && existing.error != StackNotExist {
      return "", Some(existing.error), None, 0;
    }
    var changeSetType := Create;
    if existing.Ok? && existing.value.stackId.Some? {
      changeSetType := Update;
    }
    name := ChangeSetName(stackName, now);
    var tagList := MakeTags(tags);
    var input := CreateInput(changeSetType, name, stackName, tagList, params, template, parsed, roleArn);
    submitted := Some(input);
    polls := 0;
    if remote.createReply.Some? {
      return name, remote.createReply, submitted, 0;
    }
    err, polls := PollChangeSet(remote.describeReplies);
  }

  /** The polling loop of `CreateChangeSet`: describes the change set until
      a reply ends the poll. Returns what that reply means and the number of
      describe calls made. */
  method PollChangeSet(replies: seq<Result<ChangeSetDescription>>) returns (err: Option<Error>, polls: nat)
    requires EventuallyTerminal(replies)
    ensures polls == FirstTerminal(replies) + 1
    ensures err == PollOutcome(replies[polls - 1])
  {
    polls := 0;
    while true
      invariant polls <= FirstTerminal(replies)
      invariant forall j :: 0 <= j < polls ==> !Terminal(replies[j])
      decreases FirstTerminal(replies) - polls
    {
      var reply := replies[polls];
      polls := polls + 1;
      if reply.Err? {
        return Some(reply.error), polls;
      }
      var status := reply.value.status;
      if status == "FAILED" {
        return Some(Message(reply.value.statusReason)), polls;
      }
      if HasSuffix(status, "_COMPLETE") {
        break;
      }
    }
    err := None;
  }
}
