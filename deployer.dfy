/** The interactive deployer: creates a change set, shows it and asks for
    confirmation unless told not to, executes it and reports the status the
    stack settles in; and deletes stacks. The service, the terminal prompt
    and the wait for the stack to settle are given as the answers they
    produce, and the calls made are recorded as a trace of events. */
module Deployer {

  import opened Errors
  import opened CfnTypes
  import Cfn
  import ChangeSetRender

  /** The status reason the service gives for a change set without changes. */
  const NoChangeFoundMsg: string :=
    "The submitted information didn't contain changes. Submit different information to create a change set."

  const CancelledMsg: string := "user cancelled deployment"

  datatype DeployOpts = DeployOpts(
    template: string,
    params: seq<Parameter>,
    tags: map<string, string>,
    stackName: string,
    roleArn: string,
    confirm: bool)

  /** `WithConfirm`: an option setter that changes `confirm` and nothing else. */
  function WithConfirm(confirm: bool): (f: DeployOpts -> DeployOpts)
    ensures forall o :: f(o).confirm == confirm && f(o).(confirm := o.confirm) == o
  {
    (o: DeployOpts) => o.(confirm := confirm)
  }

  datatype DeployResult = DeployResult(finalStatus: string)

  datatype DeleteOpts = DeleteOpts(stackName: string, roleArn: string)

  datatype DeleteResult = DeleteResult(finalStatus: string, deleteStackOutput: DeleteStackOutput)

  /** What the outside world answers during one deployment: the clock, how
      the template parses as a URL, the service, the change sets it
      describes, the operator's answer to the prompt, the reply to the
      execute request and the status and messages the stack settles with. */
  datatype Environment = Environment(
    now: int,
    parsedTemplate: Option<string>,
    remote: Cfn.Remote,
    changeSets: ChangeSetRender.Store,
    answer: Result<bool>,
    executeReply: Option<Error>,
    settled: (string, seq<string>))

  /** The calls with an effect outside the program, in the order made. */
  datatype Event =
    | Shown(text: string)
    | Asked
    | Executed(stackName: string, changeSetName: string)
    | DeleteRequested(input: DeleteStackInput)
    | Settled(stackName: string)

  /** The service answers every call the run makes. */
  predicate Answers(env: Environment)
  {
    Cfn.GetStackDefined(env.remote.describeStacks)
    && (Cfn.Polls(env.remote.describeStacks, env.remote) ==> Cfn.EventuallyTerminal(env.remote.describeReplies))
  }

  /** The change set a deployment creates and, unless confirmation is
      skipped, renders. */
  function CreatedName(opts: DeployOpts, env: Environment): string
  {
    Cfn.ChangeSetName(opts.stackName, env.now)
  }

  function Rendered(opts: DeployOpts, env: Environment, rank: map<string, nat>): Result<string>
    requires ChangeSetRender.Ranked(env.changeSets, rank)
  {
    ChangeSetRender.Render(env.changeSets, rank, opts.stackName, CreatedName(opts, env))
  }

  /** What the calls of one deployment returned: the change set created
      (`created` is the creation failure, if any), its rendering, the
      operator's answer, the execute reply and the status the stack settled
      in. */
  datatype Outcomes = Outcomes(
    stackName: string,
    changeSetName: string,
    confirm: bool,
    created: Option<Error>,
    shown: Result<string>,
    answer: Result<bool>,
    executeReply: Option<Error>,
    settledStatus: string)

  function OutcomesOf(opts: DeployOpts, env: Environment, rank: map<string, nat>): Outcomes
    requires Answers(env) && ChangeSetRender.Ranked(env.changeSets, rank)
  {
    Outcomes(opts.stackName, CreatedName(opts, env), opts.confirm, Cfn.CreateError(env.remote),
      Rendered(opts, env, rank), env.answer, env.executeReply, env.settled.0)
  }

  /** Whether the run proceeds to execution: confirmation was skipped, or the
      change set was shown and the operator said yes. */
  predicate Approved(o: Outcomes)
  {
    o.confirm || (o.shown.Ok? && o.answer == Ok(true))
  }

  /** One deployment as a function of what its calls return: its result and
      the calls with an effect outside the program. */
  function DeployRun(o: Outcomes): (Result<DeployResult>, seq<Event>)
  {
    if o.created.Some? then
      if Text(o.created.value) == NoChangeFoundMsg then (Ok(DeployResult("DEPLOY_SKIPPED")), [])
      else (Err(Wrapped("creating changeset", o.created.value)), [])
    else if !o.confirm && o.shown.Err? then (Err(o.shown.error), [])
    else
      var asked := if o.confirm then [] else [Shown(o.shown.value), Asked];
      if !o.confirm && o.answer.Err? then (Err(o.answer.error), asked)
      else if !o.confirm && !o.answer.value then (Err(Message(CancelledMsg)), asked)
      else
        var executed := asked + [Executed(o.stackName, o.changeSetName)];
        if o.executeReply.Some? then (Err(o.executeReply.value), executed)
        else (Ok(DeployResult(o.settledStatus)), executed + [Settled(o.stackName)])
  }

  /** `Deploy`: creates the change set; a change set without changes skips
      the deployment and any other failure is reported with context. Unless
      `confirm` is set, renders the change set, shows it and asks; a refusal
      cancels. Then executes the change set and waits for the stack to
      settle. */
  method Deploy(opts: DeployOpts, env: Environment, ghost rank: map<string, nat>)
    returns (res: Result<DeployResult>, trace: seq<Event>)
    requires Answers(env) && ChangeSetRender.Ranked(env.changeSets, rank)
    ensures (res, trace) == DeployRun(OutcomesOf(opts, env, rank))
  {
    trace := [];
    var changeSetName, createErr, submitted, polls := Cfn.CreateChangeSet(
      opts.template, env.parsedTemplate, opts.params, opts.tags, opts.stackName, opts.roleArn, env.now, env.remote);
    if createErr.Some? {
      if Text(createErr.value) == NoChangeFoundMsg {
        return Ok(DeployResult("DEPLOY_SKIPPED")), trace;
      }
      return Err(Wrapped("creating changeset", createErr.value)), trace;
    }
    ghost var o := OutcomesOf(opts, env, rank);
    assert Cfn.DecideType(Cfn.GetStack(env.remote.describeStacks)).Ok?;
    assert o.created.None? && o.changeSetName == changeSetName;

    var confirm := opts.confirm;
    if !confirm {
      var status := ChangeSetRender.FormatChangeSet(env.changeSets, rank, opts.stackName, changeSetName);
      assert status == o.shown;
      if status.Err? {
        return Err(status.error), trace;
      }
      trace := [Shown(status.value), Asked];
      if env.answer.Err? {
        return Err(env.answer.error), trace;
      }
      confirm := env.answer.value;
      if !confirm {
        return Err(Message(CancelledMsg)), trace;
      }
    }

    trace := trace + [Executed(opts.stackName, changeSetName)];
    if env.executeReply.Some? {
      return Err(env.executeReply.value), trace;
    }

    trace := trace + [Settled(opts.stackName)];
    var (status, messages) := env.settled;
    return Ok(DeployResult(status)), trace;
  }

  /** A deployment executes the change set it created exactly when the
      creation succeeded and the change set was approved, and never executes
      any other. */
  lemma DeployExecutesOnlyWhenApproved(o: Outcomes)
    ensures var trace := DeployRun(o).1;
      && (Executed(o.stackName, o.changeSetName) in trace <==> o.created.None? && Approved(o))
      && (forall e :: e in trace && e.Executed? ==> e == Executed(o.stackName, o.changeSetName))
  {
  }

  /** The change set is shown, and the operator asked, only when
      confirmation is not skipped and the change set could be rendered; the
      rendering is shown first. With confirmation skipped, a created change
      set is executed straight away. */
  lemma DeployAsksAfterShowing(o: Outcomes)
    ensures var trace := DeployRun(o).1;
      && ((exists e :: e in trace && e.Shown?) <==> o.created.None? && !o.confirm && o.shown.Ok?)
      && (Asked in trace <==> o.created.None? && !o.confirm && o.shown.Ok?)
      && (Asked in trace ==> |trace| >= 2 && trace[0] == Shown(o.shown.value) && trace[1] == Asked)
      && (o.created.None? && o.confirm ==> |trace| > 0 && trace[0] == Executed(o.stackName, o.changeSetName))
  {
    var trace := DeployRun(o).1;
    if o.created.None? && !o.confirm && o.shown.Ok? {
      assert trace[0] == Shown(o.shown.value);
    }
  }

  /** How a deployment ends: skipped when the change set has no changes,
      the creation failure under "creating changeset", the rendering or
      prompt failure as it is, a refusal as a cancellation, the execute
      failure as it is, or the settled status. */
  lemma DeployOutcome(o: Outcomes)
    ensures var res := DeployRun(o).0;
      && (o.created.Some? && Text(o.created.value) == NoChangeFoundMsg ==> res == Ok(DeployResult("DEPLOY_SKIPPED")))
      && (o.created.Some? && Text(o.created.value) != NoChangeFoundMsg ==> res == Err(Wrapped("creating changeset", o.created.value)))
      && (o.created.None? && !o.confirm && o.shown.Err? ==> res == Err(o.shown.error))
      && (o.created.None? && !o.confirm && o.shown.Ok? && o.answer.Err? ==> res == Err(o.answer.error))
      && (o.created.None? && !o.confirm && o.shown.Ok? && o.answer == Ok(false) ==> res == Err(Message(CancelledMsg)))
      && (o.created.None? && Approved(o) ==>
            res == (if o.executeReply.Some? then Err(o.executeReply.value) else Ok(DeployResult(o.settledStatus))))
  {
  }

  /** A deployment that reports a final status other than a skip has
      executed the change set it created and then waited for the stack. */
  lemma DeploySettledOnlyAfterExecuting(o: Outcomes)
    requires DeployRun(o).0.Ok? && DeployRun(o).1 != []
    ensures var trace := DeployRun(o).1;
      && |trace| >= 2
      && trace[|trace| - 1] == Settled(o.stackName)
      && trace[|trace| - 2] == Executed(o.stackName, o.changeSetName)
  {
  }

  /** A deployment reports success exactly when it was skipped, or it
      created, was approved, executed and the stack settled. */
  lemma DeploySucceeds(o: Outcomes)
    ensures DeployRun(o).0.Ok? <==>
      (o.created.Some? && Text(o.created.value) == NoChangeFoundMsg)
      || (o.created.None? && Approved(o) && o.executeReply.None?)
  {
  }

  /** `Delete`: requests the deletion, with the role when one is given; a
      refused request is reported as it is, otherwise waits for the stack
      to settle and reports its status with the service's reply. */
  method Delete(opts: DeleteOpts, deleteReply: Result<DeleteStackOutput>, settled: (string, seq<string>))
    returns (res: Result<DeleteResult>, trace: seq<Event>)
    ensures trace == [DeleteRequested(Cfn.DeleteInput(opts.stackName, opts.roleArn))]
                     + (if deleteReply.Ok? then [Settled(opts.stackName)] else [])
    ensures deleteReply.Err? ==> res == Err(deleteReply.error)
    ensures deleteReply.Ok? ==> res == Ok(DeleteResult(settled.0, deleteReply.value))
    ensures Settled(opts.stackName) in trace <==> deleteReply.Ok?
  {
    trace := [DeleteRequested(Cfn.DeleteInput(opts.stackName, opts.roleArn))];
    if deleteReply.Err? {
      return Err(deleteReply.error), trace;
    }
    trace := trace + [Settled(opts.stackName)];
    var (status, messages) := settled;
    return Ok(DeleteResult(status, deleteReply.value)), trace;
  }

  /** The service's verdict on a change set without changes is what makes a
      deployment skip: a create run whose poll ends on `FAILED` with that
      reason reports exactly the message `Deploy` compares against. */
  lemma NoChangeIsSkipped(remote: Cfn.Remote)
    requires Cfn.GetStackDefined(remote.describeStacks)
    requires Cfn.Polls(remote.describeStacks, remote) && Cfn.EventuallyTerminal(remote.describeReplies)
    requires var reply := remote.describeReplies[Cfn.FirstTerminal(remote.describeReplies)];
      reply.Ok? && reply.value.status == "FAILED" && reply.value.statusReason == NoChangeFoundMsg
    ensures Cfn.CreateError(remote).Some? && Text(Cfn.CreateError(remote).value) == NoChangeFoundMsg
  {
  }

  /** Setting `confirm` twice keeps the last value; setting it to what it
      already is changes nothing. */
  lemma WithConfirmLastWins(a: bool, b: bool, o: DeployOpts)
    ensures WithConfirm(a)(WithConfirm(b)(o)) == WithConfirm(a)(o)
    ensures WithConfirm(o.confirm)(o) == o
  {
  }
}
