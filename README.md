# cloudform, modelled in Dafny

cloudform deploys CloudFormation stacks. It creates a change set for a template, shows the change set as a coloured tree, and asks the operator to confirm unless told not to. It then executes the change set and reports the status the stack settles in. It also deletes stacks. This project models the four pieces of the tool whose behaviour can be stated, and proves properties of each:

- **Status classification** (`Colourise`, `colourise.dfy`). A raw stack status maps to a display category, which picks the colour, and to a one-character symbol. Two separate rule lists choose them. A formatted template diff is recoloured line by line, choosing the colour by line prefix.
- **Change-set rendering** (`ChangeSetRender`, `changeset.dfy`). A change set renders as:
  - a header naming its stack;
  - one marker line per plain resource change, in order;
  - one block per nested stack, after all plain changes.

  Each block is the nested stack's own change set, rendered recursively. Its first line goes behind the change's marker and the rest is indented. The whole text is trimmed of surrounding white space.
- **The change-set client** (`Cfn`, `cfn.dfy`):
  - normalising the "stack does not exist" error;
  - the CREATE/UPDATE decision;
  - the change-set name;
  - building the create and delete requests;
  - flattening the tag map;
  - polling the new change set until it is ready or has failed.
- **The deployer** (`Deployer`, `deployer.dfy`). `Deploy`:
  - skips when the service reports no changes;
  - wraps other creation failures;
  - renders, shows and asks unless `confirm` is set;
  - executes the change set;
  - waits for the stack to settle.

  `Delete` requests the deletion and waits.

Supporting modules:
- `Errors` (`errors.dfy`): the error values. A wrapped error's text is the context, `": "`, then the cause's text.
- `Strings` (`strings.dfy`): the string functions the code uses — prefix, suffix, contains, white-space trimming, splitting on a separator (also in at most two parts), joining, and decimal formatting.
- `Console` (`console.dfy`): colours as tag wrappers that can be read back.
- `CfnTypes` (`cfntypes.dfy`): the service's records.

How the outside world is modelled:
- **The service is an oracle.** It is given as the answers it produces:
  - the reply to describing the stack;
  - the reply to the create request;
  - the successive replies to describing the new change set;
  - a map from change-set name to what describing that change set returns;
  - the reply to the execute request;
  - the reply to the delete request;
  - the status and messages the stack settles with.
- **Injected values.** The operator's answer to the prompt is a value (yes, no, or an error). The clock is a parameter.
- **Traces.** `Deploy` and `Delete` record a trace of five kinds of event: showing the change set, asking, executing, requesting the deletion, and waiting for the stack. So "execute is never called" is a statement about the trace. The create request is not an event: `Cfn.CreateChangeSet`'s contract describes it.

Imperative parts keep their loops and are proved against pure reference functions:
- `ColouriseDiff` against `PaintLines` and `Split`;
- `MakeTags` against `IsTagListing`;
- the polling loop against `FirstTerminal` and `PollOutcome`;
- the two passes of `FormatChangeSet` against `PlainUpTo` and `NestedUpTo`;
- `FormatChangeSet` against `Render`;
- `Deploy` against `DeployRun`.

The properties are proved about those functions.

The symbol switch is separate from the category switch (ui/colourise.go:58-73), so `DELETE_IN_PROGRESS` gets `o` and `UPDATE_ROLLBACK_COMPLETE` gets `✓`, although both are failed-coloured (`Colourise.DeleteInProgress`, `Colourise.UpdateRollbackComplete`, `Colourise.FailedSymbolIff`).

## Model

| member | source | states |
|---|---|---|
| Colourise.MapStatus | ui/colourise.go:36-76 | Every status gets a symbol, and it is one of `.`, `x`, `o`, `✓`. The category is total by construction. |
| Colourise.ReviewInProgressIsPending | ui/colourise.go:41-42 | `REVIEW_IN_PROGRESS` ends in `_IN_PROGRESS` yet maps to (pending, `.`). |
| Colourise.FailedCategoryIff | ui/colourise.go:40-55 | The category is failed exactly when the status is not `REVIEW_IN_PROGRESS` and ends in `_FAILED`, starts with `DELETE_` or contains `ROLLBACK`, whatever suffix it also has. |
| Colourise.InProgressCategoryIff | ui/colourise.go:40-55 | The category is in progress exactly for an `_IN_PROGRESS` status that is neither the review status nor a failure pattern. |
| Colourise.CompleteCategoryIff | ui/colourise.go:40-55 | The category is complete exactly for a `_COMPLETE` status that matches no failure pattern. |
| Colourise.PendingCategoryIff | ui/colourise.go:40-55 | The category is pending exactly for the review status and for statuses no rule matches (the default). |
| Colourise.FailedSymbolIff | ui/colourise.go:58-73 | The symbol is `x` exactly for a `_FAILED` suffix. A `DELETE_` prefix or `ROLLBACK` alone never gives it. |
| Colourise.SymbolBySuffix | ui/colourise.go:58-73 | Apart from the review status, the symbol follows the suffix: `o` for `_IN_PROGRESS`, `✓` for `_COMPLETE`, `.` for none of the three. |
| Colourise.SymbolAgreesWithCategory | ui/colourise.go:40-73 | `x` implies failed; in progress implies `o`; complete implies `✓`. |
| Colourise.DeleteInProgress | ui/colourise.go:40-73 | `DELETE_IN_PROGRESS` maps to (failed, `o`). |
| Colourise.UpdateRollbackComplete | ui/colourise.go:40-73 | `UPDATE_ROLLBACK_COMPLETE` maps to (failed, `✓`). |
| Colourise.CreateComplete | ui/colourise.go:40-73 | `CREATE_COMPLETE` maps to (complete, `✓`). |
| Colourise.ColouriseShowsCategory | ui/colourise.go:80-84 | A coloured message reads back as the message, unchanged, in the colour of the status's category. |
| Colourise.ColouriseDependsOnCategoryOnly | ui/colourise.go:80-84 | Two statuses colour a message the same way if and only if they have the same category. |
| Colourise.ColouriseStatusShowsItself | ui/colourise.go:87-89 | A coloured status reads back as the status itself, in its category's colour. |
| Colourise.LineColourPrecedence | ui/colourise.go:98-109 | The first matching diff prefix decides the line's colour, in the order added, removed, changed, involved. A line matching none is plain, and only such a line. |
| Colourise.PaintLines | ui/colourise.go:97-110 | One painted line per input line, each in the colour of its own prefix, in order. |
| Colourise.ColouriseDiff | ui/colourise.go:92-117 | Splitting the output on newlines gives the painted input lines, one for one and in order. So k lines come out joined by k-1 newlines, with no trailing newline added. |
| Colourise.PaintedLinesSplit | ui/colourise.go:111-113 | Painted lines joined by newlines split back into the same painted lines. |
| Strings.SplitN2 | ui/changeset.go:57 | Splitting on the first newline gives two parts exactly when there is a newline. Then the head holds no newline, and head, newline and tail rebuild the input. Otherwise the one part is the input. |
| Cfn.GetStack | cfn/client.go:28-47 | The result is the `StackNotExist` sentinel exactly for a not-found exception or a `ValidationError` API error. A non-API error is passed on as is. A found reply gives its first stack. No API error escapes. |
| Cfn.GetChangeSet | cfn/client.go:65-76 | Describing a change set returns what the service holds under its name, or an API error when there is none. |
| Cfn.DecideType | cfn/client.go:82-91 | The lookup fails the decision exactly for an error other than `StackNotExist`, passing that error on. Otherwise the type is UPDATE exactly for a stack with an id. |
| Cfn.DecideTypeFromReply | cfn/client.go:84-91 | In terms of the service's reply: CREATE for a missing stack (either way it is reported) or a stack without an id. UPDATE for a stack with an id. Failure exactly for a non-API error. |
| Cfn.ChangeSetNameRoundTrip | cfn/client.go:103 | The name starts with the stack name and a dash, and parsing the rest as a decimal gives back the clock's seconds. |
| Cfn.ChangeSetNamesDiffer | cfn/client.go:103 | Two deployments of one stack at different seconds get different change-set names. |
| Cfn.TemplateFields | cfn/client.go:93-101 | Exactly one of template URL and template body is set: the URL when the template parses as one, the body otherwise. |
| Cfn.OptionalRole | cfn/client.go:120-122 | The role is set exactly when the role ARN is non-empty, and then it is that ARN. |
| Cfn.CreateInput | cfn/client.go:105-122 | The create request carries the given type, name, stack, tags and parameters. It always includes nested stacks and always asks for the two capabilities. Exactly one template field is set. The role is set exactly for a non-empty ARN. |
| Cfn.DeleteInput | cfn/client.go:165-176 | The delete request names the stack and carries the role exactly when the ARN is non-empty. |
| Cfn.SameRoleHandling | cfn/client.go:171-173 | Deleting and creating set the role in the same way. |
| Cfn.MakeTags | cfn/client.go:178-189 | One tag per map entry: as many tags as entries, each tag an entry of the map, no key twice, every key present. The order is unspecified. |
| Cfn.FirstTerminal | cfn/client.go:129-149 | The index of the first describe reply that ends the poll (an error, `FAILED`, or a `_COMPLETE` suffix); no earlier reply ends it. |
| Cfn.PollOutcome | cfn/client.go:134-146 | A describe error is returned as is. `FAILED` gives an error whose text is the status reason. Success exactly for any other reply that ends the poll. |
| Cfn.PollSucceedsOnComplete | cfn/client.go:144-151 | A poll succeeds only on a status ending in `_COMPLETE`. |
| Cfn.CreateSucceedsOnlyWhenComplete | cfn/client.go:84-151 | A creation run succeeds only when the lookup succeeded, the request was accepted and the first reply ending the poll is `_COMPLETE`. Every earlier reply was a non-`FAILED`, non-`_COMPLETE` description. |
| Cfn.PollChangeSet | cfn/client.go:129-151 | The polling loop stops at the first reply that ends the poll. It makes exactly that many describe calls and returns what that reply means. |
| Cfn.CreateChangeSet | cfn/client.go:80-152 | A failed lookup aborts with no request and no polling. Otherwise the name is the generated one, the request is the one built from the inputs with the tags listed, and a rejected request is reported without polling. Polling makes one call per reply up to the first that ends it. The error is always `CreateError` of the run. |
| ChangeSetRender.FormatChangeSet | ui/changeset.go:13-75 | The text the code builds equals `Render`, the reference rendering, including which error is reported. |
| ChangeSetRender.FormatPlainChanges | ui/changeset.go:23-45 | After the header come the entries of the plain changes (`PlainUpTo`), in input order, with nested stacks skipped. |
| ChangeSetRender.PlainStep | ui/changeset.go:24-44 | A nested stack adds nothing to the first pass. Any other change adds its marker line (`  + `, `  > `, `  - `, or nothing for another action) and a newline. |
| ChangeSetRender.FormatNestedStacks | ui/changeset.go:48-72 | The second pass produces `NestedUpTo`: the blocks of the nested stacks in input order, stopping at the first failure. |
| ChangeSetRender.FormatNestedStack | ui/changeset.go:53-71 | One nested stack's block equals `ChildBlock`: the recursive rendering under an empty stack name and the change's change-set id, split into header and body. |
| ChangeSetRender.NestedBlock | ui/changeset.go:57-71 | The block fails exactly when the child's rendering has no newline, and then with the index failure. |
| ChangeSetRender.NestedBlockOfRendered | ui/changeset.go:57-71 | For a child that starts with a header line, the block is that header line behind the parent's marker, a newline, the rest indented by two spaces, and a newline. |
| ChangeSetRender.IndentLines | ui/changeset.go:70 | Indenting keeps the lines, each behind the prefix. |
| ChangeSetRender.RenderShape | ui/changeset.go:19-74 | A fetched change set renders as its header line, then a newline and the plain entries followed by the nested blocks, trailing white space trimmed. It is the header line alone when nothing visible follows. So every nested entry comes after every plain entry. |
| ChangeSetRender.RenderStartsWithHeader | ui/changeset.go:21 | A successful rendering starts with the header of the fetched change set's own stack name, not of the stack-name argument. |
| ChangeSetRender.RenderEmpty | ui/changeset.go:74 | A change set without changes renders as its header line alone. |
| ChangeSetRender.RenderAllPlain | ui/changeset.go:23-45 | A non-empty change set of plain changes whose last change is an addition, modification or removal renders as the header line, a newline and one line per change, in input order. The final newline is trimmed away. (A trailing change with another action adds only an empty line, which the trim removes.) |
| ChangeSetRender.ChildWithoutChangesPanics | ui/changeset.go:57-58 | A change set whose single change is a nested stack with an empty change set fails with the index failure: the nested stack's name holds no newline, so its rendering is one line with no second line to index. The general case follows from `NestedBlock` and `RenderEmpty`. |
| ChangeSetRender.RenderFailure | ui/changeset.go:14-56 | Every rendering failure is either the index failure or a fetch failure. A fetch failure carries the change-set name and the stack name it was asked for, and is passed up unchanged from any depth. |
| ChangeSetRender.NestedFailure | ui/changeset.go:48-56 | Every failure of the nested section is the index failure or a fetch failure of a nested change set under the empty stack name. |
| ChangeSetRender.FailureStays | ui/changeset.go:53-56 | Once a nested block fails, the rendering returns that failure and no later block changes it. |
| ChangeSetRender.RenderHasSecondLine | ui/changeset.go:21-45 | A change set that shows a change with a marker renders to at least two lines. |
| ChangeSetRender.RenderNoIndexFailure | ui/changeset.go:57-58 | When every nested change set shows a change, the rendering never fails on the index. |
| Deployer.WithConfirm | deployer/deployer.go:74-78 | The option setter sets `confirm` to its argument and leaves every other option as it was. |
| Deployer.WithConfirmLastWins | deployer/deployer.go:74-78 | Applying two setters keeps the last value; setting the current value changes nothing. |
| Deployer.Deploy | deployer/deployer.go:86-152 | The result and the trace of outside calls equal `DeployRun` of what the calls returned. The creation outcome is `Cfn.CreateError`, and the rendering shown is `Render` of the created change set. |
| Deployer.DeployExecutesOnlyWhenApproved | deployer/deployer.go:96-134 | The created change set is executed exactly when creation succeeded and either `confirm` was set or the change set was shown and the operator said yes. No other change set is ever executed. |
| Deployer.DeployAsksAfterShowing | deployer/deployer.go:111-131 | The change set is shown, and the operator asked, exactly when creation succeeded, `confirm` is not set and the change set rendered. The rendering is the first event, the prompt the second. With `confirm` set, a created change set is executed as the first event. |
| Deployer.DeployOutcome | deployer/deployer.go:96-151 | The result in each case:<br>- the exact no-changes text gives `DEPLOY_SKIPPED`;<br>- any other creation error is wrapped with `creating changeset`;<br>- a rendering or prompt error is returned as it is;<br>- a refusal gives `user cancelled deployment`;<br>- after approval, the execute error is returned unwrapped, else the settled status. |
| Deployer.DeploySucceeds | deployer/deployer.go:96-151 | A deployment succeeds exactly when it was skipped, or when it was created, approved and executed. |
| Deployer.DeploySettledOnlyAfterExecuting | deployer/deployer.go:131-151 | A successful deployment that did anything executed the created change set and then waited for the stack, as its last two events. |
| Deployer.NoChangeIsSkipped | deployer/deployer.go:52 | A poll that ends on `FAILED` with the no-changes reason yields a creation error whose text is exactly the message `Deploy` compares against. |
| Deployer.Delete | deployer/deployer.go:167-196 | The trace is the delete request, which carries the role only for a non-empty ARN, followed by the wait for the stack exactly when the request was accepted. A refused request is returned at once. Otherwise the result is the settled status with the service's reply. |

## Left out

- The service client and its configuration (`New`, `NewFromConfig`) are not modelled. The service's replies are oracle values.
- `GetStackResources` is not modelled: it is a pass-through that nothing in the modelled core calls.
- `ExecuteChangeSet` is modelled only as a reply value and an `Executed` event.
- The spinner, log lines, printed messages and the final-status printing are not modelled. The text shown before the prompt is recorded as a `Shown` event. The prompt is an injected answer: yes, no or an error.
- The terminal colour functions come from a package that is not part of this model. A colour is an escape-code wrapper that can be read back; its exact codes are not claimed.
- `Indent` is not part of this model. It is taken to put the prefix in front of every line.
- The error helper `Errorf` is not part of this model. It is taken to wrap the cause with the given context, like `errors.Wrap`.
- `WaitForStackToSettle` is not part of this model. Its status and messages are an oracle value.
- The diff library's formatting and its four line prefixes are parameters (`DiffMarks`), and `ColouriseDiff` takes the formatted text.
- `statusRep.String` is not modelled: nothing in the modelled core calls it.
- `url.Parse` is a parameter: the parsed URL, or none when parsing fails.
- The clock is a parameter, and the two-second sleep between polls is a no-op. Context cancellation is not modelled; the code never checks it.
- Cfn.GetStack: requires `GetStackDefined`. An API error with a code other than `ValidationError`, or an empty stack list, makes the code index an absent result and crash; those replies are excluded rather than modelled.
- Cfn.CreateChangeSet: requires that some describe reply ends the poll. Without one the code polls forever, which the model does not capture.
- Cfn.PollChangeSet: requires that some describe reply ends the poll, as for `CreateChangeSet`.
- Deployer.Deploy: requires that some describe reply ends the poll, as for `CreateChangeSet`.
- ChangeSetRender.FormatChangeSet: requires the change sets to be nested without a cycle, witnessed by a ranking. The code has no depth guard and would recurse forever on a cycle. The ranking covers every change set the service knows, not only those reachable from the one rendered, so a store with an unreachable cycle is excluded although the code terminates on it.
- ChangeSetRender.FormatChangeSet: the index panic of a nested change set whose rendering has no second line is modelled as the error value `IndexOutOfRange`, passed up like any other error, not as a crash.
- ChangeSetRender.FormatChangeSet: describing a change set is a lookup by change-set name alone. The optional stack name does not narrow it.
- ChangeSetRender.FormatChangeSet: every resource change is taken to carry its resource change record, its resource type and its logical id. The code dereferences all three without a nil check and would crash on a missing one; that crash is not modelled.
- Colourise.MapStatus: its own contract only bounds the symbol. The category and symbol rules are stated by the lemmas beside it.
