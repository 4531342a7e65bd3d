/** Rendering a change set, and the change sets of its nested stacks, as an
    indented tree of coloured lines. The change sets the service knows are a
    map from change-set name to what describing it returns; the renderer
    reaches nested change sets through that map, and a ghost ranking under
    which every nested change set ranks below its parent bounds the tree it
    walks (the service never links change sets in a cycle). */
module ChangeSetRender {

  import opened Errors
  import opened Strings
  import opened Console
  import opened CfnTypes
  import Cfn

  type Store = map<string, Result<ChangeSetDescription>>

  // ---------------------------------------------------------------------
  // Lines
  // ---------------------------------------------------------------------

  /** The header line naming the stack, without its newline. */
  function HeaderLine(stackName: string): string
  {
    Paint(Yellow, "Stack " + stackName) + ":"
  }

  /** The header as written, with its newline. */
  function Header(stackName: string): string
  {
    HeaderLine(stackName) + "\n"
  }

  /** The marker line of one change: green `+` for an addition, blue `>`
      for a modification, red `-` for a removal, nothing for any other
      action. */
  function ActionLine(action: ChangeAction, text: string): string
  {
    match action
    case Add => Paint(Green, "  + " + text)
    case Modify => Paint(Blue, "  > " + text)
    case Remove => Paint(Red, "  - " + text)
    case OtherAction(_) => ""
  }

  /** The entry of a change that is not a nested stack. */
  function PlainEntry(c: ResourceChange): string
  {
    ActionLine(c.action, c.resourceType + " " + c.logicalId) + "\n"
  }

  /** Every line of `s` with `prefix` in front of it. */
  function Indent(prefix: string, s: string): string
  {
    var lines := Split(s, '\n');
    Join(seq(|lines|, k requires 0 <= k < |lines| => prefix + lines[k]), '\n')
  }

  /** Indenting keeps the lines of `s`, each behind the prefix. */
  lemma IndentLines(prefix: string, s: string)
    requires '\n' !in prefix
    ensures Split(Indent(prefix, s), '\n')
         == seq(|Split(s, '\n')|, k requires 0 <= k < |Split(s, '\n')| => prefix + Split(s, '\n')[k])
  {
    var lines := Split(s, '\n');
    var prefixed := seq(|lines|, k requires 0 <= k < |lines| => prefix + lines[k]);
    forall k | 0 <= k < |prefixed| ensures '\n' !in prefixed[k] {
      assert prefixed[k] == prefix + lines[k];
    }
    SplitJoin(prefixed, '\n');
  }

  /** The context the renderer puts on a change set it could not fetch. */
  function FetchContext(changeSetName: string, stackName: string): string
  {
    "error getting changeset '" + changeSetName + "' for stack '" + stackName + "'"
  }

  // ---------------------------------------------------------------------
  // The rendering, as a function
  // ---------------------------------------------------------------------

  /** The entries of the plain changes among the first `n` of `cs`, in
      order; nested stacks are skipped. */
  function PlainUpTo(cs: seq<ResourceChange>, n: nat): string
    requires n <= |cs|
  {
    if n == 0 then ""
    else PlainUpTo(cs, n - 1) + (if cs[n - 1].nestedChangeSetId.None? then PlainEntry(cs[n - 1]) else "")
  }

  /** A ranking of change-set names under which every nested change set
      ranks below the change set that names it: nesting has no cycle. */
  ghost predicate Ranked(store: Store, rank: map<string, nat>)
  {
    forall id, c :: id in store && store[id].Ok? && c in store[id].value.changes && c.nestedChangeSetId.Some?
      ==> id in rank && c.nestedChangeSetId.value in rank && rank[c.nestedChangeSetId.value] < rank[id]
  }

  function Rank(rank: map<string, nat>, id: string): nat
  {
    if id in rank then rank[id] else 0
  }

  /** The nested change set of `c` ranks below `r`. */
  ghost predicate ChildBelow(rank: map<string, nat>, c: ResourceChange, r: nat)
  {
    c.nestedChangeSetId.Some? ==> c.nestedChangeSetId.value in rank && rank[c.nestedChangeSetId.value] < r
  }

  /** Every nested stack among `cs` ranks below `r`. */
  ghost predicate Below(rank: map<string, nat>, cs: seq<ResourceChange>, r: nat)
  {
    forall k :: 0 <= k < |cs| ==> ChildBelow(rank, cs[k], r)
  }

  lemma RankedChildren(store: Store, rank: map<string, nat>, id: string, cs: ChangeSetDescription)
    requires Ranked(store, rank) && id in store && store[id] == Ok(cs)
    ensures Below(rank, cs.changes, Rank(rank, id))
  {
    forall k | 0 <= k < |cs.changes| ensures ChildBelow(rank, cs.changes[k], Rank(rank, id)) {
      assert cs.changes[k] in store[id].value.changes;
    }
  }

  /** The text a change set renders to: its header, the entries of its plain
      changes, then one block per nested stack, white space trimmed at both
      ends. The first failure met, in that order, is the result. */
  function Render(store: Store, ghost rank: map<string, nat>, stackName: string, changeSetName: string)
    : Result<string>
    requires Ranked(store, rank)
    decreases Rank(rank, changeSetName), 1
  {
    match Cfn.GetChangeSet(store, stackName, changeSetName)
    case Err(e) => Err(Wrapped(FetchContext(changeSetName, stackName), e))
    case Ok(cs) =>
      RankedChildren(store, rank, changeSetName, cs);
      match NestedUpTo(store, rank, Rank(rank, changeSetName), cs.changes, |cs.changes|)
      case Err(e) => Err(e)
      case Ok(nested) => Ok(TrimSpace(Header(cs.stackName) + PlainUpTo(cs.changes, |cs.changes|) + nested))
  }

  /** Joining two pieces of output, the first failure winning. */
  function Then(a: Result<string>, b: Result<string>): Result<string>
  {
    match a
    case Err(e) => Err(e)
    case Ok(x) =>
      match b
      case Err(e) => Err(e)
      case Ok(y) => Ok(x + y)
  }

  /** The block of one nested stack: its change set rendered under an empty
      stack name, then split into header and body. */
  function ChildBlock(store: Store, ghost rank: map<string, nat>, ghost r: nat, c: ResourceChange): Result<string>
    requires Ranked(store, rank)
    requires c.nestedChangeSetId.Some? && ChildBelow(rank, c, r)
    decreases r, 0, 0
  {
    match Render(store, rank, "", c.nestedChangeSetId.value)
    case Err(e) => Err(e)
    case Ok(child) => NestedBlock(c.action, child)
  }

  /** The blocks of the nested stacks among the first `n` of `cs`, in order;
      plain changes are skipped. */
  function NestedUpTo(store: Store, ghost rank: map<string, nat>, ghost r: nat, cs: seq<ResourceChange>, n: nat)
    : Result<string>
    requires Ranked(store, rank) && Below(rank, cs, r) && n <= |cs|
    decreases r, 0, n
  {
    if n == 0 then Ok("")
    else
      var c := cs[n - 1];
      Then(NestedUpTo(store, rank, r, cs, n - 1),
           if c.nestedChangeSetId.Some? then ChildBlock(store, rank, r, c) else Ok(""))
  }

  /** The block of one nested stack, given its own rendering: the child's
      first line behind the change's marker, then the child's remaining
      lines indented. A child rendering without a second line has nothing
      to index and fails. */
  function NestedBlock(action: ChangeAction, child: string): (r: Result<string>)
    ensures r.Err? <==> '\n' !in child
    ensures r.Err? ==> r.error == IndexOutOfRange
  {
    var parts := SplitN2(child, '\n');
    if |parts| < 2 then Err(IndexOutOfRange)
    else Ok(ActionLine(action, parts[0]) + "\n" + Indent("  ", parts[1]) + "\n")
  }

  /** Once the blocks of a prefix fail, the whole section fails the same way. */
  lemma {:induction false} FailureStays(store: Store, rank: map<string, nat>, r: nat, cs: seq<ResourceChange>,
                                        n: nat, m: nat)
    requires Ranked(store, rank) && Below(rank, cs, r) && n <= m <= |cs|
    requires NestedUpTo(store, rank, r, cs, n).Err?
    ensures NestedUpTo(store, rank, r, cs, m) == NestedUpTo(store, rank, r, cs, n)
    decreases m
  {
    if n < m {
      FailureStays(store, rank, r, cs, n, m - 1);
    }
  }

  /** Extending a section that has not failed by one more change. */
  lemma NestedStep(store: Store, rank: map<string, nat>, r: nat, cs: seq<ResourceChange>, i: nat, blocks: string)
    requires Ranked(store, rank) && Below(rank, cs, r) && i < |cs|
    requires NestedUpTo(store, rank, r, cs, i) == Ok(blocks)
    ensures ChildBelow(rank, cs[i], r)
    ensures cs[i].nestedChangeSetId.None? ==> NestedUpTo(store, rank, r, cs, i + 1) == Ok(blocks)
    ensures cs[i].nestedChangeSetId.Some? ==>
      NestedUpTo(store, rank, r, cs, i + 1) == Then(Ok(blocks), ChildBlock(store, rank, r, cs[i]))
  {
    AppendEmpty(blocks);
  }

  /** `Render` once the change set is fetched. */
  lemma RenderFetched(store: Store, rank: map<string, nat>, stackName: string, changeSetName: string,
                      cs: ChangeSetDescription)
    requires Ranked(store, rank) && Cfn.GetChangeSet(store, stackName, changeSetName) == Ok(cs)
    ensures Below(rank, cs.changes, Rank(rank, changeSetName))
    ensures Render(store, rank, stackName, changeSetName)
         == match NestedUpTo(store, rank, Rank(rank, changeSetName), cs.changes, |cs.changes|)
            case Err(e) => Err(e)
            case Ok(nested) => Ok(TrimSpace(Header(cs.stackName) + PlainUpTo(cs.changes, |cs.changes|) + nested))
  {
    RankedChildren(store, rank, changeSetName, cs);
  }

  // ---------------------------------------------------------------------
  // The rendering, as the source writes it
  // ---------------------------------------------------------------------

  /** Fetches the change set, writes its header and its plain changes in one
      pass, then renders each nested stack's change set under an empty stack
      name in a second pass, and trims the result. */
  method FormatChangeSet(store: Store, ghost rank: map<string, nat>, stackName: string, changeSetName: string)
    returns (r: Result<string>)
    requires Ranked(store, rank)
    ensures r == Render(store, rank, stackName, changeSetName)
    decreases Rank(rank, changeSetName), 1, 0
  {
    var fetched := Cfn.GetChangeSet(store, stackName, changeSetName);
    if fetched.Err? {
      return Err(Wrapped(FetchContext(changeSetName, stackName), fetched.error));
    }
    var status := fetched.value;
    var changes := status.changes;
    ghost var top := Rank(rank, changeSetName);
    RenderFetched(store, rank, stackName, changeSetName, status);
    var out := FormatPlainChanges(Header(status.stackName), changes);
    var nested := FormatNestedStacks(store, rank, top, changes);
    if nested.Err? {
      return Err(nested.error);
    }
    out := out + nested.value;
    return Ok(TrimSpace(out));
  }

  /** The first pass: after `header`, one line for every change that is not
      a nested stack, in order. */
  method FormatPlainChanges(header: string, changes: seq<ResourceChange>) returns (out: string)
    ensures out == header + PlainUpTo(changes, |changes|)
  {
    out := header;
    for i := 0 to |changes|
      invariant out == header + PlainUpTo(changes, i)
    {
      var change := changes[i];
      PlainStep(header, changes, i, out);
      if change.nestedChangeSetId.Some? {
        continue;
      }
      out := out + ActionLine(change.action, change.resourceType + " " + change.logicalId);
      out := out + "\n";
    }
  }

  /** One step of the first pass: a nested stack adds nothing, any other
      change adds its line and a newline. */
  lemma PlainStep(header: string, cs: seq<ResourceChange>, i: nat, out: string)
    requires i < |cs| && out == header + PlainUpTo(cs, i)
    ensures cs[i].nestedChangeSetId.Some? ==> out == header + PlainUpTo(cs, i + 1)
    ensures cs[i].nestedChangeSetId.None? ==>
      out + ActionLine(cs[i].action, cs[i].resourceType + " " + cs[i].logicalId) + "\n" == header + PlainUpTo(cs, i + 1)
  {
    if cs[i].nestedChangeSetId.Some? {
      AppendEmpty(PlainUpTo(cs, i));
    } else {
      Regroup(header, PlainUpTo(cs, i), ActionLine(cs[i].action, cs[i].resourceType + " " + cs[i].logicalId), "\n");
    }
  }

  /** The second pass: the block of every nested stack among `changes`, in
      order, stopping at the first failure. */
  method FormatNestedStacks(store: Store, ghost rank: map<string, nat>, ghost top: nat, changes: seq<ResourceChange>)
    returns (r: Result<string>)
    requires Ranked(store, rank) && Below(rank, changes, top)
    ensures r == NestedUpTo(store, rank, top, changes, |changes|)
    decreases top, 0, 1
  {
    var out := "";
    for i := 0 to |changes|
      invariant NestedUpTo(store, rank, top, changes, i) == Ok(out)
    {
      var change := changes[i];
      NestedStep(store, rank, top, changes, i, out);
      if change.nestedChangeSetId.None? {
        continue;
      }
      var block := FormatNestedStack(store, rank, top, change);
      if block.Err? {
        FailureStays(store, rank, top, changes, i + 1, |changes|);
        return Err(block.error);
      }
      out := out + block.value;
    }
    return Ok(out);
  }

  /** One nested stack: renders its change set under an empty stack name
      and writes the first line of that behind the change's marker and the
      remaining lines indented. */
  method FormatNestedStack(store: Store, ghost rank: map<string, nat>, ghost r: nat, change: ResourceChange)
    returns (block: Result<string>)
    requires Ranked(store, rank)
    requires change.nestedChangeSetId.Some? && ChildBelow(rank, change, r)
    ensures block == ChildBlock(store, rank, r, change)
    decreases r, 0, 0
  {
    var child := FormatChangeSet(store, rank, "", change.nestedChangeSetId.value);
    if child.Err? {
      return Err(child.error);
    }
    var parts := SplitN2(child.value, '\n');
    if |parts| < 2 {
      return Err(IndexOutOfRange);
    }
    var header, body := parts[0], parts[1];
    var out := ActionLine(change.action, header);
    out := out + "\n";
    out := out + Indent("  ", body);
    out := out + "\n";
    return Ok(out);
  }

  lemma Regroup(h: string, p: string, a: string, b: string)
    ensures h + p + a + b == h + (p + (a + b))
  {
  }

  // ---------------------------------------------------------------------
  // Properties of the rendering
  // ---------------------------------------------------------------------

  lemma HeaderLineShape(stackName: string)
    ensures |HeaderLine(stackName)| > 0 && HeaderLine(stackName)[0] == Esc
    ensures !IsSpace(HeaderLine(stackName)[|HeaderLine(stackName)| - 1])
    ensures '\n' !in stackName ==> '\n' !in HeaderLine(stackName)
  {
    var p := Paint(Yellow, "Stack " + stackName);
    assert HeaderLine(stackName) == p + ":";
    if '\n' !in stackName {
      assert '\n' !in "Stack " + stackName;
    }
  }

  lemma TrimAfterHeader(stackName: string, rest: string)
    ensures TrimSpace(Header(stackName) + rest)
         == HeaderLine(stackName) + (if AllSpace(rest) then "" else "\n" + TrimRight(rest))
  {
    HeaderLineShape(stackName);
    TrimAfterLine(HeaderLine(stackName), rest);
  }

  /** What a fetched change set renders to: the header line alone when
      nothing after the header is visible, else the header line, a newline
      and everything after it with trailing white space trimmed. */
  lemma RenderShape(store: Store, rank: map<string, nat>, stackName: string, changeSetName: string,
                    cs: ChangeSetDescription, nested: string)
    requires Ranked(store, rank) && Cfn.GetChangeSet(store, stackName, changeSetName) == Ok(cs)
    requires Below(rank, cs.changes, Rank(rank, changeSetName))
    requires NestedUpTo(store, rank, Rank(rank, changeSetName), cs.changes, |cs.changes|) == Ok(nested)
    ensures var rest := PlainUpTo(cs.changes, |cs.changes|) + nested;
      Render(store, rank, stackName, changeSetName)
        == Ok(HeaderLine(cs.stackName) + (if AllSpace(rest) then "" else "\n" + TrimRight(rest)))
  {
    RenderFetched(store, rank, stackName, changeSetName, cs);
    Associate(Header(cs.stackName), PlainUpTo(cs.changes, |cs.changes|), nested);
    TrimAfterHeader(cs.stackName, PlainUpTo(cs.changes, |cs.changes|) + nested);
  }

  /** A rendering always opens with the header line of the stack the change
      set belongs to. */
  lemma RenderStartsWithHeader(store: Store, rank: map<string, nat>, stackName: string, changeSetName: string)
    requires Ranked(store, rank) && Render(store, rank, stackName, changeSetName).Ok?
    ensures changeSetName in store && store[changeSetName].Ok?
    ensures HasPrefix(Render(store, rank, stackName, changeSetName).value,
                      HeaderLine(store[changeSetName].value.stackName))
  {
    var cs := store[changeSetName].value;
    RankedChildren(store, rank, changeSetName, cs);
    var nested := NestedUpTo(store, rank, Rank(rank, changeSetName), cs.changes, |cs.changes|).value;
    RenderShape(store, rank, stackName, changeSetName, cs, nested);
  }

  /** A change set without changes renders as its header line alone. */
  lemma RenderEmpty(store: Store, rank: map<string, nat>, stackName: string, changeSetName: string)
    requires Ranked(store, rank) && changeSetName in store && store[changeSetName].Ok?
    requires store[changeSetName].value.changes == []
    ensures Render(store, rank, stackName, changeSetName) == Ok(HeaderLine(store[changeSetName].value.stackName))
  {
    var cs := store[changeSetName].value;
    RankedChildren(store, rank, changeSetName, cs);
    RenderShape(store, rank, stackName, changeSetName, cs, "");
    AppendEmpty("");
    AppendEmpty(HeaderLine(cs.stackName));
  }

  /** With no nested stacks, the section of nested blocks is empty. */
  lemma {:induction false} NestedUpToNone(store: Store, rank: map<string, nat>, r: nat, cs: seq<ResourceChange>, n: nat)
    requires Ranked(store, rank) && Below(rank, cs, r) && n <= |cs|
    requires forall k :: 0 <= k < |cs| ==> cs[k].nestedChangeSetId.None?
    ensures NestedUpTo(store, rank, r, cs, n) == Ok("")
  {
    if n > 0 {
      NestedUpToNone(store, rank, r, cs, n - 1);
      assert "" + "" == "";
    }
  }

  /** A change set of plain changes whose last change has a known action
      renders as the header line and one line per change, without the
      final newline. */
  lemma RenderAllPlain(store: Store, rank: map<string, nat>, stackName: string, changeSetName: string)
    requires Ranked(store, rank) && changeSetName in store && store[changeSetName].Ok?
    requires var cs := store[changeSetName].value.changes;
      |cs| > 0 && (forall k :: 0 <= k < |cs| ==> cs[k].nestedChangeSetId.None?)
      && !cs[|cs| - 1].action.OtherAction?
    ensures var d := store[changeSetName].value; var cs := d.changes; var last := cs[|cs| - 1];
      Render(store, rank, stackName, changeSetName)
        == Ok(HeaderLine(d.stackName) + "\n" + PlainUpTo(cs, |cs| - 1)
              + ActionLine(last.action, last.resourceType + " " + last.logicalId))
  {
    var d := store[changeSetName].value;
    var cs := d.changes;
    var last := cs[|cs| - 1];
    RankedChildren(store, rank, changeSetName, d);
    NestedUpToNone(store, rank, Rank(rank, changeSetName), cs, |cs|);
    RenderShape(store, rank, stackName, changeSetName, d, "");
    var line := ActionLine(last.action, last.resourceType + " " + last.logicalId);
    assert PlainUpTo(cs, |cs|) == PlainUpTo(cs, |cs| - 1) + (line + "\n");
    TrimRightLastNewline(HeaderLine(d.stackName), PlainUpTo(cs, |cs| - 1), line);
  }

  /** The block of a nested stack whose rendering starts with a header line:
      that header line behind the change's marker, then the rest indented. */
  lemma NestedBlockOfRendered(action: ChangeAction, childStack: string, rest: string)
    requires '\n' !in childStack
    ensures NestedBlock(action, HeaderLine(childStack) + "\n" + rest)
         == Ok(ActionLine(action, HeaderLine(childStack)) + "\n" + Indent("  ", rest) + "\n")
  {
    HeaderLineShape(childStack);
    SplitN2AfterHead(HeaderLine(childStack), rest, '\n');
  }

  /** A nested stack whose change set has no changes renders as a header
      line alone; with no second line to index, the whole rendering fails. */
  lemma ChildWithoutChangesPanics(store: Store, rank: map<string, nat>, stackName: string, changeSetName: string)
    requires Ranked(store, rank) && changeSetName in store && store[changeSetName].Ok?
    requires var cs := store[changeSetName].value.changes;
      |cs| == 1 && cs[0].nestedChangeSetId.Some?
      && cs[0].nestedChangeSetId.value in store && store[cs[0].nestedChangeSetId.value].Ok?
      && store[cs[0].nestedChangeSetId.value].value.changes == []
      && '\n' !in store[cs[0].nestedChangeSetId.value].value.stackName
    ensures Render(store, rank, stackName, changeSetName) == Err(IndexOutOfRange)
  {
    var d := store[changeSetName].value;
    var c := d.changes[0];
    var child := store[c.nestedChangeSetId.value].value;
    RankedChildren(store, rank, changeSetName, d);
    RenderEmpty(store, rank, "", c.nestedChangeSetId.value);
    HeaderLineShape(child.stackName);
    RenderFetched(store, rank, stackName, changeSetName, d);
  }

  // ---------------------------------------------------------------------
  // Where failures come from
  // ---------------------------------------------------------------------

  /** `e` is what the renderer reports for a change set it could not fetch:
      the fetch error, under the change-set name and the stack name it was
      asked for (the top-level stack name, or the empty name nested change
      sets are fetched under). */
  ghost predicate FetchFailure(store: Store, stackName: string, e: Error)
  {
    exists id, stack :: (stack == stackName || stack == "")
      && Cfn.GetChangeSet(store, stack, id).Err?
      && e == Wrapped(FetchContext(id, stack), Cfn.GetChangeSet(store, stack, id).error)
  }

  /** Every failure of a rendering is either a change set that could not be
      fetched, passed up unchanged from however deep it was met, or the
      index failure of a nested stack without a second line. */
  lemma {:induction false} RenderFailure(store: Store, rank: map<string, nat>, stackName: string, changeSetName: string)
    requires Ranked(store, rank) && Render(store, rank, stackName, changeSetName).Err?
    ensures var e := Render(store, rank, stackName, changeSetName).error;
      e == IndexOutOfRange || FetchFailure(store, stackName, e)
    decreases Rank(rank, changeSetName), 1
  {
    var fetched := Cfn.GetChangeSet(store, stackName, changeSetName);
    if fetched.Ok? {
      var cs := fetched.value;
      RenderFetched(store, rank, stackName, changeSetName, cs);
      NestedFailure(store, rank, Rank(rank, changeSetName), cs.changes, |cs.changes|);
      var e := Render(store, rank, stackName, changeSetName).error;
      if e != IndexOutOfRange {
        var id, stack :| stack == "" && Cfn.GetChangeSet(store, stack, id).Err?
          && e == Wrapped(FetchContext(id, stack), Cfn.GetChangeSet(store, stack, id).error);
      }
    } else {
      assert Render(store, rank, stackName, changeSetName).error
          == Wrapped(FetchContext(changeSetName, stackName), Cfn.GetChangeSet(store, stackName, changeSetName).error);
    }
  }

  lemma {:induction false} NestedFailure(store: Store, rank: map<string, nat>, r: nat, cs: seq<ResourceChange>, n: nat)
    requires Ranked(store, rank) && Below(rank, cs, r) && n <= |cs|
    requires NestedUpTo(store, rank, r, cs, n).Err?
    ensures var e := NestedUpTo(store, rank, r, cs, n).error;
      e == IndexOutOfRange || FetchFailure(store, "", e)
    decreases r, 0, n
  {
    var c := cs[n - 1];
    if NestedUpTo(store, rank, r, cs, n - 1).Err? {
      NestedFailure(store, rank, r, cs, n - 1);
    } else {
      assert ChildBelow(rank, c, r);
      if Render(store, rank, "", c.nestedChangeSetId.value).Err? {
        RenderFailure(store, rank, "", c.nestedChangeSetId.value);
      }
    }
  }

  // ---------------------------------------------------------------------
  // When the index failure cannot happen
  // ---------------------------------------------------------------------

  /** Some change of `cs` has an action that is drawn with a marker. */
  ghost predicate ShowsAChange(cs: seq<ResourceChange>)
  {
    exists k :: 0 <= k < |cs| && !cs[k].action.OtherAction?
  }

  /** Every change set a nested stack points at, when it can be fetched,
      shows a change. */
  ghost predicate NestedShowChanges(store: Store)
  {
    forall id, c :: id in store && store[id].Ok? && c in store[id].value.changes
      && c.nestedChangeSetId.Some? && c.nestedChangeSetId.value in store
      && store[c.nestedChangeSetId.value].Ok?
      ==> ShowsAChange(store[c.nestedChangeSetId.value].value.changes)
  }

  /** The nested stacks among `cs` point at change sets that show a change. */
  ghost predicate ChildrenShowChanges(store: Store, cs: seq<ResourceChange>)
  {
    forall k :: 0 <= k < |cs| && cs[k].nestedChangeSetId.Some?
      && cs[k].nestedChangeSetId.value in store && store[cs[k].nestedChangeSetId.value].Ok?
      ==> ShowsAChange(store[cs[k].nestedChangeSetId.value].value.changes)
  }

  lemma ShowingChildren(store: Store, id: string, cs: ChangeSetDescription)
    requires NestedShowChanges(store) && id in store && store[id] == Ok(cs)
    ensures ChildrenShowChanges(store, cs.changes)
  {
    forall k | 0 <= k < |cs.changes| && cs.changes[k].nestedChangeSetId.Some?
      && cs.changes[k].nestedChangeSetId.value in store && store[cs.changes[k].nestedChangeSetId.value].Ok?
      ensures ShowsAChange(store[cs.changes[k].nestedChangeSetId.value].value.changes)
    {
      assert cs.changes[k] in store[id].value.changes;
    }
  }

  /** A plain change with a marker puts an escape character into the plain
      section. */
  lemma {:induction false} PlainShowsEscape(cs: seq<ResourceChange>, n: nat, k: nat)
    requires k < n <= |cs| && cs[k].nestedChangeSetId.None? && !cs[k].action.OtherAction?
    ensures Esc in PlainUpTo(cs, n)
  {
    if k == n - 1 {
      var entry := PlainEntry(cs[k]);
      assert entry[0] == Esc;
      assert PlainUpTo(cs, n)[|PlainUpTo(cs, n - 1)|] == Esc;
    } else {
      PlainShowsEscape(cs, n - 1, k);
    }
  }

  /** A nested stack with a marker puts an escape character into the nested
      section. */
  lemma {:induction false} NestedShowsEscape(store: Store, rank: map<string, nat>, r: nat, cs: seq<ResourceChange>,
                                             n: nat, k: nat)
    requires Ranked(store, rank) && Below(rank, cs, r)
    requires k < n <= |cs| && cs[k].nestedChangeSetId.Some? && !cs[k].action.OtherAction?
    requires NestedUpTo(store, rank, r, cs, n).Ok?
    ensures Esc in NestedUpTo(store, rank, r, cs, n).value
  {
    if k == n - 1 {
      var c := cs[k];
      assert ChildBelow(rank, c, r);
      var child := Render(store, rank, "", c.nestedChangeSetId.value).value;
      var parts := SplitN2(child, '\n');
      var block := ChildBlock(store, rank, r, c).value;
      assert block == ActionLine(c.action, parts[0]) + "\n" + Indent("  ", parts[1]) + "\n";
      assert block[0] == Esc;
      assert NestedUpTo(store, rank, r, cs, n).value[|NestedUpTo(store, rank, r, cs, n - 1).value|] == Esc;
    } else {
      NestedShowsEscape(store, rank, r, cs, n - 1, k);
    }
  }

  /** A change set that shows a change renders to at least two lines. */
  lemma RenderHasSecondLine(store: Store, rank: map<string, nat>, stackName: string, changeSetName: string)
    requires Ranked(store, rank) && changeSetName in store && store[changeSetName].Ok?
    requires ShowsAChange(store[changeSetName].value.changes)
    requires Render(store, rank, stackName, changeSetName).Ok?
    ensures '\n' in Render(store, rank, stackName, changeSetName).value
  {
    var d := store[changeSetName].value;
    var cs := d.changes;
    RenderFetched(store, rank, stackName, changeSetName, d);
    var r := Rank(rank, changeSetName);
    var nested := NestedUpTo(store, rank, r, cs, |cs|).value;
    RenderShape(store, rank, stackName, changeSetName, d, nested);
    var rest := PlainUpTo(cs, |cs|) + nested;
    var k :| 0 <= k < |cs| && !cs[k].action.OtherAction?;
    if cs[k].nestedChangeSetId.None? {
      PlainShowsEscape(cs, |cs|, k);
    } else {
      NestedShowsEscape(store, rank, r, cs, |cs|, k);
    }
    assert Esc in rest;
    assert !AllSpace(rest);
    var h := HeaderLine(d.stackName);
    assert (h + ("\n" + TrimRight(rest)))[|h|] == '\n';
  }

  /** When every change set a nested stack points at shows a change, the
      rendering never fails on the index. */
  lemma {:induction false} RenderNoIndexFailure(store: Store, rank: map<string, nat>, stackName: string,
                                                changeSetName: string)
    requires Ranked(store, rank) && NestedShowChanges(store)
    ensures Render(store, rank, stackName, changeSetName) != Err(IndexOutOfRange)
    decreases Rank(rank, changeSetName), 1
  {
    var fetched := Cfn.GetChangeSet(store, stackName, changeSetName);
    if fetched.Ok? {
      var cs := fetched.value;
      RenderFetched(store, rank, stackName, changeSetName, cs);
      ShowingChildren(store, changeSetName, cs);
      NestedNoIndexFailure(store, rank, Rank(rank, changeSetName), cs.changes, |cs.changes|);
    }
  }

  lemma {:induction false} NestedNoIndexFailure(store: Store, rank: map<string, nat>, r: nat, cs: seq<ResourceChange>,
                                                n: nat)
    requires Ranked(store, rank) && NestedShowChanges(store) && Below(rank, cs, r) && n <= |cs|
    requires ChildrenShowChanges(store, cs)
    ensures NestedUpTo(store, rank, r, cs, n) != Err(IndexOutOfRange)
    decreases r, 0, n
  {
    if n > 0 {
      NestedNoIndexFailure(store, rank, r, cs, n - 1);
      var c := cs[n - 1];
      if c.nestedChangeSetId.Some? {
        assert ChildBelow(rank, c, r);
        var id := c.nestedChangeSetId.value;
        RenderNoIndexFailure(store, rank, "", id);
        if Render(store, rank, "", id).Ok? {
          RenderHasSecondLine(store, rank, "", id);
        }
      }
    }
  }
}
