/** Status classification and colouring (ui/colourise.go): a raw status
    string from the remote service is mapped to a display category, which
    picks the colour, and to a one-character symbol. The two are chosen by
    separate rule lists. */
module Colourise {

  import opened Errors
  import opened Strings
  import opened Console

  datatype StatusCategory = Failed | Complete | InProgress | Pending

  datatype StatusRep = StatusRep(category: StatusCategory, symbol: string)

  /** The colour of each category (`statusColour`). */
  function CategoryColour(c: StatusCategory): Colour
  {
    match c
    case Pending => Plain
    case InProgress => Blue
    case Failed => Red
    case Complete => Green
  }

  predicate IsFailureStatus(status: string)
  {
    HasSuffix(status, "_FAILED") || HasPrefix(status, "DELETE_") || Contains(status, "ROLLBACK")
  }

  /** `mapStatus`: the first matching rule of each list decides. */
  function MapStatus(status: string): (rep: StatusRep)
    ensures rep.symbol in {".", "x", "o", "✓"}
  {
    var category :=
      if status == "REVIEW_IN_PROGRESS" then Pending
      else if IsFailureStatus(status) then Failed
      else if HasSuffix(status, "_IN_PROGRESS") then InProgress
      else if HasSuffix(status, "_COMPLETE") then Complete
      else Pending;
    var symbol :=
      if status == "REVIEW_IN_PROGRESS" then "."
      else if HasSuffix(status, "_FAILED") then "x"
      else if HasSuffix(status, "_IN_PROGRESS") then "o"
      else if HasSuffix(status, "_COMPLETE") then "✓"
      else ".";
    StatusRep(category, symbol)
  }

  /** `Colourise`: the message in the colour of the status's category. */
  function Colourise(msg: string, status: string): string
  {
    Paint(CategoryColour(MapStatus(status).category), msg)
  }

  /** `ColouriseStatus`: a status in its own colour. */
  function ColouriseStatus(status: string): string
  {
    Colourise(status, status)
  }

  // ---------------------------------------------------------------------
  // Properties of the classification
  // ---------------------------------------------------------------------

  /** `REVIEW_IN_PROGRESS` is pending with `.`, although it ends in `_IN_PROGRESS`. */
  lemma ReviewInProgressIsPending()
    ensures HasSuffix("REVIEW_IN_PROGRESS", "_IN_PROGRESS")
    ensures MapStatus("REVIEW_IN_PROGRESS") == StatusRep(Pending, ".")
  {
    assert "REVIEW_IN_PROGRESS"[6..] == "_IN_PROGRESS";
  }

  /** Failed exactly for the failure patterns, whatever suffix follows. */
  lemma FailedCategoryIff(status: string)
    ensures MapStatus(status).category == Failed
        <==> status != "REVIEW_IN_PROGRESS" && IsFailureStatus(status)
  {
  }

  /** In progress exactly for `_IN_PROGRESS` statuses that are neither the
      review status nor a failure pattern. */
  lemma InProgressCategoryIff(status: string)
    ensures MapStatus(status).category == InProgress
        <==> status != "REVIEW_IN_PROGRESS" && !IsFailureStatus(status) && HasSuffix(status, "_IN_PROGRESS")
  {
  }

  /** Complete exactly for `_COMPLETE` statuses that match no earlier rule. */
  lemma CompleteCategoryIff(status: string)
    ensures MapStatus(status).category == Complete
        <==> !IsFailureStatus(status) && HasSuffix(status, "_COMPLETE")
  {
    if HasSuffix(status, "_COMPLETE") {
      SuffixesExclusive(status);
    }
  }

  /** Pending is the default: the review status, and everything no rule matches. */
  lemma PendingCategoryIff(status: string)
    ensures MapStatus(status).category == Pending
        <==> status == "REVIEW_IN_PROGRESS"
             || (!IsFailureStatus(status) && !HasSuffix(status, "_IN_PROGRESS") && !HasSuffix(status, "_COMPLETE"))
  {
  }

  /** No status ends in two of the three suffixes the rules test. */
  lemma {:induction false} SuffixesExclusive(status: string)
    ensures !(HasSuffix(status, "_FAILED") && HasSuffix(status, "_IN_PROGRESS"))
    ensures !(HasSuffix(status, "_FAILED") && HasSuffix(status, "_COMPLETE"))
    ensures !(HasSuffix(status, "_IN_PROGRESS") && HasSuffix(status, "_COMPLETE"))
  {
    var n := |status|;
    if HasSuffix(status, "_FAILED") {
      assert status[n - 1] == "_FAILED"[6] == 'D';
    }
    if HasSuffix(status, "_IN_PROGRESS") {
      assert status[n - 1] == "_IN_PROGRESS"[11] == 'S';
    }
    if HasSuffix(status, "_COMPLETE") {
      assert status[n - 1] == "_COMPLETE"[8] == 'E';
    }
  }

  /** `x` is reserved for the `_FAILED` suffix: a `DELETE_` prefix or a
      `ROLLBACK` substring alone never gives it. */
  lemma FailedSymbolIff(status: string)
    ensures MapStatus(status).symbol == "x" <==> HasSuffix(status, "_FAILED")
  {
    assert "REVIEW_IN_PROGRESS"[|"REVIEW_IN_PROGRESS"| - 1] == 'S';
  }

  /** The symbol follows the suffix alone. */
  lemma SymbolBySuffix(status: string)
    requires status != "REVIEW_IN_PROGRESS"
    ensures HasSuffix(status, "_IN_PROGRESS") ==> MapStatus(status).symbol == "o"
    ensures HasSuffix(status, "_COMPLETE") ==> MapStatus(status).symbol == "✓"
    ensures !HasSuffix(status, "_FAILED") && !HasSuffix(status, "_IN_PROGRESS") && !HasSuffix(status, "_COMPLETE")
            ==> MapStatus(status).symbol == "."
  {
    SuffixesExclusive(status);
  }

  /** The symbol agrees with the category only where the category came from
      a suffix rule: `x` implies failed, and in progress or complete imply
      `o` or `✓`. */
  lemma SymbolAgreesWithCategory(status: string)
    ensures MapStatus(status).symbol == "x" ==> MapStatus(status).category == Failed
    ensures MapStatus(status).category == InProgress ==> MapStatus(status).symbol == "o"
    ensures MapStatus(status).category == Complete ==> MapStatus(status).symbol == "✓"
  {
    SuffixesExclusive(status);
    FailedSymbolIff(status);
  }

  /** A deletion in progress is failed-coloured but keeps the progress symbol. */
  lemma DeleteInProgress()
    ensures MapStatus("DELETE_IN_PROGRESS") == StatusRep(Failed, "o")
  {
    var s := "DELETE_IN_PROGRESS";
    assert HasPrefix(s, "DELETE_");
    assert s[|s| - |"_IN_PROGRESS"|..] == "_IN_PROGRESS";
    assert !HasSuffix(s, "_FAILED") by { assert s[|s| - 1] == 'S'; }
  }

  /** A completed rollback is failed-coloured but keeps the completion symbol. */
  lemma UpdateRollbackComplete()
    ensures MapStatus("UPDATE_ROLLBACK_COMPLETE") == StatusRep(Failed, "✓")
  {
    var s := "UPDATE_ROLLBACK_COMPLETE";
    assert OccursAt(s, "ROLLBACK", 7);
    ContainsIffOccurs(s, "ROLLBACK");
    assert s[|s| - |"_COMPLETE"|..] == "_COMPLETE";
    assert !HasSuffix(s, "_FAILED") by { assert s[|s| - 1] == 'E'; }
    assert !HasSuffix(s, "_IN_PROGRESS") by { assert s[|s| - 1] == 'E'; }
  }

  /** A plain successful creation is complete. */
  lemma CreateComplete()
    ensures MapStatus("CREATE_COMPLETE") == StatusRep(Complete, "✓")
  {
    var s := "CREATE_COMPLETE";
    assert s[|s| - |"_COMPLETE"|..] == "_COMPLETE";
    assert !HasSuffix(s, "_FAILED") by { assert s[|s| - 1] == 'E'; }
    assert !HasSuffix(s, "_IN_PROGRESS") by { assert s[|s| - 1] == 'E'; }
    assert !HasPrefix(s, "DELETE_") by { assert s[0] == 'C'; }
    assert !Contains(s, "ROLLBACK") by {
      assert 'B' !in s;
      if Contains(s, "ROLLBACK") {
        ContainedCharsOccur(s, "ROLLBACK", 'B');
      }
    }
  }

  /** Every character of a contained string occurs in the containing one. */
  lemma ContainedCharsOccur(s: string, sub: string, c: char)
    requires Contains(s, sub) && c in sub
    ensures c in s
  {
    ContainsIffOccurs(s, sub);
    var i :| OccursAt(s, sub, i);
    var k :| 0 <= k < |sub| && sub[k] == c;
    assert s[i + k] == s[i..i + |sub|][k];
  }

  // ---------------------------------------------------------------------
  // Properties of the colouring
  // ---------------------------------------------------------------------

  /** The message comes back unchanged, in the colour of the status's category. */
  lemma ColouriseShowsCategory(msg: string, status: string)
    ensures Unpaint(Colourise(msg, status)) == Some((CategoryColour(MapStatus(status).category), msg))
  {
    UnpaintPaint(CategoryColour(MapStatus(status).category), msg);
  }

  /** The status matters only through its category. */
  lemma ColouriseDependsOnCategoryOnly(msg: string, s1: string, s2: string)
    ensures Colourise(msg, s1) == Colourise(msg, s2)
        <==> CategoryColour(MapStatus(s1).category) == CategoryColour(MapStatus(s2).category)
    ensures Colourise(msg, s1) == Colourise(msg, s2)
        <==> MapStatus(s1).category == MapStatus(s2).category
  {
    ColouriseShowsCategory(msg, s1);
    ColouriseShowsCategory(msg, s2);
  }

  /** A coloured status reads back as the status in its category's colour. */
  lemma ColouriseStatusShowsItself(status: string)
    ensures Unpaint(ColouriseStatus(status)) == Some((CategoryColour(MapStatus(status).category), status))
  {
    ColouriseShowsCategory(status, status);
  }

  // ---------------------------------------------------------------------
  // Colouring a rendered template diff, line by line
  // ---------------------------------------------------------------------

  /** The line prefixes the diff library uses to mark added, removed,
      changed and involved lines. That library is not part of this model,
      so they are parameters. */
  datatype DiffMarks = DiffMarks(added: string, removed: string, changed: string, involved: string)

  /** The colour of one diff line: the first matching prefix decides. */
  function LineColour(line: string, marks: DiffMarks): Colour
  {
    if HasPrefix(line, marks.added) then Green
    else if HasPrefix(line, marks.removed) then Red
    else if HasPrefix(line, marks.changed) then Blue
    else if HasPrefix(line, marks.involved) then Grey
    else Plain
  }

  function PaintLine(line: string, marks: DiffMarks): string
  {
    Paint(LineColour(line, marks), line)
  }

  /** Every line painted in its own colour, in order. */
  function PaintLines(lines: seq<string>, marks: DiffMarks): (r: seq<string>)
    ensures |r| == |lines|
    ensures forall k :: 0 <= k < |lines| ==> r[k] == PaintLine(lines[k], marks)
  {
    if lines == [] then [] else [PaintLine(lines[0], marks)] + PaintLines(lines[1..], marks)
  }

  /** The precedence of the prefixes: added over removed over changed over
      involved; a line matching none stays plain. */
  lemma LineColourPrecedence(line: string, marks: DiffMarks)
    ensures HasPrefix(line, marks.added) ==> LineColour(line, marks) == Green
    ensures !HasPrefix(line, marks.added) && HasPrefix(line, marks.removed) ==> LineColour(line, marks) == Red
    ensures !HasPrefix(line, marks.added) && !HasPrefix(line, marks.removed) && HasPrefix(line, marks.changed)
            ==> LineColour(line, marks) == Blue
    ensures (!HasPrefix(line, marks.added) && !HasPrefix(line, marks.removed) && !HasPrefix(line, marks.changed)
             && HasPrefix(line, marks.involved)) ==> LineColour(line, marks) == Grey
    ensures LineColour(line, marks) == Plain
        <==> !HasPrefix(line, marks.added) && !HasPrefix(line, marks.removed)
             && !HasPrefix(line, marks.changed) && !HasPrefix(line, marks.involved)
  {
  }

  /** `ColouriseDiff`: splits the formatted diff into lines, paints each one
      and puts the newlines back between them. Splitting the result gives
      the painted input lines, one for one and in order: the line count is
      kept and no trailing newline is added. */
  method ColouriseDiff(formatted: string, marks: DiffMarks) returns (output: string)
    ensures Split(output, '\n') == PaintLines(Split(formatted, '\n'), marks)
    ensures |Split(output, '\n')| == |Split(formatted, '\n')|
  {
    var parts := Split(formatted, '\n');
    ghost var done: seq<string> := [];
    output := "";
    for i := 0 to |parts|
      invariant |done| == i
      invariant forall k :: 0 <= k < i ==> done[k] == PaintLine(parts[k], marks)
      invariant i == 0 ==> output == ""
      invariant 0 < i ==> output == Join(done, '\n') + (if i < |parts| then "\n" else "")
    {
      var painted := PaintLine(parts[i], marks);
      if i > 0 {
        JoinSnoc(done, painted, '\n');
      }
      output := output + painted;
      if i < |parts| - 1 {
        output := output + "\n";
      }
      done := done + [painted];
    }
    assert output == Join(done, '\n');
    PaintedLinesSplit(parts, done, marks);
  }

  /** Painted lines hold no newline, so joining and splitting them again
      gives them back. */
  lemma PaintedLinesSplit(lines: seq<string>, painted: seq<string>, marks: DiffMarks)
    requires |lines| > 0 && forall k :: 0 <= k < |lines| ==> '\n' !in lines[k]
    requires |painted| == |lines| && forall k :: 0 <= k < |lines| ==> painted[k] == PaintLine(lines[k], marks)
    ensures Split(Join(painted, '\n'), '\n') == PaintLines(lines, marks)
  {
    forall k | 0 <= k < |painted| ensures '\n' !in painted[k] {
      assert '\n' !in lines[k];
    }
    SplitJoin(painted, '\n');
  }
}
