/** The parts of Go's `strings` package and of decimal formatting that the
    model relies on, with the facts about them the proofs use. */
module Strings {

  import opened Errors

  // ---------------------------------------------------------------------
  // Prefix, suffix and substring tests
  // ---------------------------------------------------------------------

  /** `strings.HasPrefix(s, p)` */
  predicate HasPrefix(s: string, p: string)
  {
    |p| <= |s| && s[..|p|] == p
  }

  /** `strings.HasSuffix(s, x)` */
  predicate HasSuffix(s: string, x: string)
  {
    |x| <= |s| && s[|s| - |x|..] == x
  }

  /** `strings.Contains(s, sub)`, scanning left to right. */
  predicate Contains(s: string, sub: string)
    decreases |s|
  {
    HasPrefix(s, sub) || (|s| > 0 && Contains(s[1..], sub))
  }

  /** `sub` occurs in `s` at position `i`. */
  predicate OccursAt(s: string, sub: string, i: int)
  {
    0 <= i <= |s| - |sub| && s[i..i + |sub|] == sub
  }

  /** `Contains` holds exactly when `sub` occurs at some position of `s`. */
  lemma {:induction false} ContainsIffOccurs(s: string, sub: string)
    ensures Contains(s, sub) <==> exists i :: OccursAt(s, sub, i)
    decreases |s|
  {
    if |s| > 0 {
      ContainsIffOccurs(s[1..], sub);
      if HasPrefix(s, sub) {
        assert OccursAt(s, sub, 0);
      } else if Contains(s[1..], sub) {
        var i :| OccursAt(s[1..], sub, i);
        assert s[1..][i..i + |sub|] == s[i + 1..i + 1 + |sub|];
        assert OccursAt(s, sub, i + 1);
      }
      if exists i :: OccursAt(s, sub, i) {
        var i :| OccursAt(s, sub, i);
        if i > 0 {
          assert s[1..][i - 1..i - 1 + |sub|] == s[i..i + |sub|];
          assert OccursAt(s[1..], sub, i - 1);
        }
      }
    } else if |sub| == 0 {
      assert OccursAt(s, sub, 0);
    }
  }

  // ---------------------------------------------------------------------
  // White space and trimming
  // ---------------------------------------------------------------------

  /** `unicode.IsSpace`: the Latin-1 spaces and the Unicode White_Space set. */
  predicate IsSpace(c: char)
  {
    c == ' ' || c == '\t' || c == '\n' || c == '\U{0B}' || c == '\U{0C}' || c == '\r'
    || c == '\U{85}' || c == '\U{A0}' || c == '\U{1680}'
    || ('\U{2000}' <= c <= '\U{200A}')
    || c == '\U{2028}' || c == '\U{2029}' || c == '\U{202F}' || c == '\U{205F}' || c == '\U{3000}'
  }

  predicate AllSpace(s: string)
  {
    forall i :: 0 <= i < |s| ==> IsSpace(s[i])
  }

  /** Removes leading white space. */
  function TrimLeft(s: string): (r: string)
    ensures |r| <= |s| && r == s[|s| - |r|..]
    ensures AllSpace(s[..|s| - |r|])
    ensures r == [] || !IsSpace(r[0])
  {
    if |s| > 0 && IsSpace(s[0]) then
      var r := TrimLeft(s[1..]);
      assert s[..|s| - |r|] == [s[0]] + s[1..][..|s[1..]| - |r|];
      AllSpacePrepend(s[0], s[1..][..|s[1..]| - |r|]);
      r
    else s
  }

  /** Removes trailing white space. */
  function TrimRight(s: string): (r: string)
    ensures |r| <= |s| && r == s[..|r|]
    ensures AllSpace(s[|r|..])
    ensures r == [] || !IsSpace(r[|r| - 1])
  {
    if |s| > 0 && IsSpace(s[|s| - 1]) then
      var r := TrimRight(s[..|s| - 1]);
      assert s[|r|..] == s[..|s| - 1][|r|..] + [s[|s| - 1]];
      r
    else s
  }

  /** `strings.TrimSpace` */
  function TrimSpace(s: string): string
  {
    TrimRight(TrimLeft(s))
  }

  /** Trailing trimming never reaches back past the last non-space character:
      if `b` holds one, trimming `a + b` only trims `b`. */
  lemma {:induction false} TrimRightKeepsPrefix(a: string, b: string)
    requires !AllSpace(b)
    ensures TrimRight(a + b) == a + TrimRight(b)
    decreases |b|
  {
    assert |b| > 0;
    var ab := a + b;
    if IsSpace(b[|b| - 1]) {
      assert ab[..|ab| - 1] == a + b[..|b| - 1];
      assert !AllSpace(b[..|b| - 1]) by {
        var i :| 0 <= i < |b| && !IsSpace(b[i]);
        assert i < |b| - 1;
        assert b[..|b| - 1][i] == b[i];
      }
      TrimRightKeepsPrefix(a, b[..|b| - 1]);
    }
    TrimRightStep(ab);
    TrimRightStep(b);
  }

  /** One step of trailing trimming. */
  lemma TrimRightStep(s: string)
    requires |s| > 0
    ensures TrimRight(s) == if IsSpace(s[|s| - 1]) then TrimRight(s[..|s| - 1]) else s
  {
  }

  /** When everything after `a` is white space and `a` ends in a non-space
      character, trimming gives back exactly `a`. */
  lemma {:induction false} TrimRightDropsSpace(a: string, b: string)
    requires |a| > 0 && !IsSpace(a[|a| - 1])
    requires AllSpace(b)
    ensures TrimRight(a + b) == a
    decreases |b|
  {
    var ab := a + b;
    if |b| > 0 {
      assert ab[|ab| - 1] == b[|b| - 1];
      assert ab[..|ab| - 1] == a + b[..|b| - 1];
      TrimRightDropsSpace(a, b[..|b| - 1]);
    } else {
      assert ab == a;
    }
  }

  lemma AllSpacePrepend(c: char, s: string)
    requires IsSpace(c) && AllSpace(s)
    ensures AllSpace([c] + s)
  {
    forall i | 0 <= i < |[c] + s| ensures IsSpace(([c] + s)[i]) {
      if i > 0 {
        assert ([c] + s)[i] == s[i - 1];
      }
    }
  }

  /** Text whose last line ends in a visible character, followed by a
      newline: trimming on the right removes just that newline, and putting
      a head and a newline in front regroups. */
  lemma TrimRightLastNewline(h: string, init: string, line: string)
    requires |line| > 0 && !IsSpace(line[0]) && !IsSpace(line[|line| - 1])
    ensures var rest := init + (line + "\n") + "";
      !AllSpace(rest) && h + ("\n" + TrimRight(rest)) == h + "\n" + init + line
  {
    var rest := init + (line + "\n") + "";
    AppendEmpty(init + (line + "\n"));
    Associate(init, line, "\n");
    assert rest[|init|] == line[0];
    assert (init + line)[|init + line| - 1] == line[|line| - 1];
    TrimRightDropsSpace(init + line, "\n");
    Associate(h, "\n", init + line);
    Associate(h + "\n", init, line);
  }

  /** A string that starts with a non-space character loses nothing at the front. */
  lemma TrimSpaceOfNonSpaceStart(s: string)
    requires |s| > 0 && !IsSpace(s[0])
    ensures TrimSpace(s) == TrimRight(s)
  {
  }

  lemma AppendEmpty(s: string)
    ensures s + "" == s
  {
  }

  lemma Associate(a: string, b: string, c: string)
    ensures a + b + c == a + (b + c)
  {
  }

  /** Trimming a line `h` that starts and ends with visible characters,
      followed by a newline and `rest`: `h` alone when `rest` is all white
      space, else `h`, a newline and `rest` with trailing white space
      trimmed. */
  lemma TrimAfterLine(h: string, rest: string)
    requires |h| > 0 && !IsSpace(h[0]) && !IsSpace(h[|h| - 1])
    ensures TrimSpace(h + "\n" + rest) == h + (if AllSpace(rest) then "" else "\n" + TrimRight(rest))
  {
    var whole := h + "\n" + rest;
    assert whole[0] == h[0];
    TrimSpaceOfNonSpaceStart(whole);
    if AllSpace(rest) {
      AllSpacePrepend('\n', rest);
      Associate(h, "\n", rest);
      TrimRightDropsSpace(h, "\n" + rest);
      AppendEmpty(h);
    } else {
      TrimRightKeepsPrefix(h + "\n", rest);
      Associate(h, "\n", TrimRight(rest));
    }
  }

  // ---------------------------------------------------------------------
  // Splitting on and joining with a separator
  // ---------------------------------------------------------------------

  /** `strings.Join(parts, string([sep]))` */
  function Join(parts: seq<string>, sep: char): string
  {
    if |parts| == 0 then ""
    else if |parts| == 1 then parts[0]
    else parts[0] + [sep] + Join(parts[1..], sep)
  }

  /** `strings.Split(s, string([sep]))`: never empty, no part holds the
      separator, and joining the parts gives `s` back. */
  function Split(s: string, sep: char): (parts: seq<string>)
    ensures |parts| > 0
    ensures forall k :: 0 <= k < |parts| ==> sep !in parts[k]
    ensures Join(parts, sep) == s
  {
    if |s| == 0 then [""]
    else
      var rest := Split(s[1..], sep);
      if s[0] == sep then
        assert [sep] + s[1..] == s;
        [""] + rest
      else
        var parts := [[s[0]] + rest[0]] + rest[1..];
        assert [s[0]] + s[1..] == s;
        assert |rest| > 1 ==> Join(rest, sep) == rest[0] + [sep] + Join(rest[1..], sep);
        assert parts[1..] == rest[1..];
        parts
  }

  /** Splitting a separator-free head followed by a separator. */
  lemma {:induction false} SplitAfterHead(a: string, t: string, sep: char)
    requires sep !in a
    ensures Split(a + [sep] + t, sep) == [a] + Split(t, sep)
    decreases |a|
  {
    if |a| == 0 {
      assert a + [sep] + t == [sep] + t;
      assert ([sep] + t)[1..] == t;
    } else {
      SplitAfterHead(a[1..], t, sep);
      assert a + [sep] + t == [a[0]] + (a[1..] + [sep] + t);
      SplitCons(a[0], a[1..] + [sep] + t, sep);
      assert [a[0]] + a[1..] == a;
    }
  }

  /** A character other than the separator joins the first part. */
  lemma SplitCons(c: char, rest: string, sep: char)
    requires c != sep
    ensures Split([c] + rest, sep) == [[c] + Split(rest, sep)[0]] + Split(rest, sep)[1..]
  {
    assert ([c] + rest)[1..] == rest;
  }

  /** A separator-free string splits into itself. */
  lemma {:induction false} SplitOfPlain(a: string, sep: char)
    requires sep !in a
    ensures Split(a, sep) == [a]
    decreases |a|
  {
    if |a| > 0 {
      SplitOfPlain(a[1..], sep);
      assert [a[0]] + a[1..] == a;
    }
  }

  /** Joining separator-free parts and splitting again gives the parts back. */
  lemma {:induction false} SplitJoin(parts: seq<string>, sep: char)
    requires |parts| > 0
    requires forall k :: 0 <= k < |parts| ==> sep !in parts[k]
    ensures Split(Join(parts, sep), sep) == parts
    decreases |parts|
  {
    if |parts| == 1 {
      SplitOfPlain(parts[0], sep);
    } else {
      SplitJoin(parts[1..], sep);
      SplitAfterHead(parts[0], Join(parts[1..], sep), sep);
      assert [parts[0]] + parts[1..] == parts;
    }
  }

  /** Joining one more part appends a separator and that part. */
  lemma {:induction false} JoinSnoc(parts: seq<string>, last: string, sep: char)
    requires |parts| > 0
    ensures Join(parts + [last], sep) == Join(parts, sep) + [sep] + last
    decreases |parts|
  {
    if |parts| == 1 {
      assert parts + [last] == [parts[0], last];
      assert [parts[0], last][1..] == [last];
    } else {
      JoinSnoc(parts[1..], last, sep);
      assert (parts + [last])[1..] == parts[1..] + [last];
    }
  }

  /** `strings.SplitN(s, string([sep]), 2)`, given as the header before the
      first separator and the body after it; `None` when `s` holds no
      separator, that is, when the result has a single part. */
  function SplitFirst(s: string, sep: char): (r: Option<(string, string)>)
    ensures r.Some? <==> sep in s
    ensures r.Some? ==> r.value.0 + [sep] + r.value.1 == s && sep !in r.value.0
  {
    var parts := Split(s, sep);
    if |parts| == 1 then
      assert s == parts[0];
      None
    else
      assert s == parts[0] + [sep] + Join(parts[1..], sep);
      Some((parts[0], Join(parts[1..], sep)))
  }

  /** `strings.SplitN(s, string([sep]), 2)`: one part when `s` holds no
      separator, else the text before the first one and the rest. */
  function SplitN2(s: string, sep: char): (parts: seq<string>)
    ensures |parts| == 1 || |parts| == 2
    ensures |parts| == 2 <==> sep in s
    ensures |parts| == 1 ==> parts[0] == s
    ensures |parts| == 2 ==> parts[0] + [sep] + parts[1] == s && sep !in parts[0]
  {
    match SplitFirst(s, sep)
    case None => [s]
    case Some((head, rest)) => [head, rest]
  }

  /** Splitting at the first separator after a separator-free head. */
  lemma SplitN2AfterHead(head: string, rest: string, sep: char)
    requires sep !in head
    ensures SplitN2(head + [sep] + rest, sep) == [head, rest]
  {
    SplitAfterHead(head, rest, sep);
  }

  // ---------------------------------------------------------------------
  // Decimal formatting of integers
  // ---------------------------------------------------------------------

  predicate IsDigit(c: char)
  {
    '0' <= c <= '9'
  }

  predicate AllDigits(s: string)
  {
    forall i :: 0 <= i < |s| ==> IsDigit(s[i])
  }

  function DigitChar(d: nat): (c: char)
    requires d < 10
    ensures IsDigit(c) && (c as int) - ('0' as int) == d
  {
    ('0' as int + d) as char
  }

  /** Decimal digits of a natural number, without leading zeros. */
  function NatToDecimal(n: nat): (s: string)
    ensures |s| > 0 && AllDigits(s)
  {
    if n < 10 then [DigitChar(n)] else NatToDecimal(n / 10) + [DigitChar(n % 10)]
  }

  /** `fmt.Sprint` of an integer: a minus sign for negative values. */
  function IntToDecimal(i: int): string
  {
    if i < 0 then "-" + NatToDecimal(-i) else NatToDecimal(i)
  }

  function ParseDigits(s: string): nat
    requires AllDigits(s)
  {
    if |s| == 0 then 0
    else ParseDigits(s[..|s| - 1]) * 10 + ((s[|s| - 1] as int) - ('0' as int))
  }

  /** Reads back what `IntToDecimal` writes; `None` for anything else. */
  function ParseDecimal(s: string): Option<int>
  {
    if |s| > 1 && s[0] == '-' && AllDigits(s[1..]) then Some(0 - ParseDigits(s[1..]) as int)
    else if |s| > 0 && AllDigits(s) then Some(ParseDigits(s))
    else None
  }

  lemma {:induction false} ParseNatToDecimal(n: nat)
    ensures ParseDigits(NatToDecimal(n)) == n
  {
    if n >= 10 {
      ParseNatToDecimal(n / 10);
      var s := NatToDecimal(n);
      assert s[..|s| - 1] == NatToDecimal(n / 10);
    }
  }

  /** Decimal formatting is undone by parsing, so it is injective. */
  lemma ParseIntToDecimal(i: int)
    ensures ParseDecimal(IntToDecimal(i)) == Some(i)
  {
    if i < 0 {
      ParseNatToDecimal(-i);
      assert IntToDecimal(i)[1..] == NatToDecimal(-i);
    } else {
      ParseNatToDecimal(i);
      assert IntToDecimal(i)[0] != '-';
    }
  }
}
