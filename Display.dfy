/**
 The text of the task list: one line per stored task, in store order, each
 the task's name followed by its priority in the form `name (Priority: p)`.
 `ParseLine` reads a line back and is the partner against which the
 rendering is proved: a line determines the name and priority it shows.
 */
module Display {

  import opened Wrappers
  import opened Tasks
  import opened Decimal

  const PriorityOpen: string := " (Priority: "
  const PriorityClose: string := ")"

  /** The list entry for one task. */
  function Line(t: Task): (line: string) {
    t.name + PriorityOpen + IntToString(t.priority as int) + PriorityClose
  }

  /** The whole list model: one entry per task, in store order. */
  function Render(tasks: seq<Task>): (lines: seq<string>)
    ensures |lines| == |tasks|
  {
    if tasks == [] then [] else Render(tasks[..|tasks| - 1]) + [Line(tasks[|tasks| - 1])]
  }

  /** The entry at position `i` of the list shows the task at position `i` of the store. */
  lemma {:induction false} RenderAt(tasks: seq<Task>, i: int)
    requires 0 <= i < |tasks|
    ensures Render(tasks)[i] == Line(tasks[i])
  {
    if i < |tasks| - 1 {
      RenderAt(tasks[..|tasks| - 1], i);
    }
  }

  /** Rendering a longer store extends the rendering of the shorter one. */
  lemma RenderAppend(first: seq<Task>, rest: seq<Task>)
    ensures Render(first + rest) == Render(first) + Render(rest)
  {
    var all := first + rest;
    forall i | 0 <= i < |all|
      ensures Render(all)[i] == (Render(first) + Render(rest))[i]
    {
      RenderAt(all, i);
      if i < |first| {
        RenderAt(first, i);
      } else {
        RenderAt(rest, i - |first|);
      }
    }
  }

  /** Length of the longest suffix of `s` made of digits and minus signs. */
  function NumeralSuffix(s: string): (n: nat)
    ensures n <= |s|
  {
    if s != [] && IsNumeralChar(s[|s| - 1]) then NumeralSuffix(s[..|s| - 1]) + 1 else 0
  }

  /** Reads the name and priority back from a list entry. */
  function ParseLine(line: string): (fields: Option<(string, int)>) {
    if |line| == 0 || line[|line| - 1..] != PriorityClose then None
    else
      var body := line[..|line| - 1];
      var n := NumeralSuffix(body);
      var head := body[..|body| - n];
      var number := ParseInt(body[|body| - n..]);
      if |head| < |PriorityOpen| || head[|head| - |PriorityOpen|..] != PriorityOpen || number.None? then None
      else Some((head[..|head| - |PriorityOpen|], number.value))
  }

  lemma {:induction false} NumeralSuffixOfAppend(head: string, numeral: string)
    requires |head| > 0 && !IsNumeralChar(head[|head| - 1])
    requires forall k :: 0 <= k < |numeral| ==> IsNumeralChar(numeral[k])
    ensures NumeralSuffix(head + numeral) == |numeral|
    decreases |numeral|
  {
    var s := head + numeral;
    if numeral == [] {
      assert s == head;
    } else {
      assert s[..|s| - 1] == head + numeral[..|numeral| - 1];
      NumeralSuffixOfAppend(head, numeral[..|numeral| - 1]);
    }
  }

  /** A line made of a name and a numeral that reads as a number gives that name and number back. */
  lemma {:induction false} ParseLineOf(name: string, numeral: string)
    requires forall k :: 0 <= k < |numeral| ==> IsNumeralChar(numeral[k])
    requires ParseInt(numeral).Some?
    ensures ParseLine(name + PriorityOpen + numeral + PriorityClose) == Some((name, ParseInt(numeral).value))
  {
    var head := name + PriorityOpen;
    var body := head + numeral;
    var line := body + PriorityClose;
    assert line[..|line| - 1] == body;
    assert line[|line| - 1..] == PriorityClose;
    NumeralSuffixOfAppend(head, numeral);
    assert body[..|body| - |numeral|] == head;
    assert body[|body| - |numeral|..] == numeral;
    assert head[|head| - |PriorityOpen|..] == PriorityOpen;
    assert head[..|head| - |PriorityOpen|] == name;
  }

  /** A list entry determines its task's name and priority. */
  lemma LineRoundTrip(t: Task)
    ensures ParseLine(Line(t)) == Some((t.name, t.priority as int))
  {
    IntToStringChars(t.priority as int);
    IntRoundTrip(t.priority as int);
    ParseLineOf(t.name, IntToString(t.priority as int));
  }
}
