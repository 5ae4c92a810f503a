/** Replacing the lines a predicate picks by one line, where the first of them was. */
module LineMerge {
  /** Where the first line satisfying p is, or the number of lines. */
  function First(lines: seq<string>, p: string -> bool): (i: nat)
    ensures i <= |lines|
  {
    if lines == [] || p(lines[0]) then 0 else 1 + First(lines[1..], p)
  }

  /** The other lines, in order. */
  function Without(lines: seq<string>, p: string -> bool): seq<string> {
    if lines == [] then []
    else
      var rest := Without(lines[..|lines| - 1], p);
      if p(lines[|lines| - 1]) then rest else rest + [lines[|lines| - 1]]
  }

  /** Command substitution drops trailing newlines, so trailing empty lines go. */
  function StripTrailing(lines: seq<string>): seq<string> {
    if lines != [] && lines[|lines| - 1] == "" then StripTrailing(lines[..|lines| - 1]) else lines
  }

  /** The first picked line replaced in place, or the line appended; later picked lines dropped. */
  function Replace(lines: seq<string>, p: string -> bool, line: string): seq<string> {
    var at := First(lines, p);
    lines[..at] + [line] + StripTrailing(Without(lines[at..], p))
  }

  predicate NonePicked(lines: seq<string>, p: string -> bool) {
    forall line :: line in lines ==> !p(line)
  }

  /** `kept` is `all` but for empty lines lost at the end. */
  predicate KeptButTrailing(kept: seq<string>, all: seq<string>) {
    kept <= all && forall i :: |kept| <= i < |all| ==> all[i] == ""
  }

  lemma {:induction false} FirstIs(lines: seq<string>, p: string -> bool)
    ensures First(lines, p) < |lines| ==> p(lines[First(lines, p)])
    ensures NonePicked(lines[..First(lines, p)], p)
  {
    if lines != [] && !p(lines[0]) {
      FirstIs(lines[1..], p);
      assert lines[..First(lines, p)] == [lines[0]] + lines[1..][..First(lines[1..], p)];
    }
  }

  lemma {:induction false} FirstAt(lines: seq<string>, p: string -> bool, at: nat)
    requires at < |lines| && p(lines[at]) && NonePicked(lines[..at], p)
    ensures First(lines, p) == at
  {
    if at > 0 {
      assert lines[0] == lines[..at][0];
      assert lines[1..][..at - 1] == lines[..at][1..];
      FirstAt(lines[1..], p, at - 1);
    }
  }

  lemma {:induction false} WithoutHas(lines: seq<string>, p: string -> bool, line: string)
    ensures line in Without(lines, p) <==> line in lines && !p(line)
  {
    if lines != [] {
      WithoutHas(lines[..|lines| - 1], p, line);
      assert lines == lines[..|lines| - 1] + [lines[|lines| - 1]];
    }
  }

  lemma WithoutSnoc(lines: seq<string>, p: string -> bool, last: string)
    ensures Without(lines + [last], p) == if p(last) then Without(lines, p) else Without(lines, p) + [last]
  {
    assert (lines + [last])[..|lines|] == lines;
  }

  lemma {:induction false} WithoutAppend(a: seq<string>, b: seq<string>, p: string -> bool)
    ensures Without(a + b, p) == Without(a, p) + Without(b, p)
  {
    if b == [] {
      assert a + b == a && Without(a, p) + [] == Without(a, p);
    } else {
      var n := |b| - 1;
      assert (a + b)[..|a + b| - 1] == a + b[..n];
      WithoutAppend(a, b[..n], p);
    }
  }

  lemma {:induction false} WithoutNone(lines: seq<string>, p: string -> bool)
    requires NonePicked(lines, p)
    ensures Without(lines, p) == lines
  {
    if lines != [] {
      WithoutNone(lines[..|lines| - 1], p);
    }
  }

  lemma WithoutPrefix(head: seq<string>, tail: seq<string>, p: string -> bool)
    requires NonePicked(head, p)
    ensures Without(head + tail, p) == head + Without(tail, p)
  {
    WithoutNone(head, p);
    WithoutAppend(head, tail, p);
  }

  lemma WithoutSplit(lines: seq<string>, p: string -> bool, at: nat)
    requires at == First(lines, p)
    ensures Without(lines, p) == lines[..at] + Without(lines[at..], p)
  {
    FirstIs(lines, p);
    WithoutPrefix(lines[..at], lines[at..], p);
    assert lines[..at] + lines[at..] == lines;
  }

  lemma {:induction false} StripIsPrefix(lines: seq<string>)
    ensures KeptButTrailing(StripTrailing(lines), lines)
    ensures StripTrailing(StripTrailing(lines)) == StripTrailing(lines)
  {
    if lines != [] && lines[|lines| - 1] == "" {
      StripIsPrefix(lines[..|lines| - 1]);
    }
  }

  lemma {:induction false} StripAfter(head: seq<string>, rest: seq<string>)
    requires head != [] && head[|head| - 1] != ""
    ensures StripTrailing(head + rest) == head + StripTrailing(rest)
  {
    if rest == [] {
      assert head + rest == head;
    } else if rest[|rest| - 1] == "" {
      assert (head + rest)[..|head + rest| - 1] == head + rest[..|rest| - 1];
      StripAfter(head, rest[..|rest| - 1]);
    }
  }

  /** What follows the replacement holds no picked line. */
  lemma TailHasNone(lines: seq<string>, p: string -> bool)
    ensures NonePicked(StripTrailing(Without(lines, p)), p)
    ensures forall line :: line in StripTrailing(Without(lines, p)) ==> line in lines
  {
    StripIsPrefix(Without(lines, p));
    forall line | line in StripTrailing(Without(lines, p)) ensures line in lines && !p(line) {
      WithoutHas(lines, p, line);
    }
  }

  lemma WithoutOne(head: seq<string>, line: string, tail: seq<string>, p: string -> bool)
    requires NonePicked(head, p) && p(line) && NonePicked(tail, p)
    ensures Without(head + [line] + tail, p) == head + tail
  {
    WithoutNone(tail, p);
    WithoutSnoc(head, p, line);
    WithoutNone(head, p);
    WithoutAppend(head + [line], tail, p);
  }

  lemma FirstOfOne(head: seq<string>, line: string, tail: seq<string>, p: string -> bool)
    requires NonePicked(head, p) && p(line)
    ensures First(head + [line] + tail, p) == |head|
  {
    var lines := head + [line] + tail;
    assert lines[..|head|] == head;
    FirstAt(lines, p, |head|);
  }

  /** The result has one picked line, the new one, where the first picked line was. */
  lemma ReplaceHasOne(lines: seq<string>, p: string -> bool, line: string)
    requires p(line)
    ensures Without(Replace(lines, p, line), p) ==
            lines[..First(lines, p)] + StripTrailing(Without(lines[First(lines, p)..], p))
    ensures First(Replace(lines, p, line), p) == First(lines, p)
  {
    var at := First(lines, p);
    FirstIs(lines, p);
    TailHasNone(lines[at..], p);
    WithoutOne(lines[..at], line, StripTrailing(Without(lines[at..], p)), p);
    FirstOfOne(lines[..at], line, StripTrailing(Without(lines[at..], p)), p);
  }

  lemma HeadAndRest(head: seq<string>, kept: seq<string>, all: seq<string>)
    requires KeptButTrailing(kept, all)
    ensures KeptButTrailing(head + kept, head + all)
  {
  }

  /** The lines not picked keep their content and order, but for empty lines lost at the end. */
  lemma OthersSurvive(lines: seq<string>, p: string -> bool, line: string)
    requires p(line)
    ensures KeptButTrailing(Without(Replace(lines, p, line), p), Without(lines, p))
    ensures |Replace(lines, p, line)| == |Without(Replace(lines, p, line), p)| + 1
    ensures First(Replace(lines, p, line), p) == First(lines, p)
    ensures Replace(lines, p, line)[First(lines, p)] == line
  {
    var at := First(lines, p);
    ReplaceHasOne(lines, p, line);
    WithoutSplit(lines, p, at);
    StripIsPrefix(Without(lines[at..], p));
    HeadAndRest(lines[..at], StripTrailing(Without(lines[at..], p)), Without(lines[at..], p));
  }

  /** If nothing is picked the line is appended, and no line at all is lost. */
  lemma AppendKeepsAll(lines: seq<string>, p: string -> bool, line: string)
    requires First(lines, p) == |lines|
    ensures Replace(lines, p, line) == lines + [line]
  {
    assert lines[|lines|..] == [];
  }

  /** A second replacement forgets the first. */
  lemma ReplaceOverwrites(lines: seq<string>, p: string -> bool, first: string, second: string)
    requires p(first)
    ensures Replace(Replace(lines, p, first), p, second) == Replace(lines, p, second)
  {
    var at, mid := First(lines, p), Replace(lines, p, first);
    var tail := StripTrailing(Without(lines[at..], p));
    ReplaceHasOne(lines, p, first);
    assert mid[..at] == lines[..at] && mid[at..] == [] + [first] + tail;
    TailHasNone(lines[at..], p);
    WithoutOne([], first, tail, p);
    assert [] + tail == tail;
    StripIsPrefix(Without(lines[at..], p));
  }

  /** Every line of the result is the new one or an old one; every old line is there, picked or empty. */
  lemma ReplaceMembers(lines: seq<string>, p: string -> bool, line: string, x: string)
    ensures x in Replace(lines, p, line) ==> x == line || x in lines
    ensures x in lines ==> x in Replace(lines, p, line) || x == "" || p(x)
  {
    var at := First(lines, p);
    var all := Without(lines[at..], p);
    var tail := StripTrailing(all);
    assert lines == lines[..at] + lines[at..];
    TailHasNone(lines[at..], p);
    WithoutHas(lines[at..], p, x);
    StripIsPrefix(all);
    if x in all && x != "" {
      var i :| 0 <= i < |all| && all[i] == x;
      assert tail[i] == x;
    }
  }

  // ---- the loop's progress ----

  /** The merged lines after i of them, before trailing empty lines go. */
  ghost function Merged(lines: seq<string>, p: string -> bool, line: string, at: nat, i: nat): seq<string>
    requires i <= |lines|
  {
    if at < i then lines[..at] + [line] + Without(lines[at..i], p) else lines[..i]
  }

  lemma FirstAmong(lines: seq<string>, p: string -> bool, i: nat)
    requires i < |lines|
    ensures p(lines[i]) ==> First(lines, p) <= i
    ensures First(lines, p) == i ==> p(lines[i])
  {
    FirstIs(lines, p);
    if i < First(lines, p) {
      assert lines[i] == lines[..First(lines, p)][i];
    }
  }

  lemma MergedStep(lines: seq<string>, p: string -> bool, line: string, at: nat, i: nat)
    requires i < |lines| && (p(lines[i]) ==> at <= i) && (at == i ==> p(lines[i]))
    ensures Merged(lines, p, line, at, i + 1) ==
            if !p(lines[i]) then Merged(lines, p, line, at, i) + [lines[i]]
            else if at < i then Merged(lines, p, line, at, i)
            else Merged(lines, p, line, at, i) + [line]
  {
    if at <= i {
      SliceStep(lines, p, at, i);
      Regroup(lines[..at] + [line], Without(lines[at..i], p), lines[i]);
    } else {
      assert lines[..i + 1] == lines[..i] + [lines[i]];
    }
  }

  lemma Regroup(a: seq<string>, b: seq<string>, x: string)
    ensures a + (b + [x]) == a + b + [x]
    ensures a + [] == a
  {
  }

  lemma SliceStep(lines: seq<string>, p: string -> bool, at: nat, i: nat)
    requires at <= i < |lines|
    ensures Without(lines[at..i + 1], p) ==
            if p(lines[i]) then Without(lines[at..i], p) else Without(lines[at..i], p) + [lines[i]]
    ensures at == i ==> Without(lines[at..i], p) == []
  {
    assert lines[at..i + 1] == lines[at..i] + [lines[i]];
    WithoutSnoc(lines[at..i], p, lines[i]);
  }

  lemma MergedStrips(lines: seq<string>, p: string -> bool, line: string, at: nat)
    requires line != "" && at == First(lines, p)
    ensures var m := Merged(lines, p, line, at, |lines|);
            StripTrailing(if at < |lines| then m else m + [line]) == Replace(lines, p, line)
  {
    assert lines[at..|lines|] == lines[at..] && lines[..|lines|] == lines;
    StripAfter(lines[..at] + [line], Without(lines[at..], p));
    if at == |lines| {
      assert lines[at..] == [];
      assert lines[..at] + [line] + [] == lines + [line];
    }
  }
}
