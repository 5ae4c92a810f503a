/** The key=value configuration file: the installer's merge, and its two readers. */
module ConfigFile {
  import opened LineMerge

  datatype Result<T> = Ok(value: T) | Err(line: string)

  predicate Space(c: char) {
    c == ' ' || '\t' <= c <= '\r'
  }

  predicate Quote(c: char) {
    c == '"' || c == '\''
  }

  /** Without leading and trailing white space. */
  function Trim(s: string): string {
    if s != [] && Space(s[0]) then Trim(s[1..])
    else if s != [] && Space(s[|s| - 1]) then Trim(s[..|s| - 1])
    else s
  }

  /** awk's gsub of one quote at each end. */
  function StripOne(s: string): string {
    var t := if s != [] && Quote(s[0]) then s[1..] else s;
    if t != [] && Quote(t[|t| - 1]) then t[..|t| - 1] else t
  }

  /** Go's strings.Trim with a cutset of quotes. */
  function StripAll(s: string): string {
    if s != [] && Quote(s[0]) then StripAll(s[1..])
    else if s != [] && Quote(s[|s| - 1]) then StripAll(s[..|s| - 1])
    else s
  }

  /** Where the first equals sign is, or the length. */
  function EqualsAt(s: string): (i: nat)
    ensures i <= |s|
    ensures forall j :: 0 <= j < i ==> s[j] != '='
    ensures i < |s| ==> s[i] == '='
  {
    if s == [] || s[0] == '=' then 0 else 1 + EqualsAt(s[1..])
  }

  predicate HasEquals(s: string) {
    EqualsAt(s) < |s|
  }

  predicate IsComment(line: string) {
    if line != [] && Space(line[0]) then IsComment(line[1..]) else line != [] && line[0] == '#'
  }

  function KeyOf(line: string): string {
    Trim(line[..EqualsAt(line)])
  }

  /** The trimmed text after the first equals sign; without one, the whole line. */
  function RawValue(line: string): string {
    Trim(if HasEquals(line) then line[EqualsAt(line) + 1..] else line)
  }

  predicate Matches(line: string, key: string) {
    !IsComment(line) && KeyOf(line) == key
  }

  predicate Assigns(line: string, key: string) {
    Matches(line, key) && HasEquals(line)
  }

  predicate Bare(line: string, key: string) {
    Matches(line, key) && !HasEquals(line)
  }

  /** config_get over lines, from a value found before them: the last matching line decides. */
  function GetFrom(prior: string, lines: seq<string>, key: string): string {
    if lines == [] then prior
    else
      var last := lines[|lines| - 1];
      if Matches(last, key) then StripOne(RawValue(last)) else GetFrom(prior, lines[..|lines| - 1], key)
  }

  function Get(lines: seq<string>, key: string): string {
    GetFrom("", lines, key)
  }

  function Assigning(key: string): string -> bool {
    line => Assigns(line, key)
  }

  function FirstAssign(lines: seq<string>, key: string): nat {
    First(lines, Assigning(key))
  }

  /** The lines that do not assign key, in order. */
  function Unrelated(lines: seq<string>, key: string): seq<string> {
    Without(lines, Assigning(key))
  }

  function Assignment(key: string, value: string): string {
    key + "=" + value
  }

  /** The file config_set writes: the first assignment replaced in place, or one appended. */
  function Set(lines: seq<string>, key: string, value: string): seq<string> {
    Replace(lines, Assigning(key), Assignment(key, value))
  }

  /** What the monitor reads: the values, or the first line without an equals sign. */
  function Read(lines: seq<string>): Result<map<string, string>> {
    if lines == [] then Ok(map[])
    else
      match Read(lines[..|lines| - 1])
      case Err(bad) => Err(bad)
      case Ok(values) =>
        var line := Trim(lines[|lines| - 1]);
        if line == "" || line[0] == '#' then Ok(values)
        else if !HasEquals(line) then Err(line)
        else Ok(values[KeyOf(line) := StripAll(RawValue(line))])
  }

  /** A name that awk compares as text: it does not look like a number, and is no comment or blank. */
  predicate Named(key: string) {
    key != "" && ('A' <= key[0] <= 'Z' || 'a' <= key[0] <= 'z' || key[0] == '_')
  }

  /** A key the installer writes: it survives the readers' trimming. */
  predicate PlainKey(key: string) {
    Named(key) && OneLine(key) && '=' !in key && !Space(key[|key| - 1])
  }

  /** Without line breaks and without the escapes that awk expands. */
  predicate OneLine(value: string) {
    '\n' !in value && '\\' !in value
  }

  /** A value without escapes, outer white space or outer quotes. */
  predicate PlainValue(value: string) {
    && value != "" && OneLine(value)
    && !Space(value[0]) && !Space(value[|value| - 1])
    && !Quote(value[0]) && !Quote(value[|value| - 1])
  }

  // ---- trimming ----

  lemma {:induction false} TrimAfter(s: string, c: char)
    requires Space(c)
    ensures Trim(s + [c]) == Trim(s)
  {
    if s == [] {
      var one: string := [c];
      assert s + [c] == one && one[1..] == [];
    } else if Space(s[0]) {
      TrimAfter(s[1..], c);
      assert (s + [c])[1..] == s[1..] + [c];
    } else {
      assert (s + [c])[..|s|] == s;
    }
  }

  predicate SameSplit(a: string, b: string) {
    && (HasEquals(a) <==> HasEquals(b))
    && KeyOf(a) == KeyOf(b) && RawValue(a) == RawValue(b)
  }

  lemma SameSplitThrough(a: string, b: string, c: string)
    requires SameSplit(a, b) && SameSplit(b, c)
    ensures SameSplit(a, c)
  {
  }

  /** A trimmed line splits at its equals sign into the same key and value, and has one if the line has. */
  lemma {:induction false} TrimKeepsSplit(s: string, t: string)
    requires t == Trim(s)
    ensures SameSplit(t, s)
  {
    if s != [] && Space(s[0]) {
      TrimKeepsSplit(s[1..], t);
      DropLeading(s);
      SameSplitThrough(t, s[1..], s);
    } else if s != [] && Space(s[|s| - 1]) {
      var r := s[..|s| - 1];
      assert s == r + [s[|s| - 1]];
      TrimKeepsSplit(r, t);
      DropTrailing(r, s[|s| - 1]);
      SameSplitThrough(t, r, s);
    }
  }

  lemma DropLeading(s: string)
    requires s != [] && Space(s[0])
    ensures SameSplit(s[1..], s)
  {
    var r := s[1..];
    assert EqualsAt(s) == 1 + EqualsAt(r);
    assert s[..EqualsAt(s)][1..] == r[..EqualsAt(r)];
    if HasEquals(s) {
      assert s[EqualsAt(s) + 1..] == r[EqualsAt(r) + 1..];
    }
  }

  lemma DropTrailing(r: string, c: char)
    requires Space(c)
    ensures SameSplit(r, r + [c])
  {
    var s := r + [c];
    if HasEquals(r) {
      assert s[EqualsAt(r)] == '=';
      assert EqualsAt(s) == EqualsAt(r);
      assert s[..EqualsAt(s)] == r[..EqualsAt(r)];
      assert s[EqualsAt(s) + 1..] == r[EqualsAt(r) + 1..] + [c];
      TrimAfter(r[EqualsAt(r) + 1..], c);
    } else {
      assert forall j :: 0 <= j < |s| ==> s[j] != '=';
      assert s[..|s|] == s && r[..|r|] == r;
      TrimAfter(r, c);
    }
  }

  lemma {:induction false} CommentIff(line: string)
    ensures IsComment(line) <==> Trim(line) != "" && Trim(line)[0] == '#'
  {
    if line != [] && Space(line[0]) {
      CommentIff(line[1..]);
    } else if line != [] && Space(line[|line| - 1]) {
      CommentIff(line[..|line| - 1]);
      assert line[..|line| - 1][0] == line[0];
    }
  }

  lemma AssignmentReads(key: string, value: string)
    requires PlainKey(key)
    ensures Assigns(Assignment(key, value), key)
    ensures RawValue(Assignment(key, value)) == Trim(value)
  {
    var line := Assignment(key, value);
    assert line[|key|] == '=' && line[0] == key[0];
    assert forall j :: 0 <= j < |key| ==> line[j] == key[j];
    assert EqualsAt(line) == |key|;
    assert line[..|key|] == key && line[|key| + 1..] == value;
  }

  lemma BareReads(line: string, key: string)
    requires Bare(line, key)
    ensures RawValue(line) == key
  {
    assert line[..|line|] == line;
  }

  // ---- config_get over concatenations ----

  lemma {:induction false} GetAppend(prior: string, a: seq<string>, b: seq<string>, key: string)
    ensures GetFrom(prior, a + b, key) == GetFrom(GetFrom(prior, a, key), b, key)
  {
    if b == [] {
      assert a + b == a;
    } else {
      assert (a + b)[..|a + b| - 1] == a + b[..|b| - 1];
      GetAppend(prior, a, b[..|b| - 1], key);
    }
  }

  lemma {:induction false} GetUnrelated(prior: string, lines: seq<string>, key: string, other: string)
    requires other != key
    ensures GetFrom(prior, Unrelated(lines, key), other) == GetFrom(prior, lines, other)
  {
    if lines != [] {
      var before, last := lines[..|lines| - 1], lines[|lines| - 1];
      GetUnrelated(prior, before, key, other);
      GetSnoc(prior, Unrelated(before, key), last, other);
    }
  }

  lemma EmptyLine(key: string)
    requires key != ""
    ensures !Matches("", key)
  {
  }

  lemma {:induction false} GetStripped(prior: string, lines: seq<string>, key: string)
    requires key != ""
    ensures GetFrom(prior, StripTrailing(lines), key) == GetFrom(prior, lines, key)
  {
    if lines != [] && lines[|lines| - 1] == "" {
      EmptyLine(key);
      GetStripped(prior, lines[..|lines| - 1], key);
    }
  }

  predicate AnyBare(lines: seq<string>, key: string) {
    exists i :: 0 <= i < |lines| && Bare(lines[i], key)
  }

  lemma AnyBareSnoc(lines: seq<string>, key: string)
    requires lines != []
    ensures AnyBare(lines, key) <==> AnyBare(lines[..|lines| - 1], key) || Bare(lines[|lines| - 1], key)
  {
    assert forall i :: 0 <= i < |lines| - 1 ==> lines[..|lines| - 1][i] == lines[i];
  }

  lemma GetSnoc(prior: string, lines: seq<string>, last: string, key: string)
    ensures GetFrom(prior, lines + [last], key) ==
            if Matches(last, key) then StripOne(RawValue(last)) else GetFrom(prior, lines, key)
  {
    assert (lines + [last])[..|lines|] == lines;
  }

  lemma {:induction false} GetAmongBare(prior: string, lines: seq<string>, key: string)
    ensures GetFrom(prior, Unrelated(lines, key), key) == if AnyBare(lines, key) then StripOne(key) else prior
  {
    if lines != [] {
      var n := |lines| - 1;
      GetAmongBare(prior, lines[..n], key);
      AnyBareSnoc(lines, key);
      if Bare(lines[n], key) {
        BareReads(lines[n], key);
      }
      GetSnoc(prior, Unrelated(lines[..n], key), lines[n], key);
    }
  }

  lemma PlainSurvives(value: string)
    requires PlainValue(value)
    ensures Trim(value) == value && StripOne(value) == value && StripAll(value) == value
  {
  }

  // ---- the merge's laws ----

  /** Reading through a line with lines before and after it. */
  lemma GetPieces(head: seq<string>, line: string, tail: seq<string>, key: string)
    ensures Get(head + [line] + tail, key) ==
            GetFrom(if Matches(line, key) then StripOne(RawValue(line)) else Get(head, key), tail, key)
  {
    GetAppend("", head + [line], tail, key);
    GetSnoc("", head, line, key);
  }

  /**
   * Reading a key after setting it gives the value if and only if no line consisting of the bare key
   * follows its first assignment, the value being that bare key aside.
   */
  lemma GetAfterSetIff(lines: seq<string>, key: string, value: string)
    requires PlainKey(key) && PlainValue(value)
    ensures Get(Set(lines, key, value), key) == value <==>
              (AnyBare(lines[FirstAssign(lines, key)..], key) ==> StripOne(key) == value)
  {
    var at := FirstAssign(lines, key);
    var line, rest := Assignment(key, value), Unrelated(lines[at..], key);
    AssignmentReads(key, value);
    PlainSurvives(value);
    GetPieces(lines[..at], line, StripTrailing(rest), key);
    GetStripped(value, rest, key);
    GetAmongBare(value, lines[at..], key);
  }

  /** Such a file: the key alone on a line after its assignment hides every value but itself. */
  lemma BareKeyHidesValue(key: string, former: string, value: string)
    requires PlainKey(key) && PlainValue(value) && StripOne(key) != value
    ensures Get(Set([Assignment(key, former), key], key, value), key) != value
  {
    var lines := [Assignment(key, former), key];
    AssignmentReads(key, former);
    FirstAt(lines, Assigning(key), 0);
    BareKeyLine(key);
    assert lines[0..][1] == key;
    GetAfterSetIff(lines, key, value);
  }

  lemma BareKeyLine(key: string)
    requires PlainKey(key)
    ensures Bare(key, key)
  {
    assert key[..|key|] == key;
    assert Trim(key) == key;
  }

  /** All other keys read as before, whatever the file holds. */
  lemma GetOtherAfterSet(lines: seq<string>, key: string, value: string, other: string)
    requires PlainKey(key) && OneLine(value) && other != key && Named(other)
    ensures Get(Set(lines, key, value), other) == Get(lines, other)
  {
    var at := FirstAssign(lines, key);
    var rest := Unrelated(lines[at..], key);
    AssignmentReads(key, value);
    GetPieces(lines[..at], Assignment(key, value), StripTrailing(rest), other);
    OtherThrough(lines, at, key, other);
  }

  lemma OtherThrough(lines: seq<string>, at: nat, key: string, other: string)
    requires at <= |lines| && other != key && other != ""
    ensures GetFrom(Get(lines[..at], other), StripTrailing(Unrelated(lines[at..], key)), other) == Get(lines, other)
  {
    var prior := Get(lines[..at], other);
    GetStripped(prior, Unrelated(lines[at..], key), other);
    GetUnrelated(prior, lines[at..], key, other);
    GetAppend("", lines[..at], lines[at..], other);
    assert lines[..at] + lines[at..] == lines;
  }

  /**
   * The lines that do not assign the key keep their content and order, but for empty lines lost at the
   * end; the new file assigns it exactly once, where its first assignment was, or after the last line.
   */
  lemma UnrelatedSurvive(lines: seq<string>, key: string, value: string)
    requires PlainKey(key) && OneLine(value)
    ensures KeptButTrailing(Unrelated(Set(lines, key, value), key), Unrelated(lines, key))
    ensures |Set(lines, key, value)| == |Unrelated(Set(lines, key, value), key)| + 1
    ensures FirstAssign(Set(lines, key, value), key) == FirstAssign(lines, key)
    ensures Set(lines, key, value)[FirstAssign(lines, key)] == Assignment(key, value)
    ensures FirstAssign(lines, key) == |lines| ==> Set(lines, key, value) == lines + [Assignment(key, value)]
  {
    AssignmentReads(key, value);
    OthersSurvive(lines, Assigning(key), Assignment(key, value));
    if FirstAssign(lines, key) == |lines| {
      AppendKeepsAll(lines, Assigning(key), Assignment(key, value));
    }
  }

  /** Setting a key again forgets the value in between; setting it twice alike changes nothing more. */
  lemma SetOverwrites(lines: seq<string>, key: string, first: string, second: string)
    requires PlainKey(key) && OneLine(first) && OneLine(second)
    ensures Set(Set(lines, key, first), key, second) == Set(lines, key, second)
  {
    AssignmentReads(key, first);
    ReplaceOverwrites(lines, Assigning(key), Assignment(key, first), Assignment(key, second));
  }

  // ---- values with line breaks ----

  /** Where the first line break is, or the length. */
  function BreakAt(s: string): (i: nat)
    ensures i <= |s|
  {
    if s == [] || s[0] == '\n' then 0 else 1 + BreakAt(s[1..])
  }

  function Split(text: string): seq<string>
    decreases |text|
  {
    var i := BreakAt(text);
    if i == |text| then [text] else [text[..i]] + Split(text[i + 1..])
  }

  /** The lines that the next reader of a written file finds. */
  function Reread(lines: seq<string>): seq<string> {
    if lines == [] then [] else Reread(lines[..|lines| - 1]) + Split(lines[|lines| - 1])
  }

  predicate NoBreaks(lines: seq<string>) {
    forall line :: line in lines ==> '\n' !in line
  }

  lemma {:induction false} BreakAtFirst(head: string, tail: string)
    requires '\n' !in head
    ensures BreakAt(head) == |head| && BreakAt(head + "\n" + tail) == |head|
  {
    if head == [] {
      assert head + "\n" + tail == "\n" + tail;
    } else {
      assert (head + "\n" + tail)[1..] == head[1..] + "\n" + tail;
      BreakAtFirst(head[1..], tail);
    }
  }

  lemma SplitAtBreak(head: string, tail: string)
    requires '\n' !in head
    ensures Split(head) == [head] && Split(head + "\n" + tail) == [head] + Split(tail)
  {
    BreakAtFirst(head, tail);
    var text := head + "\n" + tail;
    assert text[..|head|] == head && text[|head| + 1..] == tail;
  }

  lemma {:induction false} RereadSame(lines: seq<string>)
    requires NoBreaks(lines)
    ensures Reread(lines) == lines
  {
    if lines != [] {
      RereadSame(lines[..|lines| - 1]);
      SplitAtBreak(lines[|lines| - 1], "");
    }
  }

  lemma {:induction false} SplitLonger(text: string)
    ensures |Split(text)| >= 1
    ensures '\n' in text ==> |Split(text)| >= 2
    decreases |text|
  {
    var i := BreakAt(text);
    BreakAtIs(text);
    if i < |text| {
      SplitLonger(text[i + 1..]);
    }
  }

  lemma {:induction false} BreakAtIs(text: string)
    ensures '\n' in text <==> BreakAt(text) < |text|
  {
    if text != [] && text[0] != '\n' {
      BreakAtIs(text[1..]);
      assert text == [text[0]] + text[1..];
    }
  }

  lemma {:induction false} RereadLonger(lines: seq<string>)
    ensures |Reread(lines)| >= |lines|
    ensures !NoBreaks(lines) ==> |Reread(lines)| > |lines|
  {
    if lines != [] {
      var before, last := lines[..|lines| - 1], lines[|lines| - 1];
      RereadLonger(before);
      SplitLonger(last);
      assert lines == before + [last];
    }
  }

  /** The merged lines are what the next reader finds if and only if the value has no line break. */
  lemma RereadIff(lines: seq<string>, key: string, value: string)
    requires PlainKey(key) && NoBreaks(lines)
    ensures Reread(Set(lines, key, value)) == Set(lines, key, value) <==> '\n' !in value
  {
    var line, out := Assignment(key, value), Set(lines, key, value);
    assert line in out && ('\n' in line <==> '\n' in value);
    if '\n' in value {
      RereadLonger(out);
    } else {
      forall x | x in out ensures '\n' !in x {
        ReplaceMembers(lines, Assigning(key), line, x);
      }
      RereadSame(out);
    }
  }

  /** With one, a value can set another key as well. */
  lemma LineBreakSetsOther(lines: seq<string>, key: string, first: string, other: string, second: string)
    requires PlainKey(key) && OneLine(first) && PlainKey(other) && PlainValue(second)
    requires NoBreaks(lines) && FirstAssign(lines, key) == |lines|
    ensures Get(Reread(Set(lines, key, first + "\n" + Assignment(other, second))), other) == second
  {
    var head, tail := Assignment(key, first), Assignment(other, second);
    AppendReread(lines, key, first, tail);
    SplitAtBreak(tail, "");
    AssignmentReads(other, second);
    PlainSurvives(second);
    GetSnoc("", lines + [head], tail, other);
    assert lines + ([head] + [tail]) == lines + [head] + [tail];
  }

  lemma AppendReread(lines: seq<string>, key: string, first: string, tail: string)
    requires PlainKey(key) && OneLine(first) && NoBreaks(lines) && FirstAssign(lines, key) == |lines|
    ensures Reread(Set(lines, key, first + "\n" + tail)) == lines + ([Assignment(key, first)] + Split(tail))
  {
    var line := Assignment(key, first + "\n" + tail);
    AppendKeepsAll(lines, Assigning(key), line);
    assert line == Assignment(key, first) + "\n" + tail;
    SplitAtBreak(Assignment(key, first), tail);
    RereadSame(lines);
    assert (lines + [line])[..|lines|] == lines;
  }

  // ---- the monitor's reader ----

  /** The line is blank, a comment, or has an equals sign. */
  predicate Readable(line: string) {
    Trim(line) == "" || IsComment(line) || HasEquals(line)
  }

  /** What one line does to the values, in terms of the installer's own notions. */
  lemma ReadLast(lines: seq<string>, line: string)
    ensures Read(lines + [line]) ==
            (if Read(lines).Err? then Read(lines)
             else if !Readable(line) then Err(Trim(line))
             else if IsComment(line) || Trim(line) == "" then Read(lines)
             else Ok(Read(lines).value[KeyOf(line) := StripAll(RawValue(line))]))
  {
    assert (lines + [line])[..|lines|] == lines;
    TrimKeepsSplit(line, Trim(line));
    CommentIff(line);
  }

  lemma {:induction false} ReadOkIff(lines: seq<string>)
    ensures Read(lines).Ok? <==> forall i :: 0 <= i < |lines| ==> Readable(lines[i])
  {
    if lines != [] {
      var n := |lines| - 1;
      ReadOkIff(lines[..n]);
      ReadLast(lines[..n], lines[n]);
      assert lines == lines[..n] + [lines[n]];
      assert forall i :: 0 <= i < n ==> lines[..n][i] == lines[i];
    }
  }

  /** The last raw value assigned to key, if any. */
  function LastRaw(lines: seq<string>, key: string): Result<string> {
    if lines == [] then Err("")
    else if Assigns(lines[|lines| - 1], key) then Ok(RawValue(lines[|lines| - 1]))
    else LastRaw(lines[..|lines| - 1], key)
  }

  lemma BlankKey(line: string)
    requires Trim(line) == ""
    ensures KeyOf(line) == "" && !HasEquals(line)
  {
    TrimKeepsSplit(line, Trim(line));
  }

  /** The monitor reads each key's last assignment, quotes removed. */
  lemma {:induction false} ReadSeesLast(lines: seq<string>, key: string)
    requires Read(lines).Ok?
    ensures key in Read(lines).value <==> LastRaw(lines, key).Ok?
    ensures LastRaw(lines, key).Ok? ==> Read(lines).value[key] == StripAll(LastRaw(lines, key).value)
  {
    if lines != [] {
      var n := |lines| - 1;
      assert lines == lines[..n] + [lines[n]];
      ReadLast(lines[..n], lines[n]);
      ReadSeesLast(lines[..n], key);
      if Trim(lines[n]) == "" {
        BlankKey(lines[n]);
      }
    }
  }

  /** So does config_get, with its own way of removing them, if no line is bare. */
  lemma {:induction false} GetSeesLast(lines: seq<string>, key: string)
    requires key != "" && forall i :: 0 <= i < |lines| ==> Readable(lines[i])
    ensures Get(lines, key) == if LastRaw(lines, key).Ok? then StripOne(LastRaw(lines, key).value) else ""
  {
    if lines != [] {
      var n := |lines| - 1;
      GetSeesLast(lines[..n], key);
      assert Readable(lines[n]);
      if Trim(lines[n]) == "" {
        BlankKey(lines[n]);
      }
    }
  }

  predicate OuterQuote(s: string) {
    s != "" && (Quote(s[0]) || Quote(s[|s| - 1]))
  }

  lemma {:induction false} StripAllShortens(s: string)
    ensures |StripAll(s)| <= |s|
    ensures OuterQuote(s) ==> |StripAll(s)| < |s|
  {
    if s != [] && Quote(s[0]) {
      StripAllShortens(s[1..]);
    } else if s != [] && Quote(s[|s| - 1]) {
      StripAllShortens(s[..|s| - 1]);
    }
  }

  lemma {:induction false} StripAllAfter(s: string, c: char)
    requires Quote(c)
    ensures StripAll(s + [c]) == StripAll(s)
  {
    if s == [] {
      var one: string := [c];
      assert s + [c] == one && one[1..] == [];
    } else if Quote(s[0]) {
      assert (s + [c])[1..] == s[1..] + [c];
      StripAllAfter(s[1..], c);
    } else {
      assert (s + [c])[..|s|] == s;
    }
  }

  lemma StripsAgreeIff(s: string)
    ensures StripOne(s) == StripAll(s) <==> !OuterQuote(StripOne(s))
  {
    var t := if s != [] && Quote(s[0]) then s[1..] else s;
    if t != [] && Quote(t[|t| - 1]) {
      StripAllAfter(t[..|t| - 1], t[|t| - 1]);
      assert t == t[..|t| - 1] + [t[|t| - 1]];
    }
    assert StripAll(StripOne(s)) == StripAll(s);
    StripAllShortens(StripOne(s));
  }

  /**
   * On a file the monitor accepts, it and config_get read a key alike if and only if its last assigned
   * value has no quote left at either end once one is removed from each.
   */
  lemma ReadersAgreeIff(lines: seq<string>, key: string)
    requires Named(key) && Read(lines).Ok?
    ensures (var values := Read(lines).value; (if key in values then values[key] else "") == Get(lines, key)) <==>
            (var raw := LastRaw(lines, key); raw.Ok? ==> !OuterQuote(StripOne(raw.value)))
  {
    ReadOkIff(lines);
    ReadSeesLast(lines, key);
    GetSeesLast(lines, key);
    if LastRaw(lines, key).Ok? {
      StripsAgreeIff(LastRaw(lines, key).value);
    }
  }

  lemma LastRawSnoc(lines: seq<string>, last: string, key: string)
    ensures LastRaw(lines + [last], key) == if Assigns(last, key) then Ok(RawValue(last)) else LastRaw(lines, key)
  {
    assert (lines + [last])[..|lines|] == lines;
  }

  lemma {:induction false} LastRawUnrelated(lines: seq<string>, key: string, other: string)
    requires other != key
    ensures LastRaw(Unrelated(lines, key), other) == LastRaw(lines, other)
  {
    if lines != [] {
      var before, last := lines[..|lines| - 1], lines[|lines| - 1];
      LastRawUnrelated(before, key, other);
      LastRawSnoc(Unrelated(before, key), last, other);
    }
  }

  /** The monitor accepts the merged file exactly when it accepted the old one. */
  lemma ReadOkAfterSet(lines: seq<string>, key: string, value: string)
    requires PlainKey(key) && OneLine(value)
    ensures Read(Set(lines, key, value)).Ok? <==> Read(lines).Ok?
  {
    var out := Set(lines, key, value);
    ReadOkIff(lines);
    ReadOkIff(out);
    AssignmentReads(key, value);
    if forall i :: 0 <= i < |lines| ==> Readable(lines[i]) {
      forall line | line in out ensures Readable(line) {
        ReplaceMembers(lines, Assigning(key), Assignment(key, value), line);
      }
    }
    if forall i :: 0 <= i < |out| ==> Readable(out[i]) {
      forall line | line in lines ensures Readable(line) {
        ReplaceMembers(lines, Assigning(key), Assignment(key, value), line);
      }
    }
  }

  lemma {:induction false} LastRawAppend(a: seq<string>, b: seq<string>, key: string)
    ensures LastRaw(a + b, key) == if LastRaw(b, key).Ok? then LastRaw(b, key) else LastRaw(a, key)
  {
    if b == [] {
      assert a + b == a;
    } else {
      assert (a + b)[..|a + b| - 1] == a + b[..|b| - 1];
      LastRawAppend(a, b[..|b| - 1], key);
    }
  }

  lemma {:induction false} LastRawStripped(lines: seq<string>, key: string)
    ensures LastRaw(StripTrailing(lines), key) == LastRaw(lines, key)
  {
    if lines != [] && lines[|lines| - 1] == "" {
      LastRawStripped(lines[..|lines| - 1], key);
    }
  }

  lemma {:induction false} LastRawNone(lines: seq<string>, key: string)
    requires forall line :: line in lines ==> !Assigns(line, key)
    ensures LastRaw(lines, key) == Err("")
  {
    if lines != [] {
      LastRawNone(lines[..|lines| - 1], key);
    }
  }

  lemma LastRawAfterSet(lines: seq<string>, key: string, value: string, other: string)
    requires PlainKey(key) && PlainValue(value)
    ensures LastRaw(Set(lines, key, value), other) == if other == key then Ok(value) else LastRaw(lines, other)
  {
    var at := FirstAssign(lines, key);
    var line, rest := Assignment(key, value), Unrelated(lines[at..], key);
    AssignmentReads(key, value);
    PlainSurvives(value);
    assert [line][..0] == [];
    LastRawAppend(lines[..at], [line], other);
    LastRawAppend(lines[..at] + [line], StripTrailing(rest), other);
    LastRawStripped(rest, other);
    if other == key {
      forall x | x in rest ensures !Assigns(x, key) {
        WithoutHas(lines[at..], Assigning(key), x);
      }
      LastRawNone(rest, key);
    } else {
      LastRawUnrelated(lines[at..], key, other);
      LastRawAppend(lines[..at], lines[at..], other);
      assert lines[..at] + lines[at..] == lines;
    }
  }

  /** After a merge the monitor reads the old values with the one key changed, whatever bare keys config_get sees. */
  lemma ReadAfterSet(lines: seq<string>, key: string, value: string)
    requires PlainKey(key) && PlainValue(value) && Read(lines).Ok?
    ensures Read(Set(lines, key, value)) == Ok(Read(lines).value[key := value])
  {
    ReadOkAfterSet(lines, key, value);
    PlainSurvives(value);
    var before, after := Read(lines).value, Read(Set(lines, key, value)).value;
    forall k ensures k in after <==> k in before || k == key {
      LastRawAfterSet(lines, key, value, k);
      ReadSeesLast(lines, k);
      ReadSeesLast(Set(lines, key, value), k);
    }
    forall k | k in after ensures after[k] == before[key := value][k] {
      LastRawAfterSet(lines, key, value, k);
      ReadSeesLast(lines, k);
      ReadSeesLast(Set(lines, key, value), k);
    }
    assert after == before[key := value];
  }

  /** Such a file: with two quotes before a value, only the monitor takes both off. */
  lemma DoubleQuoteDisagrees(key: string, value: string, q: char)
    requires PlainKey(key) && PlainValue(value) && Quote(q)
    ensures var lines := [Assignment(key, [q, q] + value)];
            Read(lines).Ok? && key in Read(lines).value && Read(lines).value[key] != Get(lines, key)
  {
    var quoted: string := [q, q] + value;
    var line := Assignment(key, quoted);
    assert quoted[|quoted| - 1] == value[|value| - 1];
    assert Trim(quoted) == quoted;
    assert StripOne(quoted) == quoted[1..] && quoted[1] == q;
    AssignmentReads(key, quoted);
    ReadOkIff([line]);
    ReadSeesLast([line], key);
    assert LastRaw([line], key) == Ok(quoted);
    ReadersAgreeIff([line], key);
  }

  /** Or make the monitor reject a file that it accepted. */
  lemma LineBreakRejects(lines: seq<string>, key: string, first: string, second: string)
    requires PlainKey(key) && OneLine(first) && PlainValue(second) && second[0] != '#' && '=' !in second
    requires NoBreaks(lines) && FirstAssign(lines, key) == |lines|
    ensures Read(Reread(Set(lines, key, first + "\n" + second))).Err?
  {
    AppendReread(lines, key, first, second);
    SplitAtBreak(second, "");
    PlainSurvives(second);
    CommentIff(second);
    assert !Readable(second);
    ReadLast(lines + [Assignment(key, first)], second);
    assert lines + ([Assignment(key, first)] + [second]) == lines + [Assignment(key, first)] + [second];
  }

  /** Both readers take a value's enclosing quotes off, of either kind, and leave those inside. */
  lemma QuotedReads(lines: seq<string>, key: string, value: string, q: char)
    requires PlainKey(key) && PlainValue(value) && Quote(q)
    ensures Get(lines + [Assignment(key, [q] + value + [q])], key) == value
    ensures Read(lines).Ok? ==>
              Read(lines + [Assignment(key, [q] + value + [q])]) == Ok(Read(lines).value[key := value])
  {
    var quoted: string := [q] + value + [q];
    var line := Assignment(key, quoted);
    assert quoted[1..] == value + [q] && (value + [q])[..|value|] == value;
    assert Trim(quoted) == quoted && StripOne(quoted) == value;
    AssignmentReads(key, quoted);
    GetSnoc("", lines, line, key);
    StripAllAfter(value, q);
    PlainSurvives(value);
    ReadLast(lines, line);
    if Trim(line) == "" {
      BlankKey(line);
    }
  }

  // ---- the loops ----

  method ConfigGet(lines: seq<string>, key: string) returns (value: string)
    ensures value == Get(lines, key)
  {
    value := "";
    for i := 0 to |lines|
      invariant value == Get(lines[..i], key)
    {
      assert lines[..i + 1][..i] == lines[..i];
      if !IsComment(lines[i]) && KeyOf(lines[i]) == key {
        value := StripOne(RawValue(lines[i]));
      }
    }
    assert lines[..|lines|] == lines;
  }

  method ConfigSet(lines: seq<string>, key: string, value: string) returns (out: seq<string>)
    ensures out == Set(lines, key, value)
  {
    var done := false;
    ghost var p, line, at := Assigning(key), Assignment(key, value), FirstAssign(lines, key);
    out := [];
    for i := 0 to |lines|
      invariant done <==> at < i
      invariant out == Merged(lines, p, line, at, i)
    {
      FirstAmong(lines, p, i);
      MergedStep(lines, p, line, at, i);
      if IsComment(lines[i]) {
        out := out + [lines[i]];
      } else if KeyOf(lines[i]) == key && HasEquals(lines[i]) {
        if !done {
          out := out + [Assignment(key, value)];
          done := true;
        }
      } else {
        out := out + [lines[i]];
      }
    }
    if !done {
      out := out + [Assignment(key, value)];
    }
    assert line != "";
    MergedStrips(lines, p, line, at);
    ghost var merged := out;
    while out != [] && out[|out| - 1] == ""
      invariant StripTrailing(out) == StripTrailing(merged)
    {
      out := out[..|out| - 1];
    }
  }

  /** The reading loop of LoadConfig. */
  method LoadValues(lines: seq<string>) returns (r: Result<map<string, string>>)
    ensures r == Read(lines)
    ensures r.Ok? <==> forall i :: 0 <= i < |lines| ==> Readable(lines[i])
  {
    ReadOkIff(lines);
    var values: map<string, string> := map[];
    for i := 0 to |lines|
      invariant Read(lines[..i]) == Ok(values)
    {
      assert lines[..i + 1] == lines[..i] + [lines[i]];
      var line := Trim(lines[i]);
      if line != "" && line[0] != '#' {
        if !HasEquals(line) {
          ReadErrStays(lines, i + 1);
          return Err(line);
        }
        values := values[KeyOf(line) := StripAll(RawValue(line))];
      }
    }
    assert lines[..|lines|] == lines;
    return Ok(values);
  }

  lemma {:induction false} ReadErrStays(lines: seq<string>, i: nat)
    requires i <= |lines| && Read(lines[..i]).Err?
    ensures Read(lines) == Read(lines[..i])
    decreases |lines|
  {
    if i < |lines| {
      assert lines[..|lines| - 1][..i] == lines[..i];
      ReadErrStays(lines[..|lines| - 1], i);
    } else {
      assert lines[..i] == lines;
    }
  }
}
