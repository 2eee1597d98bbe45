/** Editing one key of the .env file in place, as blueprints/admin.py does. */
module EnvFile {
  import opened Wrappers
  import opened Whitespace
  import opened TextLines
  import opened FileLines

  datatype Result = Written | MalformedKey | ForbiddenValue | FileMissing

  // ---- Keys, values and lines ---------------------------------------------

  predicate KeyChar(c: char) { 'A' <= c <= 'Z' || '0' <= c <= '9' || c == '_' }

  predicate WellFormed(key: string) {
    key != "" && 'A' <= key[0] <= 'Z' && forall c | c in key :: KeyChar(c)
  }

  predicate EndsInBreak(key: string) { key != "" && key[|key| - 1] == NEWLINE }

  /** The key check: `$` also matches before a final newline. */
  predicate Accepted(key: string) {
    WellFormed(key) || (EndsInBreak(key) && WellFormed(key[..|key| - 1]))
  }

  /** The value check: of all line breaks it refuses the newline only. */
  predicate Storable(value: string) { '\'' !in value && '\\' !in value && OneLine(value) }

  function SkipSpace(s: string): string {
    if s != "" && IsSpace(s[0]) then SkipSpace(s[1..]) else s
  }

  /** ^\s*KEY\s*= at the start of a line. */
  predicate Matches(line: string, key: string) {
    var rest := SkipSpace(line);
    key <= rest && [ '=' ] <= SkipSpace(rest[|key|..])
  }

  /** What a matching line assigns, without its line break. */
  function Assigned(line: string, key: string): string
    requires Matches(line, key)
  {
    var value := SkipSpace(SkipSpace(line)[|key|..])[1..];
    if value != "" && IsBreak(value[|value| - 1]) then value[..|value| - 1] else value
  }

  /** The value a reader finds: the first line that matches the key decides. */
  function LookupLines(lines: seq<string>, key: string): Option<string> {
    if lines == [] then None
    else if Matches(lines[0], key) then Some(Assigned(lines[0], key))
    else LookupLines(lines[1..], key)
  }

  function Lookup(raw: string, key: string): Option<string> {
    LookupLines(KeepEnds(Read(raw)), key)
  }

  function Quoted(value: string): string { " '" + value + "'" }

  function NewLine(key: string, value: string): string { key + " =" + Quoted(value) + [NEWLINE] }

  function Terminated(line: string): string {
    if line != "" && line[|line| - 1] == NEWLINE then line else line + [NEWLINE]
  }

  /** Replace the first matching line, or append one. */
  function SetLines(lines: seq<string>, key: string, line: string): seq<string> {
    if lines == [] then [line]
    else if Matches(lines[0], key) then [line] + lines[1..]
    else if |lines| == 1 then [Terminated(lines[0]), line]
    else [lines[0]] + SetLines(lines[1..], key, line)
  }

  /** The file after the edit; what is written is not translated again. */
  function SetText(raw: string, key: string, value: string): string {
    Concat(SetLines(KeepEnds(Read(raw)), key, NewLine(key, value)))
  }

  /** What the next read makes of the written line: more than one line when the
      value holds a line break, or the key ends in one. */
  function Block(key: string, value: string): seq<string> { KeepEnds(Read(NewLine(key, value))) }

  // ---- What is accepted, written and found, spelled out --------------------

  /** The keys that pass: capitals, digits and underscores with a capital first, and
      possibly one newline after them. */
  lemma AcceptedExact(key: string)
    ensures var capitals := "ABCDEFGHIJKLMNOPQRSTUVWXYZ";
      var n := if key != "" && key[|key| - 1] == '\n' then |key| - 1 else |key|;
      Accepted(key) <==>
        n > 0 && key[0] in capitals && forall i | 0 <= i < n :: key[i] in capitals || key[i] in "0123456789_"
  {
    Letters();
    var n := if key != "" && key[|key| - 1] == '\n' then |key| - 1 else |key|;
    var body := key[..n];
    assert n == |key| ==> body == key;
    assert forall c | c in body :: exists i :: 0 <= i < n && key[i] == c;
    assert forall i | 0 <= i < n :: key[i] in body;
    if n < |key| {
      assert key[|key| - 1] in key && !KeyChar('\n');
    }
  }

  lemma Letters()
    ensures forall c :: 'A' <= c <= 'Z' <==> c in "ABCDEFGHIJKLMNOPQRSTUVWXYZ"
    ensures forall c :: KeyChar(c) <==> c in "ABCDEFGHIJKLMNOPQRSTUVWXYZ" || c in "0123456789_"
  {
    var capitals, others := "ABCDEFGHIJKLMNOPQRSTUVWXYZ", "0123456789_";
    forall c | 'A' <= c <= 'Z' ensures c in capitals { assert capitals[c as int - 65] == c; }
    forall c | '0' <= c <= '9' ensures c in others { assert others[c as int - 48] == c; }
    assert others[10] == '_';
  }

  /** The values that pass: no quote, no backslash, no newline. */
  lemma StorableExact(value: string)
    ensures Storable(value) <==> forall i | 0 <= i < |value| :: value[i] != '\'' && value[i] != '\\' && value[i] != '\n'
  {
    assert forall i | 0 <= i < |value| :: value[i] in value;
  }

  /** The line that is written. */
  lemma NewLineExact(key: string, value: string)
    ensures NewLine(key, value) == key + " = '" + value + "'\n"
  {
    assert " =" + (" '" + value + "'") == " = '" + value + "'";
  }

  /** A line gets the newline it lacks, and no other. */
  lemma TerminatedExact(line: string)
    ensures Terminated(line) == if line != "" && line[|line| - 1] == '\n' then line else line + "\n"
  {}

  predicate BlankBetween(line: string, i: int, j: int) {
    0 <= i <= j <= |line| && forall k | i <= k < j :: IsSpace(line[k])
  }

  /** Where a line assigns a key: blanks, the key, blanks, an equals sign. */
  predicate AssignsAt(line: string, key: string, i: int, j: int) {
    && BlankBetween(line, 0, i) && i + |key| <= |line| && line[i..i + |key|] == key
    && BlankBetween(line, i + |key|, j) && j < |line| && line[j] == '='
  }

  lemma {:induction false} SkipsBlanks(s: string)
    ensures BlankBetween(s, 0, |s| - |SkipSpace(s)|)
  {
    SkipSpaceFacts(s);
    if s != "" && IsSpace(s[0]) {
      SkipsBlanks(s[1..]);
      assert forall k | 0 <= k < |s| - 1 :: s[1..][k] == s[k + 1];
      assert forall k | 1 <= k < |s| - |SkipSpace(s)| :: s[k] == s[1..][k - 1];
    }
  }

  lemma {:induction false} SkipsAll(s: string, i: nat)
    requires i <= |s| && BlankBetween(s, 0, i) && (i < |s| ==> !IsSpace(s[i]))
    ensures SkipSpace(s) == s[i..]
  {
    if i > 0 {
      SkipsAll(s[1..], i - 1);
    }
  }

  /** A line matches a key exactly when it assigns it somewhere, and the value is
      what follows the sign, without the line break. */
  lemma MatchesExact(line: string, key: string)
    requires WellFormed(key)
    ensures Matches(line, key) <==> exists i, j :: AssignsAt(line, key, i, j)
    ensures forall i, j | AssignsAt(line, key, i, j) ::
      var value := line[j + 1..];
      Matches(line, key)
      && Assigned(line, key) == if value != "" && IsBreak(value[|value| - 1]) then value[..|value| - 1] else value
  {
    hide WellFormed, IsSpace;
    KeyStart(key);
    if Matches(line, key) {
      MatchedAt(line, key);
    }
    forall i, j | AssignsAt(line, key, i, j)
      ensures Matches(line, key) && SkipSpace(SkipSpace(line)[|key|..])[1..] == line[j + 1..]
    {
      AssignedAt(line, key, i, j);
    }
  }

  lemma MatchedAt(line: string, key: string)
    requires Matches(line, key)
    ensures exists i, j :: AssignsAt(line, key, i, j)
  {
    hide SkipSpace, IsSpace;
    var rest := SkipSpace(line);
    var i := |line| - |rest|;
    SkipSpaceFacts(line);
    SkipsBlanks(line);
    var after := rest[|key|..];
    SkipSpaceFacts(after);
    SkipsBlanks(after);
    var j := |line| - |SkipSpace(after)|;
    assert rest == line[i..] && after == line[i + |key|..];
    assert line[i..i + |key|] == rest[..|key|];
    forall k | i + |key| <= k < j ensures IsSpace(line[k]) { assert line[k] == after[k - i - |key|]; }
    assert SkipSpace(after) == line[j..];
    assert AssignsAt(line, key, i, j);
  }

  lemma AssignedAt(line: string, key: string, i: int, j: int)
    requires WellFormed(key) && AssignsAt(line, key, i, j)
    ensures Matches(line, key) && SkipSpace(SkipSpace(line)[|key|..])[1..] == line[j + 1..]
  {
    hide SkipSpace, WellFormed;
    KeyStart(key);
    assert line[i] == line[i..i + |key|][0];
    SkipsAll(line, i);
    var after := line[i + |key|..];
    assert line[i..][|key|..] == after && line[i..][..|key|] == key;
    forall k | 0 <= k < j - i - |key| ensures IsSpace(after[k]) { assert after[k] == line[i + |key| + k]; }
    SkipsAll(after, j - i - |key|);
    assert after[j - i - |key|..] == line[j..];
  }

  /** The first line that matches decides. */
  lemma {:induction false} LookupIsFirst(lines: seq<string>, key: string)
    ensures (forall i | 0 <= i < |lines| :: !Matches(lines[i], key)) ==> LookupLines(lines, key) == None
    ensures forall i | 0 <= i < |lines| && Matches(lines[i], key) && (forall k | 0 <= k < i :: !Matches(lines[k], key)) ::
      LookupLines(lines, key) == Some(Assigned(lines[i], key))
  {
    if lines != [] {
      hide Matches, Assigned;
      LookupIsFirst(lines[1..], key);
      forall i | 0 <= i < |lines| && Matches(lines[i], key) && (forall k | 0 <= k < i :: !Matches(lines[k], key))
        ensures LookupLines(lines, key) == Some(Assigned(lines[i], key))
      {
        if i > 0 {
          assert lines[1..][i - 1] == lines[i];
          assert forall k | 0 <= k < i - 1 :: lines[1..][k] == lines[k + 1];
        }
      }
      assert forall k | 0 <= k < |lines| - 1 :: lines[1..][k] == lines[k + 1];
    }
  }

  // ---- Facts about one line -----------------------------------------------

  lemma {:induction false} SkipSpaceFacts(s: string)
    ensures SkipSpace(s) == "" || !IsSpace(SkipSpace(s)[0])
    ensures s != "" && !IsSpace(s[0]) ==> SkipSpace(s) == s
    ensures |SkipSpace(s)| <= |s| && SkipSpace(s) == s[|s| - |SkipSpace(s)|..]
  {
    if s != "" && IsSpace(s[0]) {
      SkipSpaceFacts(s[1..]);
    }
  }

  lemma KeyStart(key: string)
    requires WellFormed(key)
    ensures key != "" && KeyChar(key[0]) && !IsSpace(key[0]) && NoBreak(key) && NoReturn(key)
    ensures key[|key| - 1] != NEWLINE
  {
    assert forall i | 0 <= i < |key| :: key[i] in key;
  }

  /** A line assigns at most one key. */
  lemma MatchUnique(line: string, a: string, b: string)
    requires WellFormed(a) && WellFormed(b) && Matches(line, a) && Matches(line, b)
    ensures a == b
  {
    var rest := SkipSpace(line);
    if |a| < |b| {
      NextIsKeyChar(rest, a, b);
    } else if |b| < |a| {
      NextIsKeyChar(rest, b, a);
    }
    assert a == rest[..|a|] && b == rest[..|b|];
  }

  /** Where a shorter key ends inside a longer one there is no assignment. */
  lemma NextIsKeyChar(rest: string, a: string, b: string)
    requires WellFormed(b) && b <= rest && |a| < |b|
    ensures !(['='] <= SkipSpace(rest[|a|..]))
  {
    var c := rest[|a|];
    assert c == b[|a|] && KeyChar(c);
    SkipSpaceFacts(rest[|a|..]);
    assert SkipSpace(rest[|a|..])[0] == c;
  }

  lemma {:induction false} SkipSpaceBreak(s: string)
    ensures SkipSpace(s + [NEWLINE]) == if SkipSpace(s) == "" then "" else SkipSpace(s) + [NEWLINE]
  {
    if s != "" && IsSpace(s[0]) {
      assert (s + [NEWLINE])[1..] == s[1..] + [NEWLINE];
      SkipSpaceBreak(s[1..]);
    } else if s == "" {
      assert s + [NEWLINE] == [NEWLINE];
      assert SkipSpace([NEWLINE][1..]) == "";
    }
  }

  lemma PrefixOfEnded(key: string, rest: string)
    requires WellFormed(key) && key <= rest + [NEWLINE]
    ensures key <= rest
  {
    var last := |key| - 1;
    assert key[last] in key;
    assert key[last] == (rest + [NEWLINE])[last];
  }

  /** A key is found before a final line break exactly when it is without one. */
  lemma KeyBeforeBreak(rest: string, key: string)
    requires WellFormed(key)
    ensures key <= rest + [NEWLINE] <==> key <= rest
    ensures key <= rest ==> (rest + [NEWLINE])[|key|..] == rest[|key|..] + [NEWLINE]
  {
    var ended := rest + [NEWLINE];
    if key <= ended {
      PrefixOfEnded(key, rest);
    }
    if key <= rest {
      assert ended[..|key|] == rest[..|key|];
    }
  }

  /** So is an equals sign, and what follows it. */
  lemma SignBeforeBreak(tail: string)
    ensures ['='] <= SkipSpace(tail + [NEWLINE]) <==> ['='] <= SkipSpace(tail)
    ensures ['='] <= SkipSpace(tail) ==> SkipSpace(tail + [NEWLINE])[1..] == SkipSpace(tail)[1..] + [NEWLINE]
  {
    SkipSpaceBreak(tail);
    var rest := SkipSpace(tail);
    assert rest != "" ==> (rest + [NEWLINE])[1..] == rest[1..] + [NEWLINE];
  }

  /** Adding the missing line break changes neither the key nor the value. */
  lemma TerminatedMatches(line: string, key: string)
    requires WellFormed(key) && NoBreak(line)
    ensures Matches(line + [NEWLINE], key) <==> Matches(line, key)
    ensures Matches(line, key) ==> Assigned(line + [NEWLINE], key) == Assigned(line, key)
  {
    hide SkipSpace, IsBreak, WellFormed;
    SkipSpaceBreak(line);
    SkipSpaceFacts(line);
    var rest := SkipSpace(line);
    KeyStart(key);
    if rest != "" {
      KeyBeforeBreak(rest, key);
      if key <= rest {
        SignBeforeBreak(rest[|key|..]);
        if Matches(line, key) { ValueHasNoBreak(line, key); }
      }
    }
  }

  lemma ValueHasNoBreak(line: string, key: string)
    requires NoBreak(line) && Matches(line, key)
    ensures var value := SkipSpace(SkipSpace(line)[|key|..])[1..];
      (value != "" ==> !IsBreak(value[|value| - 1])) && IsBreak(NEWLINE)
  {
    hide SkipSpace;
    SkipSpaceFacts(line);
    SkipSpaceFacts(SkipSpace(line)[|key|..]);
  }

  lemma AssignmentMatches(key: string, tail: string)
    requires WellFormed(key) && ['='] <= tail
    ensures Matches(key + (" " + tail), key)
    ensures SkipSpace(SkipSpace(key + (" " + tail))[|key|..]) == tail
  {
    hide WellFormed, SkipSpace, IsSpace;
    var line := key + (" " + tail);
    KeyStart(key);
    SkipSpaceFacts(line);
    assert line[0] == key[0] && SkipSpace(line) == line && line[|key|..] == " " + tail;
    BlankSkipped(tail);
  }

  lemma BlankSkipped(tail: string)
    requires ['='] <= tail
    ensures SkipSpace(" " + tail) == tail
  {
    assert (" " + tail)[1..] == tail && tail[0] == '=';
    SkipSpaceFacts(tail);
  }

  lemma BreakIsLast(line: string, at: nat)
    requires KeptLine(line, true) && at < |line| && IsBreak(line[at])
    ensures at == |line| - 1
  {
    forall i | 0 <= i < |line| - 1 ensures !IsBreak(line[i]) {
      assert line[..|line| - 1][i] == line[i];
    }
  }

  /** A key with a final newline passes the key check, but no line can match it. */
  lemma NewlineKeyNoMatch(line: string, key: string)
    requires KeptLine(line, true) && EndsInBreak(key)
    ensures !Matches(line, key)
  {
    hide SkipSpace;
    SkipSpaceFacts(line);
    var rest := SkipSpace(line);
    if key <= rest {
      var at := |line| - |rest| + |key| - 1;
      assert line[at] == rest[|key| - 1] == key[|key| - 1];
      BreakIsLast(line, at);
      assert rest[|key|..] == "";
      SkipSpaceFacts("");
    }
  }

  lemma {:induction false} NewlineKeyNeverMatches(lines: seq<string>, key: string)
    requires EndsKept(lines) && EndsInBreak(key)
    ensures LookupLines(lines, key) == None
    ensures forall i | 0 <= i < |lines| :: !Matches(lines[i], key)
  {
    if lines != [] {
      hide Matches, KeptLine, EndsKept;
      EndsKeptParts(lines);
      StillKept(lines[0]);
      NewlineKeyNoMatch(lines[0], key);
      NewlineKeyNeverMatches(lines[1..], key);
    }
  }

  lemma StillKept(line: string)
    ensures KeptLine(line, false) ==> KeptLine(line, true)
    ensures KeptLine(line, true) && IsBreak(line[|line| - 1]) ==> KeptLine(line, false)
  {}

  // ---- The written line as it is read back --------------------------------

  /** What follows a key in its line, up to the break. */
  function Tail(value: string): string { " =" + Quoted(value) }

  lemma ReadNewLine(key: string, value: string)
    requires Accepted(key) && Storable(value)
    ensures Read(NewLine(key, value)) == key + Softened(Tail(value)) + [NEWLINE]
    ensures |Read(NewLine(key, value))| == |NewLine(key, value)|
  {
    var w := Tail(value);
    KeyHasNoReturn(key);
    ReadPlain(key);
    assert OneLine(w);
    ReadSoftens(w);
    ReadPlain([NEWLINE]);
    ReadConcat(w, [NEWLINE]);
    ReadConcat(key, w + [NEWLINE]);
    assert NewLine(key, value) == key + (w + [NEWLINE]);
    assert key + (Softened(w) + [NEWLINE]) == key + Softened(w) + [NEWLINE];
  }

  lemma KeyHasNoReturn(key: string)
    requires Accepted(key)
    ensures NoReturn(key) && key != ""
  {
    if WellFormed(key) {
      KeyStart(key);
    } else {
      KeyStart(key[..|key| - 1]);
      assert key == key[..|key| - 1] + [NEWLINE];
    }
  }

  lemma BlockShape(key: string, value: string)
    requires Accepted(key) && Storable(value)
    ensures Block(key, value) != [] && EndsKept(Block(key, value))
    ensures |Concat(Block(key, value))| == |NewLine(key, value)|
    ensures var text := Read(NewLine(key, value)); text != "" && IsBreak(text[|text| - 1])
  {
    hide KeepEnds, Read, EndsKept, Accepted;
    ReadNewLine(key, value);
    var text := Read(NewLine(key, value));
    ReadHasNoReturn(NewLine(key, value));
    KeepEndsShape(text);
    ConcatKeepEnds(text);
    assert text != "" && text[|text| - 1] == NEWLINE;
    assert Concat([]) == "";
  }

  /** A clean value is read back in one line. */
  lemma CleanBlock(key: string, value: string)
    requires WellFormed(key) && NoBreak(value)
    ensures Block(key, value) == [NewLine(key, value)]
  {
    hide KeepEnds, Read, WellFormed;
    KeyStart(key);
    var line := NewLine(key, value);
    var inner := line[..|line| - 1];
    assert inner == key + " =" + Quoted(value);
    assert NoBreak(inner);
    assert forall i | 0 <= i < |inner| :: inner[i] != RETURN by {
      assert IsBreak(RETURN);
    }
    assert line == inner + [NEWLINE];
    ReadPlain(line);
    KeepEndsCons(line, "");
    assert line + "" == line;
    NothingKept();
  }

  lemma NothingKept()
    ensures KeepEnds("") == []
  {}

  lemma {:induction false} FirstEndSkips(head: string, text: string)
    requires NoBreak(head)
    ensures FirstEnd(head + text) == |head| + FirstEnd(text)
  {
    if head == "" {
      assert head + text == text;
    } else {
      assert (head + text)[1..] == head[1..] + text;
      FirstEndSkips(head[1..], text);
    }
  }

  lemma {:induction false} FirstEndEarly(text: string, i: nat)
    requires i < |text| && IsBreak(text[i]) && NoReturn(text)
    ensures FirstEnd(text) <= i + 1
  {
    assert text[0] in text;
    if i > 0 && !IsBreak(text[0]) {
      FirstEndEarly(text[1..], i - 1);
    }
  }

  /** What follows the opening quote, as it is read back. */
  function QuoteTail(value: string): string { Softened(value) + "'" + [NEWLINE] }

  /** How much of it the first line takes: all of it only when the value is clean. */
  lemma FirstPart(value: string)
    requires Storable(value)
    ensures NoReturn(QuoteTail(value)) && 0 < FirstEnd(QuoteTail(value))
    ensures IsBreak(QuoteTail(value)[FirstEnd(QuoteTail(value)) - 1])
    ensures if NoBreak(value) then FirstEnd(QuoteTail(value)) == |value| + 2 && Softened(value) == value
            else FirstEnd(QuoteTail(value)) <= |value|
  {
    var tail := QuoteTail(value);
    assert forall i | 0 <= i < |value| :: tail[i] == Softened(value)[i];
    FirstEndFacts(tail);
    if NoBreak(value) {
      assert IsBreak(RETURN);
      assert Softened(value) == value;
      FirstEndSkips(value + "'", [NEWLINE]);
      assert tail == (value + "'") + [NEWLINE];
    } else {
      var i :| 0 <= i < |value| && IsBreak(value[i]);
      assert IsBreak(tail[i]);
      FirstEndEarly(tail, i);
    }
  }

  /** Its first line assigns the key the value up to its first break. */
  lemma BlockFirst(key: string, value: string)
    requires WellFormed(key) && Storable(value)
    ensures var first, k := Block(key, value)[0], FirstEnd(QuoteTail(value));
      && first == key + (" " + ("= '" + QuoteTail(value)[..k]))
      && Matches(first, key) && Assigned(first, key) == " '" + QuoteTail(value)[..k - 1]
  {
    hide WellFormed, SkipSpace, FirstEnd, Read, IsBreak;
    var tail := QuoteTail(value);
    var k := FirstEnd(tail);
    var head := key + " = '";
    FirstPart(value);
    ReadNewLine(key, value);
    BlockText(key, value);
    KeyStart(key);
    HeadHasNoBreak(key);
    FirstEndSkips(head, tail);
    assert (head + tail)[..|head| + k] == head + tail[..k];
    var assignment := "= '" + tail[..k];
    AssignmentMatches(key, assignment);
    assert head + tail[..k] == key + (" " + assignment);
    assert assignment[1..] == " '" + tail[..k];
    assert (" '" + tail[..k])[..k + 1] == " '" + tail[..k - 1];
  }

  lemma BlockText(key: string, value: string)
    requires WellFormed(key) && Storable(value)
    ensures Read(NewLine(key, value)) == (key + " = '") + QuoteTail(value)
    ensures Block(key, value) != [] && Block(key, value)[0] == Read(NewLine(key, value))[..FirstEnd(Read(NewLine(key, value)))]
  {
    hide Read, FirstEnd, WellFormed;
    ReadNewLine(key, value);
    var w := Tail(value);
    assert w == " = '" + value + "'";
    assert Softened(w) == " = '" + Softened(value) + "'";
  }

  lemma HeadHasNoBreak(key: string)
    requires NoBreak(key)
    ensures NoBreak(key + " = '")
  {}

  /** The value reads back from the written line exactly when it is clean. */
  lemma BlockReadsBack(key: string, value: string)
    requires WellFormed(key) && Storable(value)
    ensures LookupLines(Block(key, value), key).Some?
    ensures LookupLines(Block(key, value), key) == Some(Quoted(value)) <==> NoBreak(value)
  {
    hide WellFormed, Matches, Assigned, FirstEnd, IsBreak;
    BlockFirst(key, value);
    FirstPart(value);
    BlockShape(key, value);
    var k := FirstEnd(QuoteTail(value));
    var found := " '" + QuoteTail(value)[..k - 1];
    assert LookupLines(Block(key, value), key) == Some(found);
    assert |found| == k + 1 && |Quoted(value)| == |value| + 3;
    if NoBreak(value) {
      assert QuoteTail(value)[..k - 1] == value + "'";
      assert found == Quoted(value);
    }
  }

  // ---- What the file's lines are on the next read -------------------------

  /** What the next read makes of a last line that the edit terminated. */
  function Ended(line: string): seq<string>
    requires line != ""
  {
    if line[|line| - 1] == NEWLINE then [line]
    else if IsBreak(line[|line| - 1]) then [line, [NEWLINE]]
    else [line + [NEWLINE]]
  }

  function NextLines(lines: seq<string>, key: string, block: seq<string>): seq<string> {
    if lines == [] then block
    else if Matches(lines[0], key) then block + lines[1..]
    else if |lines| == 1 then (if lines[0] == "" then [] else Ended(lines[0])) + block
    else [lines[0]] + NextLines(lines[1..], key, block)
  }

  /** A text that ends in a break is split on its own. */
  lemma {:induction false} SplitAppend(a: string, b: string)
    requires NoReturn(a) && a != "" && IsBreak(a[|a| - 1])
    ensures KeepEnds(a + b) == KeepEnds(a) + KeepEnds(b)
    decreases |a|
  {
    hide FirstEnd, IsBreak;
    var n := FirstEnd(a);
    var line, rest := a[..n], a[n..];
    FirstEndFacts(a);
    assert a == line + rest && a + b == line + (rest + b);
    assert line[n - 1] == a[n - 1];
    StillKept(line);
    StillKeptAny(line, rest + b == "");
    StillKeptAny(line, rest == "");
    KeepEndsCons(line, rest + b);
    KeepEndsCons(line, rest);
    if rest == "" {
      assert rest + b == b;
      NothingKept();
    } else {
      assert rest[|rest| - 1] == a[|a| - 1];
      SplitAppend(rest, b);
    }
  }

  lemma StillKeptAny(line: string, last: bool)
    ensures KeptLine(line, false) ==> KeptLine(line, last)
  {}

  /** A terminated line, and whatever is read after it. */
  lemma SplitRead(line: string, rest: string)
    requires KeptLine(line, false)
    ensures KeepEnds(Read(line + rest)) == [line] + KeepEnds(Read(rest))
  {
    hide KeepEnds, Read, IsBreak;
    KeptFacts(line);
    ReadPlain(line);
    ReadConcat(line, rest);
    StillKeptAny(line, Read(rest) == "");
    KeepEndsCons(line, Read(rest));
  }

  lemma KeptFacts(line: string)
    requires KeptLine(line, true)
    ensures line != "" && NoReturn(line) && line[|line| - 1] != RETURN
  {
    assert line[|line| - 1] in line;
  }

  lemma SplitEnded(line: string, rest: string)
    requires KeptLine(line, true)
    ensures KeepEnds(Read(Terminated(line) + rest)) == Ended(line) + KeepEnds(Read(rest))
  {
    hide KeepEnds, Read;
    if line[|line| - 1] == NEWLINE {
      SplitRead(line, rest);
    } else if IsBreak(line[|line| - 1]) {
      assert Terminated(line) + rest == line + ([NEWLINE] + rest);
      SplitRead(line, [NEWLINE] + rest);
      SplitRead([NEWLINE], rest);
    } else {
      assert (line + [NEWLINE])[..|line|] == line;
      assert NoBreak(line) by {
        assert line == line[..|line| - 1] + [line[|line| - 1]];
      }
      SplitRead(line + [NEWLINE], rest);
    }
  }

  /** The written line, followed by lines that were read before. */
  lemma SplitBlock(key: string, value: string, lines: seq<string>)
    requires Accepted(key) && Storable(value) && EndsKept(lines)
    ensures KeepEnds(Read(NewLine(key, value) + Concat(lines))) == Block(key, value) + lines
  {
    hide KeepEnds, Read, EndsKept, Accepted, IsBreak;
    var line := NewLine(key, value);
    KeepEndsConcat(lines);
    ReadPlain(Concat(lines));
    ReadConcat(line, Concat(lines));
    BlockShape(key, value);
    ReadHasNoReturn(line);
    ReadNewLine(key, value);
    SplitAppend(Read(line), Concat(lines));
  }

  lemma {:induction false} LinesAfter(lines: seq<string>, key: string, value: string)
    requires Accepted(key) && Storable(value) && EndsKept(lines)
    ensures KeepEnds(Read(Concat(SetLines(lines, key, NewLine(key, value))))) == NextLines(lines, key, Block(key, value))
  {
    hide KeepEnds, Read, Accepted, KeptLine, Matches, NewLine, EndsKept;
    var line := NewLine(key, value);
    if lines == [] {
      SplitBlock(key, value, []) by { NothingIsKept(); }
      assert Concat([line]) == line + Concat([]);
    } else if Matches(lines[0], key) {
      EndsKeptParts(lines);
      SplitBlock(key, value, lines[1..]);
      assert ([line] + lines[1..])[1..] == lines[1..];
    } else if |lines| == 1 {
      EndsKeptParts(lines);
      StillKept(lines[0]);
      KeptFacts(lines[0]);
      SplitEnded(lines[0], line);
      assert [Terminated(lines[0]), line][1..] == [line] && [line][1..] == [];
      assert Concat([line]) == line;
    } else {
      EndsKeptParts(lines);
      LinesAfter(lines[1..], key, value);
      var rest := SetLines(lines[1..], key, line);
      SplitRead(lines[0], Concat(rest));
      assert ([lines[0]] + rest)[1..] == rest;
    }
  }

  lemma NothingIsKept()
    ensures EndsKept([])
  {}

  lemma ReadLines(raw: string)
    ensures EndsKept(KeepEnds(Read(raw)))
  {
    ReadHasNoReturn(raw);
    KeepEndsShape(Read(raw));
  }

  // ---- What is found afterwards -------------------------------------------

  lemma {:induction false} LookupConcat(a: seq<string>, b: seq<string>, key: string)
    ensures LookupLines(a + b, key) == if LookupLines(a, key).Some? then LookupLines(a, key) else LookupLines(b, key)
  {
    if a == [] {
      assert a + b == b;
    } else {
      assert (a + b)[1..] == a[1..] + b;
      LookupConcat(a[1..], b, key);
    }
  }

  lemma BlankLine(key: string)
    requires WellFormed(key)
    ensures !Matches([NEWLINE], key)
  {
    KeyStart(key);
    assert [NEWLINE][1..] == "" && SkipSpace("") == "";
  }

  lemma LookupEnded(line: string, key: string)
    requires KeptLine(line, true) && WellFormed(key)
    ensures LookupLines(Ended(line), key) == LookupLines([line], key)
    ensures !Matches(line, key) ==> forall i | 0 <= i < |Ended(line)| :: !Matches(Ended(line)[i], key)
  {
    hide Matches, Assigned, WellFormed;
    BlankLine(key);
    if !IsBreak(line[|line| - 1]) {
      assert NoBreak(line) by {
        assert line == line[..|line| - 1] + [line[|line| - 1]];
      }
      TerminatedMatches(line, key);
    } else {
      LookupConcat([line], [[NEWLINE]], key);
      assert [line] + [[NEWLINE]] == [line, [NEWLINE]];
      assert [[NEWLINE]][1..] == [];
      assert LookupLines([[NEWLINE]], key) == None;
    }
  }

  lemma {:induction false} LookupWritten(lines: seq<string>, key: string, block: seq<string>)
    requires EndsKept(lines) && WellFormed(key) && LookupLines(block, key).Some?
    ensures LookupLines(NextLines(lines, key, block), key) == LookupLines(block, key)
  {
    if lines != [] {
      hide Matches, Assigned, KeptLine, EndsKept, WellFormed, Ended;
      EndsKeptParts(lines);
      StillKept(lines[0]);
      KeptFacts(lines[0]);
      if Matches(lines[0], key) {
        LookupConcat(block, lines[1..], key);
      } else if |lines| == 1 {
        LookupEnded(lines[0], key);
        LookupConcat(Ended(lines[0]), block, key);
        assert [lines[0]][1..] == [];
      } else {
        LookupWritten(lines[1..], key, block);
        assert NextLines(lines, key, block)[1..] == NextLines(lines[1..], key, block);
      }
    }
  }

  lemma {:induction false} LookupOther(lines: seq<string>, key: string, block: seq<string>, other: string)
    requires EndsKept(lines) && (WellFormed(key) || EndsInBreak(key)) && WellFormed(other) && other != key
    requires LookupLines(block, other) == None
    ensures LookupLines(NextLines(lines, key, block), other) == LookupLines(lines, other)
  {
    if lines != [] {
      hide Matches, Assigned, KeptLine, EndsKept, WellFormed, Ended;
      EndsKeptParts(lines);
      StillKept(lines[0]);
      KeptFacts(lines[0]);
      if Matches(lines[0], key) {
        NotBoth(lines[0], key, other);
        LookupConcat(block, lines[1..], other);
      } else if |lines| == 1 {
        LookupEnded(lines[0], other);
        LookupConcat(Ended(lines[0]), block, other);
        assert lines == [lines[0]];
      } else {
        LookupOther(lines[1..], key, block, other);
        assert NextLines(lines, key, block)[1..] == NextLines(lines[1..], key, block);
      }
    }
  }

  lemma NotBoth(line: string, key: string, other: string)
    requires KeptLine(line, true) && Matches(line, key) && (WellFormed(key) || EndsInBreak(key))
    requires WellFormed(other) && other != key
    ensures !Matches(line, other)
  {
    if Matches(line, other) {
      if WellFormed(key) {
        MatchUnique(line, key, other);
      } else {
        NewlineKeyNoMatch(line, key);
      }
    }
  }

  // ---- What a second edit does --------------------------------------------

  lemma {:induction false} ConcatAppend(a: seq<string>, b: seq<string>)
    ensures Concat(a + b) == Concat(a) + Concat(b)
  {
    if a == [] {
      assert a + b == b;
    } else {
      assert (a + b)[1..] == a[1..] + b;
      ConcatAppend(a[1..], b);
    }
  }

  lemma SetLinesCons(first: string, rest: seq<string>, key: string, line: string)
    requires rest != [] && !Matches(first, key)
    ensures SetLines([first] + rest, key, line) == [first] + SetLines(rest, key, line)
  {
    hide Matches, Terminated;
    var lines := [first] + rest;
    assert lines[0] == first && lines[1..] == rest && |lines| > 1;
  }

  lemma {:induction false} SetLinesSkips(a: seq<string>, b: seq<string>, key: string, line: string)
    requires b != [] && forall i | 0 <= i < |a| :: !Matches(a[i], key)
    ensures SetLines(a + b, key, line) == a + SetLines(b, key, line)
  {
    hide Matches, SetLines;
    if a == [] {
      assert a + b == b && a + SetLines(b, key, line) == SetLines(b, key, line);
    } else {
      var rest := a[1..];
      assert a + b == [a[0]] + (rest + b);
      SetLinesCons(a[0], rest + b, key, line);
      SetLinesSkips(rest, b, key, line);
      assert [a[0]] + (rest + SetLines(b, key, line)) == a + SetLines(b, key, line);
    }
  }

  lemma ConcatEnded(line: string)
    requires line != ""
    ensures Concat(Ended(line)) == Terminated(line)
  {
    assert [line][1..] == [] && [line, [NEWLINE]][1..] == [[NEWLINE]] && [[NEWLINE]][1..] == [];
    assert [line + [NEWLINE]][1..] == [];
    assert Concat([[NEWLINE]]) == [NEWLINE];
  }

  /** The second edit replaces the first of the lines the first edit made and leaves
      the others behind. */
  lemma {:induction false} SecondEdit(lines: seq<string>, key: string, block: seq<string>, line: string)
    requires EndsKept(lines) && WellFormed(key) && block != [] && Matches(block[0], key)
    ensures var once := Concat(SetLines(lines, key, line));
      var twice := Concat(SetLines(NextLines(lines, key, block), key, line));
      && |twice| == |once| + |Concat(block[1..])|
      && (|block| == 1 ==> twice == once)
  {
    hide Matches, KeptLine, EndsKept, WellFormed, Ended;
    ConcatAppend([line], block[1..]);
    assert Concat([line]) == line by { assert [line][1..] == []; }
    assert SetLines(block, key, line) == [line] + block[1..];
    if lines != [] {
      EndsKeptParts(lines);
      StillKept(lines[0]);
      KeptFacts(lines[0]);
      var rest := lines[1..];
      if Matches(lines[0], key) {
        assert (block + rest)[1..] == block[1..] + rest && (block + rest)[0] == block[0];
        ConcatAppend([line], block[1..] + rest);
        ConcatAppend(block[1..], rest);
        ConcatAppend([line], rest);
      } else if |lines| == 1 {
        LookupEnded(lines[0], key);
        SetLinesSkips(Ended(lines[0]), block, key, line);
        ConcatAppend(Ended(lines[0]), SetLines(block, key, line));
        ConcatEnded(lines[0]);
        ConcatAppend([Terminated(lines[0])], [line]);
        assert [Terminated(lines[0])] + [line] == [Terminated(lines[0]), line];
        assert Concat([Terminated(lines[0])]) == Terminated(lines[0]) by { assert [Terminated(lines[0])][1..] == []; }
      } else {
        SecondEdit(rest, key, block, line);
        var next := NextLines(rest, key, block);
        NextNotEmpty(rest, key, block);
        assert ([lines[0]] + next)[1..] == next;
        ConcatAppend([lines[0]], SetLines(next, key, line));
        ConcatAppend([lines[0]], SetLines(rest, key, line));
      }
    }
  }

  lemma NextNotEmpty(lines: seq<string>, key: string, block: seq<string>)
    requires block != []
    ensures NextLines(lines, key, block) != []
  {}

  lemma {:induction false} AppendGrows(lines: seq<string>, key: string, line: string)
    requires forall i | 0 <= i < |lines| :: !Matches(lines[i], key)
    ensures |Concat(SetLines(lines, key, line))| >= |Concat(lines)| + |line|
  {
    hide Matches;
    assert Concat([line]) == line by { assert [line][1..] == []; }
    if |lines| == 1 {
      assert [Terminated(lines[0]), line][1..] == [line] && lines[1..] == [];
    } else if lines != [] {
      AppendGrows(lines[1..], key, line);
      assert SetLines(lines, key, line)[1..] == SetLines(lines[1..], key, line);
    }
  }

  // ---- Main results -------------------------------------------------------

  /** The written line, read back, assigns another key. */
  predicate Injects(key: string, value: string, other: string) {
    other != key && LookupLines(Block(key, value), other).Some?
  }

  /** A well-formed key with a clean value assigns nothing else. */
  lemma CleanInjectsNothing(key: string, value: string, other: string)
    requires WellFormed(key) && Storable(value) && NoBreak(value) && Accepted(other)
    ensures !Injects(key, value, other)
  {
    hide Matches, Assigned, WellFormed, Block, FirstEnd;
    var line := NewLine(key, value);
    CleanBlock(key, value);
    BlockFirst(key, value);
    BlockShape(key, value);
    if other != key {
      if EndsInBreak(other) {
        NewlineKeyNeverMatches([line], other);
      } else {
        OtherDoesNotMatch(line, key, other);
        assert [line][1..] == [] && LookupLines([line], other) == None;
      }
    }
  }

  lemma OtherDoesNotMatch(line: string, key: string, other: string)
    requires WellFormed(key) && WellFormed(other) && Matches(line, key) && other != key
    ensures !Matches(line, other)
  {
    if Matches(line, other) { MatchUnique(line, key, other); }
  }

  /** For every file: the edited key reads back exactly when it has no final newline
      and the value no line break. */
  lemma ReadsBackExact(raw: string, key: string, value: string)
    requires Accepted(key) && Storable(value)
    ensures Lookup(SetText(raw, key, value), key) == Some(Quoted(value)) <==> !EndsInBreak(key) && NoBreak(value)
  {
    hide KeepEnds, Read, EndsKept, Block, SetLines, NextLines, WellFormed;
    var lines := KeepEnds(Read(raw));
    ReadLines(raw);
    LinesAfter(lines, key, value);
    if EndsInBreak(key) {
      ReadLines(SetText(raw, key, value));
      NewlineKeyNeverMatches(KeepEnds(Read(SetText(raw, key, value))), key);
    } else {
      BlockReadsBack(key, value);
      LookupWritten(lines, key, Block(key, value));
    }
  }

  /** Every file keeps what it says about another key exactly when the written line,
      read back, does not assign that key. */
  lemma KeepsOtherExact(key: string, value: string, other: string)
    requires Accepted(key) && Storable(value) && Accepted(other) && other != key
    ensures (forall raw :: Lookup(SetText(raw, key, value), other) == Lookup(raw, other)) <==> !Injects(key, value, other)
  {
    hide KeepEnds, Read, Block, SetText, LookupLines, WellFormed;
    if Injects(key, value, other) {
      EmptyFile(key, value, other);
      assert Lookup(SetText("", key, value), other) != Lookup("", other);
    } else {
      forall raw ensures Lookup(SetText(raw, key, value), other) == Lookup(raw, other) {
        KeepsOther(raw, key, value, other);
      }
    }
  }

  lemma EmptyFile(key: string, value: string, other: string)
    requires Accepted(key) && Storable(value)
    ensures Lookup("", other) == None
    ensures Lookup(SetText("", key, value), other) == LookupLines(Block(key, value), other)
  {
    hide Block, LookupLines, Accepted;
    NothingKept();
    NothingIsKept();
    assert Read("") == "";
    LinesAfter([], key, value);
    assert LookupLines([], other) == None by { LookupNothing(other); }
  }

  lemma LookupNothing(key: string)
    ensures LookupLines([], key) == None
  {}

  lemma KeepsOther(raw: string, key: string, value: string, other: string)
    requires Accepted(key) && Storable(value) && Accepted(other) && other != key && !Injects(key, value, other)
    ensures Lookup(SetText(raw, key, value), other) == Lookup(raw, other)
  {
    hide KeepEnds, Read, EndsKept, Block, SetLines, NextLines, WellFormed, LookupLines;
    var lines := KeepEnds(Read(raw));
    ReadLines(raw);
    if EndsInBreak(other) {
      ReadLines(SetText(raw, key, value));
      NewlineKeyNeverMatches(lines, other);
      NewlineKeyNeverMatches(KeepEnds(Read(SetText(raw, key, value))), other);
    } else {
      LinesAfter(lines, key, value);
      LookupOther(lines, key, Block(key, value), other);
    }
  }

  /** The edit is a map update under first-match lookup, for every file, exactly
      when: the key asked for reads back, or is not assigned by the written line. */
  lemma SetIsMapUpdate(key: string, value: string, other: string)
    requires Accepted(key) && Storable(value) && Accepted(other)
    ensures
      (forall raw :: Lookup(SetText(raw, key, value), other) == if other == key then Some(Quoted(value)) else Lookup(raw, other))
      <==> (if other == key then !EndsInBreak(key) && NoBreak(value) else !Injects(key, value, other))
  {
    hide Lookup, SetText, Injects, Accepted;
    if other == key {
      ReadsBackExact("", key, value);
      forall raw ensures Lookup(SetText(raw, key, value), key) == Some(Quoted(value)) <==> !EndsInBreak(key) && NoBreak(value) {
        ReadsBackExact(raw, key, value);
      }
    } else {
      KeepsOtherExact(key, value, other);
    }
  }

  /** For every file: setting the same value again changes no byte exactly when the
      key has no final newline and the value no line break; every repetition makes
      the file longer otherwise. */
  lemma SetIsIdempotent(raw: string, key: string, value: string)
    requires Accepted(key) && Storable(value)
    ensures var once := SetText(raw, key, value);
      var twice := SetText(once, key, value);
      if EndsInBreak(key) || !NoBreak(value) then |twice| > |once| else twice == once
  {
    hide KeepEnds, Read, EndsKept, Block, SetLines, NextLines, WellFormed, Matches, NewLine, FirstEnd;
    var lines, block, line := KeepEnds(Read(raw)), Block(key, value), NewLine(key, value);
    ReadLines(raw);
    LinesAfter(lines, key, value);
    BlockShape(key, value);
    if EndsInBreak(key) {
      NewlineKeyGrows(raw, key, value);
    } else {
      BlockFirst(key, value);
      SecondEdit(lines, key, block, line);
      if NoBreak(value) {
        CleanBlock(key, value);
      } else {
        LeftBehind(key, value);
      }
    }
  }

  /** Of a value with a break, something is left behind. */
  lemma LeftBehind(key: string, value: string)
    requires WellFormed(key) && Storable(value) && !NoBreak(value)
    ensures Block(key, value) != [] && |Concat(Block(key, value)[1..])| > 0
  {
    hide Block, WellFormed, FirstEnd, Matches, Assigned, IsBreak;
    BlockShape(key, value);
    BlockFirst(key, value);
    FirstPart(value);
    var block := Block(key, value);
    assert Concat(block) == block[0] + Concat(block[1..]);
  }

  lemma NewlineKeyGrows(raw: string, key: string, value: string)
    requires Accepted(key) && EndsInBreak(key) && Storable(value)
    ensures |SetText(SetText(raw, key, value), key, value)| > |SetText(raw, key, value)|
  {
    hide KeepEnds, Read, EndsKept, Block, WellFormed, Matches, Accepted;
    var once := SetText(raw, key, value);
    var lines := KeepEnds(Read(once));
    ReadLines(raw);
    ReadLines(once);
    NewlineKeyNeverMatches(KeepEnds(Read(raw)), key);
    NewlineKeyNeverMatches(lines, key);
    AppendGrows(lines, key, NewLine(key, value));
    LinesAfter(KeepEnds(Read(raw)), key, value);
    BlockShape(key, value);
    SameLength(KeepEnds(Read(raw)), key, Block(key, value), NewLine(key, value));
  }

  /** The next read is as long as what was written. */
  lemma {:induction false} SameLength(lines: seq<string>, key: string, block: seq<string>, line: string)
    requires EndsKept(lines) && |Concat(block)| == |line|
    requires forall i | 0 <= i < |lines| :: !Matches(lines[i], key)
    ensures |Concat(NextLines(lines, key, block))| == |Concat(SetLines(lines, key, line))|
  {
    hide Matches, KeptLine, EndsKept, Ended;
    assert Concat([line]) == line by { assert [line][1..] == []; }
    if lines != [] {
      EndsKeptParts(lines);
      StillKept(lines[0]);
      KeptFacts(lines[0]);
      if |lines| == 1 {
        ConcatEnded(lines[0]);
        ConcatAppend(Ended(lines[0]), block);
        assert [Terminated(lines[0]), line][1..] == [line];
      } else {
        SameLength(lines[1..], key, block, line);
        assert SetLines(lines, key, line)[1..] == SetLines(lines[1..], key, line);
        assert NextLines(lines, key, block)[1..] == NextLines(lines[1..], key, block);
      }
    }
  }

  /** Whatever line ends the file had, the edit writes newlines: only the value can
      bring a carriage return into it. */
  lemma ReturnsAreLost(raw: string, key: string, value: string)
    requires Accepted(key) && NoReturn(value)
    ensures NoReturn(SetText(raw, key, value))
  {
    hide KeepEnds, Read, EndsKept, Accepted;
    ReadLines(raw);
    KeyHasNoReturn(key);
    NoReturnAfter(KeepEnds(Read(raw)), key, NewLine(key, value));
  }

  lemma {:induction false} NoReturnAfter(lines: seq<string>, key: string, line: string)
    requires EndsKept(lines) && NoReturn(line)
    ensures NoReturn(Concat(SetLines(lines, key, line)))
  {
    hide Matches, EndsKept, KeepEnds;
    assert Concat([line]) == line by { assert [line][1..] == []; }
    if lines != [] {
      EndsKeptParts(lines);
      KeepEndsConcat(lines[1..]);
      StillKept(lines[0]);
      KeptFacts(lines[0]);
      NoReturnAfter(lines[1..], key, line);
      ConcatAppend([line], lines[1..]);
      assert |lines| == 1 ==> [Terminated(lines[0]), line][1..] == [line];
    }
  }

  /** A carriage return passes the value check and sets another key: the line it
      starts is read back as an assignment, and one more with every repetition. */
  lemma ReturnSetsAnotherKey() returns (key: string, value: string, other: string)
    ensures WellFormed(key) && Storable(value) && WellFormed(other) && other != key
    ensures Lookup("", other) == None && Lookup(SetText("", key, value), other) == Some("1'")
    ensures |SetText(SetText("", key, value), key, value)| > |SetText("", key, value)|
  {
    key, value, other := "K", "a\rX=1", "X";
    hide Block, SetText, Lookup, LookupLines;
    assert IsBreak(value[1]);
    SetIsIdempotent("", key, value);
    EmptyFile(key, value, other);
    ReturnReadBack();
    TwoAssignments();
  }

  lemma ReturnReadBack()
    ensures Block("K", "a\rX=1") == ["K = 'a\n", "X=1'\n"]
  {
    hide KeepEnds, Read;
    var value := "a\rX=1";
    var first, second := "K = 'a\n", "X=1'\n";
    ReadNewLine("K", value);
    assert Softened(Tail(value)) == " = 'a\nX=1'";
    assert Read(NewLine("K", value)) == first + second;
    assert first[..|first| - 1] == "K = 'a" && second[..|second| - 1] == "X=1'";
    KeepEndsCons(first, second);
    KeepEndsCons(second, "");
    assert second + "" == second;
    NothingKept();
  }

  lemma TwoAssignments()
    ensures LookupLines(["K = 'a\n", "X=1'\n"], "X") == Some("1'")
  {
    hide Matches, Assigned;
    var first, second := "K = 'a\n", "X=1'\n";
    AssignmentMatches("K", "= 'a\n");
    assert first == "K" + (" " + "= 'a\n");
    OtherDoesNotMatch(first, "K", "X");
    DirectAssignment("X", "1'\n");
    assert second == "X" + ("=" + "1'\n") && "1'\n"[..2] == "1'";
    assert [first, second][1..] == [second];
  }

  lemma DirectAssignment(key: string, rest: string)
    requires WellFormed(key) && rest != "" && IsBreak(rest[|rest| - 1])
    ensures var line := key + ("=" + rest); Matches(line, key) && Assigned(line, key) == rest[..|rest| - 1]
  {
    hide WellFormed;
    var line := key + ("=" + rest);
    KeyStart(key);
    SkipSpaceFacts(line);
    SkipSpaceFacts("=" + rest);
    assert SkipSpace(line) == line && line[|key|..] == "=" + rest;
    assert ("=" + rest)[1..] == rest;
  }

  // ---- The code's own form ------------------------------------------------

  class EnvPath {
    var present: bool
    var text: string

    constructor (present: bool, text: string)
      ensures this.present == present && this.text == text
    {
      this.present, this.text := present, text;
    }

    /** _set_env_value */
    method SetEnvValue(key: string, value: string) returns (r: Result)
      modifies this`text
      ensures !Accepted(key) ==> r == MalformedKey
      ensures Accepted(key) && !Storable(value) ==> r == ForbiddenValue
      ensures Accepted(key) && Storable(value) ==> r == if present then Written else FileMissing
      ensures text == if r == Written then SetText(old(text), key, value) else old(text)
    {
      hide KeepEnds, Read, Matches, Accepted, Storable;
      if !Accepted(key) {
        return MalformedKey;
      }
      if !Storable(value) {
        return ForbiddenValue;
      }
      var newLine := NewLine(key, value);
      if !present {
        return FileMissing;
      }
      var lines := KeepEnds(Read(text));
      var found := false;
      var i := 0;
      while i < |lines| && !found
        invariant i <= |lines| && text == old(text)
        invariant !found ==> lines == KeepEnds(Read(text))
        invariant !found ==> forall k | 0 <= k < i :: !Matches(lines[k], key)
        invariant found ==> lines == SetLines(KeepEnds(Read(text)), key, newLine)
        decreases |lines| - i, !found
      {
        if Matches(lines[i], key) {
          SetLinesFound(lines, key, newLine, i);
          lines := lines[i := newLine];
          found := true;
        } else {
          i := i + 1;
        }
      }
      if !found {
        SetLinesMissing(lines, key, newLine);
        if lines != [] {
          lines := lines[|lines| - 1 := Terminated(lines[|lines| - 1])];
        }
        lines := lines + [newLine];
      }
      text := Concat(lines);
      r := Written;
    }
  }

  lemma {:induction false} SetLinesFound(lines: seq<string>, key: string, line: string, i: nat)
    requires i < |lines| && Matches(lines[i], key) && forall k | 0 <= k < i :: !Matches(lines[k], key)
    ensures SetLines(lines, key, line) == lines[i := line]
  {
    if i > 0 {
      SetLinesFound(lines[1..], key, line, i - 1);
      assert lines[i := line] == [lines[0]] + lines[1..][i - 1 := line];
    }
  }

  lemma {:induction false} SetLinesMissing(lines: seq<string>, key: string, line: string)
    requires forall k | 0 <= k < |lines| :: !Matches(lines[k], key)
    ensures SetLines(lines, key, line)
         == (if lines == [] then [] else lines[|lines| - 1 := Terminated(lines[|lines| - 1])]) + [line]
  {
    if |lines| > 1 {
      SetLinesMissing(lines[1..], key, line);
    }
  }
}
