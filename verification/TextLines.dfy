/** Text as lines, with the newline as the only line break. */
module TextLines {

  const NEWLINE := '\n'

  /** Where the first line of a text ends. */
  function LineEnd(text: string): (n: nat)
    ensures n <= |text|
    ensures forall i | 0 <= i < n :: text[i] != NEWLINE
    ensures n < |text| ==> text[n] == NEWLINE
  {
    if text == "" || text[0] == NEWLINE then 0 else 1 + LineEnd(text[1..])
  }

  /** text.splitlines() */
  function SplitLines(text: string): seq<string> {
    if text == "" then []
    else
      var n := LineEnd(text);
      if n == |text| then [text] else [text[..n]] + SplitLines(text[n + 1..])
  }

  /** "".join(parts) */
  function Concat(parts: seq<string>): string {
    if parts == [] then "" else parts[0] + Concat(parts[1..])
  }

  lemma {:induction false} ConcatSnoc(parts: seq<string>, part: string)
    ensures Concat(parts + [part]) == Concat(parts) + part
  {
    if parts == [] {
      assert [] + [part] == [part] && [part][1..] == [];
    } else {
      assert (parts + [part])[1..] == parts[1..] + [part];
      ConcatSnoc(parts[1..], part);
    }
  }

  /** "\n".join(lines) */
  function Join(lines: seq<string>): string {
    if lines == [] then "" else if |lines| == 1 then lines[0] else lines[0] + [NEWLINE] + Join(lines[1..])
  }

  /** The file content that holds `lines`, each with its newline. */
  function Unlines(lines: seq<string>): string {
    if lines == [] then "" else lines[0] + [NEWLINE] + Unlines(lines[1..])
  }

  predicate OneLine(line: string) { NEWLINE !in line }

  predicate AllOneLine(lines: seq<string>) { forall i | 0 <= i < |lines| :: OneLine(lines[i]) }

  lemma {:induction false} LineEndOf(line: string, rest: string)
    requires OneLine(line) && (rest == "" || rest[0] == NEWLINE)
    ensures LineEnd(line + rest) == |line|
  {
    if line == "" {
      assert line + rest == rest;
    } else {
      assert (line + rest)[1..] == line[1..] + rest;
      LineEndOf(line[1..], rest);
    }
  }

  lemma SplitCons(body: string, rest: string)
    requires OneLine(body)
    ensures SplitLines(body + [NEWLINE] + rest) == [body] + SplitLines(rest)
  {
    var text := body + [NEWLINE] + rest;
    assert text == body + ([NEWLINE] + rest);
    LineEndOf(body, [NEWLINE] + rest);
    assert text[..|body|] == body && text[|body| + 1..] == rest;
  }

  lemma SplitLast(line: string)
    requires OneLine(line)
    ensures SplitLines(line) == if line == "" then [] else [line]
  {
    LineEndOf(line, "");
    assert line + "" == line;
  }

  /** Reading back what was written line by line. */
  lemma {:induction false} SplitUnlines(lines: seq<string>)
    requires AllOneLine(lines)
    ensures SplitLines(Unlines(lines)) == lines
  {
    if lines != [] {
      SplitCons(lines[0], Unlines(lines[1..]));
      SplitUnlines(lines[1..]);
    }
  }

  lemma {:induction false} JoinIsUnlines(lines: seq<string>)
    requires lines != []
    ensures Join(lines) + [NEWLINE] == Unlines(lines)
  {
    if |lines| > 1 {
      JoinIsUnlines(lines[1..]);
      assert Unlines(lines) == lines[0] + [NEWLINE] + (Join(lines[1..]) + [NEWLINE]);
    }
  }

  lemma {:induction false} UnlinesConcat(a: seq<string>, b: seq<string>)
    ensures Unlines(a + b) == Unlines(a) + Unlines(b)
  {
    if a == [] {
      assert a + b == b;
    } else {
      assert (a + b)[1..] == a[1..] + b;
      UnlinesConcat(a[1..], b);
    }
  }
}
