/** A text file as Python reads and splits it: `read_text` turns carriage returns
    into newlines, and `splitlines` breaks a line at more characters than that. */
module FileLines {
  import opened TextLines

  const RETURN := '\r'

  /** What ends a line for splitlines. */
  predicate IsBreak(c: char) {
    || '\n' <= c <= RETURN || '\U{1c}' <= c <= '\U{1e}'
    || c == '\U{85}' || c == '\U{2028}' || c == '\U{2029}'
  }

  predicate NoBreak(s: string) { forall i | 0 <= i < |s| :: !IsBreak(s[i]) }

  predicate NoReturn(s: string) { RETURN !in s }

  /** read_text(): a carriage return becomes a newline, together with a newline
      that follows it. */
  function Read(raw: string): string {
    if raw == "" then ""
    else if raw[0] == RETURN then [NEWLINE] + Read(if |raw| > 1 && raw[1] == NEWLINE then raw[2..] else raw[1..])
    else [raw[0]] + Read(raw[1..])
  }

  /** The length of a text's first line, its break included. */
  function FirstEnd(text: string): (n: nat)
    ensures n <= |text| && (text != "" ==> n > 0)
  {
    if text == "" then 0
    else if text[0] == RETURN && |text| > 1 && text[1] == NEWLINE then 2
    else if IsBreak(text[0]) then 1
    else 1 + FirstEnd(text[1..])
  }

  /** text.splitlines(keepends=True) */
  function KeepEnds(text: string): seq<string> {
    if text == "" then [] else [text[..FirstEnd(text)]] + KeepEnds(text[FirstEnd(text)..])
  }

  // ---- Reading ------------------------------------------------------------

  lemma {:induction false} ReadHasNoReturn(raw: string)
    ensures NoReturn(Read(raw))
  {
    if raw != "" {
      ReadHasNoReturn(raw[1..]);
      if raw[0] == RETURN && |raw| > 1 && raw[1] == NEWLINE {
        ReadHasNoReturn(raw[2..]);
      }
    }
  }

  lemma {:induction false} ReadPlain(s: string)
    requires NoReturn(s)
    ensures Read(s) == s
  {
    if s != "" {
      assert s[0] in s;
      ReadPlain(s[1..]);
    }
  }

  /** Reading works piece by piece unless the pieces part a return and a newline. */
  lemma {:induction false} ReadConcat(a: string, b: string)
    requires a == "" || a[|a| - 1] != RETURN || b == "" || b[0] != NEWLINE
    ensures Read(a + b) == Read(a) + Read(b)
    decreases |a|
  {
    if a == "" {
      assert a + b == b;
    } else {
      assert (a + b)[1..] == a[1..] + b;
      if a[0] == RETURN && |a| > 1 && a[1] == NEWLINE {
        assert (a + b)[2..] == a[2..] + b;
        ReadConcat(a[2..], b);
      } else {
        ReadConcat(a[1..], b);
      }
    }
  }

  /** The three line ends that read_text knows, and the ones splitlines knows. */
  lemma LineEndsRead()
    ensures KeepEnds("\r\n") == ["\r\n"]
    ensures Read("\r\n") == "\n" && Read("\r") == "\n" && Read("\n") == "\n"
    ensures forall c :: IsBreak(c) <==>
      c in ['\n', '\U{b}', '\U{c}', '\r', '\U{1c}', '\U{1d}', '\U{1e}', '\U{85}', '\U{2028}', '\U{2029}']
  {
    assert FirstEnd("\r\n") == 2 && "\r\n"[..2] == "\r\n" && KeepEnds("") == [];
    assert "\r\n"[2..] == "" && "\r"[1..] == "" && "\n"[1..] == "";
  }

  /** Without newlines, reading exchanges returns one for one. */
  function Softened(s: string): string {
    seq(|s|, i requires 0 <= i < |s| => if s[i] == RETURN then NEWLINE else s[i])
  }

  lemma {:induction false} ReadSoftens(s: string)
    requires OneLine(s)
    ensures Read(s) == Softened(s)
  {
    if s != "" {
      assert |s| > 1 ==> s[1] in s;
      assert OneLine(s[1..]);
      ReadSoftens(s[1..]);
      assert Softened(s) == [if s[0] == RETURN then NEWLINE else s[0]] + Softened(s[1..]);
    }
  }

  // ---- Splitting ----------------------------------------------------------

  /** One line with its break, which only a text's last line may lack. */
  predicate KeptLine(line: string, last: bool) {
    && line != "" && NoReturn(line) && NoBreak(line[..|line| - 1])
    && (IsBreak(line[|line| - 1]) || last)
  }

  /** The lines of a text that was read. */
  predicate EndsKept(lines: seq<string>) {
    forall i | 0 <= i < |lines| :: KeptLine(lines[i], i == |lines| - 1)
  }

  lemma {:induction false} FirstEndFacts(text: string)
    requires text != "" && NoReturn(text)
    ensures var n := FirstEnd(text);
      KeptLine(text[..n], n == |text|) && (n < |text| ==> IsBreak(text[n - 1]))
  {
    assert text[0] in text;
    if !IsBreak(text[0]) && |text| > 1 {
      var n := FirstEnd(text[1..]);
      FirstEndFacts(text[1..]);
      assert text[..n + 1] == [text[0]] + text[1..][..n];
    }
  }

  lemma {:induction false} KeepEndsShape(text: string)
    requires NoReturn(text)
    ensures EndsKept(KeepEnds(text))
    decreases |text|
  {
    if text != "" {
      hide FirstEnd, KeptLine;
      FirstEndFacts(text);
      KeepEndsShape(text[FirstEnd(text)..]);
    }
  }

  /** A whole first line is split off, whatever follows it. */
  lemma {:induction false} FirstEndOf(line: string, rest: string)
    requires KeptLine(line, rest == "")
    ensures FirstEnd(line + rest) == |line|
    decreases |line|
  {
    assert line[0] in line && (line + rest)[0] == line[0];
    if |line| > 1 {
      var inner := line[..|line| - 1];
      assert !IsBreak(inner[0]);
      assert (line + rest)[1..] == line[1..] + rest;
      assert line[1..][..|line[1..]| - 1] == inner[1..];
      FirstEndOf(line[1..], rest);
    } else {
      assert line[1..] == "" && (line + rest)[1..] == rest;
    }
  }

  lemma KeepEndsCons(line: string, rest: string)
    requires KeptLine(line, rest == "")
    ensures KeepEnds(line + rest) == [line] + KeepEnds(rest)
  {
    hide KeptLine, FirstEnd;
    FirstEndOf(line, rest);
    assert (line + rest)[..|line|] == line && (line + rest)[|line|..] == rest;
    assert line != "" by { KeptNotEmpty(line, rest == ""); }
  }

  lemma KeptNotEmpty(line: string, last: bool)
    requires KeptLine(line, last)
    ensures line != ""
  {}

  lemma EndsKeptParts(lines: seq<string>)
    requires lines != [] && EndsKept(lines)
    ensures KeptLine(lines[0], |lines| == 1) && EndsKept(lines[1..])
  {
    hide KeptLine;
    assert KeptLine(lines[0], |lines| == 1);
    forall i | 0 <= i < |lines[1..]| ensures KeptLine(lines[1..][i], i == |lines[1..]| - 1) {
      assert KeptLine(lines[i + 1], i + 1 == |lines| - 1);
    }
  }

  /** Joining lines and splitting again changes nothing, and neither does reading. */
  lemma {:induction false} KeepEndsConcat(lines: seq<string>)
    requires EndsKept(lines)
    ensures KeepEnds(Concat(lines)) == lines && NoReturn(Concat(lines))
    ensures |lines| > 0 ==> Concat(lines) != ""
  {
    if lines != [] {
      hide EndsKept, KeepEnds;
      EndsKeptParts(lines);
      KeepEndsConcat(lines[1..]);
      assert |lines| == 1 ==> Concat(lines[1..]) == "";
      KeepEndsCons(lines[0], Concat(lines[1..]));
    }
  }

  lemma {:induction false} ConcatKeepEnds(text: string)
    ensures Concat(KeepEnds(text)) == text
    decreases |text|
  {
    if text != "" {
      hide FirstEnd;
      var n := FirstEnd(text);
      ConcatKeepEnds(text[n..]);
      assert text == text[..n] + text[n..];
    }
  }
}
