/** Reading log/errors.jsonl in blueprints/admin.py: the bounded tail read and the
    reverse scan that stops at the limit. */
module ErrorLog {
  import opened Wrappers
  import opened TextLines

  // ---- The tail read ------------------------------------------------------

  function DropFirst(lines: seq<string>): seq<string> {
    if lines == [] then [] else lines[1..]
  }

  /** _tail_jsonl: read at most `maxBytes` from the end and drop the first,
      possibly partial, line unless the whole file was read. */
  function TailLines(file: string, maxBytes: nat): seq<string> {
    var readSize := if |file| < maxBytes then |file| else maxBytes;
    var lines := SplitLines(file[|file| - readSize..]);
    if readSize < |file| then DropFirst(lines) else lines
  }

  datatype Placed = Placed(start: nat, text: string)

  /** The lines of a text, each with the offset it starts at. */
  function PlacedLines(text: string, base: nat): seq<Placed> {
    if text == "" then []
    else
      var n := LineEnd(text);
      if n == |text| then [Placed(base, text)]
      else [Placed(base, text[..n])] + PlacedLines(text[n + 1..], base + n + 1)
  }

  function Texts(lines: seq<Placed>): seq<string> {
    if lines == [] then [] else [lines[0].text] + Texts(lines[1..])
  }

  function StartingAfter(lines: seq<Placed>, offset: int): seq<Placed> {
    if lines == [] then []
    else if lines[0].start > offset then [lines[0]] + StartingAfter(lines[1..], offset)
    else StartingAfter(lines[1..], offset)
  }

  /** Offsets are right: a line starts the file or follows a newline, runs up to
      the next newline or the end, and holds no newline itself. */
  predicate IsLineAt(file: string, p: Placed) {
    && p.start + |p.text| <= |file|
    && file[p.start..p.start + |p.text|] == p.text && OneLine(p.text)
    && (p.start == 0 || file[p.start - 1] == NEWLINE)
    && (p.start + |p.text| == |file| || file[p.start + |p.text|] == NEWLINE)
  }

  /** A text that is not empty: its first line, and the rest after a line break. */
  lemma Peel(text: string) returns (line: string, rest: string, last: bool)
    requires text != ""
    ensures OneLine(line) && |rest| < |text|
    ensures if last then text == line && line != "" else text == line + [NEWLINE] + rest
  {
    var n := LineEnd(text);
    line, rest, last := text[..n], if n < |text| then text[n + 1..] else "", n == |text|;
  }

  lemma PlacedCons(line: string, rest: string, base: nat)
    requires OneLine(line)
    ensures PlacedLines(line + [NEWLINE] + rest, base) == [Placed(base, line)] + PlacedLines(rest, base + |line| + 1)
  {
    hide LineEnd;
    var text := line + [NEWLINE] + rest;
    assert text == line + ([NEWLINE] + rest);
    LineEndOf(line, [NEWLINE] + rest);
    assert text[..|line|] == line && text[|line| + 1..] == rest;
  }

  lemma PlacedLast(line: string, base: nat)
    requires OneLine(line) && line != ""
    ensures PlacedLines(line, base) == [Placed(base, line)]
  {
    hide LineEnd;
    LineEndOf(line, "");
    assert line + "" == line;
  }

  lemma NothingPlaced(base: nat)
    ensures PlacedLines("", base) == [] && SplitLines("") == []
  {}

  /** Every placed line is a line of the file where it says it is. */
  lemma {:induction false} PlacedAreLines(file: string, base: nat, i: nat)
    requires base <= |file| && (base == 0 || file[base - 1] == NEWLINE)
    requires i < |PlacedLines(file[base..], base)|
    ensures IsLineAt(file, PlacedLines(file[base..], base)[i])
    decreases i
  {
    hide PlacedLines, IsLineAt, OneLine;
    NothingPlaced(base);
    var line, rest, last := Peel(file[base..]);
    LineAt(file, base, line, rest, last);
    if last {
      PlacedLast(line, base);
    } else {
      PlacedCons(line, rest, base);
      if i > 0 { PlacedAreLines(file, base + |line| + 1, i - 1); }
    }
  }

  lemma LineAt(file: string, base: nat, line: string, rest: string, last: bool)
    requires base <= |file| && (base == 0 || file[base - 1] == NEWLINE) && OneLine(line)
    requires if last then file[base..] == line else file[base..] == line + [NEWLINE] + rest
    ensures IsLineAt(file, Placed(base, line))
    ensures !last ==> base + |line| + 1 <= |file| && file[base + |line|] == NEWLINE && file[base + |line| + 1..] == rest
  {
    var text := file[base..];
    assert file[base..base + |line|] == text[..|line|] == line;
    if !last {
      assert text[|line|] == NEWLINE && text[|line|] == file[base + |line|];
      assert file[base + |line| + 1..] == text[|line| + 1..] == rest;
    }
  }

  lemma {:induction false} PlacedTexts(text: string, base: nat)
    ensures Texts(PlacedLines(text, base)) == SplitLines(text)
    decreases |text|
  {
    hide PlacedLines, SplitLines, OneLine;
    NothingPlaced(base);
    if text != "" {
      var line, rest, last := Peel(text);
      if last {
        PlacedLast(line, base);
        SplitLast(line);
      } else {
        PlacedCons(line, rest, base);
        SplitCons(line, rest);
        PlacedTexts(rest, base + |line| + 1);
      }
    }
  }

  lemma {:induction false} AllStartAfter(text: string, base: nat, offset: int)
    requires offset < base
    ensures StartingAfter(PlacedLines(text, base), offset) == PlacedLines(text, base)
    decreases |text|
  {
    hide PlacedLines, OneLine;
    NothingPlaced(base);
    if text != "" {
      var line, rest, last := Peel(text);
      if last {
        PlacedLast(line, base);
      } else {
        PlacedCons(line, rest, base);
        AllStartAfter(rest, base + |line| + 1, offset);
      }
    }
  }

  /** A cut inside the first line leaves the lines after it. */
  lemma CutInFirstLine(text: string, base: nat, cut: nat)
    requires base <= cut <= base + LineEnd(text)
    ensures DropFirst(SplitLines(text[cut - base..])) == Texts(StartingAfter(PlacedLines(text, base), cut))
  {
    hide SplitLines, LineEnd;
    var n := LineEnd(text);
    var piece := text[cut - base..n];
    if n < |text| {
      var rest := text[n + 1..];
      assert text[cut - base..] == piece + [NEWLINE] + rest;
      SplitCons(piece, rest);
      AllStartAfter(rest, base + n + 1, cut);
      PlacedTexts(rest, base + n + 1);
      assert StartingAfter(PlacedLines(text, base), cut) == PlacedLines(rest, base + n + 1);
    } else {
      assert text[cut - base..] == piece;
      SplitLast(piece);
    }
  }

  lemma {:induction false} CutAt(text: string, base: nat, cut: nat)
    requires base <= cut <= base + |text|
    ensures DropFirst(SplitLines(text[cut - base..])) == Texts(StartingAfter(PlacedLines(text, base), cut))
    decreases |text|
  {
    hide SplitLines, LineEnd;
    var n := LineEnd(text);
    if cut <= base + n {
      CutInFirstLine(text, base, cut);
    } else {
      var rest := text[n + 1..];
      CutAt(rest, base + n + 1, cut);
      assert text[cut - base..] == rest[cut - (base + n + 1)..];
    }
  }

  /** The tail read returns exactly the lines that start after the cut, and all
      lines when nothing is cut off. */
  lemma TailIsLinesAfterCut(file: string, maxBytes: nat)
    ensures |file| <= maxBytes ==> TailLines(file, maxBytes) == SplitLines(file)
    ensures |file| > maxBytes ==>
      TailLines(file, maxBytes) == Texts(StartingAfter(PlacedLines(file, 0), |file| - maxBytes))
  {
    if |file| > maxBytes {
      CutAt(file, 0, |file| - maxBytes);
    } else {
      assert file[0..] == file;
    }
  }

  // ---- The reverse scan ---------------------------------------------------

  /** _parse_jsonl_lines: the lines that parse, in order. */
  function Entries<E>(lines: seq<string>, parse: string -> Option<E>): seq<E> {
    if lines == [] then []
    else
      match parse(lines[0])
      case None => Entries(lines[1..], parse)
      case Some(e) => [e] + Entries(lines[1..], parse)
  }

  function Matching<E>(entries: seq<E>, wanted: E -> bool): seq<E> {
    if entries == [] then []
    else if wanted(entries[0]) then [entries[0]] + Matching(entries[1..], wanted)
    else Matching(entries[1..], wanted)
  }

  function LastN<E>(s: seq<E>, n: nat): seq<E> {
    if |s| <= n then s else s[|s| - n..]
  }

  function Reverse<E>(s: seq<E>): seq<E> {
    if s == [] then [] else Reverse(s[1..]) + [s[0]]
  }

  lemma {:induction false} EntriesConcat<E>(a: seq<string>, b: seq<string>, parse: string -> Option<E>)
    ensures Entries(a + b, parse) == Entries(a, parse) + Entries(b, parse)
  {
    if a == [] {
      assert a + b == b;
    } else {
      assert (a + b)[1..] == a[1..] + b;
      EntriesConcat(a[1..], b, parse);
    }
  }

  lemma {:induction false} MatchingConcat<E>(a: seq<E>, b: seq<E>, wanted: E -> bool)
    ensures Matching(a + b, wanted) == Matching(a, wanted) + Matching(b, wanted)
  {
    if a == [] {
      assert a + b == b;
    } else {
      assert (a + b)[1..] == a[1..] + b;
      MatchingConcat(a[1..], b, wanted);
    }
  }

  lemma EntriesOne<E>(line: string, parse: string -> Option<E>)
    ensures Entries([line], parse) == if parse(line).Some? then [parse(line).value] else []
  {
    assert [line][1..] == [];
  }

  lemma MatchingOne<E>(e: E, wanted: E -> bool)
    ensures Matching([e], wanted) == if wanted(e) then [e] else []
  {
    assert [e][1..] == [];
  }

  lemma LastNExact<E>(s: seq<E>, n: nat)
    ensures |LastN(s, n)| == (if |s| < n then |s| else n) && LastN(s, n) == s[|s| - |LastN(s, n)|..]
  {}

  lemma {:induction false} StartingAfterConcat(a: seq<Placed>, b: seq<Placed>, offset: int)
    ensures StartingAfter(a + b, offset) == StartingAfter(a, offset) + StartingAfter(b, offset)
  {
    if a == [] {
      assert a + b == b;
    } else {
      assert (a + b)[1..] == a[1..] + b;
      StartingAfterConcat(a[1..], b, offset);
    }
  }

  lemma StartingAfterOne(p: Placed, offset: int)
    ensures StartingAfter([p], offset) == if p.start > offset then [p] else []
  {
    assert [p][1..] == [];
  }

  lemma {:induction false} TextsExact(lines: seq<Placed>)
    ensures |Texts(lines)| == |lines| && forall i | 0 <= i < |lines| :: Texts(lines)[i] == lines[i].text
  {
    if lines != [] { TextsExact(lines[1..]); }
  }

  lemma {:induction false} ReverseSnoc<E>(s: seq<E>, e: E)
    ensures Reverse(s + [e]) == [e] + Reverse(s)
  {
    if s != [] {
      assert (s + [e])[1..] == s[1..] + [e];
      ReverseSnoc(s[1..], e);
    }
  }

  lemma {:induction false} ReverseLength<E>(s: seq<E>)
    ensures |Reverse(s)| == |s|
  {
    if s != [] {
      ReverseLength(s[1..]);
    }
  }

  /** The scan of api_errors_list: newest line first, stop at `limit` matches,
      then turn the results round.  They are the last `limit` matches in file
      order; `scanned` is the length of the shortest stretch of entries at the
      end that holds them. */
  method ScanBackwards<E>(lines: seq<string>, parse: string -> Option<E>, wanted: E -> bool, limit: nat)
    returns (results: seq<E>, scanned: nat)
    requires limit >= 1
    ensures results == LastN(Matching(Entries(lines, parse), wanted), limit)
    ensures scanned <= |Entries(lines, parse)|
    ensures var seen := Entries(lines, parse)[|Entries(lines, parse)| - scanned..];
      && Matching(seen, wanted) == results
      && (|results| < limit ==> seen == Entries(lines, parse))
      && (|results| == limit ==> wanted(seen[0]))
  {
    ghost var all := Entries(lines, parse);
    results, scanned := [], 0;
    var i := |lines|;
    assert lines[i..] == [];
    while i > 0 && |results| < limit
      invariant i <= |lines| && |results| <= limit
      invariant scanned == |Entries(lines[i..], parse)|
      invariant Reverse(results) == Matching(Entries(lines[i..], parse), wanted)
      invariant |results| == limit ==> scanned > 0 && wanted(Entries(lines[i..], parse)[0])
    {
      i := i - 1;
      assert lines[i..] == [lines[i]] + lines[i + 1..];
      var parsed := parse(lines[i]);
      if parsed.Some? {
        scanned := scanned + 1;
        assert Entries(lines[i..], parse) == [parsed.value] + Entries(lines[i + 1..], parse);
        if wanted(parsed.value) {
          ReverseSnoc(results, parsed.value);
          results := results + [parsed.value];
        }
      } else {
        assert Entries(lines[i..], parse) == Entries(lines[i + 1..], parse);
      }
    }
    ReverseLength(results);
    ScanCovers(lines, parse, wanted, i);
    if i == 0 {
      assert lines[i..] == lines;
    }
    results := Reverse(results);
  }

  /** What lies before position i comes first in entries and in matches. */
  lemma ScanCovers<E>(lines: seq<string>, parse: string -> Option<E>, wanted: E -> bool, i: nat)
    requires i <= |lines|
    ensures var all, tail := Entries(lines, parse), Entries(lines[i..], parse);
      && |tail| <= |all| && all[|all| - |tail|..] == tail
      && |Matching(tail, wanted)| <= |Matching(all, wanted)|
      && LastN(Matching(all, wanted), |Matching(tail, wanted)|) == Matching(tail, wanted)
  {
    assert lines == lines[..i] + lines[i..];
    EntriesConcat(lines[..i], lines[i..], parse);
    MatchingConcat(Entries(lines[..i], parse), Entries(lines[i..], parse), wanted);
  }

  const MAX_TAIL_BYTES: nat := 10 * 1024 * 1024
  const MAX_LIMIT := 200

  function Distance(a: int, b: int): nat { if a <= b then b - a else a - b }

  /** The admissible limit nearest to the requested one, which is that one when it
      is admissible: max(1, min(limit, 200)), with 100 for a limit that is no number. */
  function ClampLimit(requested: Option<int>): (limit: nat)
    ensures 1 <= limit <= 200
    ensures requested.None? ==> limit == 100
    ensures requested.Some? ==>
      forall n | 1 <= n <= 200 :: Distance(limit, requested.value) <= Distance(n, requested.value)
  {
    var n := if requested.Some? then requested.value else 100;
    if n < 1 then 1 else if n > MAX_LIMIT then MAX_LIMIT else n
  }

  /** api_errors_list over the whole file: the last `limit` wanted entries among
      the lines that start after the cut, in file order. */
  method ListErrors<E>(file: string, parse: string -> Option<E>, wanted: E -> bool, requested: Option<int>)
    returns (results: seq<E>, scanned: nat, total: nat)
    ensures var window := if |file| <= 10_485_760 then SplitLines(file)
                          else Texts(StartingAfter(PlacedLines(file, 0), |file| - 10_485_760));
      && results == LastN(Matching(Entries(window, parse), wanted), ClampLimit(requested))
      && total == |Entries(window, parse)| && scanned <= total
  {
    TailIsLinesAfterCut(file, MAX_TAIL_BYTES);
    var raw := TailLines(file, MAX_TAIL_BYTES);
    results, scanned := ScanBackwards(raw, parse, wanted, ClampLimit(requested));
    total := |Entries(raw, parse)|;
  }
}
