/** Run options across a pause, as blueprints/agent.py stores and recovers them:
    the chart context rendered into bounded lines, the notice stored beside the
    opening message, and the narrowing a resumed run applies. */
module RunOptions {
  import opened Wrappers
  import opened Whitespace

  const MAX_RUNTIME_LINES: nat := 10

  predicate IsEffort(s: string) { s in ["off", "low", "medium", "high"] }

  // ---- Rendering the chart context ----------------------------------------

  /** A context value: a scalar with its str(...) text, or anything else. */
  datatype Value = Scalar(text: string) | NotScalar

  /** One key of the context; the keys come sorted. */
  datatype Item = Item(key: string, value: Value)

  function Take(s: string, n: nat): string { if |s| <= n then s else s[..n] }

  function Line(item: Item): string
    requires item.value.Scalar?
  {
    Take(item.key, 40) + ": " + Take(item.value.text, 120)
  }

  /** The line of every scalar item, in order. */
  function AllLines(items: seq<Item>): seq<string> {
    if items == [] then []
    else
      var rest, item := AllLines(items[..|items| - 1]), items[|items| - 1];
      if item.value.Scalar? then rest + [Line(item)] else rest
  }

  function FirstLines(lines: seq<string>): seq<string> {
    if |lines| <= MAX_RUNTIME_LINES then lines else lines[..MAX_RUNTIME_LINES]
  }

  lemma {:induction false} AllLinesGrow(items: seq<Item>, i: nat)
    requires i <= |items|
    ensures AllLines(items[..i]) <= AllLines(items)
  {
    if i == |items| {
      assert items[..i] == items;
    } else {
      assert items[..|items| - 1][..i] == items[..i];
      AllLinesGrow(items[..|items| - 1], i);
    }
  }

  /** _runtime_lines: the loop stops as soon as it has ten lines. */
  method RuntimeLines(context: Option<seq<Item>>) returns (lines: seq<string>)
    ensures lines == match context case None => [] case Some(items) => FirstLines(AllLines(items))
  {
    lines := [];
    if context.None? {
      return;
    }
    var items := context.value;
    var i := 0;
    while i < |items|
      invariant i <= |items| && lines == AllLines(items[..i]) && |lines| < MAX_RUNTIME_LINES
    {
      var item := items[i];
      i := i + 1;
      assert items[..i][..i - 1] == items[..i - 1];
      if item.value.Scalar? {
        lines := lines + [Line(item)];
        if |lines| >= MAX_RUNTIME_LINES {
          AllLinesGrow(items, i);
          return;
        }
      }
    }
    assert items[..i] == items;
  }

  /** What a line holds: at most 40 characters of the key, a colon and a blank, at
      most 120 characters of the value. */
  lemma LineExact(item: Item)
    requires item.value.Scalar?
    ensures var key, text, line := item.key, item.value.text, Line(item);
      var k := if |key| < 40 then |key| else 40;
      var v := if |text| < 120 then |text| else 120;
      && |line| == k + 2 + v && line[..k] == key[..k] && line[k..k + 2] == ": " && line[k + 2..] == text[..v]
  {}

  /** Every scalar item has its line, items of other types have none, and the first
      ten lines are kept. */
  lemma {:induction false} AllLinesConcat(a: seq<Item>, b: seq<Item>)
    ensures AllLines(a + b) == AllLines(a) + AllLines(b)
  {
    if b == [] {
      assert a + b == a;
    } else {
      assert (a + b)[..|a + b| - 1] == a + b[..|b| - 1];
      AllLinesConcat(a, b[..|b| - 1]);
    }
  }

  lemma AllLinesOne(item: Item)
    ensures AllLines([item]) == if item.value.Scalar? then [Line(item)] else []
  {
    assert [item][..0] == [];
  }

  lemma FirstLinesExact(lines: seq<string>)
    ensures var n := |FirstLines(lines)|;
      n == (if |lines| < 10 then |lines| else 10) && FirstLines(lines) == lines[..n]
  {}

  /** What every rendered context satisfies. */
  predicate Bounded(lines: seq<string>) {
    |lines| <= MAX_RUNTIME_LINES && forall i | 0 <= i < |lines| :: |lines[i]| <= 162
  }

  lemma {:induction false} LinesAreShort(items: seq<Item>)
    ensures forall i | 0 <= i < |AllLines(items)| :: |AllLines(items)[i]| <= 162
  {
    if items != [] {
      LinesAreShort(items[..|items| - 1]);
    }
  }

  lemma RenderedIsBounded(items: seq<Item>)
    ensures Bounded(FirstLines(AllLines(items)))
    ensures var lines := FirstLines(AllLines(items)); |lines| <= 10 && forall i | 0 <= i < |lines| :: |lines[i]| <= 162
  {
    LinesAreShort(items);
  }

  // ---- Storing and recovering ---------------------------------------------

  /** A stored notice; an absent field is None. */
  datatype Notice =
    | Options(effort: Option<string>, lines: Option<seq<string>>, webSearch: Option<bool>)
    | Attachments(files: seq<string>)
    | Foreign

  /** _run_options_notice */
  function Encode(effort: Option<string>, lines: seq<string>, webSearch: bool, files: seq<string>): Option<seq<Notice>> {
    var entry := Options(
      if effort.Some? && effort.value != "" then effort else None,
      if lines != [] then Some(lines) else None,
      if webSearch then None else Some(false));
    var notices :=
      (if entry == Options(None, None, None) then [] else [entry]) + (if files != [] then [Attachments(files)] else []);
    if notices == [] then None else Some(notices)
  }

  function Lower(s: string): string {
    if s == "" then ""
    else [if 'A' <= s[0] <= 'Z' then s[0] - 'A' + 'a' else s[0]] + Lower(s[1..])
  }

  function Truncated(lines: seq<string>): seq<string> {
    if lines == [] then [] else [Take(lines[0], 200)] + Truncated(lines[1..])
  }

  datatype Recovered = Recovered(effort: Option<string>, lines: seq<string>, webSearch: bool)

  /** _run_options_of, on the notices of a stored row: the first entry of the
      right type decides. */
  function Decode(notices: Option<seq<Notice>>): Recovered {
    match notices
    case None => Recovered(None, [], true)
    case Some(entries) => DecodeEntries(entries)
  }

  function DecodeEntries(entries: seq<Notice>): Recovered {
    if entries == [] then Recovered(None, [], true)
    else
      match entries[0]
      case Options(effort, lines, webSearch) =>
        var e := Lower(Strip(if effort.Some? then effort.value else ""));
        Recovered(
          if IsEffort(e) then Some(e) else None,
          if lines.Some? then Truncated(FirstLines(lines.value)) else [],
          webSearch != Some(false))
      case _ => DecodeEntries(entries[1..])
  }

  /** How a turn is stored: the switch as an explicit false, and only when it is off;
      effort and lines only where there are any. */
  lemma EncodeExact(effort: Option<string>, lines: seq<string>, webSearch: bool, files: seq<string>)
    ensures Encode(effort, lines, webSearch, files).None? <==>
      (effort.None? || effort == Some("")) && lines == [] && webSearch && files == []
    ensures !((effort.None? || effort == Some("")) && lines == [] && webSearch) ==>
      var stored := Encode(effort, lines, webSearch, files);
      && stored.Some? && stored.value != [] && stored.value[0].Options?
      && stored.value[0].webSearch == (if webSearch then None else Some(false))
      && stored.value[0].effort == (if effort == Some("") then None else effort)
      && stored.value[0].lines == (if lines == [] then None else Some(lines))
  {}

  /** A row from before the switch existed, or without options, allows the web. */
  lemma LegacyRowAllowsWeb(effort: Option<string>, lines: Option<seq<string>>, files: seq<string>)
    ensures Decode(None) == Recovered(None, [], true)
    ensures Decode(Some([Options(effort, lines, None)])).webSearch
    ensures Decode(Some([Attachments(files)])) == Recovered(None, [], true)
    ensures !Decode(Some([Attachments(files), Options(effort, lines, Some(false))])).webSearch
  {
    var both := [Attachments(files), Options(effort, lines, Some(false))];
    assert both[1..] == [Options(effort, lines, Some(false))];
    assert DecodeEntries(both) == DecodeEntries(both[1..]);
    assert [Attachments(files)][1..] == [] && DecodeEntries([]) == Recovered(None, [], true);
    assert DecodeEntries([Attachments(files)]) == DecodeEntries([]);
  }

  lemma {:induction false} TruncatedExact(lines: seq<string>)
    ensures |Truncated(lines)| == |lines|
    ensures forall i | 0 <= i < |lines| ::
      Truncated(lines)[i] == if |lines[i]| <= 200 then lines[i] else lines[i][..200]
  {
    if lines != [] { TruncatedExact(lines[1..]); }
  }

  /** Every value is checked again on the way out, whatever the row holds. */
  lemma {:induction false} RecoveredIsBounded(entries: seq<Notice>)
    ensures var r := DecodeEntries(entries);
      && (r.effort.Some? ==> r.effort.value in ["off", "low", "medium", "high"])
      && |r.lines| <= 10 && forall i | 0 <= i < |r.lines| :: |r.lines[i]| <= 200
  {
    if entries != [] {
      match entries[0] {
        case Options(_, lines, _) => if lines.Some? { TruncatedExact(FirstLines(lines.value)); }
        case _ => RecoveredIsBounded(entries[1..]);
      }
    }
  }

  lemma {:induction false} LowerFixes(s: string)
    requires forall i | 0 <= i < |s| :: 'a' <= s[i] <= 'z'
    ensures Lower(s) == s
  {
    if s != "" {
      LowerFixes(s[1..]);
    }
  }

  lemma LettersAreNoSpace(s: string)
    requires forall i | 0 <= i < |s| :: 'a' <= s[i] <= 'z'
    ensures forall i | 0 <= i < |s| :: !IsSpace(s[i])
  {}

  lemma {:induction false} LowerExact(s: string)
    ensures |Lower(s)| == |s|
    ensures forall i | 0 <= i < |s| :: Lower(s)[i] == if 'A' <= s[i] <= 'Z' then s[i] - 'A' + 'a' else s[i]
  {
    if s != "" { LowerExact(s[1..]); }
  }

  lemma EffortFixed(e: string)
    requires IsEffort(e)
    ensures Lower(Strip(e)) == e && e != ""
  {
    hide IsSpace, Strip, Lower;
    assert forall i | 0 <= i < |e| :: 'a' <= e[i] <= 'z';
    LettersAreNoSpace(e);
    StripKeeps(e);
    LowerFixes(e);
  }

  lemma {:induction false} ShortLinesKept(lines: seq<string>)
    requires forall i | 0 <= i < |lines| :: |lines[i]| <= 200
    ensures Truncated(lines) == lines
  {
    if lines != [] {
      ShortLinesKept(lines[1..]);
    }
  }

  /** What was stored comes back: effort, lines and switch, for every turn. */
  lemma RoundTrip(effort: Option<string>, items: seq<Item>, webSearch: bool, files: seq<string>)
    requires effort.Some? ==> IsEffort(effort.value)
    ensures var lines := FirstLines(AllLines(items));
      Decode(Encode(effort, lines, webSearch, files)) == Recovered(effort, lines, webSearch)
  {
    var lines := FirstLines(AllLines(items));
    RenderedIsBounded(items);
    ShortLinesKept(lines);
    if effort.Some? {
      EffortFixed(effort.value);
    }
    assert Lower(Strip("")) == "" && !IsEffort("");
    assert FirstLines(lines) == lines && Truncated([]) == [];
    var entry := Options(effort, if lines != [] then Some(lines) else None, if webSearch then None else Some(false));
    var rest := if files != [] then [Attachments(files)] else [];
    if entry == Options(None, None, None) {
      var none: seq<Notice> := [];
      assert none + rest == rest;
      assert DecodeEntries([]) == Recovered(None, [], true);
      if files != [] {
        assert rest[1..] == [];
        assert DecodeEntries(rest) == DecodeEntries([]);
      }
    } else {
      assert ([entry] + rest)[0] == entry;
      assert Encode(effort, lines, webSearch, files) == Some([entry] + rest);
      assert DecodeEntries([entry] + rest) == Recovered(effort, lines, webSearch);
    }
  }

  // ---- Resuming -----------------------------------------------------------

  datatype Row = Row(user: bool, notices: Option<seq<Notice>>)

  /** _last_user_row: the notices of the last row the person wrote. */
  function LastUserNotices(rows: seq<Row>): Option<seq<Notice>> {
    if rows == [] then None
    else if rows[|rows| - 1].user then rows[|rows| - 1].notices
    else LastUserNotices(rows[..|rows| - 1])
  }

  /** list_messages returns the newest rows only. */
  const ROW_LIMIT: nat := 500

  function Newest(rows: seq<Row>): seq<Row> {
    if |rows| <= ROW_LIMIT then rows else rows[|rows| - ROW_LIMIT..]
  }

  lemma NewestExact(rows: seq<Row>)
    ensures |Newest(rows)| == (if |rows| < 500 then |rows| else 500) && Newest(rows) == rows[|rows| - |Newest(rows)|..]
  {}

  /** What a confirm request asks for: its own effort, context and switch. */
  datatype Body = Body(effort: Option<string>, items: Option<seq<Item>>, webSearch: bool)

  /** What chat_confirm builds the resumed run with; a failed read of the
      conversation counts as an empty row. */
  function Resume(read: Option<seq<Row>>, body: Body): Recovered {
    var stored := Decode(match read case None => None case Some(rows) => LastUserNotices(Newest(rows)));
    var lines := match body.items case None => [] case Some(items) => FirstLines(AllLines(items));
    Recovered(
      if body.effort.Some? then body.effort else stored.effort,
      if lines != [] then lines else stored.lines,
      stored.webSearch && body.webSearch)
  }

  lemma {:induction false} LastUserStays(rows: seq<Row>, later: seq<Row>)
    requires forall i | 0 <= i < |later| :: !later[i].user
    ensures LastUserNotices(rows + later) == LastUserNotices(rows)
  {
    if later == [] {
      assert rows + later == rows;
    } else {
      assert (rows + later)[..|rows + later| - 1] == rows + later[..|later| - 1];
      LastUserStays(rows, later[..|later| - 1]);
    }
  }

  predicate NoUserRow(rows: seq<Row>) { forall i | 0 <= i < |rows| :: !rows[i].user }

  lemma {:induction false} LaterUserDecides(rows: seq<Row>, later: seq<Row>)
    requires !NoUserRow(later)
    ensures LastUserNotices(rows + later) == LastUserNotices(later)
  {
    var init := later[..|later| - 1];
    assert (rows + later)[..|rows + later| - 1] == rows + init;
    if !later[|later| - 1].user {
      var i :| 0 <= i < |later| && later[i].user;
      assert init[i].user;
      LaterUserDecides(rows, init);
    }
  }

  function OpeningRow(opening: Recovered, files: seq<string>): Row {
    Row(true, Encode(opening.effort, opening.lines, opening.webSearch, files))
  }

  /** A conversation in which a turn was opened.  The row of the opening message is
      missing when its write failed, or when it was cut off since. */
  function Conversation(
    earlier: seq<Row>, opening: Recovered, files: seq<string>, stored: bool, later: seq<Row>): seq<Row>
  {
    earlier + (if stored then [OpeningRow(opening, files)] else []) + later
  }

  /** What a turn can open with: a known effort or none, and rendered lines. */
  ghost predicate Openable(opening: Recovered) {
    && (opening.effort.Some? ==> IsEffort(opening.effort.value))
    && exists items :: opening.lines == FirstLines(AllLines(items))
  }

  /** What a resumed run finds.  The latest message the person wrote since the
      turn was opened takes the opening's place, an earlier one does when the
      opening is missing, and nothing is found beyond the rows read. */
  function Found(earlier: seq<Row>, opening: Recovered, stored: bool, later: seq<Row>): Recovered {
    if !NoUserRow(Newest(later)) then Decode(LastUserNotices(Newest(later)))
    else if |later| >= ROW_LIMIT then Recovered(None, [], true)
    else if stored then opening
    else Decode(LastUserNotices(Newest(earlier + later)))
  }

  lemma {:induction false} NobodyWrote(rows: seq<Row>)
    requires NoUserRow(rows)
    ensures LastUserNotices(rows) == None
  {
    if rows != [] { NobodyWrote(rows[..|rows| - 1]); }
  }

  lemma StoredOptions(earlier: seq<Row>, opening: Recovered, files: seq<string>, stored: bool, later: seq<Row>)
    requires Openable(opening)
    ensures Decode(LastUserNotices(Newest(Conversation(earlier, opening, files, stored, later))))
         == Found(earlier, opening, stored, later)
  {
    hide Encode, LastUserNotices;
    var before := earlier + if stored then [OpeningRow(opening, files)] else [];
    var rows := Conversation(earlier, opening, files, stored, later);
    assert rows == before + later;
    if |later| >= ROW_LIMIT {
      assert Newest(rows) == Newest(later);
      if NoUserRow(Newest(later)) {
        NobodyWrote(Newest(later));
      }
    } else {
      var kept := if |rows| <= ROW_LIMIT then before else before[|rows| - ROW_LIMIT..];
      assert Newest(rows) == kept + later;
      if !NoUserRow(later) {
        LaterUserDecides(kept, later);
      } else if stored {
        assert kept == kept[..|kept| - 1] + [OpeningRow(opening, files)];
        OpeningOrLater(kept[..|kept| - 1], opening, files, later);
      } else {
        assert before == earlier;
      }
    }
  }

  lemma OpeningOrLater(earlier: seq<Row>, opening: Recovered, files: seq<string>, later: seq<Row>)
    requires Openable(opening)
    ensures Decode(LastUserNotices(earlier + [OpeningRow(opening, files)] + later))
         == if NoUserRow(later) then opening else Decode(LastUserNotices(later))
  {
    var row := OpeningRow(opening, files);
    if NoUserRow(later) {
      LastUserStays(earlier + [row], later);
      assert LastUserNotices(earlier + [row]) == row.notices;
      var items :| opening.lines == FirstLines(AllLines(items));
      RoundTrip(opening.effort, items, opening.webSearch, files);
    } else {
      LaterUserDecides(earlier + [row], later);
    }
  }

  /** However often a turn is resumed, each resumed run gets the effort and lines
      that are found unless the request brings its own, and the web only if both
      allow it; found are those the turn opened with as long as its row is stored,
      the person wrote nothing in between and fewer than 500 rows were added. */
  lemma ResumeKeepsOpening(
    earlier: seq<Row>, opening: Recovered, files: seq<string>, stored: bool, later: seq<Row>, body: Body)
    requires Openable(opening)
    ensures var run := Resume(Some(Conversation(earlier, opening, files, stored, later)), body);
      var found := Found(earlier, opening, stored, later);
      && run.webSearch == (found.webSearch && body.webSearch)
      && run.effort == (if body.effort.Some? then body.effort else found.effort)
      && (body.items.None? ==> run.lines == found.lines)
      && (body.items.Some? ==>
            var own := FirstLines(AllLines(body.items.value)); run.lines == if own != [] then own else found.lines)
  {
    StoredOptions(earlier, opening, files, stored, later);
  }

  /** The web switch the last message of the person among these rows was sent with;
      on when there is none. */
  predicate LastSentWithWeb(rows: seq<Row>) { Decode(LastUserNotices(rows)).webSearch }

  /** Exactly when a turn opened with the web off stays off however it is resumed:
      the conversation can be read, and the last message among the rows read was
      sent with the web off.  That is the last one since the opening or, if there is
      none, the opening as long as it is stored and within reach, else one before. */
  lemma SwitchStaysOffExact(
    earlier: seq<Row>, opening: Recovered, files: seq<string>, stored: bool, later: seq<Row>, readable: bool)
    requires Openable(opening) && !opening.webSearch
    ensures var read := if readable then Some(Conversation(earlier, opening, files, stored, later)) else None;
      (forall body :: !Resume(read, body).webSearch)
      <==> readable && (if !NoUserRow(Newest(later)) then !LastSentWithWeb(Newest(later))
                        else |later| < ROW_LIMIT && (stored || !LastSentWithWeb(Newest(earlier + later))))
  {
    StoredOptions(earlier, opening, files, stored, later);
    var read := if readable then Some(Conversation(earlier, opening, files, stored, later)) else None;
    var asks := Body(None, None, true);
    if Resume(read, asks).webSearch {
      assert !(forall body :: !Resume(read, body).webSearch);
    }
  }

  /** Opened with the web off, a second message sent with it on while the first run
      is paused, and the first run resumed: it may reach the web. */
  lemma NewerMessageLiftsSwitch() returns (opening: Recovered, later: seq<Row>, body: Body)
    ensures Openable(opening) && !opening.webSearch
    ensures Resume(Some(Conversation([], opening, [], true, later)), body).webSearch
  {
    opening, body := Recovered(None, [], false), Body(None, None, true);
    later := [Row(true, Encode(None, [], true, []))];
    assert FirstLines(AllLines([])) == opening.lines;
    StoredOptions([], opening, [], true, later);
    assert later[0].user;
  }

  /** The opening message whose row was not stored: the first resumed run of an empty
      conversation may reach the web. */
  lemma MissingOpeningLiftsSwitch() returns (opening: Recovered, body: Body)
    ensures Openable(opening) && !opening.webSearch
    ensures Resume(Some(Conversation([], opening, [], false, [])), body).webSearch
  {
    opening, body := Recovered(None, [], false), Body(None, None, true);
    assert FirstLines(AllLines([])) == opening.lines;
    assert Conversation([], opening, [], false, []) == [];
  }

  /** When the opening row cannot be read back, the switch is lost for every
      request that does not turn the web off itself. */
  lemma UnreadRowLosesSwitch(body: Body)
    ensures Resume(None, body).webSearch <==> body.webSearch
    ensures forall effort, lines, files :: !Decode(Encode(effort, lines, false, files)).webSearch
  {
    forall effort, lines, files ensures !Decode(Encode(effort, lines, false, files)).webSearch {
      var entry := Encode(effort, lines, false, files).value[0];
      assert entry.Options? && entry.webSearch == Some(false);
    }
  }
}
