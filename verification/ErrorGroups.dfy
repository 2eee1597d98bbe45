/** The one-pass grouping of error-log entries in blueprints/admin.py. */
module ErrorGroups {
  import opened Wrappers

  // ---- Python's string order ----------------------------------------------

  predicate Less(a: string, b: string) {
    b != "" && (a == "" || a[0] < b[0] || (a[0] == b[0] && Less(a[1..], b[1..])))
  }

  lemma {:induction false} LessIrreflexive(a: string)
    ensures !Less(a, a)
  {
    if a != "" { LessIrreflexive(a[1..]); }
  }

  lemma {:induction false} LessTransitive(a: string, b: string, c: string)
    requires Less(a, b) && Less(b, c)
    ensures Less(a, c)
  {
    if a != "" && a[0] == b[0] == c[0] { LessTransitive(a[1..], b[1..], c[1..]); }
  }

  lemma {:induction false} LessTotal(a: string, b: string)
    ensures a == b || Less(a, b) || Less(b, a)
  {
    if a != "" && b != "" && a[0] == b[0] {
      LessTotal(a[1..], b[1..]);
      assert a == [a[0]] + a[1..] && b == [b[0]] + b[1..];
    }
  }

  // ---- Entries and groups -------------------------------------------------

  /** An entry's `ts`: missing or null, a string, or any other JSON value. */
  datatype Stamp = Absent | Text(s: string) | Other(truthy: bool)
  {
    predicate Falsy() { Absent? || (Text? && s == "") || (Other? && !truthy) }
  }

  /** A part of the fingerprint: empty or missing, text, text with a lone surrogate
      (which JSON can carry as an escape), or a truthy value of another type. */
  datatype Part = Blank | Words(s: string) | Surrogate | NotText

  /** `signature` is the normalised exception or message, which is always text. */
  datatype Entry = Entry(ts: Stamp, level: Part, logger: Part, owner: Part, signature: Part, body: string)

  datatype Group = Group(count: nat, firstSeen: Stamp, lastSeen: Stamp, sample: Entry)

  function Open(e: Entry): Group { Group(1, e.ts, e.ts, e) }

  /** Comparing a string with a truthy value of another type raises TypeError. */
  predicate Clash(g: Group, e: Entry) {
    e.ts.Text? && (g.firstSeen == Other(true) || g.lastSeen == Other(true))
  }

  /** What one more entry does to its group. */
  function Absorb(g: Group, e: Entry): Group
    requires !Clash(g, e)
  {
    if !e.ts.Text? then g.(count := g.count + 1)
    else
      var first := if g.firstSeen.Falsy() || Less(e.ts.s, g.firstSeen.s) then e.ts else g.firstSeen;
      var last := if g.lastSeen.Falsy() || Less(g.lastSeen.s, e.ts.s) then e.ts else g.lastSeen;
      var sample := if last.Text? && !Less(e.ts.s, last.s) then e else g.sample;
      Group(g.count + 1, first, last, sample)
  }

  /** One group's entries, folded in file order; None when a comparison raises. */
  function Fold(ms: seq<Entry>): Option<Group>
    requires ms != []
  {
    if |ms| == 1 then Some(Open(ms[0]))
    else
      var g := Fold(ms[..|ms| - 1]);
      if g.None? || Clash(g.value, ms[|ms| - 1]) then None
      else Some(Absorb(g.value, ms[|ms| - 1]))
  }

  predicate HasText(ms: seq<Entry>) { exists i | 0 <= i < |ms| :: ms[i].ts.Text? }

  /** s is a string timestamp of the group, and none is earlier. */
  predicate Earliest(ms: seq<Entry>, s: string) {
    && (exists i | 0 <= i < |ms| :: ms[i].ts == Text(s))
    && forall i | 0 <= i < |ms| && ms[i].ts.Text? :: !Less(ms[i].ts.s, s)
  }

  predicate Latest(ms: seq<Entry>, s: string) {
    && (exists i | 0 <= i < |ms| :: ms[i].ts == Text(s))
    && forall i | 0 <= i < |ms| && ms[i].ts.Text? :: !Less(s, ms[i].ts.s)
  }

  /** The string timestamp that comes last in file order. */
  function LastText(ms: seq<Entry>): Option<string> {
    if ms == [] then None
    else if ms[|ms| - 1].ts.Text? then Some(ms[|ms| - 1].ts.s)
    else LastText(ms[..|ms| - 1])
  }

  predicate HasEmpty(ms: seq<Entry>) { exists i | 0 <= i < |ms| :: ms[i].ts == Text("") }

  // ---- What a group means -------------------------------------------------

  lemma {:induction false} FoldCounts(ms: seq<Entry>)
    requires ms != [] && Fold(ms).Some?
    ensures Fold(ms).value.count == |ms|
  {
    if |ms| > 1 { FoldCounts(ms[..|ms| - 1]); }
  }

  /** Without a string timestamp a group keeps what its first entry said. */
  lemma {:induction false} NoText(ms: seq<Entry>)
    requires ms != [] && !HasText(ms)
    ensures Fold(ms) == Some(Group(|ms|, ms[0].ts, ms[0].ts, ms[0]))
  {
    if |ms| > 1 {
      var init, e := ms[..|ms| - 1], ms[|ms| - 1];
      forall i | 0 <= i < |init| ensures !init[i].ts.Text? { assert init[i] == ms[i]; }
      NoText(init);
      assert !e.ts.Text?;
    }
  }

  /** With one, last_seen is the latest of them, and the sample is the last
      entry in file order that carries it. */
  lemma {:induction false} LastSeenAndSample(ms: seq<Entry>) returns (at: nat)
    requires ms != [] && Fold(ms).Some? && HasText(ms)
    ensures var g := Fold(ms).value;
      && g.lastSeen.Text? && Latest(ms, g.lastSeen.s)
      && at < |ms| && ms[at] == g.sample && ms[at].ts == g.lastSeen
      && forall j | at < j < |ms| :: ms[j].ts != g.lastSeen
  {
    var init, e := ms[..|ms| - 1], ms[|ms| - 1];
    assert ms == init + [e];
    LessIrreflexive(if e.ts.Text? then e.ts.s else "");
    if |ms| == 1 {
      assert ms[0].ts.Text?;
      at := 0;
    } else if !HasText(init) {
      NoText(init);
      at := |init|;
      assert ms[at].ts == e.ts;
    } else {
      at := LastSeenAndSample(init);
      var g := Fold(init).value;
      if e.ts.Text? {
        LessTotal(g.lastSeen.s, e.ts.s);
        LatestStep(init, g.lastSeen.s, e);
        if !Less(e.ts.s, Fold(ms).value.lastSeen.s) {
          at := |init|;
        }
      } else {
        LatestStep(init, g.lastSeen.s, e);
      }
    }
  }

  lemma LatestStep(init: seq<Entry>, s: string, e: Entry)
    requires Latest(init, s)
    ensures Latest(init + [e], if e.ts.Text? && Less(s, e.ts.s) then e.ts.s else s)
  {
    var ms := init + [e];
    var i :| 0 <= i < |init| && init[i].ts == Text(s);
    assert ms[i].ts == Text(s) && ms[|init|] == e;
    if e.ts.Text? && Less(s, e.ts.s) {
      LessIrreflexive(e.ts.s);
      forall k | 0 <= k < |ms| && ms[k].ts.Text? ensures !Less(e.ts.s, ms[k].ts.s) {
        if k < |init| {
          if Less(e.ts.s, ms[k].ts.s) { LessTransitive(s, e.ts.s, ms[k].ts.s); }
        }
      }
    }
  }

  lemma EarliestStep(init: seq<Entry>, s: string, e: Entry)
    requires Earliest(init, s)
    ensures Earliest(init + [e], if e.ts.Text? && Less(e.ts.s, s) then e.ts.s else s)
  {
    var ms := init + [e];
    var i :| 0 <= i < |init| && init[i].ts == Text(s);
    assert ms[i].ts == Text(s) && ms[|init|] == e;
    if e.ts.Text? && Less(e.ts.s, s) {
      LessIrreflexive(e.ts.s);
      forall k | 0 <= k < |ms| && ms[k].ts.Text? ensures !Less(ms[k].ts.s, e.ts.s) {
        if k < |init| {
          if Less(ms[k].ts.s, e.ts.s) { LessTransitive(ms[k].ts.s, e.ts.s, s); }
        }
      }
    }
  }

  /** As long as no timestamp is empty, first_seen is the earliest string. */
  lemma {:induction false} FirstSeenEarliest(ms: seq<Entry>)
    requires ms != [] && Fold(ms).Some? && HasText(ms) && !HasEmpty(ms)
    ensures var first := Fold(ms).value.firstSeen; first.Text? && Earliest(ms, first.s)
  {
    var init, e := ms[..|ms| - 1], ms[|ms| - 1];
    assert ms == init + [e];
    if e.ts.Text? { LessIrreflexive(e.ts.s); }
    if |ms| > 1 {
      forall i | 0 <= i < |init| ensures init[i].ts != Text("") { assert init[i] == ms[i]; }
      if !HasText(init) {
        NoText(init);
        forall i | 0 <= i < |init| ensures !ms[i].ts.Text? { assert ms[i] == init[i]; }
      } else {
        FirstSeenEarliest(init);
        EarliestStep(init, Fold(init).value.firstSeen.s, e);
      }
    }
  }

  /** After an empty timestamp, first_seen starts over with the next string. */
  lemma {:induction false} FirstSeenAfterEmpty(ms: seq<Entry>)
    requires ms != [] && Fold(ms).Some? && HasEmpty(ms)
    ensures var first := Fold(ms).value.firstSeen;
      first.Text? && LastText(ms).Some? && (first.s == "" <==> LastText(ms).value == "")
  {
    var init, e := ms[..|ms| - 1], ms[|ms| - 1];
    assert ms == init + [e];
    if |ms| > 1 {
      if HasEmpty(init) {
        FirstSeenAfterEmpty(init);
      } else {
        forall i | 0 <= i < |init| ensures ms[i].ts != Text("") { assert ms[i] == init[i]; }
      }
    }
  }

  /** Where it starts over: first_seen is the earliest of the string timestamps after
      the last empty one. */
  lemma {:induction false} FirstSeenAfterLast(ms: seq<Entry>, at: nat)
    requires at < |ms| && Fold(ms).Some? && ms[at].ts == Text("") && !HasEmpty(ms[at + 1..]) && HasText(ms[at + 1..])
    ensures var first := Fold(ms).value.firstSeen; first.Text? && Earliest(ms[at + 1..], first.s)
  {
    var init, e := ms[..|ms| - 1], ms[|ms| - 1];
    var rest, after := init[at + 1..], ms[at + 1..];
    assert ms == init + [e] && after == rest + [e];
    assert init[at] == ms[at];
    if HasText(rest) {
      forall i | 0 <= i < |rest| ensures rest[i].ts != Text("") { assert rest[i] == after[i]; }
      FirstSeenAfterLast(init, at);
      EarliestStep(rest, Fold(init).value.firstSeen.s, e);
      assert after[|rest|] == e;
    } else {
      forall i | 0 <= i < |rest| ensures !after[i].ts.Text? { assert rest[i] == after[i]; }
      assert e.ts.Text?;
      EmptyStays(init, at);
      LessIrreflexive(e.ts.s);
      assert after[|rest|] == e;
    }
  }

  lemma {:induction false} EmptyStays(ms: seq<Entry>, at: nat)
    requires at < |ms| && Fold(ms).Some? && ms[at].ts == Text("") && !HasText(ms[at + 1..])
    ensures Fold(ms).value.firstSeen == Text("")
  {
    var init, e := ms[..|ms| - 1], ms[|ms| - 1];
    if at < |init| {
      assert init[at] == ms[at] && ms[at + 1..][|init| - at - 1] == e;
      var rest := init[at + 1..];
      forall i | 0 <= i < |rest| ensures !rest[i].ts.Text? { assert rest[i] == ms[at + 1..][i]; }
      EmptyStays(init, at);
    }
  }

  /** Exactly when first_seen is the earliest string timestamp of its group: no
      timestamp is the empty string, or the last string timestamp is. */
  lemma FirstSeenExact(ms: seq<Entry>)
    requires ms != [] && Fold(ms).Some? && HasText(ms)
    ensures var first := Fold(ms).value.firstSeen;
      first.Text? && (Earliest(ms, first.s) <==> !HasEmpty(ms) || LastText(ms) == Some(""))
  {
    if HasEmpty(ms) {
      FirstSeenAfterEmpty(ms);
      var i :| 0 <= i < |ms| && ms[i].ts == Text("");
      var first := Fold(ms).value.firstSeen.s;
      assert first != "" ==> Less(ms[i].ts.s, first);
    } else {
      FirstSeenEarliest(ms);
    }
  }

  function Stamped(ts: string): Entry { Entry(Text(ts), Blank, Blank, Blank, Blank, "") }

  /** A group of three for which first_seen ends up as its latest timestamp. */
  lemma FirstSeenWrong()
    ensures var ms := [Stamped("2024"), Stamped(""), Stamped("2025")];
      && Fold(ms).Some? && Fold(ms).value.firstSeen == Text("2025") && !Earliest(ms, "2025")
  {
    var a, b, c := Stamped("2024"), Stamped(""), Stamped("2025");
    var ms := [a, b, c];
    assert ms[..2] == [a, b] && [a, b][..1] == [a];
    assert Fold([a, b]) == Some(Group(2, Text(""), Text("2024"), a));
    assert ms[1].ts.Text? && Less(ms[1].ts.s, "2025");
  }

  /** A group of two that fails: a number first, then a string. */
  lemma MixedPairFails()
    ensures Fold([Stamped("").(ts := Other(true)), Stamped("2024")]).None?
  {
    var ms := [Stamped("").(ts := Other(true)), Stamped("2024")];
    assert ms[1].ts.Text?;
    FoldFailsExact(ms);
  }

  /** The grouping fails exactly on a group that opens with a truthy timestamp
      of another type and later meets a string. */
  predicate Mixed(ms: seq<Entry>) { ms != [] && ms[0].ts == Other(true) && HasText(ms) }

  lemma {:induction false} FoldFailsExact(ms: seq<Entry>)
    requires ms != []
    ensures Fold(ms).None? <==> Mixed(ms)
    ensures Fold(ms).Some? ==>
      var g := Fold(ms).value;
      (g.firstSeen == Other(true) || g.lastSeen == Other(true) ==> ms[0].ts == Other(true))
  {
    var init, e := ms[..|ms| - 1], ms[|ms| - 1];
    assert ms == init + [e];
    if |ms| > 1 {
      FoldFailsExact(init);
      if HasText(init) {
        var i :| 0 <= i < |init| && init[i].ts.Text?;
        assert ms[i].ts.Text?;
      } else {
        NoText(init);
        forall i | 0 <= i < |init| ensures !ms[i].ts.Text? { assert ms[i] == init[i]; }
      }
    }
  }

  // ---- The whole file -----------------------------------------------------

  /** The entries with a given fingerprint, in file order. */
  function Members(entries: seq<Entry>, fp: Entry -> Option<string>, k: string): seq<Entry> {
    if entries == [] then []
    else
      var rest, e := Members(entries[..|entries| - 1], fp, k), entries[|entries| - 1];
      if fp(e) == Some(k) then rest + [e] else rest
  }

  lemma {:induction false} MembersConcat(a: seq<Entry>, b: seq<Entry>, fp: Entry -> Option<string>, k: string)
    ensures Members(a + b, fp, k) == Members(a, fp, k) + Members(b, fp, k)
  {
    if b == [] {
      assert a + b == a;
    } else {
      assert (a + b)[..|a + b| - 1] == a + b[..|b| - 1];
      MembersConcat(a, b[..|b| - 1], fp, k);
    }
  }

  lemma MembersOne(e: Entry, fp: Entry -> Option<string>, k: string)
    ensures Members([e], fp, k) == if fp(e) == Some(k) then [e] else []
  {
    assert [e][..0] == [];
  }

  lemma {:induction false} MembersPrefix(entries: seq<Entry>, i: nat, fp: Entry -> Option<string>, k: string)
    requires i <= |entries|
    ensures Members(entries[..i], fp, k) <= Members(entries, fp, k)
  {
    if i == |entries| {
      assert entries[..i] == entries;
    } else {
      var init := entries[..|entries| - 1];
      MembersPrefix(init, i, fp, k);
      assert init[..i] == entries[..i];
    }
  }

  lemma MixedExtends(ms: seq<Entry>, more: seq<Entry>)
    requires Mixed(ms) && ms <= more
    ensures Mixed(more)
  {
    var i :| 0 <= i < |ms| && ms[i].ts.Text?;
    assert more[i].ts.Text?;
  }

  function SumCounts(order: seq<string>, entries: seq<Entry>, fp: Entry -> Option<string>): nat {
    if order == [] then 0
    else |Members(entries, fp, order[|order| - 1])| + SumCounts(order[..|order| - 1], entries, fp)
  }

  /** One more entry adds one to exactly one group. */
  lemma {:induction false} SumCountsStep(order: seq<string>, entries: seq<Entry>, e: Entry, fp: Entry -> Option<string>)
    requires Distinct(order)
    ensures SumCounts(order, entries + [e], fp)
         == SumCounts(order, entries, fp) + if fp(e).Some? && fp(e).value in order then 1 else 0
  {
    if order != [] {
      var init, k := order[..|order| - 1], order[|order| - 1];
      SumCountsStep(init, entries, e, fp);
      assert (entries + [e])[..|entries|] == entries;
      assert order == init + [k];
    }
  }

  /** Group counts add up to the number of entries. */
  lemma {:induction false} CountsConserved(order: seq<string>, entries: seq<Entry>, fp: Entry -> Option<string>)
    requires Distinct(order) && forall e | e in entries :: fp(e).Some? && fp(e).value in order
    ensures SumCounts(order, entries, fp) == |entries|
  {
    if entries == [] {
      NoEntriesNoCounts(order, fp);
    } else {
      var init, e := entries[..|entries| - 1], entries[|entries| - 1];
      assert entries == init + [e];
      CountsConserved(order, init, fp);
      SumCountsStep(order, init, e, fp);
    }
  }

  lemma {:induction false} NoEntriesNoCounts(order: seq<string>, fp: Entry -> Option<string>)
    ensures SumCounts(order, [], fp) == 0
  {
    if order != [] { NoEntriesNoCounts(order[..|order| - 1], fp); }
  }

  /** Every fingerprint has its group, folded from exactly its entries. */
  ghost predicate Grouped(groups: map<string, Group>, entries: seq<Entry>, fp: Entry -> Option<string>) {
    forall k :: if k in groups then Members(entries, fp, k) != [] && Fold(Members(entries, fp, k)) == Some(groups[k])
                else Members(entries, fp, k) == []
  }

  lemma GroupedStep(groups: map<string, Group>, entries: seq<Entry>, e: Entry, fp: Entry -> Option<string>)
    requires Grouped(groups, entries, fp) && fp(e).Some?
    requires fp(e).value in groups ==> !Clash(groups[fp(e).value], e)
    ensures var g := if fp(e).value in groups then Absorb(groups[fp(e).value], e) else Open(e);
      Grouped(groups[fp(e).value := g], entries + [e], fp)
  {
    assert (entries + [e])[..|entries|] == entries;
    var ms := Members(entries, fp, fp(e).value);
    assert (ms + [e])[..|ms|] == ms;
  }

  lemma GroupedAt(groups: map<string, Group>, entries: seq<Entry>, fp: Entry -> Option<string>, k: string)
    requires Grouped(groups, entries, fp) && k in groups
    ensures Members(entries, fp, k) != [] && Fold(Members(entries, fp, k)) == Some(groups[k])
  {}

  lemma FoldClash(ms: seq<Entry>, e: Entry)
    requires ms != [] && Fold(ms).Some? && Clash(Fold(ms).value, e)
    ensures Fold(ms + [e]).None?
  {
    assert (ms + [e])[..|ms|] == ms;
  }

  lemma ClashIsMixed(groups: map<string, Group>, entries: seq<Entry>, i: nat, fp: Entry -> Option<string>)
    requires i < |entries| && Grouped(groups, entries[..i], fp) && fp(entries[i]).Some?
    requires fp(entries[i]).value in groups && Clash(groups[fp(entries[i]).value], entries[i])
    ensures Mixed(Members(entries, fp, fp(entries[i]).value))
  {
    hide Members, Mixed, Grouped, Fold, Clash;
    var e, key := entries[i], fp(entries[i]).value;
    var ms := Members(entries[..i], fp, key);
    GroupedAt(groups, entries[..i], fp, key);
    FoldClash(ms, e);
    FoldFailsExact(ms + [e]);
    MembersConcat(entries[..i], [e], fp, key);
    MembersOne(e, fp, key);
    assert entries[..i + 1] == entries[..i] + [e];
    MembersPrefix(entries, i + 1, fp, key);
    MixedExtends(ms + [e], Members(entries, fp, key));
  }

  lemma GroupedNotMixed(groups: map<string, Group>, entries: seq<Entry>, fp: Entry -> Option<string>)
    requires Grouped(groups, entries, fp)
    ensures forall k :: !Mixed(Members(entries, fp, k))
  {
    forall k ensures !Mixed(Members(entries, fp, k)) {
      if Members(entries, fp, k) != [] {
        FoldFailsExact(Members(entries, fp, k));
      }
    }
  }

  // ---- Fingerprints -------------------------------------------------------

  /** Joining takes text only, and encoding no lone surrogate. */
  predicate Unprintable(e: Entry) {
    || NotText in {e.level, e.logger, e.owner}
    || Surrogate in {e.level, e.logger, e.owner, e.signature}
  }

  function TextOf(part: Part): Option<string> {
    match part
    case Blank => Some("")
    case Words(s) => Some(s)
    case _ => None
  }

  /** A part that is missing or falsy is the empty text. */
  lemma TextOfExact(s: string)
    ensures TextOf(Blank) == Some("") && TextOf(Words(s)) == Some(s) && TextOf(Surrogate) == TextOf(NotText) == None
  {}

  /** _fingerprint_entry; None stands for the exception. */
  function Fingerprint(e: Entry, digest: string -> string): Option<string> {
    var a, b, c, d := TextOf(e.level), TextOf(e.logger), TextOf(e.owner), TextOf(e.signature);
    if a.None? || b.None? || c.None? || d.None? then None
    else Some(digest(a.value + "|" + b.value + "|" + c.value + "|" + d.value))
  }

  lemma FingerprintFailsExact(e: Entry, digest: string -> string)
    requires e.signature != NotText
    ensures Fingerprint(e, digest).None? <==> Unprintable(e)
  {}

  /** Entries are kept apart by each of the four parts, as far as the digest keeps
      texts apart and level, logger and module hold no bar. */
  lemma FingerprintSeparates(a: Entry, b: Entry, digest: string -> string)
    requires forall x, y | digest(x) == digest(y) :: x == y
    requires Fingerprint(a, digest).Some? && Fingerprint(a, digest) == Fingerprint(b, digest)
    requires NoBar(a.level) && NoBar(a.logger) && NoBar(a.owner) && NoBar(b.level) && NoBar(b.logger) && NoBar(b.owner)
    ensures TextOf(a.level) == TextOf(b.level) && TextOf(a.logger) == TextOf(b.logger)
    ensures TextOf(a.owner) == TextOf(b.owner) && TextOf(a.signature) == TextOf(b.signature)
  {
    JoinSeparates(
      TextOf(a.level).value, TextOf(a.logger).value, TextOf(a.owner).value, TextOf(a.signature).value,
      TextOf(b.level).value, TextOf(b.logger).value, TextOf(b.owner).value, TextOf(b.signature).value);
  }

  predicate NoBar(part: Part) { part.Words? ==> '|' !in part.s }

  lemma JoinSeparates(a: string, b: string, c: string, d: string, a': string, b': string, c': string, d': string)
    requires '|' !in a && '|' !in b && '|' !in c && '|' !in a' && '|' !in b' && '|' !in c'
    requires a + "|" + b + "|" + c + "|" + d == a' + "|" + b' + "|" + c' + "|" + d'
    ensures a == a' && b == b' && c == c' && d == d'
  {
    assert a + "|" + b + "|" + c + "|" + d == a + ("|" + (b + "|" + c + "|" + d));
    assert a' + "|" + b' + "|" + c' + "|" + d' == a' + ("|" + (b' + "|" + c' + "|" + d'));
    CutAtBar(a, b + "|" + c + "|" + d, a', b' + "|" + c' + "|" + d');
    assert b + "|" + c + "|" + d == b + ("|" + (c + "|" + d));
    assert b' + "|" + c' + "|" + d' == b' + ("|" + (c' + "|" + d'));
    CutAtBar(b, c + "|" + d, b', c' + "|" + d');
    assert c + "|" + d == c + ("|" + d) && c' + "|" + d' == c' + ("|" + d');
    CutAtBar(c, d, c', d');
  }

  lemma CutAtBar(a: string, rest: string, b: string, rest': string)
    requires '|' !in a && '|' !in b && a + ("|" + rest) == b + ("|" + rest')
    ensures a == b && rest == rest'
  {
    var text := a + ("|" + rest);
    FirstBar(a, rest);
    FirstBar(b, rest');
    assert a == text[..|a|] && b == text[..|b|];
    assert rest == text[|a| + 1..] && rest' == text[|b| + 1..];
  }

  lemma FirstBar(a: string, rest: string)
    requires '|' !in a
    ensures var text := a + ("|" + rest); text[|a|] == '|' && forall i | 0 <= i < |a| :: text[i] != '|'
  {
    assert forall i | 0 <= i < |a| :: a[i] in a;
  }

  /** A bar inside a part can put two different entries into one group. */
  lemma BarsCollide(digest: string -> string)
    ensures var a := Entry(Absent, Words("x|y"), Words("z"), Blank, Blank, "");
      var b := Entry(Absent, Words("x"), Words("y|z"), Blank, Blank, "");
      a != b && Fingerprint(a, digest).Some? && Fingerprint(a, digest) == Fingerprint(b, digest)
  {
    var a := Entry(Absent, Words("x|y"), Words("z"), Blank, Blank, "");
    var b := Entry(Absent, Words("x"), Words("y|z"), Blank, Blank, "");
    assert "x|y" + "|" + "z" + "|" + "" + "|" + "" == "x" + "|" + "y|z" + "|" + "" + "|" + "";
  }

  predicate Nameless(entries: seq<Entry>, fp: Entry -> Option<string>) {
    exists i | 0 <= i < |entries| :: fp(entries[i]).None?
  }

  /** A numeric level, or a message with a lone surrogate, makes the whole grouping
      fail although no group is mixed. */
  lemma NamelessEntriesFail(digest: string -> string)
    ensures var fp := (e: Entry) => Fingerprint(e, digest);
      var numeric := [Entry(Text("2024"), NotText, Blank, Blank, Blank, "")];
      var broken := [Entry(Text("2024"), Blank, Blank, Blank, Surrogate, "")];
      && Nameless(numeric, fp) && (forall k :: !Mixed(Members(numeric, fp, k)))
      && Nameless(broken, fp) && (forall k :: !Mixed(Members(broken, fp, k)))
  {
    var fp := (e: Entry) => Fingerprint(e, digest);
    var numeric := [Entry(Text("2024"), NotText, Blank, Blank, Blank, "")];
    var broken := [Entry(Text("2024"), Blank, Blank, Blank, Surrogate, "")];
    assert fp(numeric[0]).None? && fp(broken[0]).None?;
    forall k ensures Members(numeric, fp, k) == [] && Members(broken, fp, k) == [] {
      assert numeric[..0] == [] && broken[..0] == [];
    }
  }

  // ---- The code's own form ------------------------------------------------

  /** The fold of api_errors_groups.  `order` is the dict's insertion order. */
  method GroupErrors(entries: seq<Entry>, fp: Entry -> Option<string>)
    returns (groups: Option<map<string, Group>>, order: seq<string>)
    ensures groups.None? <==> Nameless(entries, fp) || exists k :: Mixed(Members(entries, fp, k))
    ensures groups.Some? ==>
      && Grouped(groups.value, entries, fp)
      && Distinct(order) && (forall k :: k in order <==> k in groups.value)
      && SumCounts(order, entries, fp) == |entries|
  {
    hide Members, Fold, Grouped, Mixed, Absorb;
    var acc: map<string, Group> := map[];
    order := [];
    assert Grouped(acc, [], fp) by { NothingGrouped(fp); }
    var i := 0;
    assert entries[..0] == [];
    while i < |entries|
      invariant i <= |entries|
      invariant Grouped(acc, entries[..i], fp)
      invariant Distinct(order) && forall k :: k in order <==> k in acc
      invariant forall j | 0 <= j < i :: fp(entries[j]).Some? && fp(entries[j]).value in order
    {
      var e := entries[i];
      if fp(e).None? {
        return None, order;
      }
      var key := fp(e).value;
      assert entries[..i + 1] == entries[..i] + [e];
      if key !in acc {
        GroupedStep(acc, entries[..i], e, fp);
        acc := acc[key := Open(e)];
        order := order + [key];
      } else if Clash(acc[key], e) {
        ClashIsMixed(acc, entries, i, fp);
        assert Mixed(Members(entries, fp, key));
        return None, order;
      } else {
        GroupedStep(acc, entries[..i], e, fp);
        acc := acc[key := Absorb(acc[key], e)];
      }
      i := i + 1;
    }
    assert entries[..i] == entries;
    CountsConserved(order, entries, fp);
    GroupedNotMixed(acc, entries, fp);
    groups := Some(acc);
  }

  lemma NothingGrouped(fp: Entry -> Option<string>)
    ensures Grouped(map[], [], fp)
  {}
}
