/** The tools/call path of blueprints/mcp_http.py: a sliding-window quota per
    (token, scope), the dispatcher in which that quota is the last refusal, and
    the audit entry each tool run leaves. */
module ToolDispatch {
  import opened Wrappers
  import opened SlidingWindow

  /** A parsed "N per unit" setting; N may be zero or negative. */
  datatype Limit = Limit(count: int, window: nat)
  {
    function Capacity(): nat { if count < 0 then 0 else count }
  }

  datatype Limits = Limits(read: Limit, write: Limit)

  /** The scopes a tool can need. */
  predicate KnownScope(scope: string) {
    scope in {"read:market", "read:account", "write:orders"}
  }

  datatype Holder = Holder(jti: string, scope: string)

  /** A call that reached the quota, at the clock reading the quota took. */
  datatype Call = Call(holder: Holder, now: int)

  predicate Contains(s: string, part: string) {
    part <= s || (s != "" && Contains(s[1..], part))
  }

  function LimitFor(limits: Limits, scope: string): Limit {
    if Contains(scope, "write:") then limits.write else limits.read
  }

  // ---- The specification: whole histories, no buckets -----------------------

  /** When a holder's calls were admitted. */
  function Admitted(limits: Limits, calls: seq<Call>, h: Holder): seq<int> {
    if calls == [] then []
    else
      var earlier, c := calls[..|calls| - 1], calls[|calls| - 1];
      var times := Admitted(limits, earlier, h);
      var limit := LimitFor(limits, h.scope);
      if c.holder == h && Admits(times, c.now, limit.count, limit.window) then times + [c.now] else times
  }

  /** A call is admitted when fewer than `count` admissions of its holder lie in
      [now - window, now]. */
  predicate Decision(limits: Limits, earlier: seq<Call>, c: Call) {
    var limit := LimitFor(limits, c.holder.scope);
    Admits(Admitted(limits, earlier, c.holder), c.now, limit.count, limit.window)
  }

  function Granted(limits: Limits, calls: seq<Call>): seq<Call> {
    if calls == [] then []
    else
      var earlier, c := calls[..|calls| - 1], calls[|calls| - 1];
      if Decision(limits, earlier, c) then Granted(limits, earlier) + [c] else Granted(limits, earlier)
  }

  predicate Chronological(calls: seq<Call>) {
    forall i, j | 0 <= i <= j < |calls| :: calls[i].now <= calls[j].now
  }

  /** The calls of one holder. */
  function Project(calls: seq<Call>, h: Holder): seq<Call> {
    if calls == [] then []
    else
      var earlier, c := calls[..|calls| - 1], calls[|calls| - 1];
      if c.holder == h then Project(earlier, h) + [c] else Project(earlier, h)
  }

  function Times(calls: seq<Call>): seq<int> {
    if calls == [] then [] else Times(calls[..|calls| - 1]) + [calls[|calls| - 1].now]
  }

  lemma AdmittedSnoc(limits: Limits, calls: seq<Call>, c: Call, h: Holder)
    ensures Admitted(limits, calls + [c], h)
         == if c.holder == h && Decision(limits, calls, c)
            then Admitted(limits, calls, h) + [c.now] else Admitted(limits, calls, h)
  {
    assert (calls + [c])[..|calls|] == calls;
  }

  lemma {:induction false} AdmittedIsSpaced(limits: Limits, calls: seq<Call>, h: Holder)
    requires Chronological(calls)
    ensures var times, limit := Admitted(limits, calls, h), LimitFor(limits, h.scope);
      && Sorted(times) && Spaced(times, limit.Capacity(), limit.window)
      && forall i | 0 <= i < |times| :: calls != [] && times[i] <= calls[|calls| - 1].now
  {
    if calls != [] {
      var earlier, c := calls[..|calls| - 1], calls[|calls| - 1];
      AdmittedIsSpaced(limits, earlier, h);
      var times, limit := Admitted(limits, earlier, h), LimitFor(limits, h.scope);
      assert earlier != [] ==> calls[|earlier| - 1].now <= c.now;
      if c.holder == h && Admits(times, c.now, limit.count, limit.window) {
        AdmissionKeepsSpacing(times, c.now, limit.Capacity(), limit.window);
      }
    }
  }

  /** Every closed interval as long as the window holds at most `count`
      admissions of a holder, over any run with a nondecreasing clock. */
  lemma QuotaBound(limits: Limits, calls: seq<Call>, h: Holder, from: int)
    requires Chronological(calls)
    ensures var limit := LimitFor(limits, h.scope);
      CountIn(Admitted(limits, calls, h), from, from + limit.window) <= limit.Capacity()
  {
    hide Admitted, LimitFor, CountIn;
    AdmittedIsSpaced(limits, calls, h);
    var limit := LimitFor(limits, h.scope);
    WindowBound(Admitted(limits, calls, h), limit.Capacity(), limit.window, from);
  }

  /** Other holders' calls do not influence a holder's admissions. */
  lemma {:induction false} HoldersAreIndependent(limits: Limits, calls: seq<Call>, h: Holder)
    ensures Admitted(limits, calls, h) == Admitted(limits, Project(calls, h), h)
  {
    if calls != [] {
      var earlier, c := calls[..|calls| - 1], calls[|calls| - 1];
      HoldersAreIndependent(limits, earlier, h);
      if c.holder == h {
        AdmittedSnoc(limits, Project(earlier, h), c, h);
      }
    }
  }

  /** Each decision is the one the holder would get alone. */
  lemma DecisionsProject(limits: Limits, calls: seq<Call>, i: nat)
    requires i < |calls|
    ensures Decision(limits, calls[..i], calls[i])
       <==> Decision(limits, Project(calls[..i], calls[i].holder), calls[i])
  {
    HoldersAreIndependent(limits, calls[..i], calls[i].holder);
  }

  lemma TimesSnoc(calls: seq<Call>, c: Call)
    ensures Times(calls + [c]) == Times(calls) + [c.now]
  {
    assert (calls + [c])[..|calls|] == calls;
  }

  lemma {:induction false} ProjectSnoc(calls: seq<Call>, c: Call, h: Holder)
    ensures Project(calls + [c], h) == if c.holder == h then Project(calls, h) + [c] else Project(calls, h)
  {
    assert (calls + [c])[..|calls|] == calls;
  }

  /** The granted calls, holder by holder, are the admissions. */
  lemma {:induction false} GrantedAreAdmitted(limits: Limits, calls: seq<Call>, h: Holder)
    ensures Times(Project(Granted(limits, calls), h)) == Admitted(limits, calls, h)
  {
    if calls != [] {
      var earlier, c := calls[..|calls| - 1], calls[|calls| - 1];
      GrantedAreAdmitted(limits, earlier, h);
      if Decision(limits, earlier, c) {
        ProjectSnoc(Granted(limits, earlier), c, h);
        if c.holder == h {
          TimesSnoc(Project(Granted(limits, earlier), h), c);
        }
      }
    }
  }

  /** So no holder gets more than `count` tool runs into any window. */
  lemma ToolRunBound(limits: Limits, calls: seq<Call>, h: Holder, from: int)
    requires Chronological(calls)
    ensures var limit := LimitFor(limits, h.scope);
      CountIn(Times(Project(Granted(limits, calls), h)), from, from + limit.window) <= limit.Capacity()
  {
    GrantedAreAdmitted(limits, calls, h);
    QuotaBound(limits, calls, h, from);
  }

  /** The substring test, without recursion. */
  lemma {:induction false} ContainsExact(s: string, part: string)
    ensures Contains(s, part) <==> exists i :: Occurs(s, part, i)
  {
    if part <= s {
      assert Occurs(s, part, 0);
    } else if s != "" {
      ContainsExact(s[1..], part);
      if Contains(s[1..], part) {
        var i :| Occurs(s[1..], part, i);
        assert s[1..][i..i + |part|] == s[i + 1..i + 1 + |part|];
        assert Occurs(s, part, i + 1);
      }
      forall i | Occurs(s, part, i) ensures Occurs(s[1..], part, i - 1) {
        assert s[0..|part|] == s[..|part|];
        assert s[1..][i - 1..i - 1 + |part|] == s[i..i + |part|];
      }
    } else {
      forall i ensures !Occurs(s, part, i) {}
    }
  }

  predicate Occurs(s: string, part: string, i: int) {
    0 <= i && i + |part| <= |s| && s[i..i + |part|] == part
  }

  /** Which of the two settings holds for each scope of the catalogue. */
  lemma ScopeLimits(limits: Limits)
    ensures LimitFor(limits, "write:orders") == limits.write
    ensures LimitFor(limits, "read:market") == limits.read && LimitFor(limits, "read:account") == limits.read
  {
    hide Contains;
    WriteScope();
    NoWrite("read:market");
    NoWrite("read:account");
  }

  lemma WriteScope()
    ensures Contains("write:orders", "write:")
  {
    var scope, part := "write:orders", "write:";
    assert scope[..|part|] == part;
  }

  lemma NoWrite(scope: string)
    requires forall i | 0 <= i < |scope| :: scope[i] != 'w'
    ensures !Contains(scope, "write:")
  {
    hide Contains, Occurs;
    ContainsExact(scope, "write:");
    forall i ensures !Occurs(scope, "write:", i) { NoWriteAt(scope, i); }
  }

  lemma NoWriteAt(scope: string, i: int)
    requires forall k | 0 <= k < |scope| :: scope[k] != 'w'
    ensures !Occurs(scope, "write:", i)
  {
    if 0 <= i && i + 6 <= |scope| {
      assert scope[i..i + 6][0] == scope[i];
    }
  }

  /** No token gets more order calls into any window than the write setting says,
      and no more market or account calls than the read setting says. */
  lemma ScopeBounds(limits: Limits, calls: seq<Call>, jti: string, from: int)
    requires Chronological(calls)
    ensures var runs := Times(Project(Granted(limits, calls), Holder(jti, "write:orders")));
      CountIn(runs, from, from + limits.write.window) <= if limits.write.count < 0 then 0 else limits.write.count
    ensures forall scope | scope in {"read:market", "read:account"} ::
      var runs := Times(Project(Granted(limits, calls), Holder(jti, scope)));
      CountIn(runs, from, from + limits.read.window) <= if limits.read.count < 0 then 0 else limits.read.count
  {
    hide CountIn, Times, Project, Granted, LimitFor;
    ScopeLimits(limits);
    ToolRunBound(limits, calls, Holder(jti, "write:orders"), from);
    ToolRunBound(limits, calls, Holder(jti, "read:market"), from);
    ToolRunBound(limits, calls, Holder(jti, "read:account"), from);
  }

  // ---- Bucket keys --------------------------------------------------------

  function Key(h: Holder): string { h.jti + "|" + h.scope }

  predicate Plain(h: Holder) { '|' !in h.scope }

  /** The joined string names one bucket per holder because no scope contains
      the separator. */
  lemma KeyInjective(a: Holder, b: Holder)
    requires Plain(a) && Plain(b) && Key(a) == Key(b)
    ensures a == b
  {
    var key := Key(a);
    assert key[|a.jti|] == '|' && key[|b.jti|] == '|';
    assert a.jti == key[..|a.jti|] && b.jti == key[..|a.jti|];
    assert a.scope == key[|a.jti| + 1..] && b.scope == key[|a.jti| + 1..];
  }

  /** With such scopes two holders would share a bucket. */
  lemma KeyCollides() returns (a: Holder, b: Holder)
    ensures a != b && Key(a) == Key(b)
  {
    a, b := Holder("t|x", "y"), Holder("t", "x|y");
    assert Key(a) == "t|x|y" == Key(b);
  }

  /** _scope_quota.setdefault(key, []) */
  function Bucket(buckets: map<string, seq<int>>, h: Holder): seq<int> {
    if Key(h) in buckets then buckets[Key(h)] else []
  }

  /** Every bucket is its holder's whole admission history minus stamps that are
      out of the window for good, and never longer than the quota. */
  ghost predicate Refines(limits: Limits, buckets: map<string, seq<int>>, calls: seq<Call>, clock: int) {
    forall h: Holder {:trigger Bucket(buckets, h)} {:trigger Admitted(limits, calls, h)} | KnownScope(h.scope) ::
      && Covers(Bucket(buckets, h), Admitted(limits, calls, h), clock - LimitFor(limits, h.scope).window)
      && |Bucket(buckets, h)| <= LimitFor(limits, h.scope).Capacity()
  }

  lemma ScopesArePlain(h: Holder)
    requires KnownScope(h.scope)
    ensures Plain(h)
  {
    if h.scope == "read:market" {
    } else if h.scope == "read:account" {
    } else {
      assert h.scope == "write:orders";
    }
  }

  /** One quota check touches its own holder's bucket only. */
  lemma QuotaStep(limits: Limits, buckets: map<string, seq<int>>, calls: seq<Call>, clock: int,
                  c: Call, recent: seq<int>)
    requires Refines(limits, buckets, calls, clock) && clock <= c.now && KnownScope(c.holder.scope)
    requires var limit := LimitFor(limits, c.holder.scope);
      && Covers(recent, Admitted(limits, calls + [c], c.holder), c.now - limit.window)
      && |recent| <= limit.Capacity()
    ensures Refines(limits, buckets[Key(c.holder) := recent], calls + [c], c.now)
  {
    hide Covers, Admitted, LimitFor;
    var buckets' := buckets[Key(c.holder) := recent];
    forall h: Holder | KnownScope(h.scope)
      ensures && Covers(Bucket(buckets', h), Admitted(limits, calls + [c], h), c.now - LimitFor(limits, h.scope).window)
              && |Bucket(buckets', h)| <= LimitFor(limits, h.scope).Capacity()
    {
      if h != c.holder {
        ScopesArePlain(h);
        ScopesArePlain(c.holder);
        if Key(h) == Key(c.holder) { KeyInjective(h, c.holder); }
        AdmittedSnoc(limits, calls, c, h);
        assert Bucket(buckets', h) == Bucket(buckets, h);
        var window := LimitFor(limits, h.scope).window;
        CoversLater(Bucket(buckets, h), Admitted(limits, calls, h), clock - window, c.now - window);
      }
    }
  }

  lemma BucketLength(limits: Limits, buckets: map<string, seq<int>>, calls: seq<Call>, clock: int,
                     c: Call, recent: seq<int>)
    requires Chronological(calls) && (calls != [] ==> calls[|calls| - 1].now <= c.now)
    requires Refines(limits, buckets, calls, clock) && clock <= c.now && KnownScope(c.holder.scope)
    requires var cutoff := c.now - LimitFor(limits, c.holder.scope).window;
      Covers(recent, Bucket(buckets, c.holder), cutoff) && (recent != [] ==> recent[0] >= cutoff)
    ensures var limit := LimitFor(limits, c.holder.scope);
      && Covers(recent, Admitted(limits, calls, c.holder), c.now - limit.window)
      && (Decision(limits, calls, c) <==> |recent| < limit.count)
      && |recent| <= limit.Capacity()
  {
    hide Admitted, LimitFor, CountIn, KnownScope, Sorted, Spaced, Bucket, Key, Covers;
    var limit, history := LimitFor(limits, c.holder.scope), Admitted(limits, calls, c.holder);
    AdmittedIsSpaced(limits, calls, c.holder);
    CoversCompose(recent, Bucket(buckets, c.holder), history, clock - limit.window, c.now - limit.window);
    PrunedLengthIsCount(recent, history, c.now, limit.window);
  }

  /** The pruned bucket decides as the full history does, and stays a refinement. */
  lemma BucketDecides(limits: Limits, buckets: map<string, seq<int>>, calls: seq<Call>, clock: int,
                      c: Call, recent: seq<int>)
    requires Chronological(calls) && (calls != [] ==> calls[|calls| - 1].now <= c.now)
    requires Refines(limits, buckets, calls, clock) && clock <= c.now && KnownScope(c.holder.scope)
    requires var cutoff := c.now - LimitFor(limits, c.holder.scope).window;
      Covers(recent, Bucket(buckets, c.holder), cutoff) && (recent != [] ==> recent[0] >= cutoff)
    ensures Decision(limits, calls, c) <==> |recent| < LimitFor(limits, c.holder.scope).count
    ensures var kept := if Decision(limits, calls, c) then recent + [c.now] else recent;
      Refines(limits, buckets[Key(c.holder) := kept], calls + [c], c.now)
  {
    hide Admitted, LimitFor, Covers, Refines, Decision, Chronological, Bucket, KnownScope, Key;
    BucketLength(limits, buckets, calls, clock, c, recent);
    AdmittedSnoc(limits, calls, c, c.holder);
    var history := Admitted(limits, calls, c.holder);
    CoversAppend(recent, history, c.now - LimitFor(limits, c.holder.scope).window, c.now);
    var kept := if Decision(limits, calls, c) then recent + [c.now] else recent;
    QuotaStep(limits, buckets, calls, clock, c, kept);
  }

  lemma SortedBucket(limits: Limits, buckets: map<string, seq<int>>, calls: seq<Call>, clock: int, h: Holder)
    requires Chronological(calls) && Refines(limits, buckets, calls, clock) && KnownScope(h.scope)
    ensures Sorted(Bucket(buckets, h))
  {
    AdmittedIsSpaced(limits, calls, h);
    assert Covers(Bucket(buckets, h), Admitted(limits, calls, h), clock - LimitFor(limits, h.scope).window);
  }

  /** The decision, spelled out. */
  lemma DecisionCounts(limits: Limits, earlier: seq<Call>, c: Call)
    ensures var limit, admitted := LimitFor(limits, c.holder.scope), Admitted(limits, earlier, c.holder);
      Decision(limits, earlier, c) <==> CountIn(admitted, c.now - limit.window, c.now) < limit.count
  {}

  lemma GrantedSnoc(limits: Limits, calls: seq<Call>, c: Call)
    ensures Granted(limits, calls + [c])
         == if Decision(limits, calls, c) then Granted(limits, calls) + [c] else Granted(limits, calls)
  {
    assert (calls + [c])[..|calls|] == calls;
  }

  // ---- The server ---------------------------------------------------------

  datatype ToolName = NotAString | Name(s: string)
  datatype Arguments = NotADict | Dict(payload: string)
  datatype Params = NotAnObject | Object(name: ToolName, arguments: Arguments)

  /** How a tool run ends: a result, a TypeError, or any other exception. */
  datatype Outcome = Succeeded(text: string) | BadArguments | Failed

  datatype Request = Request(
    params: Params, granted: set<string>, clientId: string, jti: Option<string>, lag: nat, outcome: Outcome)

  datatype Response =
    | InvalidParams | UnknownTool | InsufficientScope | NotImplemented | RateLimited
    | ToolError | Content(text: string)

  datatype Invocation = Invocation(call: Call, tool: string, payload: string, clientId: string, outcome: Outcome)

  datatype AuditEntry = AuditEntry(
    jti: string, clientId: string, tool: string, scope: string, payload: string, outcome: Outcome)

  function EntryFor(i: Invocation): AuditEntry {
    AuditEntry(i.call.holder.jti, i.clientId, i.tool, i.call.holder.scope, i.payload, i.outcome)
  }

  class Server {
    const limits: Limits
    const toolScopes: map<string, string>
    const implemented: set<string>
    var buckets: map<string, seq<int>>
    var invocations: seq<Invocation>
    var audit: seq<AuditEntry>
    ghost var calls: seq<Call>
    var clock: int

    constructor (limits: Limits, toolScopes: map<string, string>, implemented: set<string>)
      requires (forall t | t in toolScopes :: KnownScope(toolScopes[t]))
      ensures Valid() && calls == [] && invocations == [] && audit == []
      ensures this.limits == limits && this.toolScopes == toolScopes && this.implemented == implemented
    {
      this.limits, this.toolScopes, this.implemented := limits, toolScopes, implemented;
      buckets, invocations, audit := map[], [], [];
      calls, clock := [], 0;
    }

    /** One tool run per granted call and one audit entry per run, in order. */
    ghost predicate Audited()
      reads this
    {
      && |invocations| == |Granted(limits, calls)| == |audit|
      && (forall i | 0 <= i < |invocations| :: invocations[i].call == Granted(limits, calls)[i])
      && (forall i | 0 <= i < |audit| :: audit[i] == EntryFor(invocations[i]))
    }

    ghost predicate Valid()
      reads this
    {
      && (forall t | t in toolScopes :: KnownScope(toolScopes[t]))
      && Chronological(calls) && (calls != [] ==> calls[|calls| - 1].now <= clock)
      && Refines(limits, buckets, calls, clock)
      && Audited()
    }

    /** _within_scope_quota, for a token that has a jti. */
    method WithinScopeQuota(jti: string, scope: string, now: int) returns (ok: bool)
      requires Chronological(calls) && (calls != [] ==> calls[|calls| - 1].now <= clock) && Refines(limits, buckets, calls, clock)
      requires KnownScope(scope) && now >= clock
      modifies this`buckets, this`calls, this`clock
      ensures calls == old(calls) + [Call(Holder(jti, scope), now)] && clock == now
      ensures Chronological(calls) && Refines(limits, buckets, calls, clock)
      ensures ok <==> Decision(limits, old(calls), Call(Holder(jti, scope), now))
      ensures var limit, earlier := LimitFor(limits, scope), Admitted(limits, old(calls), Holder(jti, scope));
        ok <==> CountIn(earlier, now - limit.window, now) < limit.count
    {
      hide Admitted, Covers, LimitFor, Decision, Refines, KnownScope, Sorted, Key, Bucket;
      var c := Call(Holder(jti, scope), now);
      var limit := LimitFor(limits, scope);
      var bucket := Bucket(buckets, c.holder);
      SortedBucket(limits, buckets, calls, clock, c.holder);
      DecisionCounts(limits, calls, c);
      bucket := Prune(bucket, now - limit.window);
      BucketDecides(limits, buckets, calls, clock, c, bucket);
      ok := |bucket| < limit.count;
      if ok {
        bucket := bucket + [now];
      }
      buckets := buckets[Key(c.holder) := bucket];
      calls := calls + [c];
      clock := now;
    }

    /** _dispatch_tool_call.  The checks come in the order of the code; a call is
        run and audited exactly when it passes them all and the quota grants it. */
    method Dispatch(r: Request) returns (response: Response)
      requires Valid()
      modifies this`buckets, this`calls, this`clock, this`invocations, this`audit
      ensures Valid()
      ensures Refusal(r).Some? ==>
        && response == Refusal(r).value
        && calls == old(calls) && buckets == old(buckets) && clock == old(clock)
      ensures Refusal(r).None? ==>
        && calls == old(calls) + [CallFor(r, old(clock))]
        && clock == old(clock) + r.lag
      ensures var runs := Refusal(r).None? && Decision(limits, old(calls), CallFor(r, old(clock)));
        if runs then
          && audit == old(audit) + [EntryFor(RunOf(r, old(clock)))]
          && invocations == old(invocations) + [RunOf(r, old(clock))]
          && response == (match r.outcome case Succeeded(text) => Content(text) case _ => ToolError)
        else
          && audit == old(audit) && invocations == old(invocations)
          && (Refusal(r).None? ==> response == RateLimited)
      ensures var named := r.params.Object? && r.params.name.Name? && r.params.name.s != "" && r.params.arguments.Dict?;
        && (response == InvalidParams <==> !named)
        && (response == UnknownTool <==> named && r.params.name.s !in toolScopes)
        && (response == InsufficientScope <==>
              named && r.params.name.s in toolScopes && toolScopes[r.params.name.s] !in r.granted)
        && (response == NotImplemented <==>
              && named && r.params.name.s in toolScopes && toolScopes[r.params.name.s] in r.granted
              && r.params.name.s !in implemented)
        && (response in {InvalidParams, UnknownTool, InsufficientScope, NotImplemented, RateLimited}
            || (r.jti.Some? && r.jti.value != ""))
      ensures invocations != old(invocations) ==>
        && r.params.Object? && r.params.name.Name? && r.params.name.s != "" && r.params.arguments.Dict?
        && r.params.name.s in toolScopes && toolScopes[r.params.name.s] in r.granted && r.params.name.s in implemented
        && r.jti.Some? && r.jti.value != ""
        && |invocations| == |old(invocations)| + 1 && |audit| == |old(audit)| + 1
        && var run, entry := invocations[|old(invocations)|], audit[|old(audit)|];
           && run.tool == entry.tool == r.params.name.s && run.payload == entry.payload == r.params.arguments.payload
           && run.call.holder.jti == entry.jti == r.jti.value && run.clientId == entry.clientId == r.clientId
           && run.call.holder.scope == entry.scope == toolScopes[r.params.name.s]
           && run.call.now == clock && run.outcome == entry.outcome == r.outcome
    {
      hide Granted, Decision, Refines, Chronological, KnownScope;
      if r.params.NotAnObject? {
        return InvalidParams;
      }
      var name, arguments := r.params.name, r.params.arguments;
      if name.NotAString? || name.s == "" || arguments.NotADict? {
        return InvalidParams;
      }
      var tool := name.s;
      if tool !in toolScopes {
        return UnknownTool;
      }
      var needed := toolScopes[tool];
      if needed !in r.granted {
        return InsufficientScope;
      }
      if tool !in implemented {
        return NotImplemented;
      }
      if r.jti.None? || r.jti.value == "" {
        return RateLimited;
      }
      var now := clock + r.lag;
      var ok := WithinScopeQuota(r.jti.value, needed, now);
      GrantedSnoc(limits, old(calls), CallFor(r, old(clock)));
      if !ok {
        return RateLimited;
      }
      var run := Invocation(Call(Holder(r.jti.value, needed), now), tool, arguments.payload, r.clientId, r.outcome);
      invocations := invocations + [run];
      audit := audit + [EntryFor(run)];
      response := match r.outcome case Succeeded(text) => Content(text) case _ => ToolError;
    }

    /** What a request is refused with before the quota is consulted. */
    ghost function Refusal(r: Request): Option<Response> {
      match r.params
      case NotAnObject => Some(InvalidParams)
      case Object(NotAString, _) => Some(InvalidParams)
      case Object(Name(tool), arguments) =>
        if tool == "" || arguments.NotADict? then Some(InvalidParams)
        else if tool !in toolScopes then Some(UnknownTool)
        else if toolScopes[tool] !in r.granted then Some(InsufficientScope)
        else if tool !in implemented then Some(NotImplemented)
        else if r.jti.None? || r.jti.value == "" then Some(RateLimited)
        else None
    }

    ghost function CallFor(r: Request, clock: int): Call
      requires Refusal(r).None?
    {
      Call(Holder(r.jti.value, toolScopes[r.params.name.s]), clock + r.lag)
    }

    ghost function RunOf(r: Request, clock: int): Invocation
      requires Refusal(r).None?
    {
      Invocation(CallFor(r, clock), r.params.name.s, r.params.arguments.payload, r.clientId, r.outcome)
    }

    lemma RunsAudited()
      requires Valid()
      ensures |invocations| == |Granted(limits, calls)| == |audit|
      ensures forall i | 0 <= i < |invocations| ::
        invocations[i].call == Granted(limits, calls)[i] && audit[i] == EntryFor(invocations[i])
    {}

    /** The calls of a run that reach the quota, each at its clock reading. */
    ghost function CallsOf(requests: seq<Request>, clock: int): seq<Call> {
      if requests == [] then []
      else
        var r := requests[0];
        if Refusal(r).Some? then CallsOf(requests[1..], clock)
        else [CallFor(r, clock)] + CallsOf(requests[1..], clock + r.lag)
    }

    /** Any sequence of requests: the tool runs are exactly those the quota grants
        on the full history of the calls that reached it, and each has its audit
        entry. */
    method Serve(requests: seq<Request>)
      requires Valid()
      modifies this`buckets, this`calls, this`clock, this`invocations, this`audit
      ensures Valid() && calls == old(calls) + CallsOf(requests, old(clock))
      ensures old(invocations) <= invocations && old(audit) <= audit
      ensures |invocations| == |Granted(limits, calls)| == |audit|
      ensures forall i | 0 <= i < |invocations| ::
        invocations[i].call == Granted(limits, calls)[i] && audit[i] == EntryFor(invocations[i])
      ensures forall i | |old(invocations)| <= i < |invocations| :: exists k | 0 <= k < |requests| ::
        && requests[k].params.Object? && requests[k].params.name == Name(invocations[i].tool)
        && requests[k].params.arguments == Dict(invocations[i].payload)
        && requests[k].jti == Some(invocations[i].call.holder.jti)
        && invocations[i].tool in toolScopes && invocations[i].tool in implemented
        && invocations[i].call.holder.scope == toolScopes[invocations[i].tool]
        && invocations[i].call.holder.scope in requests[k].granted
    {
      hide Valid, Granted, Decision, Refines;
      var i := 0;
      assert requests[0..] == requests;
      while i < |requests|
        invariant i <= |requests| && Valid()
        invariant calls + CallsOf(requests[i..], clock) == old(calls) + CallsOf(requests, old(clock))
        invariant old(invocations) <= invocations && old(audit) <= audit
        invariant forall j | |old(invocations)| <= j < |invocations| :: exists k | 0 <= k < i ::
          && requests[k].params.Object? && requests[k].params.name == Name(invocations[j].tool)
          && requests[k].params.arguments == Dict(invocations[j].payload)
          && requests[k].jti == Some(invocations[j].call.holder.jti)
          && invocations[j].tool in toolScopes && invocations[j].tool in implemented
          && invocations[j].call.holder.scope == toolScopes[invocations[j].tool]
          && invocations[j].call.holder.scope in requests[k].granted
      {
        var _ := Dispatch(requests[i]);
        assert requests[i..][1..] == requests[i + 1..];
        i := i + 1;
      }
      RunsAudited();
    }
  }
}
