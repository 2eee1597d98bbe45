/** Sliding-window admission, shared by the order processor and the per-token quota.

    Both keep a short list of stamps, drop the ones that fell out of the window
    from the front, and admit while fewer than `limit` remain.  The
    specification has no such list: it counts stamps in the full history. */
module SlidingWindow {

  predicate Sorted(s: seq<int>) {
    forall i, j | 0 <= i <= j < |s| :: s[i] <= s[j]
  }

  /** How many stamps lie in the closed interval [lo, hi]. */
  function CountIn(s: seq<int>, lo: int, hi: int): (n: nat)
    ensures n <= |s|
  {
    if s == [] then 0
    else
      var last := |s| - 1;
      CountIn(s[..last], lo, hi) + if lo <= s[last] <= hi then 1 else 0
  }

  lemma CountAppend(s: seq<int>, stamp: int, lo: int, hi: int)
    ensures CountIn(s + [stamp], lo, hi) == CountIn(s, lo, hi) + if lo <= stamp <= hi then 1 else 0
  {
    assert (s + [stamp])[..|s|] == s;
  }

  /** Any two stamps `limit` or more positions apart are more than `window` apart. */
  predicate Spaced(s: seq<int>, limit: nat, window: int) {
    forall i, j | 0 <= i <= j - limit < |s| - limit :: s[j] - s[i] > window
  }

  predicate Admits(history: seq<int>, now: int, limit: int, window: int) {
    CountIn(history, now - window, now) < limit
  }

  /** `recent` is `history` without a prefix of stamps older than `cutoff`. */
  predicate Covers(recent: seq<int>, history: seq<int>, cutoff: int) {
    && |recent| <= |history|
    && recent == history[|history| - |recent|..]
    && forall i | 0 <= i < |history| - |recent| :: history[i] < cutoff
  }

  /** Nothing before position k counts when it lies below the interval. */
  lemma {:induction false} CountSkipsOld(s: seq<int>, k: nat, lo: int, hi: int)
    requires k <= |s|
    requires forall i | 0 <= i < k :: s[i] < lo
    ensures CountIn(s, lo, hi) <= |s| - k
  {
    if |s| > k {
      CountSkipsOld(s[..|s| - 1], k, lo, hi);
    } else if k > 0 {
      CountSkipsOld(s[..|s| - 1], k - 1, lo, hi);
    }
  }

  /** Everything from position k on counts when it lies inside the interval. */
  lemma {:induction false} CountTakesRecent(s: seq<int>, k: nat, lo: int, hi: int)
    requires k <= |s|
    requires forall i | k <= i < |s| :: lo <= s[i] <= hi
    ensures CountIn(s, lo, hi) >= |s| - k
  {
    if |s| > k {
      CountTakesRecent(s[..|s| - 1], k, lo, hi);
    }
  }

  /** At most what lies between two positions counts when all the rest lies outside
      the interval. */
  lemma {:induction false} CountAtMost(s: seq<int>, k: nat, m: nat, lo: int, hi: int)
    requires k <= m <= |s|
    requires forall i | 0 <= i < k :: s[i] < lo
    requires forall i | m <= i < |s| :: s[i] > hi
    ensures CountIn(s, lo, hi) <= m - k
  {
    if |s| > m {
      CountAtMost(s[..|s| - 1], k, m, lo, hi);
    } else {
      CountSkipsOld(s, k, lo, hi);
    }
  }

  /** And at least that much when all of it lies inside. */
  lemma {:induction false} CountAtLeast(s: seq<int>, k: nat, m: nat, lo: int, hi: int)
    requires k <= m <= |s|
    requires forall i | k <= i < m :: lo <= s[i] <= hi
    ensures CountIn(s, lo, hi) >= m - k
  {
    if |s| > m {
      CountAtLeast(s[..|s| - 1], k, m, lo, hi);
    } else {
      CountTakesRecent(s, k, lo, hi);
    }
  }

  /** A pruned list has exactly the length the full history counts. */
  lemma PrunedLengthIsCount(recent: seq<int>, history: seq<int>, now: int, window: int)
    requires Sorted(history) && Covers(recent, history, now - window)
    requires recent != [] ==> recent[0] >= now - window
    requires forall i | 0 <= i < |history| :: history[i] <= now
    ensures CountIn(history, now - window, now) == |recent|
  {
    var k := |history| - |recent|;
    forall i | k <= i < |history| ensures now - window <= history[i] {
      assert history[k] <= history[i];
      assert recent[0] == history[k];
    }
    CountSkipsOld(history, k, now - window, now);
    CountTakesRecent(history, k, now - window, now);
  }

  /** Admission keeps the history spaced out. */
  lemma AdmissionKeepsSpacing(history: seq<int>, now: int, limit: nat, window: int)
    requires Sorted(history) && Spaced(history, limit, window)
    requires forall i | 0 <= i < |history| :: history[i] <= now
    requires Admits(history, now, limit, window)
    ensures Sorted(history + [now]) && Spaced(history + [now], limit, window)
  {
    var h' := history + [now];
    forall i, j | 0 <= i <= j - limit < |h'| - limit ensures h'[j] - h'[i] > window {
      if j == |history| && now - h'[i] <= window {
        CountTakesRecent(history, i, now - window, now);
        assert false;
      }
    }
  }

  /** The window bound: every closed interval of length `window`, wherever it
      starts, holds at most `limit` stamps of a spaced history. */
  lemma {:induction false} WindowBound(history: seq<int>, limit: nat, window: nat, start: int)
    requires Sorted(history) && Spaced(history, limit, window)
    ensures CountIn(history, start, start + window) <= limit
  {
    if history != [] {
      var last := |history| - 1;
      WindowBound(history[..last], limit, window, start);
      if start <= history[last] <= start + window && limit <= last {
        var j := last - limit;
        assert history[last] - history[j] > window;
        forall i | 0 <= i <= j ensures history[i] < start {}
        CountSkipsOld(history, j + 1, start, start + window);
      }
    }
  }

  /** The pop loop both components run before they look at the length. */
  method Prune(stamps: seq<int>, cutoff: int) returns (recent: seq<int>)
    requires Sorted(stamps)
    ensures Covers(recent, stamps, cutoff)
    ensures recent != [] ==> recent[0] >= cutoff
  {
    recent := stamps;
    while recent != [] && recent[0] < cutoff
      invariant Covers(recent, stamps, cutoff)
      decreases |recent|
    {
      recent := recent[1..];
    }
  }

  /** Pruning composes: an already pruned list can be pruned again. */
  lemma CoversCompose(newer: seq<int>, older: seq<int>, history: seq<int>, cutoff: int, cutoff': int)
    requires Covers(older, history, cutoff) && Covers(newer, older, cutoff') && cutoff <= cutoff'
    ensures Covers(newer, history, cutoff')
  {
    var k := |history| - |older|;
    forall i | 0 <= i < |history| - |newer| ensures history[i] < cutoff' {
      if i >= k {
        assert history[i] == older[i - k];
      }
    }
  }

  lemma CoversLater(recent: seq<int>, history: seq<int>, cutoff: int, cutoff': int)
    requires Covers(recent, history, cutoff) && cutoff <= cutoff'
    ensures Covers(recent, history, cutoff')
  {}

  lemma CoversAppend(recent: seq<int>, history: seq<int>, cutoff: int, now: int)
    requires Covers(recent, history, cutoff)
    ensures Covers(recent + [now], history + [now], cutoff)
  {
    var k := |history| - |recent|;
    assert (history + [now])[k..] == history[k..] + [now];
  }
}
