/** Re-scanning a rewritten text. */
module PinTheorems {
  import opened Values
  import opened PinSites

  /** All the texts the head matches have one length: a literal prefix, for instance. */
  ghost predicate Fixed(s: Site) {
    forall a, b | s.head(a) && s.head(b) :: |a| == |b|
  }

  predicate RunAt(w: string, k: int) {
    0 <= k && k + 40 <= |w| && AllHex(w[k..k + 40])
  }

  ghost predicate HoldsRun(w: string) {
    exists k :: RunAt(w, k)
  }

  ghost predicate Bracketed(w: string) {
    |w| > 0 && !IsHex(w[0]) && !IsHex(w[|w| - 1]) && !HoldsRun(w)
  }

  /** Every text the head matches starts and ends outside the hexadecimal digits and holds no run of forty
      of them: a literal prefix followed by white space, for instance. */
  ghost predicate Anchored(s: Site) {
    NonHexTail(s) && forall w | s.head(w) :: Bracketed(w)
  }

  predicate NonHexTail(s: Site) {
    forall k | 0 <= k < |s.tail| :: !IsHex(s.tail[k])
  }

  /** The patterns for which a scan of the rewritten text is a scan of the text. */
  ghost predicate Steady(s: Site) {
    Anchored(s) || (Fixed(s) && NonHexTail(s))
  }

  /** From `i` on, the two texts differ only inside the spans, where both hold hexadecimal digits. */
  predicate Alike(t: string, r: string, i: nat, spans: seq<nat>) {
    && |r| == |t|
    && forall k: nat | i <= k < |t| :: r[k] == t[k] || (InSpan(spans, k) && IsHex(t[k]) && IsHex(r[k]))
  }

  lemma RunIsHex(w: string, n: nat)
    requires RunAt(w, n)
    ensures forall k | n <= k < n + 40 :: IsHex(w[k])
  {
    forall k | n <= k < n + 40 ensures IsHex(w[k]) {
      assert w[n..n + 40][k - n] == w[k];
    }
  }

  lemma HeadMissesRun(t: string, i: nat, j: nat, c: nat)
    requires i <= j <= |t| && c + 40 <= |t| && Bracketed(t[i..j]) && AllHex(t[c..c + 40])
    ensures c + 40 <= i || j <= c
  {
    var w := t[i..j];
    assert w[0] == t[i] && w[|w| - 1] == t[j - 1];
    RunIsHex(t, c);
    if i <= c && c + 40 <= j {
      var inner, run := w[c - i..c - i + 40], t[c..c + 40];
      forall k | 0 <= k < 40 ensures inner[k] == run[k] {
        assert inner[k] == w[c - i + k] == t[c + k];
      }
      assert inner == run && RunAt(w, c - i);
    }
  }

  // ----- matches in texts that are alike -------------------------------------------------------------

  lemma SplitsCarryOver(s: Site, t: string, r: string, i: nat, j: nat, spans: seq<nat>)
    requires NonHexTail(s) && Alike(t, r, i, spans) && i <= j
    requires j <= |t| ==> t[i..j] == r[i..j]
    ensures Splits(s, t, i, j) <==> Splits(s, r, i, j)
  {
    if j + 40 + |s.tail| <= |t| {
      var tc, rc := t[j..j + 40], r[j..j + 40];
      forall k | 0 <= k < 40 ensures IsHex(tc[k]) <==> IsHex(rc[k]) {
        assert tc[k] == t[j + k] && rc[k] == r[j + k];
      }
      assert AllHex(tc) <==> AllHex(rc);
      var tt, rt := t[j + 40..j + 40 + |s.tail|], r[j + 40..j + 40 + |s.tail|];
      assert tt == s.tail <==> rt == s.tail by {
        forall k | 0 <= k < |s.tail| ensures tt[k] == s.tail[k] <==> rt[k] == s.tail[k] {
          assert tt[k] == t[j + 40 + k] && rt[k] == r[j + 40 + k] && !IsHex(s.tail[k]);
        }
      }
    }
  }

  lemma SameBefore(t: string, r: string, i: nat, j: nat, spans: seq<nat>)
    requires Alike(t, r, i, spans) && i <= j <= |t| && forall c | c in spans :: j <= c
    ensures t[i..j] == r[i..j]
  {
    forall k | 0 <= k < j - i ensures t[i..j][k] == r[i..j][k] {
      assert t[i..j][k] == t[i + k] && r[i..j][k] == r[i + k];
      assert !InSpan(spans, i + k);
    }
  }

  lemma FirstIsLeast(spans: seq<nat>, i: nat, length: nat)
    requires Ordered(spans, i, length) && spans != []
    ensures forall c | c in spans :: spans[0] <= c
  {
  }

  // ----- the scan finds every match ------------------------------------------------------------------

  function End(s: Site, spans: seq<nat>, k: nat, from: nat): nat
    requires k <= |spans|
  {
    if k == 0 then from else spans[k - 1] + 40 + |s.tail|
  }

  ghost predicate NoneStarts(s: Site, t: string, from: nat, before: nat) {
    forall i, j | from <= i < before :: !Splits(s, t, i, j)
  }

  /** The `k`th match starts at the first place after the one before it where the pattern matches at all, and captures
      the first commit it can from there. */
  ghost predicate LeftmostAt(s: Site, t: string, from: nat, starts: seq<nat>, spans: seq<nat>, k: nat)
    requires k < |spans| == |starts|
  {
    && End(s, spans, k, from) <= starts[k] && NoneStarts(s, t, End(s, spans, k, from), starts[k])
    && Splits(s, t, starts[k], spans[k]) && forall j: nat | j < spans[k] :: !Splits(s, t, starts[k], j)
  }

  /** The spans are those of the leftmost matches that do not overlap, all of them. */
  ghost predicate LeftmostMatches(s: Site, t: string, from: nat, starts: seq<nat>, spans: seq<nat>) {
    && |starts| == |spans|
    && (forall k | 0 <= k < |spans| :: LeftmostAt(s, t, from, starts, spans, k))
    && forall i, j | End(s, spans, |spans|, from) <= i :: !Splits(s, t, i, j)
  }

  lemma NoneAtIsNoneFrom(s: Site, t: string, i: nat, before: nat)
    requires MatchAt(s, t, i).None? && i < before && NoneStarts(s, t, i + 1, before)
    ensures NoneStarts(s, t, i, before)
  {
  }

  lemma {:induction false} ScanIsLeftmost(s: Site, t: string, from: nat) returns (starts: seq<nat>)
    ensures LeftmostMatches(s, t, from, starts, Scan(s, t, from))
    decreases |t| - from
  {
    var spans := Scan(s, t, from);
    if from >= |t| {
      starts := [];
    } else {
      match MatchAt(s, t, from)
      case None =>
        starts := ScanIsLeftmost(s, t, from + 1);
        forall k | 0 <= k < |spans| ensures LeftmostAt(s, t, from, starts, spans, k) {
          assert LeftmostAt(s, t, from + 1, starts, spans, k);
          if k == 0 {
            NoneAtIsNoneFrom(s, t, from, starts[0]);
          }
        }
      case Some(c) =>
        var rest := ScanIsLeftmost(s, t, c + 40 + |s.tail|);
        starts := [from] + rest;
        forall k | 0 <= k < |spans| ensures LeftmostAt(s, t, from, starts, spans, k) {
          if k > 0 {
            assert LeftmostAt(s, t, c + 40 + |s.tail|, rest, Scan(s, t, c + 40 + |s.tail|), k - 1);
          }
        }
    }
  }

  lemma {:induction false} LeftmostIsScan(s: Site, t: string, from: nat, starts: seq<nat>, spans: seq<nat>)
    requires LeftmostMatches(s, t, from, starts, spans)
    ensures spans == Scan(s, t, from)
    decreases |t| - from
  {
    if spans != [] {
      assert LeftmostAt(s, t, from, starts, spans, 0);
    }
    if from < |t| {
      match MatchAt(s, t, from)
      case None =>
        var next := from + 1;
        forall k | 0 <= k < |spans| ensures LeftmostAt(s, t, next, starts, spans, k) {
          assert LeftmostAt(s, t, from, starts, spans, k);
        }
        LeftmostIsScan(s, t, next, starts, spans);
      case Some(c) =>
        FirstOfLeftmost(s, t, from, starts, spans, c);
        var next, laterStarts, later := c + 40 + |s.tail|, starts[1..], spans[1..];
        forall k | 0 <= k < |later| ensures LeftmostAt(s, t, next, laterStarts, later, k) {
          assert LeftmostAt(s, t, from, starts, spans, k + 1);
        }
        LeftmostIsScan(s, t, next, laterStarts, later);
    }
  }

  lemma FirstOfLeftmost(s: Site, t: string, from: nat, starts: seq<nat>, spans: seq<nat>, c: nat)
    requires LeftmostMatches(s, t, from, starts, spans) && MatchAt(s, t, from) == Some(c)
    ensures spans != [] && starts[0] == from && spans[0] == c
  {
    assert Splits(s, t, from, c);
    if spans != [] {
      assert LeftmostAt(s, t, from, starts, spans, 0);
    }
  }

  /** A list of positions is the scan of a text exactly when they are the commits of its leftmost matches, each taken
      at the first place after the one before, with none left out and none after the last. */
  lemma ScanExactlyWhen(s: Site, t: string, spans: seq<nat>)
    ensures spans == Spans(s, t) <==> exists starts :: LeftmostMatches(s, t, 0, starts, spans)
  {
    if spans == Spans(s, t) {
      var starts := ScanIsLeftmost(s, t, 0);
    }
    if starts :| LeftmostMatches(s, t, 0, starts, spans) {
      LeftmostIsScan(s, t, 0, starts, spans);
    }
  }

  /** The scan is exhaustive: wherever the pattern matches, a captured match starts there or before and ends after. */
  lemma {:induction false} ScanIsExhaustive(s: Site, t: string, from: nat, i: nat, j: nat) returns (start: nat, c: nat)
    requires from <= i && Splits(s, t, i, j)
    ensures c in Scan(s, t, from) && from <= start <= i && Splits(s, t, start, c) && i < c + 40 + |s.tail|
    decreases |t| - from
  {
    match MatchAt(s, t, from)
    case None => start, c := ScanIsExhaustive(s, t, from + 1, i, j);
    case Some(d) =>
      assert Scan(s, t, from) == [d] + Scan(s, t, d + 40 + |s.tail|);
      if i < d + 40 + |s.tail| {
        start, c := from, d;
      } else {
        start, c := ScanIsExhaustive(s, t, d + 40 + |s.tail|, i, j);
      }
  }

  /** No head starts with a character of the tail. */
  ghost predicate TailStartsNoHead(s: Site) {
    forall w, k | s.head(w) && w != "" && 0 <= k < |s.tail| :: w[0] != s.tail[k]
  }

  lemma HeadMeetsTail(s: Site, t: string, start: nat, c: nat, i: nat, j: nat)
    requires Splits(s, t, start, c) && Splits(s, t, i, j) && c + 40 <= i < c + 40 + |s.tail| && i < j
    ensures !TailStartsNoHead(s)
  {
    var w, tail := t[i..j], t[c + 40..c + 40 + |s.tail|];
    assert s.head(w) && w[0] == t[i] == tail[i - c - 40] == s.tail[i - c - 40];
  }

  /** Where the tail cannot start a head, a match captures a span wherever it starts: no match is left out. */
  lemma EveryMatchIsCaptured(s: Site, t: string, i: nat, j: nat)
    requires Anchored(s) && TailStartsNoHead(s) && Splits(s, t, i, j)
    ensures j in Spans(s, t)
  {
    var start, c := ScanIsExhaustive(s, t, 0, i, j);
    HeadMissesRun(t, start, c, j);
    HeadMissesRun(t, i, j, c);
    if c + 40 <= i {
      HeadMeetsTail(s, t, start, c, i, j);
    }
  }

  /** After rewriting, the new commit is what every match of the pattern captures, wherever it starts. */
  lemma EveryMatchIsRewritten(s: Site, t: string, commit: string, i: nat, j: nat)
    requires Anchored(s) && TailStartsNoHead(s) && IsCommit(commit) && Splits(s, Rewritten(s, t, commit), i, j)
    ensures Rewritten(s, t, commit)[j..j + 40] == commit
  {
    var r := Rewritten(s, t, commit);
    EveryMatchIsCaptured(s, r, i, j);
    RescanFindsTheSameSpans(s, t, commit);
    RewritingChangesOnlySpans(s, t, commit);
  }

  /** The first span is the commit of the first place where the pattern matches at all. */
  lemma {:induction false} FirstMatch(s: Site, t: string, i: nat) returns (start: nat)
    requires Scan(s, t, i) != []
    ensures i <= start <= Scan(s, t, i)[0] && Splits(s, t, start, Scan(s, t, i)[0])
    ensures forall p, q | i <= p < start :: !Splits(s, t, p, q)
    decreases |t| - i
  {
    match MatchAt(s, t, i)
    case Some(c) => start := i;
    case None => start := FirstMatch(s, t, i + 1);
  }

  lemma {:induction false} NoMatch(s: Site, t: string, i: nat)
    requires Scan(s, t, i) == []
    ensures forall p, q | i <= p :: !Splits(s, t, p, q)
    decreases |t| - i
  {
    if i < |t| {
      NoMatch(s, t, i + 1);
    }
  }

  /** In the rewritten text no head reaches past the start of the first span. */
  lemma HeadStopsAtSpan(s: Site, t: string, r: string, i: nat, j: nat, start: nat, c: nat)
    requires Steady(s) && |r| == |t| && i < start && Splits(s, t, start, c) && Splits(s, r, i, j)
    requires AllHex(r[c..c + 40])
    ensures j <= c
  {
    if Fixed(s) {
      assert |t[start..c]| == |r[i..j]|;
    } else {
      HeadMissesRun(r, i, j, c);
    }
  }

  lemma {:induction false} ScanOfAlike(s: Site, t: string, r: string, i: nat)
    requires Steady(s) && Alike(t, r, i, Scan(s, t, i))
    requires |r| == |t| && forall c | c in Scan(s, t, i) :: c + 40 <= |r| && AllHex(r[c..c + 40])
    ensures Scan(s, r, i) == Scan(s, t, i)
    decreases |t| - i
  {
    var spans := Scan(s, t, i);
    ScanIsOrdered(s, t, i);
    if i < |t| {
      match MatchAt(s, t, i)
      case None =>
        if MatchAt(s, r, i).Some? {
          NoMatchAppears(s, t, r, i, MatchAt(s, r, i).value);
        }
        ScanOfAlike(s, t, r, i + 1);
      case Some(c) =>
        var next := c + 40 + |s.tail|;
        var rest := Scan(s, t, next);
        assert spans == [c] + rest;
        FirstIsLeast(spans, i, |t|);
        SameBefore(t, r, i, c, spans);
        SplitsCarryOver(s, t, r, i, c, spans);
        var d := MatchAt(s, r, i).value;
        if d < c {
          SameBefore(t, r, i, d, spans);
          SplitsCarryOver(s, t, r, i, d, spans);
        }
        assert Alike(t, r, next, rest) by {
          RestIsAlike(t, r, i, c, next, rest);
        }
        assert forall d | d in rest :: d in spans;
        ScanOfAlike(s, t, r, next);
    }
  }

  lemma RestIsAlike(t: string, r: string, i: nat, c: nat, next: nat, rest: seq<nat>)
    requires i <= c && c + 40 <= next && Alike(t, r, i, [c] + rest)
    ensures Alike(t, r, next, rest)
  {
    forall k: nat | next <= k < |t| ensures r[k] == t[k] || (InSpan(rest, k) && IsHex(t[k]) && IsHex(r[k])) {
      if r[k] != t[k] {
        var d :| d in [c] + rest && d <= k < d + 40;
        assert d in rest;
      }
    }
  }

  lemma NoMatchAppears(s: Site, t: string, r: string, i: nat, j: nat)
    requires Steady(s) && Alike(t, r, i, Scan(s, t, i)) && i < |t| && MatchAt(s, t, i).None?
    requires forall c | c in Scan(s, t, i) :: c + 40 <= |r| && AllHex(r[c..c + 40])
    ensures !Splits(s, r, i, j)
  {
    var spans := Scan(s, t, i);
    if Splits(s, r, i, j) {
      SpansAreAfter(s, t, r, i, j);
      MatchCarriesBack(s, t, r, i, j, spans);
    }
  }

  lemma MatchCarriesBack(s: Site, t: string, r: string, i: nat, j: nat, spans: seq<nat>)
    requires NonHexTail(s) && Alike(t, r, i, spans) && Splits(s, r, i, j) && forall c | c in spans :: j <= c
    ensures Splits(s, t, i, j)
  {
    SameBefore(t, r, i, j, spans);
    SplitsCarryOver(s, t, r, i, j, spans);
  }

  lemma SpansAreAfter(s: Site, t: string, r: string, i: nat, j: nat)
    requires Steady(s) && |r| == |t| && MatchAt(s, t, i).None? && Splits(s, r, i, j)
    requires forall c | c in Scan(s, t, i) :: c + 40 <= |r| && AllHex(r[c..c + 40])
    ensures forall c | c in Scan(s, t, i) :: j <= c
  {
    var spans := Scan(s, t, i);
    if spans != [] {
      var start := FirstMatch(s, t, i);
      assert spans[0] in spans && Splits(s, t, start, spans[0]) && start != i;
      HeadStopsAtSpan(s, t, r, i, j, start, spans[0]);
      ScanIsOrdered(s, t, i);
      FirstIsLeast(spans, i, |t|);
    }
  }

  // ----- rewriting and scanning again ----------------------------------------------------------------

  lemma RewritingIsAlike(s: Site, t: string, commit: string)
    requires IsCommit(commit)
    ensures Alike(t, Rewritten(s, t, commit), 0, Spans(s, t))
    ensures forall c | c in Spans(s, t) :: c + 40 <= |t| && Rewritten(s, t, commit)[c..c + 40] == commit
  {
    var r, spans := Rewritten(s, t, commit), Spans(s, t);
    RewritingChangesOnlySpans(s, t, commit);
    ScanIsOrdered(s, t, 0);
    forall k: nat | k < |t| && InSpan(spans, k) ensures IsHex(t[k]) && IsHex(r[k]) {
      var c :| c in spans && c <= k < c + 40;
      RunIsHex(t, c);
      RunIsHex(r, c);
    }
  }

  /** A scan of the rewritten text finds the spans it found before, and each holds the new commit, for every
      text with a span exactly when the new commit is forty hexadecimal digits. */
  lemma RescanFindsTheSameSpans(s: Site, t: string, commit: string)
    requires Steady(s)
    ensures IsCommit(commit) ==> Spans(s, Rewritten(s, t, commit)) == Spans(s, t)
    ensures Spans(s, t) != [] ==>
      (IsCommit(commit) <==>
       && Spans(s, Rewritten(s, t, commit)) == Spans(s, t)
       && Commits(s, Rewritten(s, t, commit)) == Repeated(commit, |Spans(s, t)|))
  {
    var r := Rewritten(s, t, commit);
    if IsCommit(commit) {
      RewritingIsAlike(s, t, commit);
      ScanOfAlike(s, t, r, 0);
      forall n | 0 <= n < |Spans(s, t)| ensures Commits(s, r)[n] == commit {
        assert Spans(s, t)[n] in Spans(s, t);
      }
      assert Commits(s, r) == Repeated(commit, |Spans(s, t)|);
    }
    ScanIsOrdered(s, r, 0);
    if Spans(s, t) != [] && Commits(s, r) == Repeated(commit, |Spans(s, t)|) {
      assert Commits(s, r)[0] == commit;
      var c := Spans(s, r)[0];
      assert c in Scan(s, r, 0) && Commits(s, r)[0] == r[c..c + 40];
    }
  }

  /** Only the last of two rewritings counts. */
  lemma RewritingTwice(s: Site, t: string, first: string, last: string)
    requires Steady(s) && IsCommit(first) && IsCommit(last)
    ensures Rewritten(s, Rewritten(s, t, first), last) == Rewritten(s, t, last)
  {
    var r := Rewritten(s, t, first);
    RescanFindsTheSameSpans(s, t, first);
    RewritingChangesOnlySpans(s, t, first);
    RewritingChangesOnlySpans(s, r, last);
    RewritingChangesOnlySpans(s, t, last);
    OverwritingIsUnique(t, Rewritten(s, r, last), Rewritten(s, t, last), Spans(s, t), last);
  }

  /** Rewriting with the commit every span already holds changes nothing. */
  lemma RewritingTheSameCommit(s: Site, t: string, commit: string)
    requires IsCommit(commit) && Commits(s, t) == Repeated(commit, |Spans(s, t)|)
    ensures Rewritten(s, t, commit) == t
  {
    RewritingChangesOnlySpans(s, t, commit);
    ScanIsOrdered(s, t, 0);
    forall c | c in Spans(s, t) ensures t[c..c + 40] == commit {
      var n :| 0 <= n < |Spans(s, t)| && Spans(s, t)[n] == c;
      assert Commits(s, t)[n] == commit;
    }
    OverwritingIsUnique(t, Rewritten(s, t, commit), t, Spans(s, t), commit);
  }

  /** Rewriting back the commit all the spans held restores the text. */
  lemma RewritingBackRestores(s: Site, t: string, original: string, commit: string)
    requires Steady(s) && IsCommit(original) && IsCommit(commit)
    requires Commits(s, t) == Repeated(original, |Spans(s, t)|)
    ensures Rewritten(s, Rewritten(s, t, commit), original) == t
  {
    RewritingTwice(s, t, commit, original);
    RewritingTheSameCommit(s, t, original);
  }

  // ----- two sites in one text -----------------------------------------------------------------------

  /** The texts differ only inside runs of forty hexadecimal digits that both hold at the same places. */
  predicate SameRuns(t: string, r: string, runs: seq<nat>) {
    && Alike(t, r, 0, runs)
    && forall c | c in runs :: c + 40 <= |t| && AllHex(t[c..c + 40]) && AllHex(r[c..c + 40])
  }

  lemma AnchoredHeadIsUntouched(s: Site, t: string, r: string, runs: seq<nat>, i: nat, j: nat)
    requires Anchored(s) && SameRuns(t, r, runs) && Splits(s, t, i, j)
    ensures t[i..j] == r[i..j]
  {
    forall k | 0 <= k < j - i ensures t[i..j][k] == r[i..j][k] {
      assert t[i..j][k] == t[i + k] && r[i..j][k] == r[i + k];
      if t[i + k] != r[i + k] {
        var c :| c in runs && c <= i + k < c + 40;
        HeadMissesRun(t, i, j, c);
        assert false;
      }
    }
  }

  lemma SameRunsIsSymmetric(t: string, r: string, runs: seq<nat>)
    requires SameRuns(t, r, runs)
    ensures SameRuns(r, t, runs)
  {
  }

  lemma SameSplits(s: Site, t: string, r: string, runs: seq<nat>, i: nat, j: nat)
    requires Anchored(s) && SameRuns(t, r, runs)
    ensures Splits(s, t, i, j) <==> Splits(s, r, i, j)
  {
    if Splits(s, t, i, j) {
      AnchoredHeadIsUntouched(s, t, r, runs, i, j);
      SplitsCarryOver(s, t, r, i, j, runs);
    } else if Splits(s, r, i, j) {
      SameRunsIsSymmetric(t, r, runs);
      AnchoredHeadIsUntouched(s, r, t, runs, i, j);
      SplitsCarryOver(s, r, t, i, j, runs);
    }
  }

  lemma SameMatch(s: Site, t: string, r: string, i: nat)
    requires forall j: nat :: Splits(s, t, i, j) <==> Splits(s, r, i, j)
    ensures MatchAt(s, t, i) == MatchAt(s, r, i)
  {
    var m, n := MatchAt(s, t, i), MatchAt(s, r, i);
    if m.Some? && n.Some? {
      assert Splits(s, r, i, m.value) && Splits(s, t, i, n.value);
    }
  }

  lemma {:induction false} SameRunsSameScan(s: Site, t: string, r: string, runs: seq<nat>, i: nat)
    requires Anchored(s) && SameRuns(t, r, runs)
    ensures Scan(s, r, i) == Scan(s, t, i)
    decreases |t| - i
  {
    if i < |t| {
      forall j: nat ensures Splits(s, t, i, j) <==> Splits(s, r, i, j) {
        SameSplits(s, t, r, runs, i, j);
      }
      SameMatch(s, t, r, i);
      match MatchAt(s, t, i)
      case None => SameRunsSameScan(s, t, r, runs, i + 1);
      case Some(c) => SameRunsSameScan(s, t, r, runs, c + 40 + |s.tail|);
    }
  }

  /** Two captured commits are the same characters or have no character in common. */
  lemma SpansCoincideOrAreApart(a: Site, b: Site, t: string, c: nat, d: nat)
    requires Anchored(a) && Anchored(b) && c in Spans(a, t) && d in Spans(b, t)
    ensures c == d || c + 40 <= d || d + 40 <= c
  {
    var i := SpanHasHead(a, t, 0, c);
    var k := SpanHasHead(b, t, 0, d);
    HeadMissesRun(t, i, c, d);
    HeadMissesRun(t, k, d, c);
  }

  lemma {:induction false} SpanHasHead(s: Site, t: string, i: nat, c: nat) returns (start: nat)
    requires c in Scan(s, t, i)
    ensures start <= c && Splits(s, t, start, c)
    decreases |t| - i
  {
    match MatchAt(s, t, i)
    case None => start := SpanHasHead(s, t, i + 1, c);
    case Some(d) =>
      if c == d {
        start := i;
      } else {
        start := SpanHasHead(s, t, d + 40 + |s.tail|, c);
      }
  }

  /** Rewriting one site leaves every other site's spans where they are; what such a span holds changes only
      when the rewritten site captures the very same characters. */
  lemma OtherSitesKeepTheirSpans(a: Site, b: Site, t: string, commit: string)
    requires Anchored(a) && Anchored(b) && IsCommit(commit)
    ensures Spans(b, Rewritten(a, t, commit)) == Spans(b, t)
    ensures |Rewritten(a, t, commit)| == |t| && Ordered(Spans(b, t), 0, |t|)
    ensures forall d | d in Spans(b, t) ::
      Rewritten(a, t, commit)[d..d + 40] == if d in Spans(a, t) then commit else t[d..d + 40]
  {
    var r := Rewritten(a, t, commit);
    RewritingIsAlike(a, t, commit);
    RewritingChangesOnlySpans(a, t, commit);
    ScanIsOrdered(a, t, 0);
    ScanIsOrdered(b, t, 0);
    SameRunsSameScan(b, t, r, Spans(a, t), 0);
    forall d | d in Spans(b, t) && d !in Spans(a, t) ensures r[d..d + 40] == t[d..d + 40] {
      forall k | d <= k < d + 40 ensures r[k] == t[k] {
        if InSpan(Spans(a, t), k) {
          var c :| c in Spans(a, t) && c <= k < c + 40;
          SpansCoincideOrAreApart(a, b, t, c, d);
        }
      }
    }
  }
}
