/** Pin sites: where a dependency's commit appears in a text, and rewriting it there. */
module PinSites {
  import opened Values

  predicate IsHex(c: char) {
    '0' <= c <= '9' || 'a' <= c <= 'f'
  }

  predicate AllHex(s: string) {
    forall k | 0 <= k < |s| :: IsHex(s[k])
  }

  predicate IsCommit(s: string) {
    |s| == 40 && AllHex(s)
  }

  /** Forty characters, each of them one of the sixteen digits. */
  lemma CommitExactlyWhen(s: string)
    ensures IsCommit(s) <==> |s| == 40 && forall k | 0 <= k < 40 :: s[k] in "0123456789abcdef"
  {
    forall c ensures IsHex(c) <==> c in "0123456789abcdef" {
      HexExactlyWhen(c);
    }
  }

  lemma HexExactlyWhen(c: char)
    ensures IsHex(c) <==> c in "0123456789abcdef"
  {
    var digits := "0123456789abcdef";
    if IsHex(c) {
      var k := if c <= '9' then c as int - '0' as int else 10 + (c as int - 'a' as int);
      assert digits[k] == c;
    }
  }

  /** A site's pattern: a head, forty captured hexadecimal digits and a literal tail. `head` says which
      texts the head of the pattern matches. */
  datatype Site = Site(path: string, head: string -> bool, tail: string, occurrences: nat)

  /** The pattern matches at `i` with the captured commit starting at `j`. */
  predicate Splits(s: Site, t: string, i: nat, j: nat) {
    && i <= j && j + 40 + |s.tail| <= |t|
    && s.head(t[i..j]) && AllHex(t[j..j + 40]) && t[j + 40..j + 40 + |s.tail|] == s.tail
  }

  function FindSplit(s: Site, t: string, i: nat, j: nat): (r: Option<nat>)
    requires i <= j
    ensures r.Some? ==> j <= r.value && Splits(s, t, i, r.value) && forall k | j <= k < r.value :: !Splits(s, t, i, k)
    ensures r.None? ==> forall k: nat | j <= k :: !Splits(s, t, i, k)
    decreases |t| - j
  {
    if j + 40 > |t| then None
    else if Splits(s, t, i, j) then Some(j)
    else FindSplit(s, t, i, j + 1)
  }

  function MatchAt(s: Site, t: string, i: nat): (r: Option<nat>)
    ensures r.Some? ==> Splits(s, t, i, r.value) && forall k: nat | k < r.value :: !Splits(s, t, i, k)
    ensures r.None? ==> forall k: nat :: !Splits(s, t, i, k)
  {
    FindSplit(s, t, i, i)
  }

  /** `finditer`: the starts of the captured commits of the leftmost non-overlapping matches from `i`. */
  function Scan(s: Site, t: string, i: nat): (spans: seq<nat>)
    decreases |t| - i
  {
    if i >= |t| then [] else
    match MatchAt(s, t, i)
    case None => Scan(s, t, i + 1)
    case Some(c) => [c] + Scan(s, t, c + 40 + |s.tail|)
  }

  function Spans(s: Site, t: string): seq<nat> {
    Scan(s, t, 0)
  }

  /** `site_commits`: what the spans hold. */
  function Commits(s: Site, t: string): (r: seq<string>)
    ensures |r| == |Spans(s, t)|
  {
    ScanIsOrdered(s, t, 0);
    var spans := Spans(s, t);
    seq(|spans|, n requires 0 <= n < |spans| => t[spans[n]..spans[n] + 40])
  }

  function Repeated<T>(x: T, n: nat): seq<T> {
    seq(n, _ => x)
  }

  predicate InSpan(spans: seq<nat>, k: nat) {
    exists c :: c in spans && c <= k < c + 40
  }

  /** Spans are in order, do not overlap, and lie between `i` and the end of the text. */
  predicate Ordered(spans: seq<nat>, i: nat, length: nat) {
    && (forall a | 0 <= a < |spans| :: i <= spans[a] && spans[a] + 40 <= length)
    && (forall a, b | 0 <= a < b < |spans| :: spans[a] + 40 <= spans[b])
  }

  lemma {:induction false} ScanIsOrdered(s: Site, t: string, i: nat)
    ensures Ordered(Scan(s, t, i), i, |t|)
    ensures forall c | c in Scan(s, t, i) :: IsCommit(t[c..c + 40])
    decreases |t| - i
  {
    if i < |t| {
      match MatchAt(s, t, i)
      case None => ScanIsOrdered(s, t, i + 1);
      case Some(c) => ScanIsOrdered(s, t, c + 40 + |s.tail|);
    }
  }

  // ----- rewriting ------------------------------------------------------------------------------------

  /** The text from `cursor` on, with the captured characters replaced. */
  function Spliced(t: string, cursor: nat, spans: seq<nat>, commit: string): string
    requires cursor <= |t| && Ordered(spans, cursor, |t|)
    decreases |spans|
  {
    if spans == [] then t[cursor..]
    else t[cursor..spans[0]] + commit + Spliced(t, spans[0] + 40, spans[1..], commit)
  }

  function Rewritten(s: Site, t: string, commit: string): string {
    ScanIsOrdered(s, t, 0);
    Spliced(t, 0, Spans(s, t), commit)
  }

  lemma SplicedStep(done: string, t: string, cursor: nat, spans: seq<nat>, n: nat, commit: string)
    requires n < |spans| && cursor <= |t| && Ordered(spans[n..], cursor, |t|)
    ensures cursor <= spans[n] && spans[n] + 40 <= |t| && Ordered(spans[n + 1..], spans[n] + 40, |t|)
    ensures done + Spliced(t, cursor, spans[n..], commit)
      == done + t[cursor..spans[n]] + commit + Spliced(t, spans[n] + 40, spans[n + 1..], commit)
  {
    assert spans[n..][0] == spans[n] && spans[n..][1..] == spans[n + 1..];
    var piece, rest := t[cursor..spans[n]], Spliced(t, spans[n] + 40, spans[n + 1..], commit);
    assert done + (piece + commit + rest) == done + piece + commit + rest;
  }

  /** `rewrite_site`: pieces between the captured spans and the new commit, joined in order. */
  method RewriteSite(t: string, s: Site, commit: string) returns (r: string)
    ensures r == Rewritten(s, t, commit)
  {
    var spans := Spans(s, t);
    ScanIsOrdered(s, t, 0);
    ghost var whole := Spliced(t, 0, spans, commit);
    assert spans[0..] == spans;
    var cursor: nat := 0;
    r := "";
    for n := 0 to |spans|
      invariant cursor <= |t| && n <= |spans| && Ordered(spans[n..], cursor, |t|)
      invariant r + Spliced(t, cursor, spans[n..], commit) == whole
    {
      SplicedStep(r, t, cursor, spans, n, commit);
      r := r + t[cursor..spans[n]] + commit;
      cursor := spans[n] + 40;
    }
    r := r + t[cursor..];
  }

  // ----- what rewriting changes ------------------------------------------------------------------------

  /** `r` holds the commit at every span and is `t` everywhere else. */
  predicate Overwritten(t: string, r: string, spans: seq<nat>, commit: string)
    requires |commit| == 40
  {
    && |r| == |t|
    && (forall c | c in spans :: c + 40 <= |t| && r[c..c + 40] == commit)
    && (forall k: nat | k < |t| && !InSpan(spans, k) :: r[k] == t[k])
  }

  lemma PiecesJoin(t: string, cursor: nat, c: nat, commit: string, tail: string)
    requires cursor <= c <= |t|
    ensures t[..cursor] + (t[cursor..c] + commit + tail) == t[..c] + commit + tail
  {
    assert t[..cursor] + t[cursor..c] == t[..c];
  }

  lemma {:induction false} SplicedOverwrites(t: string, cursor: nat, spans: seq<nat>, commit: string)
    requires cursor <= |t| && Ordered(spans, cursor, |t|) && |commit| == 40
    ensures |Spliced(t, cursor, spans, commit)| == |t| - cursor
    ensures Overwritten(t, t[..cursor] + Spliced(t, cursor, spans, commit), spans, commit)
    decreases |spans|
  {
    if spans != [] {
      var c, rest := spans[0], spans[1..];
      SplicedOverwrites(t, c + 40, rest, commit);
      var tail := Spliced(t, c + 40, rest, commit);
      PiecesJoin(t, cursor, c, commit, tail);
      OverwritesOneMore(t, c, spans, commit, tail);
    }
  }

  lemma OverwritesOneMore(t: string, c: nat, spans: seq<nat>, commit: string, tail: string)
    requires spans != [] && spans[0] == c && Ordered(spans, 0, |t|) && |commit| == 40 && |tail| == |t| - c - 40
    requires Overwritten(t, t[..c + 40] + tail, spans[1..], commit)
    ensures Overwritten(t, t[..c] + commit + tail, spans, commit)
  {
    var r, q, rest := t[..c] + commit + tail, t[..c + 40] + tail, spans[1..];
    assert forall k | c + 40 <= k < |t| :: r[k] == q[k];
    forall d | d in spans ensures r[d..d + 40] == commit {
      if d != c {
        assert d in rest && c + 40 <= d;
        assert q[d..d + 40] == commit;
        assert r[d..d + 40] == q[d..d + 40];
      }
    }
    forall k: nat | k < |t| && !InSpan(spans, k) ensures r[k] == t[k] {
      assert c in spans && (k < c || c + 40 <= k);
      if k >= c + 40 && InSpan(rest, k) {
        InTailInSpans(spans, k);
      }
    }
  }

  lemma InTailInSpans(spans: seq<nat>, k: nat)
    requires spans != [] && InSpan(spans[1..], k)
    ensures InSpan(spans, k)
  {
    var d :| d in spans[1..] && d <= k < d + 40;
    assert d in spans;
  }

  /** Rewriting with a commit of forty characters changes the captured spans and nothing else. */
  lemma RewritingChangesOnlySpans(s: Site, t: string, commit: string)
    requires |commit| == 40
    ensures Overwritten(t, Rewritten(s, t, commit), Spans(s, t), commit)
  {
    ScanIsOrdered(s, t, 0);
    SplicedOverwrites(t, 0, Spans(s, t), commit);
    assert t[..0] + Rewritten(s, t, commit) == Rewritten(s, t, commit);
  }

  lemma OverwritingIsUnique(t: string, a: string, b: string, spans: seq<nat>, commit: string)
    requires |commit| == 40
    requires Overwritten(t, a, spans, commit) && Overwritten(t, b, spans, commit)
    ensures a == b
  {
    forall k: nat | k < |t| ensures a[k] == b[k] {
      if InSpan(spans, k) {
        var c :| c in spans && c <= k < c + 40;
        assert a[k] == a[c..c + 40][k - c] && b[k] == b[c..c + 40][k - c];
      }
    }
  }
}
