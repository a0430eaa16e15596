/** The pins of a lock in a tree of files: checking them and moving one dependency's. */
module PinWorkspace {
  import opened Values
  import opened PinSites
  import opened PinTheorems

  datatype Dependency = Dependency(name: string, commit: string, sites: seq<Site>)

  datatype Failure =
    | Missing(name: string, path: string)
    | WrongCount(name: string, path: string, found: nat, declared: nat)
    | WrongCommit(name: string, path: string, commit: string, locked: string)

  type Files = map<string, string>

  /** The site's file exists and the pattern matches as often as the lock says. */
  predicate Fits(files: Files, s: Site) {
    s.path in files && |Spans(s, files[s.path])| == s.occurrences
  }

  /** The site repeats the commit as often as the lock says, and nothing else. */
  predicate Settled(files: Files, s: Site, commit: string) {
    s.path in files && Commits(s, files[s.path]) == Repeated(commit, s.occurrences)
  }

  // ----- check_sites ---------------------------------------------------------------------------------

  function CommitFailures(d: Dependency, s: Site, found: seq<string>): (r: seq<Failure>)
    ensures r == [] <==> forall n | 0 <= n < |found| :: found[n] == d.commit
  {
    if found == [] then []
    else var last := found[|found| - 1];
      CommitFailures(d, s, found[..|found| - 1])
      + if last != d.commit then [WrongCommit(d.name, s.path, last, d.commit)] else []
  }

  function SiteFailures(d: Dependency, s: Site, files: Files): (r: seq<Failure>)
    ensures r == [] <==> Settled(files, s, d.commit)
  {
    if s.path !in files then [Missing(d.name, s.path)] else
    var found := Commits(s, files[s.path]);
    if |found| != s.occurrences then [WrongCount(d.name, s.path, |found|, s.occurrences)]
    else CommitFailures(d, s, found)
  }

  function Joined<T>(lists: seq<seq<T>>): (r: seq<T>)
    ensures r == [] <==> forall n | 0 <= n < |lists| :: lists[n] == []
  {
    if lists == [] then [] else Joined(lists[..|lists| - 1]) + lists[|lists| - 1]
  }

  lemma JoinedStep<T>(lists: seq<seq<T>>, n: nat)
    requires n < |lists|
    ensures Joined(lists[..n + 1]) == Joined(lists[..n]) + lists[n]
  {
    assert lists[..n + 1][..n] == lists[..n];
  }

  function DependencyFailures(d: Dependency, files: Files): seq<Failure> {
    Joined(seq(|d.sites|, n requires 0 <= n < |d.sites| => SiteFailures(d, d.sites[n], files)))
  }

  function LockFailures(lock: seq<Dependency>, files: Files): seq<Failure> {
    Joined(seq(|lock|, m requires 0 <= m < |lock| => DependencyFailures(lock[m], files)))
  }

  lemma NoSiteFailsExactlyWhen(d: Dependency, files: Files)
    ensures DependencyFailures(d, files) == [] <==> forall n | 0 <= n < |d.sites| :: Settled(files, d.sites[n], d.commit)
  {
    var lists := seq(|d.sites|, n requires 0 <= n < |d.sites| => SiteFailures(d, d.sites[n], files));
    forall n | 0 <= n < |d.sites| ensures lists[n] == [] <==> Settled(files, d.sites[n], d.commit) {
    }
  }

  /** The check reports nothing exactly when every site of every dependency repeats the locked commit. */
  lemma CheckPassesExactlyWhen(lock: seq<Dependency>, files: Files)
    ensures LockFailures(lock, files) == [] <==>
      forall m, n | 0 <= m < |lock| && 0 <= n < |lock[m].sites| :: Settled(files, lock[m].sites[n], lock[m].commit)
  {
    var lists := seq(|lock|, m requires 0 <= m < |lock| => DependencyFailures(lock[m], files));
    forall m | 0 <= m < |lock|
      ensures lists[m] == [] <==> forall n | 0 <= n < |lock[m].sites| :: Settled(files, lock[m].sites[n], lock[m].commit)
    {
      NoSiteFailsExactlyWhen(lock[m], files);
    }
  }

  method CompareCommits(d: Dependency, s: Site, found: seq<string>) returns (failures: seq<Failure>)
    ensures failures == CommitFailures(d, s, found)
  {
    failures := [];
    for k := 0 to |found|
      invariant failures == CommitFailures(d, s, found[..k])
    {
      assert found[..k + 1][..k] == found[..k];
      if found[k] != d.commit {
        failures := failures + [WrongCommit(d.name, s.path, found[k], d.commit)];
      }
    }
    assert found[..|found|] == found;
  }

  method CheckSite(d: Dependency, s: Site, files: Files) returns (failures: seq<Failure>)
    ensures failures == SiteFailures(d, s, files)
  {
    if s.path !in files {
      return [Missing(d.name, s.path)];
    }
    var found := Commits(s, files[s.path]);
    if |found| != s.occurrences {
      return [WrongCount(d.name, s.path, |found|, s.occurrences)];
    }
    failures := CompareCommits(d, s, found);
  }

  method CheckDependency(d: Dependency, files: Files) returns (failures: seq<Failure>)
    ensures failures == DependencyFailures(d, files)
  {
    failures := [];
    ghost var lists := seq(|d.sites|, n requires 0 <= n < |d.sites| => SiteFailures(d, d.sites[n], files));
    for n := 0 to |d.sites|
      invariant failures == Joined(lists[..n])
    {
      JoinedStep(lists, n);
      var found := CheckSite(d, d.sites[n], files);
      failures := failures + found;
    }
    assert lists[..|lists|] == lists;
  }

  method CheckSites(lock: seq<Dependency>, files: Files) returns (failures: seq<Failure>)
    ensures failures == LockFailures(lock, files)
  {
    failures := [];
    ghost var lists := seq(|lock|, m requires 0 <= m < |lock| => DependencyFailures(lock[m], files));
    for m := 0 to |lock|
      invariant failures == Joined(lists[..m])
    {
      JoinedStep(lists, m);
      var found := CheckDependency(lock[m], files);
      assert found == lists[m];
      failures := failures + found;
    }
    assert lists[..|lists|] == lists;
  }

  // ----- moving a pin --------------------------------------------------------------------------------

  function Moved(files: Files, s: Site, commit: string): (r: Files)
    ensures r.Keys == files.Keys
  {
    if s.path in files then files[s.path := Rewritten(s, files[s.path], commit)] else files
  }

  function AllMoved(files: Files, sites: seq<Site>, commit: string): (r: Files)
    ensures r.Keys == files.Keys
  {
    if sites == [] then files else AllMoved(Moved(files, sites[0], commit), sites[1..], commit)
  }

  datatype Bumped = Bumped(files: Files, touched: seq<string>, refused: Option<Failure>)

  function Misfit(d: Dependency, files: Files, s: Site): (r: Option<Failure>)
    ensures r.None? <==> Fits(files, s)
  {
    if s.path !in files then Some(Missing(d.name, s.path))
    else if |Spans(s, files[s.path])| != s.occurrences
      then Some(WrongCount(d.name, s.path, |Spans(s, files[s.path])|, s.occurrences))
    else None
  }

  function Touched(before: Files, after: Files, path: string, touched: seq<string>): seq<string> {
    if path in before && path in after && before[path] == after[path] then touched else touched + [path]
  }

  /** The loop of `_bump` from site `n` on. */
  function BumpFrom(files: Files, touched: seq<string>, d: Dependency, n: nat, commit: string): Bumped
    requires n <= |d.sites|
    decreases |d.sites| - n
  {
    if n == |d.sites| then Bumped(files, touched, None) else
    var s := d.sites[n];
    if Misfit(d, files, s).Some? then Bumped(files, touched, Misfit(d, files, s)) else
    var moved := Moved(files, s, commit);
    BumpFrom(moved, Touched(files, moved, s.path, touched), d, n + 1, commit)
  }

  function Bump(files: Files, d: Dependency, commit: string): Bumped {
    BumpFrom(files, [], d, 0, commit)
  }

  /** The working tree, and the commits the lock file records. */
  class Workspace {
    var files: Files
    var locked: map<string, string>

    constructor (files: Files, locked: map<string, string>)
      ensures this.files == files && this.locked == locked
    {
      this.files, this.locked := files, locked;
    }

    method BumpPin(d: Dependency, commit: string) returns (r: Result<seq<string>, Failure>)
      modifies this
      ensures files == Bump(old(files), d, commit).files
      ensures r == match Bump(old(files), d, commit).refused
        case None => Ok(Bump(old(files), d, commit).touched)
        case Some(failure) => Refused(failure)
      ensures locked == if r.Ok? then old(locked)[d.name := commit] else old(locked)
    {
      var touched := [];
      for n := 0 to |d.sites|
        invariant BumpFrom(files, touched, d, n, commit) == Bump(old(files), d, commit)
        invariant locked == old(locked)
      {
        var s := d.sites[n];
        if s.path !in files {
          return Refused(Missing(d.name, s.path));
        }
        var text := files[s.path];
        var found := Spans(s, text);
        if |found| != s.occurrences {
          return Refused(WrongCount(d.name, s.path, |found|, s.occurrences));
        }
        var updated := RewriteSite(text, s, commit);
        assert Moved(files, s, commit) == files[s.path := updated];
        if updated != text {
          files := files[s.path := updated];
          touched := touched + [s.path];
        } else {
          assert files[s.path := updated] == files;
        }
      }
      locked := locked[d.name := commit];
      r := Ok(touched);
    }
  }

  // ----- what a bump does ----------------------------------------------------------------------------

  ghost predicate AllAnchored(sites: seq<Site>) {
    forall n | 0 <= n < |sites| :: Anchored(sites[n])
  }

  /** One of the sites captures, in the given file, the forty characters at `d`. */
  ghost predicate Covered(files: Files, sites: seq<Site>, path: string, d: nat) {
    path in files && exists n :: 0 <= n < |sites| && sites[n].path == path && d in Spans(sites[n], files[path])
  }

  /** `after` keeps the spans of `b`, with the new commit where one of the sites captures the same characters
      and the old characters elsewhere. */
  ghost predicate MovesOnly(files: Files, after: Files, sites: seq<Site>, b: Site, commit: string) {
    after.Keys == files.Keys
    && (b.path in files ==>
      var t, r := files[b.path], after[b.path];
      && |r| == |t| && Spans(b, r) == Spans(b, t) && Ordered(Spans(b, t), 0, |t|)
      && forall d | d in Spans(b, t) ::
          r[d..d + 40] == if Covered(files, sites, b.path, d) then commit else t[d..d + 40])
  }

  lemma OneMoveMovesOnly(files: Files, a: Site, b: Site, commit: string)
    requires Anchored(a) && Anchored(b) && IsCommit(commit)
    ensures MovesOnly(files, Moved(files, a, commit), [a], b, commit)
  {
    if b.path in files {
      ScanIsOrdered(b, files[b.path], 0);
      if a.path == b.path {
        OtherSitesKeepTheirSpans(a, b, files[b.path], commit);
        forall d | d in Spans(b, files[b.path])
          ensures Covered(files, [a], b.path, d) <==> d in Spans(a, files[b.path])
        {
          assert [a][0] == a;
        }
      }
    }
  }

  lemma CoveredAfterMove(files: Files, a: Site, rest: seq<Site>, path: string, d: nat, commit: string)
    requires Anchored(a) && AllAnchored(rest) && IsCommit(commit)
    ensures Covered(Moved(files, a, commit), rest, path, d) <==> Covered(files, rest, path, d)
  {
    forall n | 0 <= n < |rest| && rest[n].path == path && path in files
      ensures Spans(rest[n], Moved(files, a, commit)[path]) == Spans(rest[n], files[path])
    {
      OneMoveMovesOnly(files, a, rest[n], commit);
    }
  }

  lemma CoveredByFirstOrRest(files: Files, sites: seq<Site>, path: string, d: nat)
    requires sites != []
    ensures Covered(files, sites, path, d) <==> Covered(files, [sites[0]], path, d) || Covered(files, sites[1..], path, d)
  {
    if Covered(files, sites, path, d) {
      var n :| 0 <= n < |sites| && sites[n].path == path && d in Spans(sites[n], files[path]);
      if n > 0 {
        assert sites[1..][n - 1] == sites[n];
      } else {
        assert [sites[0]][0] == sites[0];
      }
    }
    if Covered(files, [sites[0]], path, d) {
      assert d in Spans(sites[0], files[path]);
    }
    if Covered(files, sites[1..], path, d) {
      var n :| 0 <= n < |sites| - 1 && sites[1..][n].path == path && d in Spans(sites[1..][n], files[path]);
      assert sites[n + 1] == sites[1..][n];
    }
  }

  /** Moving any number of anchored sites, whether or not they share files, keeps every anchored site's spans
      and replaces exactly the captured characters. */
  lemma {:induction false} MovingMovesOnly(files: Files, sites: seq<Site>, b: Site, commit: string)
    requires AllAnchored(sites) && Anchored(b) && IsCommit(commit)
    ensures MovesOnly(files, AllMoved(files, sites, commit), sites, b, commit)
    decreases |sites|
  {
    if sites == [] {
      if b.path in files {
        ScanIsOrdered(b, files[b.path], 0);
      }
    } else {
      var a, rest := sites[0], sites[1..];
      var moved := Moved(files, a, commit);
      OneMoveMovesOnly(files, a, b, commit);
      MovingMovesOnly(moved, rest, b, commit);
      if b.path in files {
        forall d | d in Spans(b, files[b.path])
          ensures Covered(files, sites, b.path, d)
            <==> Covered(files, [a], b.path, d) || Covered(moved, rest, b.path, d)
        {
          CoveredAfterMove(files, a, rest, b.path, d, commit);
          CoveredByFirstOrRest(files, sites, b.path, d);
        }
      }
    }
  }

  lemma MovingKeepsFits(files: Files, sites: seq<Site>, b: Site, commit: string)
    requires AllAnchored(sites) && Anchored(b) && IsCommit(commit)
    ensures Fits(AllMoved(files, sites, commit), b) <==> Fits(files, b)
  {
    MovingMovesOnly(files, sites, b, commit);
  }

  lemma {:induction false} AllMovedAppend(files: Files, sites: seq<Site>, s: Site, commit: string)
    ensures AllMoved(files, sites + [s], commit) == Moved(AllMoved(files, sites, commit), s, commit)
    decreases |sites|
  {
    if sites == [] {
      assert sites + [s] == [s];
    } else {
      assert (sites + [s])[1..] == sites[1..] + [s];
      AllMovedAppend(Moved(files, sites[0], commit), sites[1..], s, commit);
    }
  }

  /** How many sites are moved before one does not fit. */
  function FitCount(files: Files, sites: seq<Site>): (n: nat)
    ensures n <= |sites|
    ensures forall k | 0 <= k < n :: Fits(files, sites[k])
    ensures n < |sites| ==> !Fits(files, sites[n])
  {
    if sites == [] || !Fits(files, sites[0]) then 0 else 1 + FitCount(files, sites[1..])
  }

  lemma {:induction false} BumpFromMoves(files: Files, now: Files, touched: seq<string>, d: Dependency, n: nat, commit: string)
    requires n <= |d.sites| && AllAnchored(d.sites) && IsCommit(commit)
    requires now == AllMoved(files, d.sites[..n], commit) && n <= FitCount(files, d.sites)
    ensures var k := FitCount(files, d.sites);
      && BumpFrom(now, touched, d, n, commit).files == AllMoved(files, d.sites[..k], commit)
      && (BumpFrom(now, touched, d, n, commit).refused.None? <==> k == |d.sites|)
    decreases |d.sites| - n
  {
    if n < |d.sites| {
      var s := d.sites[n];
      NextFits(files, d.sites, n, commit);
      if Fits(now, s) {
        var moved := Moved(now, s, commit);
        BumpFromMoves(files, moved, Touched(now, moved, s.path, touched), d, n + 1, commit);
      }
    }
  }

  lemma NextFits(files: Files, sites: seq<Site>, n: nat, commit: string)
    requires AllAnchored(sites) && IsCommit(commit) && n < |sites| && n <= FitCount(files, sites)
    ensures var now := AllMoved(files, sites[..n], commit);
      && (Fits(now, sites[n]) <==> n < FitCount(files, sites))
      && AllMoved(files, sites[..n + 1], commit) == Moved(now, sites[n], commit)
  {
    assert AllAnchored(sites[..n]);
    MovingKeepsFits(files, sites[..n], sites[n], commit);
    FitCountDecides(files, sites, n);
    NextMove(files, sites, n, commit);
  }

  lemma FitCountDecides(files: Files, sites: seq<Site>, n: nat)
    requires n < |sites| && n <= FitCount(files, sites)
    ensures Fits(files, sites[n]) <==> n < FitCount(files, sites)
  {
  }

  lemma NextMove(files: Files, sites: seq<Site>, n: nat, commit: string)
    requires n < |sites|
    ensures AllMoved(files, sites[..n + 1], commit) == Moved(AllMoved(files, sites[..n], commit), sites[n], commit)
  {
    assert sites[..n + 1] == sites[..n] + [sites[n]];
    AllMovedAppend(files, sites[..n], sites[n], commit);
  }

  /** A bump goes through exactly when every site fits the files as they were before the call; otherwise the
      sites before the first that does not fit have been moved, and no other. */
  lemma BumpGoesThroughExactlyWhen(files: Files, d: Dependency, commit: string)
    requires AllAnchored(d.sites) && IsCommit(commit)
    ensures Bump(files, d, commit).refused.None? <==> forall n | 0 <= n < |d.sites| :: Fits(files, d.sites[n])
    ensures Bump(files, d, commit).files == AllMoved(files, d.sites[..FitCount(files, d.sites)], commit)
  {
    assert d.sites[..0] == [];
    BumpFromMoves(files, files, [], d, 0, commit);
  }

  /** After a bump that went through, every site of the dependency repeats the new commit, exactly when the
      new commit is forty hexadecimal digits. */
  lemma BumpSettlesExactlyWhen(files: Files, d: Dependency, commit: string)
    requires AllAnchored(d.sites) && d.sites != [] && forall n | 0 <= n < |d.sites| :: d.sites[n].occurrences >= 1
    requires Bump(files, d, commit).refused.None?
    ensures IsCommit(commit) <==>
      forall n | 0 <= n < |d.sites| :: Settled(Bump(files, d, commit).files, d.sites[n], commit)
  {
    var after := Bump(files, d, commit).files;
    if IsCommit(commit) {
      BumpGoesThroughExactlyWhen(files, d, commit);
      assert d.sites[..|d.sites|] == d.sites;
      forall n | 0 <= n < |d.sites| ensures Settled(after, d.sites[n], commit) {
        MovedSiteIsSettled(files, d.sites, n, commit);
      }
    } else if Settled(after, d.sites[0], commit) {
      SettledCommitIsACommit(after, d.sites[0], commit);
    }
  }

  /** `_resolve` matches its argument with a pattern whose end may be a newline. */
  predicate Resolves(target: string) {
    IsCommit(target) || (|target| == 41 && IsCommit(target[..40]) && target[40] == '\n')
  }

  /** Resolving takes a commit, and a commit with a newline at its end, and nothing else. */
  lemma ResolvesExactlyWhen(target: string)
    ensures Resolves(target) <==> IsCommit(target) || exists c :: IsCommit(c) && target == c + "\n"
  {
    if |target| == 41 {
      assert target == target[..40] + [target[40]];
    }
    forall c | IsCommit(c) && target == c + "\n" ensures target[..40] == c && target[40] == '\n' {
    }
  }

  predicate DistinctPaths(sites: seq<Site>) {
    forall m, n | 0 <= m < n < |sites| :: sites[m].path != sites[n].path
  }

  lemma {:induction false} BumpFromGoesThrough(files: Files, now: Files, touched: seq<string>, d: Dependency, n: nat, commit: string)
    requires n <= |d.sites| && DistinctPaths(d.sites) && now.Keys == files.Keys
    requires forall k | n <= k < |d.sites| && d.sites[k].path in files :: now[d.sites[k].path] == files[d.sites[k].path]
    ensures BumpFrom(now, touched, d, n, commit).refused.None? <==> forall k | n <= k < |d.sites| :: Fits(files, d.sites[k])
    decreases |d.sites| - n
  {
    if n < |d.sites| {
      var s := d.sites[n];
      assert Fits(now, s) <==> Fits(files, s);
      if Fits(now, s) {
        var moved := Moved(now, s, commit);
        BumpFromGoesThrough(files, moved, Touched(now, moved, s.path, touched), d, n + 1, commit);
      }
    }
  }

  /** With one site a file, whatever text is to be written, also one that is no commit, the bump goes through
      exactly when every site fits; and what is no commit is then repeated by no site. */
  lemma AnyTextGoesThroughExactlyWhen(files: Files, d: Dependency, text: string)
    requires DistinctPaths(d.sites) && forall n | 0 <= n < |d.sites| :: d.sites[n].occurrences >= 1
    ensures Bump(files, d, text).refused.None? <==> forall n | 0 <= n < |d.sites| :: Fits(files, d.sites[n])
    ensures !IsCommit(text) ==> forall n | 0 <= n < |d.sites| :: !Settled(Bump(files, d, text).files, d.sites[n], text)
  {
    BumpFromGoesThrough(files, files, [], d, 0, text);
    if n :| 0 <= n < |d.sites| && Settled(Bump(files, d, text).files, d.sites[n], text) {
      SettledCommitIsACommit(Bump(files, d, text).files, d.sites[n], text);
    }
  }

  lemma SettledCommitIsACommit(files: Files, s: Site, commit: string)
    requires Settled(files, s, commit) && s.occurrences >= 1
    ensures IsCommit(commit)
  {
    var t := files[s.path];
    ScanIsOrdered(s, t, 0);
    assert |Spans(s, t)| == |Commits(s, t)|;
    var c := Spans(s, t)[0];
    assert c in Scan(s, t, 0) && Commits(s, t)[0] == commit;
  }

  lemma MovedSiteIsSettled(files: Files, sites: seq<Site>, n: nat, commit: string)
    requires AllAnchored(sites) && IsCommit(commit) && n < |sites| && Fits(files, sites[n])
    ensures Settled(AllMoved(files, sites, commit), sites[n], commit)
  {
    var s, after := sites[n], AllMoved(files, sites, commit);
    MovingMovesOnly(files, sites, s, commit);
    var spans := Spans(s, files[s.path]);
    forall k | 0 <= k < |spans| ensures Commits(s, after[s.path])[k] == commit {
      assert spans[k] in spans && Covered(files, sites, s.path, spans[k]);
    }
  }

  /** After a bump that went through, the new commit stands wherever a pattern of the dependency matches the file, not
      only where the site's scan happened to look. */
  lemma BumpReachesEveryMatch(files: Files, d: Dependency, commit: string, n: nat, i: nat, j: nat)
    requires AllAnchored(d.sites) && IsCommit(commit) && Bump(files, d, commit).refused.None?
    requires n < |d.sites| && TailStartsNoHead(d.sites[n]) && d.sites[n].path in Bump(files, d, commit).files
    requires Splits(d.sites[n], Bump(files, d, commit).files[d.sites[n].path], i, j)
    ensures Bump(files, d, commit).files[d.sites[n].path][j..j + 40] == commit
  {
    var after, b := Bump(files, d, commit).files, d.sites[n];
    BumpGoesThroughExactlyWhen(files, d, commit);
    assert d.sites[..|d.sites|] == d.sites;
    MovedSiteIsSettled(files, d.sites, n, commit);
    EveryMatchIsCaptured(b, after[b.path], i, j);
    var k :| 0 <= k < |Spans(b, after[b.path])| && Spans(b, after[b.path])[k] == j;
    assert Commits(b, after[b.path])[k] == commit;
  }

  /** A site that repeats another commit goes on repeating it, unless a moved site captures the very same
      characters. */
  lemma BumpKeepsOtherPins(files: Files, d: Dependency, commit: string, b: Site, pinned: string)
    requires AllAnchored(d.sites) && Anchored(b) && IsCommit(commit) && Settled(files, b, pinned)
    requires forall c | c in Spans(b, files[b.path]) :: !Covered(files, d.sites, b.path, c)
    ensures Settled(Bump(files, d, commit).files, b, pinned)
  {
    var k := FitCount(files, d.sites);
    var after := AllMoved(files, d.sites[..k], commit);
    BumpGoesThroughExactlyWhen(files, d, commit);
    MovingMovesOnly(files, d.sites[..k], b, commit);
    var spans := Spans(b, files[b.path]);
    forall n | 0 <= n < |spans| ensures Commits(b, after[b.path])[n] == Commits(b, files[b.path])[n] {
      assert spans[n] in spans && !Covered(files, d.sites, b.path, spans[n]);
      if Covered(files, d.sites[..k], b.path, spans[n]) {
        CoveredByMore(files, d.sites, k, b.path, spans[n]);
      }
    }
  }

  ghost predicate OwnCharacters(files: Files, sites: seq<Site>, b: Site) {
    b.path in files ==> forall c | c in Spans(b, files[b.path]) :: !Covered(files, sites, b.path, c)
  }

  /** Every site of another dependency shares no captured character with the sites of dependency `m`, or is
      pinned to the new commit already. */
  ghost predicate Apart(lock: seq<Dependency>, files: Files, m: nat, commit: string)
    requires m < |lock|
  {
    forall k, n | 0 <= k < |lock| && k != m && 0 <= n < |lock[k].sites| ::
      lock[k].commit == commit || OwnCharacters(files, lock[m].sites, lock[k].sites[n])
  }

  /** What a bump that goes through does to a site that repeats a commit. */
  lemma PinSurvivesExactlyWhen(files: Files, d: Dependency, commit: string, b: Site, pinned: string)
    requires AllAnchored(d.sites) && Anchored(b) && IsCommit(commit) && Settled(files, b, pinned)
    requires Bump(files, d, commit).refused.None?
    ensures Settled(Bump(files, d, commit).files, b, pinned) <==> pinned == commit || OwnCharacters(files, d.sites, b)
  {
    BumpGoesThroughExactlyWhen(files, d, commit);
    assert d.sites[..|d.sites|] == d.sites;
    MovingMovesOnly(files, d.sites, b, commit);
    var t, after := files[b.path], Bump(files, d, commit).files;
    var r, spans := after[b.path], Spans(b, t);
    forall n | 0 <= n < |spans|
      ensures Commits(b, t)[n] == pinned
      ensures Commits(b, r)[n] == if Covered(files, d.sites, b.path, spans[n]) then commit else pinned
    {
      assert spans[n] in spans;
      assert Commits(b, t)[n] == pinned;
    }
    if Settled(after, b, pinned) && pinned != commit {
      forall c | c in spans ensures !Covered(files, d.sites, b.path, c) {
        var n :| 0 <= n < |spans| && spans[n] == c;
        assert Commits(b, r)[n] == pinned;
      }
    }
    if pinned == commit || OwnCharacters(files, d.sites, b) {
      assert forall n | 0 <= n < |spans| :: spans[n] in spans && Commits(b, r)[n] == pinned;
    }
  }

  /** From a lock that checks, every bump goes through, and the lock with the new commit checks again exactly when
      the dependency shares no captured character with one that is pinned to another commit. */
  lemma BumpKeepsTheLockChecked(lock: seq<Dependency>, files: Files, m: nat, commit: string)
    requires m < |lock| && IsCommit(commit) && LockFailures(lock, files) == []
    requires forall k | 0 <= k < |lock| :: AllAnchored(lock[k].sites)
    ensures Bump(files, lock[m], commit).refused.None?
    ensures LockFailures(lock[m := lock[m].(commit := commit)], Bump(files, lock[m], commit).files) == []
      <==> Apart(lock, files, m, commit)
  {
    var d := lock[m];
    var after, moved := Bump(files, d, commit).files, lock[m := d.(commit := commit)];
    CheckPassesExactlyWhen(lock, files);
    CheckPassesExactlyWhen(moved, after);
    forall n | 0 <= n < |d.sites| ensures Fits(files, d.sites[n]) {
      assert Settled(files, d.sites[n], d.commit);
    }
    BumpGoesThroughExactlyWhen(files, d, commit);
    assert d.sites[..|d.sites|] == d.sites;
    forall k, n | 0 <= k < |moved| && 0 <= n < |moved[k].sites|
      ensures Settled(after, moved[k].sites[n], moved[k].commit) <==>
        k == m || lock[k].commit == commit || OwnCharacters(files, d.sites, lock[k].sites[n])
    {
      assert Settled(files, lock[k].sites[n], lock[k].commit);
      if k == m {
        MovedSiteIsSettled(files, d.sites, n, commit);
      } else {
        PinSurvivesExactlyWhen(files, d, commit, lock[k].sites[n], lock[k].commit);
      }
    }
  }

  lemma CoveredByMore(files: Files, sites: seq<Site>, k: nat, path: string, c: nat)
    requires k <= |sites| && Covered(files, sites[..k], path, c)
    ensures Covered(files, sites, path, c)
  {
    var m :| 0 <= m < k && sites[..k][m].path == path && c in Spans(sites[..k][m], files[path]);
    assert sites[m] == sites[..k][m];
  }

  lemma {:induction false} SettledSitesStay(files: Files, touched: seq<string>, d: Dependency, n: nat, commit: string)
    requires n <= |d.sites| && IsCommit(commit)
    requires forall k | 0 <= k < |d.sites| :: Settled(files, d.sites[k], commit)
    ensures BumpFrom(files, touched, d, n, commit) == Bumped(files, touched, None)
    decreases |d.sites| - n
  {
    if n < |d.sites| {
      var s := d.sites[n];
      RewritingTheSameCommit(s, files[s.path], commit);
      assert Moved(files, s, commit) == files;
      SettledSitesStay(files, touched, d, n + 1, commit);
    }
  }

  /** Bumping again to the same commit touches no file. */
  lemma BumpIsIdempotent(files: Files, d: Dependency, commit: string)
    requires AllAnchored(d.sites) && IsCommit(commit) && Bump(files, d, commit).refused.None?
    ensures var after := Bump(files, d, commit).files; Bump(after, d, commit) == Bumped(after, [], None)
  {
    BumpGoesThroughExactlyWhen(files, d, commit);
    assert d.sites[..|d.sites|] == d.sites;
    forall n | 0 <= n < |d.sites| ensures Settled(Bump(files, d, commit).files, d.sites[n], commit) {
      MovedSiteIsSettled(files, d.sites, n, commit);
    }
    SettledSitesStay(Bump(files, d, commit).files, [], d, 0, commit);
  }

  // ----- the patterns of the lock --------------------------------------------------------------------

  predicate Spaces(w: string) {
    forall k | 0 <= k < |w| :: IsSpace(w[k])
  }

  /** The literal `p`, at least `least` white-space characters, the literal `q`. */
  predicate SpacedWord(p: string, least: nat, q: string, w: string) {
    && |w| >= |p| + least + |q|
    && w[..|p|] == p && Spaces(w[|p|..|w| - |q|]) && w[|w| - |q|..] == q
  }

  predicate NonHexEnds(p: string) {
    |p| > 0 && !IsHex(p[0]) && !IsHex(p[|p| - 1])
  }

  lemma SpacedWordIsBracketed(p: string, least: nat, q: string, w: string)
    requires NonHexEnds(p) && |q| > 0 && !IsHex(q[|q| - 1]) && !HoldsRun(p) && !HoldsRun(q)
    requires SpacedWord(p, least, q, w)
    ensures Bracketed(w)
  {
    assert w[0] == w[..|p|][0];
    assert w[|w| - 1] == w[|w| - |q|..][|q| - 1];
    forall k: nat ensures !RunAt(w, k) {
      if RunAt(w, k) {
        NoRunInSpacedWord(p, least, q, w, k);
      }
    }
  }

  lemma SliceOfTail(s: string, from: nat, i: nat, j: nat)
    requires from <= i <= j <= |s|
    ensures s[from..][i - from..j - from] == s[i..j]
  {
    var tail := s[from..][i - from..j - from];
    forall k | 0 <= k < j - i ensures tail[k] == s[i..j][k] {
      assert tail[k] == s[from..][i - from + k] == s[i + k];
    }
  }

  lemma NoRunInSpacedWord(p: string, least: nat, q: string, w: string, k: nat)
    requires |p| > 0 && !IsHex(p[|p| - 1]) && SpacedWord(p, least, q, w) && RunAt(w, k)
    ensures RunAt(p, k) || (k >= |w| - |q| && RunAt(q, k - (|w| - |q|)))
  {
    var last: nat, gap := |p| - 1, |w| - |q|;
    assert w[last] == w[..|p|][last];
    RunIsHex(w, k);
    if k <= last {
      assert w[..|p|][k..k + 40] == w[k..k + 40];
    } else if k < gap {
      GapIsSpace(p, least, q, w, k);
    } else {
      SliceOfTail(w, gap, k, k + 40);
    }
  }

  /** From one start, such a head has one end: the pattern captures one commit there or none. */
  lemma SpacedHeadEndsOnce(s: Site, p: string, least: nat, q: string, t: string, i: nat, j: nat, k: nat)
    requires s.head == (w => SpacedWord(p, least, q, w)) && |q| > 0 && !IsSpace(q[0])
    requires Splits(s, t, i, j) && Splits(s, t, i, k)
    ensures j == k
  {
    if j < k {
      ShorterWordStops(p, least, q, t[i..j], t[i..k]);
    } else if k < j {
      ShorterWordStops(p, least, q, t[i..k], t[i..j]);
    }
  }

  lemma ShorterWordStops(p: string, least: nat, q: string, v: string, w: string)
    requires |q| > 0 && !IsSpace(q[0]) && SpacedWord(p, least, q, v) && SpacedWord(p, least, q, w)
    requires |v| <= |w| && v == w[..|v|]
    ensures |v| == |w|
  {
    var gap := |v| - |q|;
    SpacedWordEnd(p, least, q, v);
    assert w[gap] == w[..|v|][gap];
    if |v| < |w| {
      GapIsSpace(p, least, q, w, gap);
    }
  }

  lemma SpacedWordEnd(p: string, least: nat, q: string, w: string)
    requires SpacedWord(p, least, q, w) && |q| > 0
    ensures w[|w| - |q|] == q[0]
  {
    assert w[|w| - |q|..][0] == w[|w| - |q|];
  }

  lemma GapIsSpace(p: string, least: nat, q: string, w: string, k: nat)
    requires SpacedWord(p, least, q, w) && |p| <= k < |w| - |q|
    ensures IsSpace(w[k])
  {
    assert w[|p|..|w| - |q|][k - |p|] == w[k];
  }

  function Spaced(path: string, p: string, least: nat, q: string, tail: string): Site {
    Site(path, w => SpacedWord(p, least, q, w), tail, 1)
  }

  const LAB := "requirements-lab.txt"
  const GUIDE := "docs/ARC_GOVERNED_CONTROL_PLANE_LAB.md"
  const WORKFLOW := ".github/workflows/phase0-validation.yml"

  /** The five sites of the lock file. */
  const LOCK_SITES: seq<Site> := [
    Site(LAB, w => w == "LIMA-Guardian-Suite.git@", "", 1),
    Spaced(GUIDE, "Guardian Suite:", 0, "`", "`"),
    Site(LAB, w => w == "LIMA-AI-OS.git@", "", 1),
    Spaced(GUIDE, "LIMA AI OS:", 0, "`", "`"),
    Spaced(WORKFLOW, "repository: armpit-symphony/Arc-Bot-shell", 1, "ref: ", "")
  ]

  lemma NoRun(w: string, k: nat)
    requires k < |w| && !IsHex(w[k]) && k < 40 && |w| - k <= 40
    ensures !HoldsRun(w)
  {
    if HoldsRun(w) {
      var n :| RunAt(w, n);
      RunIsHex(w, n);
    }
  }

  /** Every pattern of the lock file is anchored, so all of the above holds of it. */
  lemma LockSitesAreAnchored()
    ensures AllAnchored(LOCK_SITES)
  {
    NoRun("LIMA-Guardian-Suite.git@", 0);
    NoRun("LIMA-AI-OS.git@", 0);
    NoRun("Guardian Suite:", 0);
    NoRun("LIMA AI OS:", 0);
    NoRun("repository: armpit-symphony/Arc-Bot-shell", 2);
    NoRun("ref: ", 0);
    NoRun("`", 0);
    forall w | LOCK_SITES[1].head(w) ensures Bracketed(w) {
      SpacedWordIsBracketed("Guardian Suite:", 0, "`", w);
    }
    forall w | LOCK_SITES[3].head(w) ensures Bracketed(w) {
      SpacedWordIsBracketed("LIMA AI OS:", 0, "`", w);
    }
    forall w | LOCK_SITES[4].head(w) ensures Bracketed(w) {
      SpacedWordIsBracketed("repository: armpit-symphony/Arc-Bot-shell", 1, "ref: ", w);
    }
  }

  /** No tail of the lock file can start a head, so every match of its patterns is captured. */
  lemma LockSitesMissNoMatch(n: nat)
    requires n < |LOCK_SITES|
    ensures TailStartsNoHead(LOCK_SITES[n])
  {
    forall w, k | LOCK_SITES[n].head(w) && w != "" && 0 <= k < |LOCK_SITES[n].tail| ensures w[0] != LOCK_SITES[n].tail[k] {
      if n == 1 {
        assert w[..|"Guardian Suite:"|][0] == w[0];
      } else {
        assert n == 3 && w[..|"LIMA AI OS:"|][0] == w[0];
      }
    }
  }

  // ----- three bumps ---------------------------------------------------------------------------------

  const OLD_PIN := "0000000000000000000000000000000000000000"
  const NEW_PIN := "1111111111111111111111111111111111111111"
  const PINNED_LINE := "LIMA-Guardian-Suite.git@" + OLD_PIN
  const SAMPLE_FILES: Files := map[LAB := PINNED_LINE]
  const ONE_SITE := Dependency("guardian-suite", OLD_PIN, [LOCK_SITES[0]])
  const TWO_SITES := Dependency("guardian-suite", OLD_PIN, [LOCK_SITES[0], LOCK_SITES[1]])

  /** A literal head followed by a commit is a text with one pin. */
  lemma LineHasOnePin(s: Site, p: string, commit: string)
    requires (forall w :: s.head(w) <==> w == p) && s.tail == "" && IsCommit(commit)
    ensures Spans(s, p + commit) == [|p|] && Commits(s, p + commit) == [commit]
  {
    var t := p + commit;
    assert t[0..|p|] == p && t[|p|..|p| + 40] == commit;
    assert Splits(s, t, 0, |p|);
    var j := MatchAt(s, t, 0).value;
    assert t[0..j] == p;
    assert Scan(s, t, 0) == [|p|] + Scan(s, t, |p| + 40);
  }

  lemma SampleFits()
    ensures IsCommit(OLD_PIN) && IsCommit(NEW_PIN) && LockFailures([ONE_SITE], SAMPLE_FILES) == []
    ensures Fits(SAMPLE_FILES, LOCK_SITES[0]) && !Fits(SAMPLE_FILES, LOCK_SITES[1])
  {
    LineHasOnePin(LOCK_SITES[0], "LIMA-Guardian-Suite.git@", OLD_PIN);
    assert Settled(SAMPLE_FILES, LOCK_SITES[0], OLD_PIN);
    CheckPassesExactlyWhen([ONE_SITE], SAMPLE_FILES);
    assert |LAB| != |GUIDE|;
  }

  /** A target of forty digits and a newline is taken, the bump goes through, and the site, the lock's commit and
      the check then disagree. */
  lemma NewlineBumpHappens()
    ensures var target := NEW_PIN + "\n"; var after := Bump(SAMPLE_FILES, ONE_SITE, target);
            && Resolves(target) && LockFailures([ONE_SITE], SAMPLE_FILES) == []
            && after.refused.None? && !Settled(after.files, LOCK_SITES[0], target)
            && LockFailures([ONE_SITE.(commit := target)], after.files) != []
  {
    var target := NEW_PIN + "\n";
    var after := Bump(SAMPLE_FILES, ONE_SITE, target);
    SampleFits();
    assert target[..40] == NEW_PIN;
    assert ONE_SITE.sites[0] == LOCK_SITES[0] && LOCK_SITES[0].occurrences == 1;
    AnyTextGoesThroughExactlyWhen(SAMPLE_FILES, ONE_SITE, target);
    CheckPassesExactlyWhen([ONE_SITE.(commit := target)], after.files);
    assert !Settled(after.files, [ONE_SITE.(commit := target)][0].sites[0], target);
  }

  /** A bump that is refused at its second site has moved the first. */
  lemma HalfwayBumpHappens()
    ensures var after := Bump(SAMPLE_FILES, TWO_SITES, NEW_PIN);
            && after.refused.Some? && after.files != SAMPLE_FILES
            && Settled(after.files, LOCK_SITES[0], NEW_PIN) && !Settled(after.files, LOCK_SITES[0], OLD_PIN)
  {
    var d := TWO_SITES;
    SampleFits();
    LockSitesAreAnchored();
    assert d.sites[0] == LOCK_SITES[0] && d.sites[1] == LOCK_SITES[1];
    BumpGoesThroughExactlyWhen(SAMPLE_FILES, d, NEW_PIN);
    assert FitCount(SAMPLE_FILES, d.sites) == 1;
    assert d.sites[..1] == [LOCK_SITES[0]];
    MovedSiteIsSettled(SAMPLE_FILES, [LOCK_SITES[0]], 0, NEW_PIN);
    PinsDiffer(Bump(SAMPLE_FILES, d, NEW_PIN).files);
    LineHasOnePin(LOCK_SITES[0], "LIMA-Guardian-Suite.git@", OLD_PIN);
  }

  lemma PinsDiffer(files: Files)
    requires Settled(files, LOCK_SITES[0], NEW_PIN)
    ensures !Settled(files, LOCK_SITES[0], OLD_PIN)
  {
    assert Commits(LOCK_SITES[0], files[LAB])[0] == NEW_PIN;
    assert NEW_PIN[0] != OLD_PIN[0];
  }
}
