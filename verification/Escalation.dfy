/** The escalation ladder: configuration rules, climbing, and the evidence shape read back. */
module Escalation {
  import opened Values

  const HUMAN := "human"
  const KINDS: set<string> := {"automated", "system_manager", "executive", "human"}
  const REQUIRED: set<string> := {"system_manager", "executive", "human"}
  const UNBOUNDED := "*"

  datatype Tier = Tier(number: int, role: string, kind: string, mayPermit: set<string>) {
    predicate IsHuman() {
      kind == HUMAN
    }

    predicate Permits(action: string) {
      UNBOUNDED in mayPermit || action in mayPermit
    }
  }

  datatype Refusal =
    // configuration
    | ConfigurationNotObject | NoTiers | TierNotObject(index: int) | PermitsNotAList(index: int) | BadPermit(index: int)
    // one tier
    | NumberNotInteger | NumberTooSmall | NoRole | UnknownKind | PermitsNothing | UnboundedMachine
    // the ladder
    | EmptyLadder | NotContiguous | SharedRole | EndsWithoutHuman | EndsBounded | KindMissing | Narrows(upper: int)
    // climbing
    | OutsideLadder | AlreadyTerminal

  // ----- what a ladder must be -----------------------------------------------------------------------

  predicate SoundTier(t: Tier) {
    && t.number >= 1 && Strip(t.role) != "" && t.kind in KINDS && t.mayPermit != {}
    && (UNBOUNDED in t.mayPermit ==> t.IsHuman())
  }

  /** The name a role is compared under; `fold` is case folding. */
  function Label(fold: string -> string, t: Tier): string {
    fold(Strip(t.role))
  }

  predicate Widens(lower: Tier, upper: Tier) {
    UNBOUNDED in upper.mayPermit || lower.mayPermit <= upper.mayPermit
  }

  /** Tiers are numbered from 1 without gaps. */
  predicate Numbered(tiers: seq<Tier>) {
    forall n | 0 <= n < |tiers| :: tiers[n].number == n + 1
  }

  /** No tier permits less than the tier below it. */
  ghost predicate Widening(tiers: seq<Tier>) {
    forall m, n | 0 <= m < n < |tiers| && n == m + 1 :: Widens(tiers[m], tiers[n])
  }

  /** The last tier is a human who permits everything. */
  predicate Terminated(tiers: seq<Tier>) {
    tiers != [] && tiers[|tiers| - 1].IsHuman() && tiers[|tiers| - 1].mayPermit == {UNBOUNDED}
  }

  ghost predicate SoundLadder(fold: string -> string, tiers: seq<Tier>) {
    && (forall n | 0 <= n < |tiers| :: SoundTier(tiers[n]))
    && Numbered(tiers) && Terminated(tiers) && Widening(tiers)
    && (forall m, n | 0 <= m < n < |tiers| :: Label(fold, tiers[m]) != Label(fold, tiers[n]))
    && (forall k | k in REQUIRED :: exists n :: 0 <= n < |tiers| && tiers[n].kind == k)
  }

  // ----- checks at construction ----------------------------------------------------------------------

  /** `EscalationTier.__post_init__` for an integer tier number. */
  function CheckTier(t: Tier): (r: Result<Tier, Refusal>)
    ensures r == Ok(t) <==> SoundTier(t)
    ensures r.Ok? ==> r.value == t
  {
    if t.number < 1 then Refused(NumberTooSmall)
    else if Strip(t.role) == "" then Refused(NoRole)
    else if t.kind !in KINDS then Refused(UnknownKind)
    else if t.mayPermit == {} then Refused(PermitsNothing)
    else if UNBOUNDED in t.mayPermit && !t.IsHuman() then Refused(UnboundedMachine)
    else Ok(t)
  }

  /** The number of the first tier that narrows what the tier below it permits. */
  function FirstNarrowing(tiers: seq<Tier>, n: nat): (r: Option<nat>)
    ensures r.None? <==> forall j, k | n <= j < k < |tiers| && k == j + 1 :: Widens(tiers[j], tiers[k])
    decreases |tiers| - n
  {
    if n + 1 >= |tiers| then None
    else if !Widens(tiers[n], tiers[n + 1]) then Some(n + 1)
    else FirstNarrowing(tiers, n + 1)
  }

  function Labels(fold: string -> string, tiers: seq<Tier>): seq<string> {
    seq(|tiers|, n requires 0 <= n < |tiers| => Label(fold, tiers[n]))
  }

  /** `EscalationLadder.__post_init__`. */
  function CheckLadder(fold: string -> string, tiers: seq<Tier>): Result<seq<Tier>, Refusal> {
    if tiers == [] then Refused(EmptyLadder)
    else if exists n :: 0 <= n < |tiers| && tiers[n].number != n + 1 then Refused(NotContiguous)
    else if |Elements(Labels(fold, tiers))| != |tiers| then Refused(SharedRole)
    else if !tiers[|tiers| - 1].IsHuman() then Refused(EndsWithoutHuman)
    else if tiers[|tiers| - 1].mayPermit != {UNBOUNDED} then Refused(EndsBounded)
    else if !(REQUIRED <= set t | t in tiers :: t.kind) then Refused(KindMissing)
    else
      match FirstNarrowing(tiers, 0)
      case Some(n) => Refused(Narrows(n + 1))
      case None => Ok(tiers)
  }

  lemma {:induction false} DistinctExactlyWhen(s: seq<string>)
    ensures |Elements(s)| <= |s|
    ensures |Elements(s)| == |s| <==> forall m, n | 0 <= m < n < |s| :: s[m] != s[n]
  {
    if s != [] {
      var front, last := s[..|s| - 1], s[|s| - 1];
      DistinctExactlyWhen(front);
      assert s == front + [last];
      assert Elements(s) == Elements(front) + {last};
      if last in front {
        var m :| 0 <= m < |front| && front[m] == last;
        assert s[m] == s[|s| - 1];
      }
    }
  }

  lemma LabelsDistinctExactlyWhen(fold: string -> string, tiers: seq<Tier>)
    ensures |Elements(Labels(fold, tiers))| == |tiers| <==>
      forall m, n | 0 <= m < n < |tiers| :: Label(fold, tiers[m]) != Label(fold, tiers[n])
  {
    var labels := Labels(fold, tiers);
    DistinctExactlyWhen(labels);
    if forall m, n | 0 <= m < n < |labels| :: labels[m] != labels[n] {
      forall m, n | 0 <= m < n < |tiers| ensures Label(fold, tiers[m]) != Label(fold, tiers[n]) {
        assert labels[m] != labels[n];
      }
    }
  }

  lemma KindsPresentExactlyWhen(tiers: seq<Tier>, kinds: set<string>)
    ensures kinds <= (set t | t in tiers :: t.kind) <==>
      forall k | k in kinds :: exists n :: 0 <= n < |tiers| && tiers[n].kind == k
  {
  }

  /** The ladder check accepts sound tiers exactly when they make a sound ladder. */
  lemma LadderPassesExactlyWhen(fold: string -> string, tiers: seq<Tier>)
    requires forall n | 0 <= n < |tiers| :: SoundTier(tiers[n])
    ensures CheckLadder(fold, tiers).Ok? <==> SoundLadder(fold, tiers)
    ensures CheckLadder(fold, tiers).Ok? ==> CheckLadder(fold, tiers).value == tiers
  {
    LabelsDistinctExactlyWhen(fold, tiers);
    KindsPresentExactlyWhen(tiers, REQUIRED);
  }

  // ----- configuration -------------------------------------------------------------------------------

  datatype RawNumber = Missing | Integer(n: int) | Boolean | NotANumber
  /** An entry that is not a string is `None`. */
  datatype RawPermits = NotAList | Entries(entries: seq<Option<string>>)
  /** A role or kind that is missing or not a string is `None`. */
  datatype RawTier = NotAnObject | RawTier(number: RawNumber, role: Option<string>, kind: Option<string>, permits: RawPermits)
  /** `NoTierList`: the tiers are missing or not a list. */
  datatype Configuration = NotAMapping | NoTierList | Configured(tiers: seq<RawTier>)

  predicate GoodPermit(e: Option<string>) {
    e.Some? && e.value != ""
  }

  predicate Shaped(raw: RawTier) {
    raw.RawTier? && raw.permits.Entries? && forall e | e in raw.permits.entries :: GoodPermit(e)
  }

  function TextOr(o: Option<string>): string {
    if o.Some? then o.value else ""
  }

  function PermitSet(entries: seq<Option<string>>): set<string> {
    set e | e in entries && e.Some? :: e.value
  }

  /** The tier a configuration entry describes; a number that is not an integer becomes its position. */
  function TierOf(raw: RawTier, index: int): Tier
    requires raw.RawTier? && raw.permits.Entries?
  {
    Tier(if raw.number.Integer? then raw.number.n else index, TextOr(raw.role), TextOr(raw.kind), PermitSet(raw.permits.entries))
  }

  function ReadTier(raw: RawTier, index: int): Result<Tier, Refusal> {
    if raw.NotAnObject? then Refused(TierNotObject(index))
    else if raw.permits.NotAList? then Refused(PermitsNotAList(index))
    else if exists e :: e in raw.permits.entries && !GoodPermit(e) then Refused(BadPermit(index))
    else if raw.number.Boolean? then Refused(NumberNotInteger)
    else CheckTier(TierOf(raw, index))
  }

  function ReadTiers(raws: seq<RawTier>): (r: Result<seq<Tier>, Refusal>)
    ensures r.Ok? ==> |r.value| == |raws|
  {
    if raws == [] then Ok([]) else
    var front := ReadTiers(raws[..|raws| - 1]);
    if front.Refused? then front else
    match ReadTier(raws[|raws| - 1], |raws|)
    case Refused(why) => Refused(why)
    case Ok(tier) => Ok(front.value + [tier])
  }

  function Loaded(fold: string -> string, c: Configuration): Result<seq<Tier>, Refusal> {
    if c.NotAMapping? then Refused(ConfigurationNotObject)
    else if c.NoTierList? || c.tiers == [] then Refused(NoTiers)
    else
      match ReadTiers(c.tiers)
      case Refused(why) => Refused(why)
      case Ok(tiers) => CheckLadder(fold, tiers)
  }

  method LoadLadder(fold: string -> string, c: Configuration) returns (r: Result<seq<Tier>, Refusal>)
    ensures r == Loaded(fold, c)
  {
    if c.NotAMapping? {
      return Refused(ConfigurationNotObject);
    }
    if c.NoTierList? || c.tiers == [] {
      return Refused(NoTiers);
    }
    var tiers: seq<Tier> := [];
    for n := 0 to |c.tiers|
      invariant ReadTiers(c.tiers[..n]) == Ok(tiers)
    {
      assert c.tiers[..n + 1][..n] == c.tiers[..n];
      var tier := ReadTier(c.tiers[n], n + 1);
      if tier.Refused? {
        RefusedEarly(c.tiers, n);
        return Refused(tier.error);
      }
      tiers := tiers + [tier.value];
    }
    assert c.tiers[..|c.tiers|] == c.tiers;
    r := CheckLadder(fold, tiers);
  }

  /** Loading stops at the first tier that is refused. */
  lemma {:induction false} RefusedEarly(raws: seq<RawTier>, n: nat)
    requires n < |raws| && ReadTiers(raws[..n]).Ok? && ReadTier(raws[n], n + 1).Refused?
    ensures ReadTiers(raws) == Refused(ReadTier(raws[n], n + 1).error)
  {
    if n == |raws| - 1 {
      assert raws[..|raws| - 1] == raws[..n];
    } else {
      assert raws[..|raws| - 1][..n] == raws[..n];
      RefusedEarly(raws[..|raws| - 1], n);
    }
  }

  predicate Acceptable(raws: seq<RawTier>) {
    forall n | 0 <= n < |raws| :: Shaped(raws[n]) && !raws[n].number.Boolean? && SoundTier(TierOf(raws[n], n + 1))
  }

  lemma AcceptableStep(raws: seq<RawTier>)
    requires raws != []
    ensures var front, last := raws[..|raws| - 1], raws[|raws| - 1];
      Acceptable(raws) <==>
        Acceptable(front) && Shaped(last) && !last.number.Boolean? && SoundTier(TierOf(last, |raws|))
  {
    var front := raws[..|raws| - 1];
    assert forall n | 0 <= n < |front| :: front[n] == raws[n];
  }

  lemma TierReads(raw: RawTier, index: int)
    ensures ReadTier(raw, index).Ok? <==> Shaped(raw) && !raw.number.Boolean? && SoundTier(TierOf(raw, index))
    ensures ReadTier(raw, index).Ok? ==> ReadTier(raw, index).value == TierOf(raw, index)
  {
  }

  lemma {:induction false} TiersReadExactlyWhen(raws: seq<RawTier>)
    ensures ReadTiers(raws).Ok? <==> Acceptable(raws)
  {
    if raws != [] {
      TiersReadExactlyWhen(raws[..|raws| - 1]);
      AcceptableStep(raws);
      TierReads(raws[|raws| - 1], |raws|);
    }
  }

  lemma {:induction false} TiersReadAsDescribed(raws: seq<RawTier>, n: nat)
    requires ReadTiers(raws).Ok? && n < |raws|
    ensures Shaped(raws[n]) && ReadTiers(raws).value[n] == TierOf(raws[n], n + 1)
    decreases |raws|
  {
    TierReads(raws[|raws| - 1], |raws|);
    if n < |raws| - 1 {
      TiersReadAsDescribed(raws[..|raws| - 1], n);
    }
  }

  /** The tiers an acceptable configuration describes. */
  function TiersOf(raws: seq<RawTier>): seq<Tier>
    requires Acceptable(raws)
  {
    seq(|raws|, n requires 0 <= n < |raws| => TierOf(raws[n], n + 1))
  }

  /** A configuration loads exactly when it is an object with a list of well-shaped tiers that make a sound
      ladder, and what is loaded is that ladder. */
  lemma LoadsExactlyWhen(fold: string -> string, c: Configuration)
    ensures Loaded(fold, c).Ok? <==>
      c.Configured? && Acceptable(c.tiers) && SoundLadder(fold, TiersOf(c.tiers))
    ensures Loaded(fold, c).Ok? ==> Loaded(fold, c).value == TiersOf(c.tiers)
  {
    if c.Configured? && c.tiers != [] {
      TiersReadExactlyWhen(c.tiers);
      if Acceptable(c.tiers) {
        forall n | 0 <= n < |c.tiers| ensures ReadTiers(c.tiers).value[n] == TierOf(c.tiers[n], n + 1) {
          TiersReadAsDescribed(c.tiers, n);
        }
        assert ReadTiers(c.tiers).value == TiersOf(c.tiers);
        LadderPassesExactlyWhen(fold, TiersOf(c.tiers));
      }
    }
  }

  /** The entry names the tier's role, kind and permits, each permit once or more, and its number or none. */
  predicate Written(raw: RawTier, t: Tier) {
    && raw.RawTier? && raw.permits.Entries?
    && raw.role == Some(t.role) && raw.kind == Some(t.kind)
    && (raw.number == Integer(t.number) || raw.number == Missing || raw.number == NotANumber)
    && (forall e | e in raw.permits.entries :: e.Some? && e.value != "" && e.value in t.mayPermit)
    && (forall x | x in t.mayPermit :: Some(x) in raw.permits.entries)
  }

  lemma WrittenIsAccepted(raws: seq<RawTier>, tiers: seq<Tier>)
    requires |raws| == |tiers| && Numbered(tiers) && forall n | 0 <= n < |tiers| :: SoundTier(tiers[n])
    requires forall n | 0 <= n < |tiers| :: Written(raws[n], tiers[n])
    ensures Acceptable(raws) && TiersOf(raws) == tiers
  {
    forall n | 0 <= n < |raws|
      ensures Shaped(raws[n]) && !raws[n].number.Boolean? && TierOf(raws[n], n + 1) == tiers[n]
    {
      WrittenExactlyWhen(raws[n], tiers[n]);
    }
  }

  lemma AcceptedIsWritten(raws: seq<RawTier>)
    requires Acceptable(raws) && Numbered(TiersOf(raws))
    ensures forall n | 0 <= n < |raws| :: Written(raws[n], TiersOf(raws)[n])
  {
    var tiers := TiersOf(raws);
    forall n | 0 <= n < |raws| ensures Written(raws[n], tiers[n]) {
      assert tiers[n] == TierOf(raws[n], n + 1) && tiers[n].number == n + 1;
      WrittenExactlyWhen(raws[n], tiers[n]);
    }
  }

  /** A list of entries loads as a ladder exactly when the ladder is sound and each entry is written as its tier. */
  lemma LoadsWhatIsWritten(fold: string -> string, raws: seq<RawTier>, tiers: seq<Tier>)
    requires |raws| == |tiers|
    ensures Loaded(fold, Configured(raws)) == Ok(tiers) <==>
      SoundLadder(fold, tiers) && forall n | 0 <= n < |tiers| :: Written(raws[n], tiers[n])
  {
    LoadsExactlyWhen(fold, Configured(raws));
    if Loaded(fold, Configured(raws)) == Ok(tiers) {
      AcceptedIsWritten(raws);
    } else if SoundLadder(fold, tiers) && forall n | 0 <= n < |tiers| :: Written(raws[n], tiers[n]) {
      WrittenIsAccepted(raws, tiers);
    }
  }

  lemma WrittenExactlyWhen(raw: RawTier, t: Tier)
    requires SoundTier(t)
    ensures Written(raw, t) <==> Shaped(raw) && !raw.number.Boolean? && TierOf(raw, t.number) == t
  {
    assert Strip("") == "" && "" !in KINDS;
    if Shaped(raw) {
      assert PermitSet(raw.permits.entries) == t.mayPermit <==>
        && (forall e | e in raw.permits.entries :: e.value in t.mayPermit)
        && (forall x | x in t.mayPermit :: Some(x) in raw.permits.entries) by {
        PermitsWritten(raw.permits.entries, t.mayPermit);
      }
    }
  }

  lemma PermitsWritten(entries: seq<Option<string>>, permits: set<string>)
    requires forall e | e in entries :: e.Some?
    ensures PermitSet(entries) == permits <==>
      (forall e | e in entries :: e.value in permits) && (forall x | x in permits :: Some(x) in entries)
  {
    forall x ensures x in PermitSet(entries) <==> Some(x) in entries {
    }
  }

  // ----- the evidence shape --------------------------------------------------------------------------

  datatype TierRecord = TierRecord(escalationTier: int, role: string, kind: string, mayDefer: bool, mayPermit: seq<string>)
  datatype LadderRecord = LadderRecord(tierCount: int, terminalRole: string, tiers: seq<TierRecord>)

  /** `to_dict`; `listing` lists the elements of a set in some order. */
  function Recorded(tiers: seq<Tier>, listing: set<string> -> seq<string>): LadderRecord
    requires tiers != []
  {
    LadderRecord(|tiers|, tiers[|tiers| - 1].role,
      seq(|tiers|, n requires 0 <= n < |tiers| =>
        TierRecord(tiers[n].number, tiers[n].role, tiers[n].kind, tiers[n].number != |tiers|, listing(tiers[n].mayPermit))))
  }

  /** The record as a configuration: its tiers carry no `tier` key. */
  function AsConfiguration(r: LadderRecord): Configuration {
    Configured(seq(|r.tiers|, n requires 0 <= n < |r.tiers| =>
      RawTier(Missing, Some(r.tiers[n].role), Some(r.tiers[n].kind), Entries(AsEntries(r.tiers[n].mayPermit)))))
  }

  function AsEntries(names: seq<string>): seq<Option<string>> {
    seq(|names|, n requires 0 <= n < |names| => Some(names[n]))
  }

  lemma EntriesReadBack(names: seq<string>)
    ensures PermitSet(AsEntries(names)) == Elements(names)
    ensures (forall e | e in AsEntries(names) :: GoodPermit(e)) <==> "" !in names
  {
    var entries := AsEntries(names);
    forall x ensures x in PermitSet(entries) <==> x in Elements(names) {
      if x in names {
        var n :| 0 <= n < |names| && names[n] == x;
        assert entries[n] == Some(x);
      }
      if x in PermitSet(entries) {
        var n :| 0 <= n < |entries| && entries[n] == Some(x);
        assert names[n] == x;
      }
    }
    if "" in names {
      var n :| 0 <= n < |names| && names[n] == "";
      assert entries[n] == Some("") && !GoodPermit(entries[n]);
    } else {
      forall e | e in entries ensures GoodPermit(e) {
        var n :| 0 <= n < |entries| && entries[n] == e;
        assert e == Some(names[n]);
      }
    }
  }

  /** Reading a ladder's own record back gives the ladder, whatever order the permits are listed in, exactly
      when no tier permits the empty action class. */
  lemma RecordReadsBackExactlyWhen(fold: string -> string, tiers: seq<Tier>, listing: set<string> -> seq<string>)
    requires SoundLadder(fold, tiers) && forall s :: Elements(listing(s)) == s
    ensures Loaded(fold, AsConfiguration(Recorded(tiers, listing))) == Ok(tiers) <==>
      forall n | 0 <= n < |tiers| :: "" !in tiers[n].mayPermit
  {
    var raws := AsConfiguration(Recorded(tiers, listing)).tiers;
    forall n | 0 <= n < |tiers|
      ensures Describes(raws[n], tiers[n])
      ensures Shaped(raws[n]) <==> "" !in tiers[n].mayPermit
    {
      TierReadsBack(tiers[n], listing(tiers[n].mayPermit));
    }
    DescribedTiersLoad(fold, raws, tiers);
  }

  /** The entry names no number of its own and otherwise describes the tier. */
  predicate Describes(raw: RawTier, t: Tier) {
    raw.RawTier? && raw.permits.Entries? && raw.number.Missing? && TierOf(raw, t.number) == t
  }

  lemma DescribedTiersLoad(fold: string -> string, raws: seq<RawTier>, tiers: seq<Tier>)
    requires SoundLadder(fold, tiers) && |raws| == |tiers| && forall n | 0 <= n < |raws| :: Describes(raws[n], tiers[n])
    ensures Loaded(fold, Configured(raws)) == Ok(tiers) <==> forall n | 0 <= n < |raws| :: Shaped(raws[n])
  {
    DescribedTiersAreAcceptable(raws, tiers);
    LoadsExactlyWhen(fold, Configured(raws));
  }

  lemma DescribedTiersAreAcceptable(raws: seq<RawTier>, tiers: seq<Tier>)
    requires Numbered(tiers) && (forall n | 0 <= n < |tiers| :: SoundTier(tiers[n])) && |raws| == |tiers|
    requires forall n | 0 <= n < |raws| :: Describes(raws[n], tiers[n])
    ensures Acceptable(raws) <==> forall n | 0 <= n < |raws| :: Shaped(raws[n])
    ensures Acceptable(raws) ==> TiersOf(raws) == tiers
  {
  }

  lemma TierReadsBack(t: Tier, names: seq<string>)
    requires Elements(names) == t.mayPermit
    ensures Describes(RawTier(Missing, Some(t.role), Some(t.kind), Entries(AsEntries(names))), t)
    ensures Shaped(RawTier(Missing, Some(t.role), Some(t.kind), Entries(AsEntries(names)))) <==> "" !in t.mayPermit
  {
    EntriesReadBack(names);
    assert "" in names <==> "" in Elements(names);
  }

  // ----- looking tiers up ----------------------------------------------------------------------------

  method FindTier(tiers: seq<Tier>, number: int) returns (r: Result<Tier, Refusal>)
    requires Numbered(tiers)
    ensures r == if 1 <= number <= |tiers| then Ok(tiers[number - 1]) else Refused(OutsideLadder)
  {
    for n := 0 to |tiers|
      invariant !(1 <= number <= n)
    {
      if tiers[n].number == number {
        return Ok(tiers[n]);
      }
    }
    r := Refused(OutsideLadder);
  }

  /** `first_tier_permitting`: the least tier that permits the action class; the loop always finds one. */
  method FirstTierPermitting(tiers: seq<Tier>, action: string) returns (r: Tier, found: bool)
    requires Terminated(tiers)
    ensures found
    ensures UNBOUNDED in r.mayPermit || action in r.mayPermit
    ensures exists n :: 0 <= n < |tiers| && r == tiers[n]
                     && forall k | 0 <= k < n :: UNBOUNDED !in tiers[k].mayPermit && action !in tiers[k].mayPermit
  {
    r, found := tiers[|tiers| - 1], false;
    for n := 0 to |tiers|
      invariant !found && forall k | 0 <= k < n :: !tiers[k].Permits(action)
    {
      if tiers[n].Permits(action) {
        r, found := tiers[n], true;
        break;
      }
    }
  }

  function NextTier(tiers: seq<Tier>, current: int): Result<Tier, Refusal> {
    if current < 1 || current > |tiers| then Refused(OutsideLadder)
    else if current == |tiers| then Refused(AlreadyTerminal)
    else Ok(tiers[current])
  }

  predicate MayDefer(tiers: seq<Tier>, number: int) {
    number != |tiers|
  }

  // ----- what every sound ladder guarantees ----------------------------------------------------------

  /** What a tier permits every higher tier permits. */
  lemma {:induction false} PermissionIsUpwardClosed(tiers: seq<Tier>, m: nat, n: nat, action: string)
    requires Widening(tiers) && m <= n < |tiers| && tiers[m].Permits(action)
    ensures tiers[n].Permits(action)
    decreases n
  {
    if m < n {
      PermissionIsUpwardClosed(tiers, m, n - 1, action);
      assert Widens(tiers[n - 1], tiers[n]);
    }
  }

  /** Every tier above an unbounded one is an unbounded human. */
  lemma {:induction false} AboveUnboundedIsHuman(tiers: seq<Tier>, m: nat, n: nat)
    requires Widening(tiers) && (forall k | 0 <= k < |tiers| :: SoundTier(tiers[k]))
    requires m <= n < |tiers| && UNBOUNDED in tiers[m].mayPermit
    ensures UNBOUNDED in tiers[n].mayPermit && tiers[n].IsHuman()
    decreases n
  {
    assert SoundTier(tiers[n]);
    if m < n {
      AboveUnboundedIsHuman(tiers, m, n - 1);
      assert Widens(tiers[n - 1], tiers[n]);
    }
  }

  /** The tier number reached by escalating again and again. */
  function Climb(tiers: seq<Tier>, current: int, steps: nat): Result<int, Refusal>
    decreases steps
  {
    if steps == 0 then Ok(current) else
    match NextTier(tiers, current)
    case Refused(why) => Refused(why)
    case Ok(tier) => Climb(tiers, tier.number, steps - 1)
  }

  lemma {:induction false} ClimbReaches(tiers: seq<Tier>, current: int, steps: nat)
    requires 1 <= current <= |tiers| && Numbered(tiers)
    ensures Climb(tiers, current, steps) ==
      if steps <= |tiers| - current then Ok(current + steps) else Refused(AlreadyTerminal)
    decreases steps
  {
    if steps > 0 && current < |tiers| {
      ClimbReaches(tiers, current + 1, steps - 1);
    }
  }

  /** From any tier, escalation reaches the one tier that may not defer, a human who permits everything, in
      exactly as many steps as there are tiers above it, and then refuses to go on. */
  lemma EscalationTerminates(tiers: seq<Tier>, current: int, steps: nat, action: string)
    requires Numbered(tiers) && Terminated(tiers) && 1 <= current <= |tiers|
    ensures Climb(tiers, current, steps) ==
      if steps <= |tiers| - current then Ok(current + steps) else Refused(AlreadyTerminal)
    ensures steps == |tiers| - current <==>
      Climb(tiers, current, steps).Ok? && !MayDefer(tiers, Climb(tiers, current, steps).value)
    ensures tiers[|tiers| - 1].IsHuman() && tiers[|tiers| - 1].Permits(action)
  {
    ClimbReaches(tiers, current, steps);
  }

  // ----- records of one escalation -------------------------------------------------------------------

  datatype EscalationRecord = EscalationRecord(origin: Tier, destination: Tier, terminal: bool)

  /** `escalation_record`, without the reason codes it copies. */
  method Escalate(tiers: seq<Tier>, current: int) returns (r: Result<EscalationRecord, Refusal>)
    requires Numbered(tiers) && Widening(tiers) && Terminated(tiers)
    ensures r.Ok? <==> 1 <= current < |tiers|
    ensures r.Refused? ==> r.error == if current == |tiers| then AlreadyTerminal else OutsideLadder
    ensures r.Ok? ==> r.value.origin.number == current && r.value.destination.number == current + 1
    ensures r.Ok? ==> (r.value.terminal <==> r.value.destination == tiers[|tiers| - 1])
    ensures r.Ok? ==> forall action | r.value.origin.Permits(action) :: r.value.destination.Permits(action)
  {
    var origin := FindTier(tiers, current);
    if origin.Refused? {
      return Refused(origin.error);
    }
    var destination := NextTier(tiers, current);
    if destination.Refused? {
      return Refused(destination.error);
    }
    forall action | tiers[current - 1].Permits(action) ensures tiers[current].Permits(action) {
      PermissionIsUpwardClosed(tiers, current - 1, current, action);
    }
    r := Ok(EscalationRecord(origin.value, destination.value, !MayDefer(tiers, destination.value.number)));
  }

  /** A ladder's record counts its tiers and copies each of them; a tier is recorded as able to defer exactly when an
      escalation from it goes on, and the terminal role is that of the one tier that is not. */
  lemma RecordSaysWhoDefers(tiers: seq<Tier>, listing: set<string> -> seq<string>, n: nat)
    requires Numbered(tiers) && n < |tiers| && forall s :: Elements(listing(s)) == s
    ensures var r := Recorded(tiers, listing);
      && r.tierCount == |tiers| == |r.tiers|
      && r.tiers[n].escalationTier == n + 1 && r.tiers[n].role == tiers[n].role && r.tiers[n].kind == tiers[n].kind
      && Elements(r.tiers[n].mayPermit) == tiers[n].mayPermit
      && (r.tiers[n].mayDefer <==> NextTier(tiers, n + 1).Ok?)
      && (!r.tiers[n].mayDefer ==> r.terminalRole == tiers[n].role)
  {
    assert tiers[n].number == n + 1;
  }

  const DEFAULT: seq<Tier> := [
    Tier(1, "system manager", "system_manager", {"routine_office_work"}),
    Tier(2, "executive manager", "executive", {"routine_office_work", "elevated_office_work"}),
    Tier(3, "human operator", "human", {UNBOUNDED})
  ]

  /** The default ladder is sound under any case folding that keeps its three lower-case labels. */
  lemma DefaultLadderIsSound(fold: string -> string)
    requires fold("system manager") == "system manager" && fold("executive manager") == "executive manager"
    requires fold("human operator") == "human operator"
    ensures SoundLadder(fold, DEFAULT)
  {
    StripKeeps("system manager");
    StripKeeps("executive manager");
    StripKeeps("human operator");
    assert "system manager"[0] != "human operator"[0];
    DefaultTiersAreSound();
    assert DEFAULT[0].kind == "system_manager" && DEFAULT[1].kind == "executive" && DEFAULT[2].kind == "human";
  }

  const EMPTY_PERMITS: seq<Tier> := [
    Tier(1, "system manager", "system_manager", {""}),
    Tier(2, "executive manager", "executive", {""}),
    Tier(3, "human operator", "human", {UNBOUNDED})
  ]

  /** A ladder that permits the empty action class is accepted, and its own record is then refused. */
  lemma EmptyPermitDoesNotReadBack(fold: string -> string, listing: set<string> -> seq<string>)
    requires fold("system manager") == "system manager" && fold("executive manager") == "executive manager"
    requires fold("human operator") == "human operator" && forall s :: Elements(listing(s)) == s
    ensures SoundLadder(fold, EMPTY_PERMITS) && CheckLadder(fold, EMPTY_PERMITS) == Ok(EMPTY_PERMITS)
    ensures Loaded(fold, AsConfiguration(Recorded(EMPTY_PERMITS, listing))) == Refused(BadPermit(1))
  {
    EmptyPermitsAreSound(fold);
    LadderPassesExactlyWhen(fold, EMPTY_PERMITS);
    EmptyPermitIsRefused(listing);
    UnreadIsRefused(fold, AsConfiguration(Recorded(EMPTY_PERMITS, listing)), BadPermit(1));
  }

  lemma UnreadIsRefused(fold: string -> string, c: Configuration, why: Refusal)
    requires c.Configured? && c.tiers != [] && ReadTiers(c.tiers) == Refused(why)
    ensures Loaded(fold, c) == Refused(why)
  {
  }

  lemma EmptyPermitsAreSound(fold: string -> string)
    requires fold("system manager") == "system manager" && fold("executive manager") == "executive manager"
    requires fold("human operator") == "human operator"
    ensures SoundLadder(fold, EMPTY_PERMITS)
  {
    StripKeeps("system manager");
    StripKeeps("executive manager");
    StripKeeps("human operator");
    assert "system manager"[0] != "human operator"[0];
    EmptyTiersAreSound();
    assert EMPTY_PERMITS[0].kind == "system_manager" && EMPTY_PERMITS[1].kind == "executive";
    assert EMPTY_PERMITS[2].kind == "human";
  }

  lemma EmptyTiersAreSound()
    ensures SoundTier(EMPTY_PERMITS[0]) && SoundTier(EMPTY_PERMITS[1]) && SoundTier(EMPTY_PERMITS[2])
    ensures Widens(EMPTY_PERMITS[0], EMPTY_PERMITS[1]) && Widens(EMPTY_PERMITS[1], EMPTY_PERMITS[2])
  {
    StripKeeps("system manager");
    StripKeeps("executive manager");
    StripKeeps("human operator");
    assert "" in EMPTY_PERMITS[0].mayPermit && "" in EMPTY_PERMITS[1].mayPermit && UNBOUNDED in EMPTY_PERMITS[2].mayPermit;
    assert |UNBOUNDED| == 1;
  }

  lemma EmptyPermitIsRefused(listing: set<string> -> seq<string>)
    requires forall s :: Elements(listing(s)) == s
    ensures ReadTiers(AsConfiguration(Recorded(EMPTY_PERMITS, listing)).tiers) == Refused(BadPermit(1))
  {
    var raws := AsConfiguration(Recorded(EMPTY_PERMITS, listing)).tiers;
    var names := listing({""});
    assert EMPTY_PERMITS[0].mayPermit == {""} && "" in Elements(names);
    EntriesReadBack(names);
    assert raws[0] == RawTier(Missing, Some("system manager"), Some("system_manager"), Entries(AsEntries(names)));
    assert ReadTier(raws[0], 1) == Refused(BadPermit(1));
    assert raws[..0] == [];
    RefusedEarly(raws, 0);
  }

  lemma DefaultTiersAreSound()
    ensures SoundTier(DEFAULT[0]) && SoundTier(DEFAULT[1]) && SoundTier(DEFAULT[2])
    ensures Widens(DEFAULT[0], DEFAULT[1]) && Widens(DEFAULT[1], DEFAULT[2])
  {
    StripKeeps("system manager");
    StripKeeps("executive manager");
    StripKeeps("human operator");
    assert "routine_office_work" in DEFAULT[0].mayPermit && "routine_office_work" in DEFAULT[1].mayPermit;
    assert UNBOUNDED in DEFAULT[2].mayPermit;
    assert |UNBOUNDED| == 1;
  }

  lemma StripKeeps(s: string)
    requires s != "" && !IsSpace(s[0]) && !IsSpace(s[|s| - 1])
    ensures Strip(s) == s
  {
  }
}
