/** What the two Secrets Manager providers (secrets/provider.go and the
    older secrets/secrets.go) have in common: the remote replies they
    consume, the label derived from a version's creation time, and the
    version-stage clean-up plan of `cleanVersionStages`, whose body is the
    same in both files. */
module SecretsShared {
  import opened Common

  /** The two labels Secrets Manager itself moves; never detached here. */
  const AwsCurrent: string := "AWSCURRENT"
  const AwsPrevious: string := "AWSPREVIOUS"

  /** `keepStages` of a new provider; no option changes it. */
  const DefaultKeepStages: int := 10

  /** The fields of `GetSecretValueOutput` the providers use: a nil
      SecretString or CreatedDate is `None`; `createdDate` counts seconds
      since the Unix epoch (negative before 1970). */
  datatype SecretValue = SecretValue(secretString: Option<string>, versionId: string, createdDate: Option<int>, versionStages: seq<string>)

  /** The reply to `GetSecretValue`. */
  datatype GetSecretReply = GetFailed(err: string) | NilOutput | Output(value: SecretValue)

  /** One `SecretVersionsListEntry`; nil fields are `None`. */
  datatype VersionEntry = VersionEntry(versionId: Option<string>, createdDate: Option<int>, versionStages: seq<string>)

  /** The reply to `ListSecretVersionIds` (one page of at most 100). */
  datatype ListReply = ListFailed(err: string) | Listed(versions: seq<VersionEntry>)

  /** One `UpdateSecretVersionStage` request: attach (MoveToVersionId) or
      detach (RemoveFromVersionId) one label. */
  datatype StageUpdate = Attach(moveToVersionId: string, stage: string) | Detach(removeFromVersionId: string, stage: string)

  /** The reply to `UpdateSecretVersionStage`. */
  datatype UpdateReply = UpdateOk | InvalidParameter(msg: string) | OtherFailure(msg: string)

  /** The two log messages of `updateSecretStage`. */
  datatype Action = AddNewStage | DeleteOldStage

  /** The lines the providers log around version stages. */
  datatype LogLine =
    | Info(action: Action, stage: string)
    | Warn(action: Action, stage: string, err: string)
    | ListWarn(err: string)

  function ActionOf(u: StageUpdate): Action {
    if u.Attach? then AddNewStage else DeleteOldStage
  }

  /** The secret value a successful fetch hands on: present and non-empty. */
  predicate HasValue(v: SecretValue) {
    v.secretString.Some? && v.secretString.value != ""
  }

  // ---------------------------------------------------------------------
  // The stage label of a creation time

  function DigitChar(d: nat): char
    requires d < 10
  {
    ('0' as int + d) as char
  }

  /** The decimal digits of `n`. */
  function Decimal(n: nat): (r: string)
    ensures |r| >= 1
    ensures |r| == 1 <==> n < 10
    ensures forall i :: 0 <= i < |r| ==> '0' <= r[i] <= '9'
    decreases n
  {
    if n < 10 then [DigitChar(n)] else Decimal(n / 10) + [DigitChar(n % 10)]
  }

  /** The label `CreatedDate.Format("v2006.0102.150405")` gives, written as
      "v" and the creation second in signed decimal: like the original it
      starts with 'v' and tells creation seconds apart. */
  function Label(createdDate: int): string {
    if createdDate < 0 then "v-" + Decimal(-createdDate) else "v" + Decimal(createdDate)
  }

  lemma {:induction false} DecimalInjective(a: nat, b: nat)
    requires Decimal(a) == Decimal(b)
    ensures a == b
    decreases a
  {
    if a < 10 {
      assert b < 10;
      assert DigitChar(a) == Decimal(a)[0] == Decimal(b)[0] == DigitChar(b);
    } else {
      var da, db := Decimal(a / 10), Decimal(b / 10);
      assert Decimal(a) == da + [DigitChar(a % 10)];
      assert Decimal(b) == db + [DigitChar(b % 10)];
      assert |da| == |db|;
      assert DigitChar(a % 10) == Decimal(a)[|da|] == Decimal(b)[|db|] == DigitChar(b % 10);
      assert da == Decimal(a)[..|da|] == Decimal(b)[..|db|] == db;
      DecimalInjective(a / 10, b / 10);
    }
  }

  /** Distinct creation seconds get distinct labels, and no label is one of
      the two live labels. */
  lemma LabelProperties(a: int, b: int)
    ensures Label(a) == Label(b) <==> a == b
    ensures Label(a) != AwsCurrent && Label(a) != AwsPrevious
  {
    if Label(a) == Label(b) {
      var la := Label(a);
      // the second character is '-' exactly for a negative second
      assert a < 0 ==> la[1] == '-';
      assert a >= 0 ==> la[1] == Decimal(a)[0] && la[1] != '-';
      assert b < 0 ==> Label(b)[1] == '-';
      assert b >= 0 ==> Label(b)[1] == Decimal(b)[0] && Label(b)[1] != '-';
      if a < 0 {
        assert Decimal(-a) == la[2..] == Label(b)[2..] == Decimal(-b);
        DecimalInjective(-a, -b);
      } else {
        assert Decimal(a) == la[1..] == Label(b)[1..] == Decimal(b);
        DecimalInjective(a, b);
      }
    }
    assert Label(a)[0] == 'v';
    assert AwsCurrent[0] == 'A' && AwsPrevious[0] == 'A';
  }

  // ---------------------------------------------------------------------
  // Sorting newest first (slices.SortFunc with the CreatedDate comparator)

  /** The comparator puts `a` strictly before `b`: both dated, `a` newer.
      An undated entry compares equal to everything. */
  predicate Precedes(a: VersionEntry, b: VersionEntry) {
    a.createdDate.Some? && b.createdDate.Some? && a.createdDate.value > b.createdDate.value
  }

  /** No entry comes after a strictly newer one. */
  ghost predicate NewestFirst(s: seq<VersionEntry>) {
    forall i, j :: 0 <= i < j < |s| ==> !Precedes(s[j], s[i])
  }

  predicate AllDated(s: seq<VersionEntry>) {
    forall i :: 0 <= i < |s| ==> s[i].createdDate.Some?
  }

  /** An entry that no later entry is newer than can head the listing. */
  lemma ConsKeepsOrder(h: VersionEntry, t: seq<VersionEntry>)
    requires NewestFirst(t)
    requires forall j :: 0 <= j < |t| ==> !Precedes(t[j], h)
    ensures NewestFirst([h] + t)
  {
    var s := [h] + t;
    forall i, j | 0 <= i < j < |s| ensures !Precedes(s[j], s[i]) {
      assert s[j] == t[j - 1];
      if i > 0 {
        assert s[i] == t[i - 1];
      }
    }
  }

  /** An entry inserted behind a newer head leaves the head first. */
  lemma InsertBehind(x: VersionEntry, s: seq<VersionEntry>, rest: seq<VersionEntry>)
    requires s != [] && Precedes(s[0], x) && NewestFirst(s)
    requires multiset(rest) == multiset(s[1..]) + multiset{x} && NewestFirst(rest)
    ensures NewestFirst([s[0]] + rest)
  {
    var t := s[1..];
    forall k | 0 <= k < |t| ensures !Precedes(t[k], s[0]) {
      assert t[k] == s[k + 1];
    }
    NoneNewer(s[0], x, t, rest);
    ConsKeepsOrder(s[0], rest);
  }

  /** An entry no older than the head of a newest-first list goes in front. */
  lemma InsertInFront(x: VersionEntry, s: seq<VersionEntry>)
    requires s != [] ==> !Precedes(s[0], x)
    requires AllDated(s) && x.createdDate.Some? && NewestFirst(s)
    ensures NewestFirst([x] + s)
  {
    forall j | 0 <= j < |s| ensures !Precedes(s[j], x) {
      if j > 0 { assert !Precedes(s[j], s[0]); }
    }
    ConsKeepsOrder(x, s);
  }

  /** Nothing in a rearrangement of `t` plus `x` is newer than `h` when
      nothing in `t`, nor `x`, is. */
  lemma NoneNewer(h: VersionEntry, x: VersionEntry, t: seq<VersionEntry>, r: seq<VersionEntry>)
    requires multiset(r) == multiset(t) + multiset{x}
    requires !Precedes(x, h)
    requires forall k :: 0 <= k < |t| ==> !Precedes(t[k], h)
    ensures forall j :: 0 <= j < |r| ==> !Precedes(r[j], h)
  {
    forall j | 0 <= j < |r| ensures !Precedes(r[j], h) {
      assert r[j] in multiset(r);
      if r[j] != x {
        assert r[j] in multiset(t);
        var k :| 0 <= k < |t| && t[k] == r[j];
      }
    }
  }

  function Insert(x: VersionEntry, s: seq<VersionEntry>): (r: seq<VersionEntry>)
    ensures multiset(r) == multiset(s) + multiset{x}
    ensures AllDated(s) && x.createdDate.Some? && NewestFirst(s) ==> NewestFirst(r)
  {
    if s == [] then [x]
    else if Precedes(s[0], x) then
      var rest := Insert(x, s[1..]);
      assert s == [s[0]] + s[1..];
      assert AllDated(s) && x.createdDate.Some? && NewestFirst(s) ==> NewestFirst([s[0]] + rest) by {
        if AllDated(s) && x.createdDate.Some? && NewestFirst(s) {
          assert AllDated(s[1..]) && NewestFirst(s[1..]);
          InsertBehind(x, s, rest);
        }
      }
      [s[0]] + rest
    else
      assert AllDated(s) && x.createdDate.Some? && NewestFirst(s) ==> NewestFirst([x] + s) by {
        if AllDated(s) && x.createdDate.Some? && NewestFirst(s) {
          InsertInFront(x, s);
        }
      }
      [x] + s
  }

  /** A permutation of an all-dated listing is all dated. */
  lemma PermutationKeepsDated(a: seq<VersionEntry>, b: seq<VersionEntry>)
    requires multiset(a) == multiset(b) && AllDated(a)
    ensures AllDated(b)
  {
    forall i | 0 <= i < |b| ensures b[i].createdDate.Some? {
      assert b[i] in multiset(a);
      var k :| 0 <= k < |a| && a[k] == b[i];
    }
  }

  /** The listing sorted newest first. Like Go's sort it is a permutation;
      the order is only determined when every entry has a CreatedDate (an
      undated entry makes the comparator inconsistent). */
  function SortNewestFirst(s: seq<VersionEntry>): (r: seq<VersionEntry>)
    ensures multiset(r) == multiset(s)
    ensures AllDated(s) ==> NewestFirst(r)
  {
    if s == [] then []
    else
      assert s == [s[0]] + s[1..];
      var rest := SortNewestFirst(s[1..]);
      assert AllDated(s) ==> AllDated(rest) by {
        if AllDated(s) {
          assert AllDated(s[1..]);
          PermutationKeepsDated(s[1..], rest);
        }
      }
      Insert(s[0], rest)
  }

  // ---------------------------------------------------------------------
  // Dropping the entries never touched (slices.DeleteFunc)

  /** An entry clean-up may touch: it has labels, and neither live label. */
  predicate Eligible(v: VersionEntry) {
    |v.versionStages| > 0 && AwsCurrent !in v.versionStages && AwsPrevious !in v.versionStages
  }

  /** A listing in newest-first order stays so without its head. */
  lemma NewestFirstTail(s: seq<VersionEntry>)
    requires |s| > 0 && NewestFirst(s)
    ensures NewestFirst(s[1..])
  {
    forall i, j | 0 <= i < j < |s[1..]| ensures !Precedes(s[1..][j], s[1..][i]) {
      assert s[1..][j] == s[j + 1] && s[1..][i] == s[i + 1];
    }
  }

  /** Nothing drawn from `t` is newer than `h` when nothing in `t` is. */
  lemma NoneNewerIn(h: VersionEntry, t: seq<VersionEntry>, r: seq<VersionEntry>)
    requires multiset(r) <= multiset(t)
    requires forall k :: 0 <= k < |t| ==> !Precedes(t[k], h)
    ensures forall j :: 0 <= j < |r| ==> !Precedes(r[j], h)
  {
    forall j | 0 <= j < |r| ensures !Precedes(r[j], h) {
      assert r[j] in multiset(r);
      assert r[j] in multiset(t);
      var k :| 0 <= k < |t| && t[k] == r[j];
    }
  }

  /** Keeping the head of a newest-first list in front of a newest-first
      selection from its tail keeps the order. */
  lemma KeepHead(s: seq<VersionEntry>, rest: seq<VersionEntry>)
    requires s != [] && NewestFirst(s)
    requires multiset(rest) <= multiset(s[1..]) && NewestFirst(rest)
    ensures NewestFirst([s[0]] + rest)
  {
    var t := s[1..];
    forall k | 0 <= k < |t| ensures !Precedes(t[k], s[0]) {
      assert t[k] == s[k + 1];
    }
    NoneNewerIn(s[0], t, rest);
    ConsKeepsOrder(s[0], rest);
  }

  /** `slices.DeleteFunc`: the eligible entries, each as often as it is
      listed, in their order; so a newest-first listing stays newest first. */
  function KeepEligible(s: seq<VersionEntry>): (r: seq<VersionEntry>)
    ensures forall i :: 0 <= i < |r| ==> Eligible(r[i])
    ensures forall e :: multiset(r)[e] == if Eligible(e) then multiset(s)[e] else 0
    ensures multiset(r) <= multiset(s)
    ensures forall e :: e in s && Eligible(e) ==> e in r
    ensures NewestFirst(s) ==> NewestFirst(r)
  {
    if s == [] then []
    else
      assert s == [s[0]] + s[1..];
      var rest := KeepEligible(s[1..]);
      assert NewestFirst(s) ==> NewestFirst(rest) by {
        if NewestFirst(s) { NewestFirstTail(s); }
      }
      if Eligible(s[0]) then
        assert NewestFirst(s) ==> NewestFirst([s[0]] + rest) by {
          if NewestFirst(s) { KeepHead(s, rest); }
        }
        [s[0]] + rest
      else
        rest
  }

  // ---------------------------------------------------------------------
  // The clean-up plan

  /** What `cleanVersionStages` decides. `SliceOutOfRange` is the case in
      which `vs[keepStages-2:]` is out of bounds and Go panics. */
  datatype Cleanup =
    | ListingFailed(err: string)
    | WithinLimit
    | SliceOutOfRange
    | Excess(kept: seq<VersionEntry>, excess: seq<VersionEntry>)

  /** Listing failure or at most `keepStages` versions: nothing to do.
      Otherwise sort newest first, drop unlabelled and live entries, keep
      the first `keepStages - 2` of the rest; the remainder is excess. */
  function PlanCleanup(listing: ListReply, keepStages: int): Cleanup {
    match listing
    case ListFailed(e) => ListingFailed(e)
    case Listed(vs) =>
      if |vs| <= keepStages then WithinLimit
      else
        SplitFiltered(KeepEligible(SortNewestFirst(vs)), keepStages)
  }

  /** `vs[:keepStages-2]` and `vs[keepStages-2:]` of the filtered listing;
      out of range when it is shorter than `keepStages - 2`. */
  function SplitFiltered(f: seq<VersionEntry>, keepStages: int): (c: Cleanup)
    ensures c.SliceOutOfRange? <==> keepStages < 2 || |f| < keepStages - 2
    ensures c.Excess? ==> c.kept + c.excess == f && |c.kept| == keepStages - 2
    ensures c.SliceOutOfRange? || c.Excess?
  {
    if keepStages - 2 < 0 || |f| < keepStages - 2 then SliceOutOfRange
    else
      assert f[..keepStages - 2] + f[keepStages - 2..] == f;
      Excess(f[..keepStages - 2], f[keepStages - 2..])
  }

  /** The detach requests for one excess entry: one per label, none for an
      entry without a VersionId or without labels. */
  function DetachOne(e: VersionEntry): seq<StageUpdate> {
    if e.versionId.None? || |e.versionStages| == 0 then []
    else seq(|e.versionStages|, j requires 0 <= j < |e.versionStages| => Detach(e.versionId.value, e.versionStages[j]))
  }

  /** The detach requests for the excess entries, in order. */
  function DetachAll(es: seq<VersionEntry>): seq<StageUpdate>
    decreases |es|
  {
    if es == [] then [] else DetachAll(es[..|es| - 1]) + DetachOne(es[|es| - 1])
  }

  /** The mutations a clean-up issues. */
  function CleanupRequests(c: Cleanup): seq<StageUpdate> {
    if c.Excess? then DetachAll(c.excess) else []
  }

  /** `u` detaches label number `j` of entry `e`. */
  predicate DetachesLabel(e: VersionEntry, j: int, u: StageUpdate) {
    e.versionId.Some? && 0 <= j < |e.versionStages| && u == Detach(e.versionId.value, e.versionStages[j])
  }

  /** The requests are exactly one detach per label of each excess entry
      that has a VersionId. */
  lemma {:induction false} DetachAllMembers(es: seq<VersionEntry>, u: StageUpdate)
    ensures u in DetachAll(es) <==> exists i, j :: 0 <= i < |es| && DetachesLabel(es[i], j, u)
    decreases |es|
  {
    if es != [] {
      var init, e := es[..|es| - 1], es[|es| - 1];
      DetachAllMembers(init, u);
      DetachOneMembers(e, u);
      assert u in DetachAll(es) <==> u in DetachAll(init) || u in DetachOne(e);
      if exists i, j :: 0 <= i < |es| && DetachesLabel(es[i], j, u) {
        var i, j :| 0 <= i < |es| && DetachesLabel(es[i], j, u);
        if i < |init| {
          assert DetachesLabel(init[i], j, u);
        } else {
          assert DetachesLabel(e, j, u);
        }
      }
      if exists i, j :: 0 <= i < |init| && DetachesLabel(init[i], j, u) {
        var i, j :| 0 <= i < |init| && DetachesLabel(init[i], j, u);
        assert DetachesLabel(es[i], j, u);
      }
      if exists j :: DetachesLabel(e, j, u) {
        var j :| DetachesLabel(e, j, u);
        assert DetachesLabel(es[|es| - 1], j, u);
      }
    }
  }

  /** The detaches of one entry are one per label, when it has a VersionId. */
  lemma DetachOneMembers(e: VersionEntry, u: StageUpdate)
    ensures u in DetachOne(e) <==> exists j :: DetachesLabel(e, j, u)
  {
    if u in DetachOne(e) {
      var j :| 0 <= j < |DetachOne(e)| && DetachOne(e)[j] == u;
      assert DetachesLabel(e, j, u);
    }
    if exists j :: DetachesLabel(e, j, u) {
      var j :| DetachesLabel(e, j, u);
      assert DetachOne(e)[j] == u;
    }
  }

  lemma DetachAllSnoc(es: seq<VersionEntry>, e: VersionEntry)
    ensures DetachAll(es + [e]) == DetachAll(es) + DetachOne(e)
  {
    assert (es + [e])[..|es|] == es;
  }

  lemma DetachAllPrefix(es: seq<VersionEntry>, i: int)
    requires 0 <= i < |es|
    ensures DetachAll(es[..i + 1]) == DetachAll(es[..i]) + DetachOne(es[i])
  {
    assert es[..i + 1] == es[..i] + [es[i]];
    DetachAllSnoc(es[..i], es[i]);
  }

  /** One more excess entry appends its detaches to the requests recorded
      so far, and their lines to the log; an entry without a VersionId or
      labels appends none. */
  lemma DetachStep(es: seq<VersionEntry>, i: int, replies: StageUpdate -> UpdateReply, suppressInvalid: bool,
                   updates: seq<StageUpdate>, logs: seq<LogLine>)
    requires 0 <= i < |es|
    ensures updates + DetachAll(es[..i + 1]) == (updates + DetachAll(es[..i])) + DetachOne(es[i])
    ensures logs + UpdateLogs(DetachAll(es[..i + 1]), replies, suppressInvalid) ==
      (logs + UpdateLogs(DetachAll(es[..i]), replies, suppressInvalid)) + UpdateLogs(DetachOne(es[i]), replies, suppressInvalid)
    ensures es[i].versionId.None? || |es[i].versionStages| == 0 ==>
      DetachOne(es[i]) == [] && UpdateLogs(DetachOne(es[i]), replies, suppressInvalid) == []
  {
    DetachAllPrefix(es, i);
    UpdateLogsAppend(DetachAll(es[..i]), DetachOne(es[i]), replies, suppressInvalid);
    AppendAssoc(updates, DetachAll(es[..i]), DetachOne(es[i]));
    AppendAssoc(logs, UpdateLogs(DetachAll(es[..i]), replies, suppressInvalid),
                UpdateLogs(DetachOne(es[i]), replies, suppressInvalid));
  }

  /** One more label of an entry appends its detach to the requests
      recorded so far, and that detach's line to the log. */
  lemma DetachLabelStep(v: VersionEntry, j: int, replies: StageUpdate -> UpdateReply, suppressInvalid: bool,
                        updates: seq<StageUpdate>, logs: seq<LogLine>)
    requires v.versionId.Some? && 0 <= j < |v.versionStages|
    ensures var u := Detach(v.versionId.value, v.versionStages[j]);
      updates + DetachOne(v)[..j + 1] == (updates + DetachOne(v)[..j]) + [u] &&
      logs + UpdateLogs(DetachOne(v)[..j + 1], replies, suppressInvalid) ==
        (logs + UpdateLogs(DetachOne(v)[..j], replies, suppressInvalid)) + UpdateLog(u, replies(u), suppressInvalid)
  {
    var u := Detach(v.versionId.value, v.versionStages[j]);
    assert DetachOne(v)[..j + 1] == DetachOne(v)[..j] + [u];
    UpdateLogsSnoc(DetachOne(v)[..j], u, replies, suppressInvalid);
    AppendAssoc(updates, DetachOne(v)[..j], [u]);
    AppendAssoc(logs, UpdateLogs(DetachOne(v)[..j], replies, suppressInvalid), UpdateLog(u, replies(u), suppressInvalid));
  }

  /** No mutation at all unless the listing succeeded with more than
      `keepStages` versions and the slice was in range. */
  lemma CleanupQuietCases(listing: ListReply, keepStages: int)
    ensures listing.ListFailed? ==> CleanupRequests(PlanCleanup(listing, keepStages)) == []
    ensures listing.Listed? && |listing.versions| <= keepStages ==>
      CleanupRequests(PlanCleanup(listing, keepStages)) == []
    ensures CleanupRequests(PlanCleanup(listing, keepStages)) != [] ==>
      listing.Listed? && |listing.versions| > keepStages && PlanCleanup(listing, keepStages).Excess?
  {
  }

  /** The plan splits the sorted, filtered listing: `kept` is its first
      `keepStages - 2` entries and `excess` the rest, so every entry in
      either part carries labels and neither live label; Go panics exactly
      when the filtered listing is shorter than `keepStages - 2`. */
  lemma PlanSplitsFiltered(vs: seq<VersionEntry>, keepStages: int)
    requires |vs| > keepStages
    ensures var c := PlanCleanup(Listed(vs), keepStages);
            var f := KeepEligible(SortNewestFirst(vs));
      (c.SliceOutOfRange? <==> keepStages < 2 || |f| < keepStages - 2) &&
      (c.Excess? ==> c.kept + c.excess == f && |c.kept| == keepStages - 2)
  {
    assert PlanCleanup(Listed(vs), keepStages) == SplitFiltered(KeepEligible(SortNewestFirst(vs)), keepStages);
  }

  /** Splitting a newest-first list leaves nothing in the tail newer than
      anything in the head. */
  lemma SplitKeepsOrder(f: seq<VersionEntry>, keepStages: int)
    requires NewestFirst(f) && SplitFiltered(f, keepStages).Excess?
    ensures var c := SplitFiltered(f, keepStages);
      forall a, b :: 0 <= a < |c.kept| && 0 <= b < |c.excess| ==> !Precedes(c.excess[b], c.kept[a])
  {
    var c := SplitFiltered(f, keepStages);
    forall a, b | 0 <= a < |c.kept| && 0 <= b < |c.excess|
      ensures !Precedes(c.excess[b], c.kept[a])
    {
      assert c.kept[a] == f[a] && c.excess[b] == f[|c.kept| + b];
    }
  }

  /** Clean-up keeps the newest eligible versions: when every version is
      dated, no excess version is newer than a kept one. */
  lemma KeptAreNewest(vs: seq<VersionEntry>, keepStages: int)
    requires AllDated(vs)
    requires PlanCleanup(Listed(vs), keepStages).Excess?
    ensures var c := PlanCleanup(Listed(vs), keepStages);
      forall a, b :: 0 <= a < |c.kept| && 0 <= b < |c.excess| ==> !Precedes(c.excess[b], c.kept[a])
  {
    var sorted := SortNewestFirst(vs);
    var f := KeepEligible(sorted);
    assert PlanCleanup(Listed(vs), keepStages) == SplitFiltered(f, keepStages);
    SplitKeepsOrder(f, keepStages);
  }

  /** Kept and excess versions together are exactly the eligible versions
      of the listing, each as often as it is listed. */
  lemma SplitCoversEligible(vs: seq<VersionEntry>, keepStages: int)
    requires PlanCleanup(Listed(vs), keepStages).Excess?
    ensures var c := PlanCleanup(Listed(vs), keepStages);
      forall e :: multiset(c.kept + c.excess)[e] == if Eligible(e) then multiset(vs)[e] else 0
  {
    var sorted := SortNewestFirst(vs);
    var f := KeepEligible(sorted);
    var c := SplitFiltered(f, keepStages);
    assert PlanCleanup(Listed(vs), keepStages) == c;
    assert c.kept + c.excess == f;
    assert multiset(sorted) == multiset(vs);
  }

  /** The live labels and unlabelled entries are never detached: every
      request of a clean-up detaches a label of an eligible listed entry,
      and that label is neither AWSCURRENT nor AWSPREVIOUS. Conversely every
      label of every excess entry with a VersionId is detached. */
  lemma CleanupTouchesOnlyExcess(listing: ListReply, keepStages: int, u: StageUpdate)
    ensures var c := PlanCleanup(listing, keepStages);
      u in CleanupRequests(c) <==>
        c.Excess? && exists i, j :: 0 <= i < |c.excess| && DetachesLabel(c.excess[i], j, u)
    ensures u in CleanupRequests(PlanCleanup(listing, keepStages)) ==>
      u.Detach? && u.stage != AwsCurrent && u.stage != AwsPrevious &&
      exists e :: e in listing.versions && Eligible(e) && e.versionId == Some(u.removeFromVersionId) &&
                  u.stage in e.versionStages
  {
    var c := PlanCleanup(listing, keepStages);
    if c.Excess? {
      DetachAllMembers(c.excess, u);
      if u in CleanupRequests(c) {
        var i, j :| 0 <= i < |c.excess| && DetachesLabel(c.excess[i], j, u);
        var e := c.excess[i];
        var vs := listing.versions;
        var f := KeepEligible(SortNewestFirst(vs));
        assert f[keepStages - 2..][i] == e;
        assert e in multiset(f);
        assert e in multiset(vs);
        assert Eligible(e) && e.versionStages[j] in e.versionStages;
      }
    }
  }

  /** Version IDs of the listing are unique (Secrets Manager's own
      invariant). */
  ghost predicate DistinctIds(vs: seq<VersionEntry>) {
    forall i, j :: 0 <= i < j < |vs| && vs[i].versionId.Some? ==> vs[i].versionId != vs[j].versionId
  }

  lemma {:induction false} OnceAtMost(vs: seq<VersionEntry>, e: VersionEntry)
    requires DistinctIds(vs) && e.versionId.Some?
    ensures multiset(vs)[e] <= 1
    decreases |vs|
  {
    if vs != [] {
      assert vs == [vs[0]] + vs[1..];
      assert DistinctIds(vs[1..]) by {
        forall i, j | 0 <= i < j < |vs[1..]| && vs[1..][i].versionId.Some?
          ensures vs[1..][i].versionId != vs[1..][j].versionId
        {
          assert vs[1..][i] == vs[i + 1] && vs[1..][j] == vs[j + 1];
        }
      }
      OnceAtMost(vs[1..], e);
      if vs[0] == e {
        forall k | 0 <= k < |vs[1..]| ensures vs[1..][k] != e {
          assert vs[0].versionId != vs[k + 1].versionId;
        }
        assert e !in multiset(vs[1..]);
      }
    }
  }

  lemma DistinctPair(vs: seq<VersionEntry>, a: int, b: int)
    requires DistinctIds(vs) && 0 <= a < |vs| && 0 <= b < |vs| && a != b
    requires vs[a].versionId.Some?
    ensures vs[a].versionId != vs[b].versionId
  {
    if a < b {
      assert vs[a].versionId != vs[b].versionId;
    } else {
      assert vs[b].versionId.Some? ==> vs[b].versionId != vs[a].versionId;
    }
  }

  /** With unique version IDs, the versions clean-up keeps (the newest
      `keepStages - 2` eligible ones), the live versions and the unlabelled
      ones are left untouched: no request names their VersionId. */
  lemma CleanupSparesKeptAndLive(vs: seq<VersionEntry>, keepStages: int, u: StageUpdate, e: VersionEntry)
    requires DistinctIds(vs)
    requires PlanCleanup(Listed(vs), keepStages).Excess?
    requires u in CleanupRequests(PlanCleanup(Listed(vs), keepStages))
    requires e in vs && e.versionId.Some?
    requires e in PlanCleanup(Listed(vs), keepStages).kept || !Eligible(e)
    ensures u.Detach? && u.removeFromVersionId != e.versionId.value
  {
    var c := PlanCleanup(Listed(vs), keepStages);
    var f := KeepEligible(SortNewestFirst(vs));
    PlanSplitsFiltered(vs, keepStages);
    DetachAllMembers(c.excess, u);
    var i, j :| 0 <= i < |c.excess| && DetachesLabel(c.excess[i], j, u);
    var x := c.excess[i];
    assert x in multiset(c.excess);
    assert multiset(f) == multiset(c.kept) + multiset(c.excess);
    OnceAtMost(vs, x);
    assert multiset(f)[x] <= multiset(vs)[x] <= 1;
    assert x !in c.kept;
    assert x in f;
    assert x != e;
    assert x in multiset(vs);
    var a :| 0 <= a < |vs| && vs[a] == x;
    var b :| 0 <= b < |vs| && vs[b] == e;
    DistinctPair(vs, a, b);
  }

  // ---------------------------------------------------------------------
  // Logging the stage updates

  /** The line `updateSecretStage` logs for one request and its reply. When
      `suppressInvalid` holds (secrets/provider.go) an
      InvalidParameterException is not logged; otherwise (secrets/secrets.go)
      every failure is warned. */
  function UpdateLog(u: StageUpdate, reply: UpdateReply, suppressInvalid: bool): seq<LogLine> {
    match reply
    case UpdateOk => [Info(ActionOf(u), u.stage)]
    case InvalidParameter(m) => if suppressInvalid then [] else [Warn(ActionOf(u), u.stage, m)]
    case OtherFailure(m) => [Warn(ActionOf(u), u.stage, m)]
  }

  /** The lines logged for a sequence of requests, in order. */
  function UpdateLogs(ups: seq<StageUpdate>, replies: StageUpdate -> UpdateReply, suppressInvalid: bool): seq<LogLine>
    decreases |ups|
  {
    if ups == [] then []
    else UpdateLogs(ups[..|ups| - 1], replies, suppressInvalid) + UpdateLog(ups[|ups| - 1], replies(ups[|ups| - 1]), suppressInvalid)
  }

  lemma UpdateLogsSnoc(ups: seq<StageUpdate>, u: StageUpdate, replies: StageUpdate -> UpdateReply, suppressInvalid: bool)
    ensures UpdateLogs(ups + [u], replies, suppressInvalid) ==
            UpdateLogs(ups, replies, suppressInvalid) + UpdateLog(u, replies(u), suppressInvalid)
  {
    assert (ups + [u])[..|ups|] == ups;
  }

  lemma {:induction false} UpdateLogsAppend(a: seq<StageUpdate>, b: seq<StageUpdate>, replies: StageUpdate -> UpdateReply, suppressInvalid: bool)
    ensures UpdateLogs(a + b, replies, suppressInvalid) ==
            UpdateLogs(a, replies, suppressInvalid) + UpdateLogs(b, replies, suppressInvalid)
    decreases |b|
  {
    if b == [] {
      assert a + b == a;
    } else {
      var init, last := b[..|b| - 1], b[|b| - 1];
      assert a + b == (a + init) + [last];
      UpdateLogsSnoc(a + init, last, replies, suppressInvalid);
      UpdateLogsAppend(a, init, replies, suppressInvalid);
    }
  }

  /** The logs never carry an error back to the caller, and say this much
      about each request: a success is logged at info, an error other than
      InvalidParameterException is warned with its message, and an
      InvalidParameterException is warned exactly when `suppressInvalid`
      is false. Every line is one of these. */
  lemma {:induction false} UpdateLogsClassify(ups: seq<StageUpdate>, replies: StageUpdate -> UpdateReply, suppressInvalid: bool)
    ensures forall u :: u in ups && replies(u).UpdateOk? ==>
      Info(ActionOf(u), u.stage) in UpdateLogs(ups, replies, suppressInvalid)
    ensures forall u :: u in ups && replies(u).OtherFailure? ==>
      Warn(ActionOf(u), u.stage, replies(u).msg) in UpdateLogs(ups, replies, suppressInvalid)
    ensures forall u :: u in ups && replies(u).InvalidParameter? && !suppressInvalid ==>
      Warn(ActionOf(u), u.stage, replies(u).msg) in UpdateLogs(ups, replies, suppressInvalid)
    ensures forall l :: l in UpdateLogs(ups, replies, suppressInvalid) ==>
      exists u :: u in ups && l in UpdateLog(u, replies(u), suppressInvalid)
    ensures suppressInvalid ==> forall l :: l in UpdateLogs(ups, replies, suppressInvalid) && l.Warn? ==>
      exists u :: u in ups && replies(u) == OtherFailure(l.err)
    decreases |ups|
  {
    if ups != [] {
      var init, last := ups[..|ups| - 1], ups[|ups| - 1];
      UpdateLogsClassify(init, replies, suppressInvalid);
      assert ups == init + [last];
      forall l | l in UpdateLogs(ups, replies, suppressInvalid)
        ensures exists u :: u in ups && l in UpdateLog(u, replies(u), suppressInvalid)
      {
        if l in UpdateLogs(init, replies, suppressInvalid) {
          var u :| u in init && l in UpdateLog(u, replies(u), suppressInvalid);
          assert u in ups;
        } else {
          assert l in UpdateLog(last, replies(last), suppressInvalid);
        }
      }
    }
  }

  /** The lines a clean-up logs: the listing failure, else one per request. */
  function CleanupLogs(c: Cleanup, replies: StageUpdate -> UpdateReply, suppressInvalid: bool): seq<LogLine> {
    if c.ListingFailed? then [ListWarn(c.err)] else UpdateLogs(CleanupRequests(c), replies, suppressInvalid)
  }

  // ---------------------------------------------------------------------
  // Rotating the timestamp label onto a fetched version

  /** What a fetch whose version stages are to be maintained does:
      nothing if the version already carries its label; a nil CreatedDate
      panics in `Format`; otherwise clean up, then attach `stage`. */
  datatype Rotation = NoRotation | NilCreatedDate | Rotate(stage: string, cleanup: Cleanup)

  function PlanRotation(v: SecretValue, listing: ListReply, keepStages: int): (rot: Rotation)
    ensures rot.Rotate? ==>
      v.createdDate.Some? && rot.stage == Label(v.createdDate.value) && rot.stage !in v.versionStages
    ensures rot.NoRotation? <==> v.createdDate.Some? && Label(v.createdDate.value) in v.versionStages
  {
    match v.createdDate
    case None => NilCreatedDate
    case Some(t) =>
      if Label(t) in v.versionStages then NoRotation
      else Rotate(Label(t), PlanCleanup(listing, keepStages))
  }

  /** The rotation stops with a Go panic. */
  predicate Panics(rot: Rotation) {
    rot.NilCreatedDate? || (rot.Rotate? && rot.cleanup.SliceOutOfRange?)
  }

  /** The UpdateSecretVersionStage calls of a rotation, in order. */
  function RotationRequests(v: SecretValue, rot: Rotation): seq<StageUpdate> {
    if rot.Rotate? && !rot.cleanup.SliceOutOfRange? then
      CleanupRequests(rot.cleanup) + [Attach(v.versionId, rot.stage)]
    else []
  }

  /** The lines a rotation logs. */
  function RotationLogs(v: SecretValue, rot: Rotation, replies: StageUpdate -> UpdateReply, suppressInvalid: bool): seq<LogLine> {
    if rot.Rotate? && !rot.cleanup.SliceOutOfRange? then
      var attach := Attach(v.versionId, rot.stage);
      CleanupLogs(rot.cleanup, replies, suppressInvalid) + UpdateLog(attach, replies(attach), suppressInvalid)
    else []
  }

  /** A rotation mutates something only when it attaches a label the
      version lacks; then the clean-up's detaches come first and the attach
      of that label to the fetched version comes last, exactly once. */
  lemma RotationOrder(v: SecretValue, rot: Rotation)
    ensures !rot.Rotate? || Panics(rot) ==> RotationRequests(v, rot) == []
    ensures RotationRequests(v, rot) != [] ==>
      var rs := RotationRequests(v, rot);
      rot.Rotate? && rs[|rs| - 1] == Attach(v.versionId, rot.stage) &&
      forall i :: 0 <= i < |rs| - 1 ==> rs[i].Detach?
  {
    if rot.Rotate? && !rot.cleanup.SliceOutOfRange? {
      var c := rot.cleanup;
      var rs := RotationRequests(v, rot);
      forall i | 0 <= i < |rs| - 1 ensures rs[i].Detach? {
        assert rs[i] == CleanupRequests(c)[i];
        assert rs[i] in CleanupRequests(c);
        if c.Excess? {
          DetachAllMembers(c.excess, rs[i]);
        }
      }
    }
  }

  // ---------------------------------------------------------------------
  // One poll tick and a run of ticks

  /** An error of one fetch. `LoadConfigFailed` only arises in
      secrets/secrets.go, which loads the AWS configuration on every fetch. */
  datatype SecretError =
    | LoadConfigFailed(secretID: string, cause: string)
    | GetSecretValueFailed(secretID: string, cause: string)
    | EmptyValue(secretID: string)

  /** What one fetch ends in: the secret, an error, or a Go panic. */
  datatype Outcome = Fetched(value: SecretValue) | Failed(error: SecretError) | Panicked

  /** The secret string of a value ("" stands in for nil, which a fetch
      never lets through). */
  function TextOf(v: SecretValue): string {
    match v.secretString
    case None => ""
    case Some(t) => t
  }

  /** What `Get` returns: a reader over the secret string, or the error;
      a panic propagates to the caller. */
  datatype ReadResult = Reader(text: string) | ReadFailed(error: SecretError) | ReadPanicked

  function ReadOf(o: Outcome): ReadResult {
    match o
    case Fetched(v) => Reader(TextOf(v))
    case Failed(e) => ReadFailed(e)
    case Panicked => ReadPanicked
  }

  /** What a tick pushes on the channel and hands to the change callback. */
  datatype Emission = Emission(versionId: string, value: string)

  /** The remembered version after a tick, what it emits, and whether the
      watch goroutine ends. */
  datatype Step = Step(versionId: string, pushed: Option<Emission>, stopped: bool)

  /** What the watch goroutine does over consecutive ticks, up to and
      including the first panic: what it pushes, the version it ends up
      remembering, how many ticks run, and the requests and lines those
      ticks issue. */
  datatype Run = Run(pushed: seq<Emission>, versionId: string, ticks: nat, requests: seq<StageUpdate>, logs: seq<LogLine>)

  /** The run of no tick, remembering `versionId`. */
  function Idle(versionId: string): Run {
    Run([], versionId, 0, [], [])
  }

  /** The run of one tick that took step `s` and issued `requests` and
      `logs`. */
  function StepRun(s: Step, requests: seq<StageUpdate>, logs: seq<LogLine>): Run {
    Run(if s.pushed.Some? then [s.pushed.value] else [], s.versionId, 1, requests, logs)
  }

  /** Run `a`, then run `b`: everything in order, ending where `b` ends. */
  function Then(a: Run, b: Run): (r: Run)
    ensures r.versionId == b.versionId && r.ticks == a.ticks + b.ticks
    ensures a.pushed <= r.pushed && a.requests <= r.requests && a.logs <= r.logs
  {
    Run(a.pushed + b.pushed, b.versionId, a.ticks + b.ticks, a.requests + b.requests, a.logs + b.logs)
  }

  lemma ThenAssoc(a: Run, b: Run, c: Run)
    ensures Then(Then(a, b), c) == Then(a, Then(b, c))
  {
    AppendAssoc(a.pushed, b.pushed, c.pushed);
    AppendAssoc(a.requests, b.requests, c.requests);
    AppendAssoc(a.logs, b.logs, c.logs);
  }

  lemma ThenIdle(a: Run, versionId: string)
    ensures Then(a, Idle(versionId)) == a.(versionId := versionId)
    ensures Then(Idle(versionId), a) == a
  {
    assert a.pushed + [] == a.pushed && a.requests + [] == a.requests && a.logs + [] == a.logs;
  }

  /** One tick: a panic ends the goroutine; an error is skipped; an
      unchanged version is skipped; a new version is remembered, then
      emitted. */
  function TickStep(current: string, o: Outcome): (s: Step)
    ensures s.pushed.Some? <==> o.Fetched? && o.value.versionId != current
    ensures s.pushed.Some? ==> s.pushed.value == Emission(o.value.versionId, TextOf(o.value))
    ensures s.versionId == (if s.pushed.Some? then o.value.versionId else current)
    ensures s.stopped <==> o.Panicked?
  {
    match o
    case Panicked => Step(current, None, true)
    case Failed(_) => Step(current, None, false)
    case Fetched(v) =>
      if v.versionId == current then Step(current, None, false)
      else Step(v.versionId, Some(Emission(v.versionId, TextOf(v))), false)
  }

  /** The emissions of consecutive ticks, up to the first panic. */
  function Emissions(current: string, os: seq<Outcome>): seq<Emission>
    decreases |os|
  {
    if os == [] then []
    else
      var s := TickStep(current, os[0]);
      (if s.pushed.Some? then [s.pushed.value] else []) +
      (if s.stopped then [] else Emissions(s.versionId, os[1..]))
  }

  /** The remembered version after consecutive ticks. */
  function FinalVersion(current: string, os: seq<Outcome>): string
    decreases |os|
  {
    if os == [] then current
    else
      var s := TickStep(current, os[0]);
      if s.stopped then s.versionId else FinalVersion(s.versionId, os[1..])
  }

  /** The number of ticks run: all of them, or up to the first panic. */
  function TicksRun(os: seq<Outcome>): (n: nat)
    ensures n <= |os|
    decreases |os|
  {
    if os == [] then 0 else if os[0].Panicked? then 1 else 1 + TicksRun(os[1..])
  }

  /** One more tick, read off the run from tick `i` on. */
  lemma PollStep(current: string, os: seq<Outcome>, i: int)
    requires 0 <= i < |os|
    ensures var s := TickStep(current, os[i]);
      Emissions(current, os[i..]) ==
        (if s.pushed.Some? then [s.pushed.value] else []) +
        (if s.stopped then [] else Emissions(s.versionId, os[i + 1..])) &&
      FinalVersion(current, os[i..]) == (if s.stopped then s.versionId else FinalVersion(s.versionId, os[i + 1..])) &&
      TicksRun(os[i..]) == (if s.stopped then 1 else 1 + TicksRun(os[i + 1..]))
  {
    assert os[i..][0] == os[i];
    assert os[i..][1..] == os[i + 1..];
  }

  /** Each emission carries a version other than the one remembered before
      it: the first differs from the starting version, and no two
      consecutive emissions carry the same version. */
  lemma {:induction false} EmissionsChangeVersion(current: string, os: seq<Outcome>)
    ensures var e := Emissions(current, os);
      (|e| > 0 ==> e[0].versionId != current) &&
      (forall i :: 0 < i < |e| ==> e[i].versionId != e[i - 1].versionId)
    decreases |os|
  {
    if os != [] {
      var s := TickStep(current, os[0]);
      if !s.stopped {
        EmissionsChangeVersion(s.versionId, os[1..]);
        var tail := Emissions(s.versionId, os[1..]);
        var e := Emissions(current, os);
        if s.pushed.Some? {
          assert e == [s.pushed.value] + tail;
          forall i | 0 < i < |e| ensures e[i].versionId != e[i - 1].versionId {
            if i > 1 {
              assert e[i] == tail[i - 1] && e[i - 1] == tail[i - 2];
            }
          }
        } else {
          assert e == tail;
        }
      }
    }
  }

  /** Starting from v1, the ticks v1, v1, v2, v2, v3 emit v2 then v3. */
  lemma ScenarioRotatingVersions(s1: string, s2: string, s3: string)
    ensures var v1 := Fetched(SecretValue(Some(s1), "v1", Some(1), [AwsCurrent]));
            var v2 := Fetched(SecretValue(Some(s2), "v2", Some(2), [AwsCurrent]));
            var v3 := Fetched(SecretValue(Some(s3), "v3", Some(3), [AwsCurrent]));
      Emissions("v1", [v1, v1, v2, v2, v3]) == [Emission("v2", s2), Emission("v3", s3)] &&
      FinalVersion("v1", [v1, v1, v2, v2, v3]) == "v3"
  {
    var v1 := Fetched(SecretValue(Some(s1), "v1", Some(1), [AwsCurrent]));
    var v2 := Fetched(SecretValue(Some(s2), "v2", Some(2), [AwsCurrent]));
    var v3 := Fetched(SecretValue(Some(s3), "v3", Some(3), [AwsCurrent]));
    var os := [v1, v1, v2, v2, v3];
    assert os[1..][1..][1..][1..][1..] == [];
    assert Emissions("v2", [v3]) == [Emission("v3", s3)];
    assert Emissions("v2", [v2, v3]) == [Emission("v3", s3)];
    assert Emissions("v1", [v2, v2, v3]) == [Emission("v2", s2), Emission("v3", s3)];
    assert Emissions("v1", [v1, v2, v2, v3]) == [Emission("v2", s2), Emission("v3", s3)];
    assert FinalVersion("v2", [v3]) == "v3";
    assert FinalVersion("v2", [v2, v3]) == "v3";
    assert FinalVersion("v1", [v2, v2, v3]) == "v3";
    assert FinalVersion("v1", [v1, v2, v2, v3]) == "v3";
  }
}
