/** The older Secrets Manager provider of secrets/secrets.go. It differs from
    secrets/provider.go in three ways the model keeps: every fetch loads the
    AWS configuration first (and may fail there), the timestamp label is
    maintained on every fetch (there is no `updateStage` switch), and
    `updateSecretStage` warns about every failed request. Its watch
    goroutine has no `recover`, so a panic in a fetch ends the process.

    As in SecretsProvider, the AWS client is replaced by its replies and the
    requests issued and lines logged are recorded in order. */
module SecretsLegacy {
  import opened Common
  import opened SecretsShared

  /** This provider warns about every failed stage update, an
      InvalidParameterException included. */
  const SuppressesInvalidParameter: bool := false

  /** The replies one fetch sees: the error of `LoadDefaultConfig`, if any,
      the reply to GetSecretValue and the reply ListSecretVersionIds would
      give. */
  datatype Fetch = Fetch(loadError: Option<string>, reply: GetSecretReply, listing: ListReply)

  /** What `get` ends in. */
  function FetchOutcome(secretID: string, keepStages: int, f: Fetch): Outcome {
    if f.loadError.Some? then Failed(LoadConfigFailed(secretID, f.loadError.value))
    else
      match f.reply
      case GetFailed(e) => Failed(GetSecretValueFailed(secretID, e))
      case NilOutput => Failed(EmptyValue(secretID))
      case Output(v) =>
        if !HasValue(v) then Failed(EmptyValue(secretID))
        else if Panics(PlanRotation(v, f.listing, keepStages)) then Panicked
        else Fetched(v)
  }

  /** The UpdateSecretVersionStage requests `get` issues. */
  function FetchRequests(keepStages: int, f: Fetch): seq<StageUpdate> {
    if f.loadError.Some? then []
    else
      match f.reply
      case Output(v) => if HasValue(v) then RotationRequests(v, PlanRotation(v, f.listing, keepStages)) else []
      case _ => []
  }

  /** The lines `get` logs. */
  function FetchLogs(keepStages: int, f: Fetch, replies: StageUpdate -> UpdateReply): seq<LogLine> {
    if f.loadError.Some? then []
    else
      match f.reply
      case Output(v) =>
        if HasValue(v) then RotationLogs(v, PlanRotation(v, f.listing, keepStages), replies, SuppressesInvalidParameter)
        else []
      case _ => []
  }

  /** A configuration failure, a failed call, a nil result, a nil or an
      empty SecretString end in an error and touch no version stage; a
      usable value is returned as fetched unless the rotation panics. */
  lemma FetchErrors(secretID: string, keepStages: int, f: Fetch)
    ensures f.loadError.Some? ==>
      FetchOutcome(secretID, keepStages, f) == Failed(LoadConfigFailed(secretID, f.loadError.value))
    ensures f.loadError.None? && f.reply.GetFailed? ==>
      FetchOutcome(secretID, keepStages, f) == Failed(GetSecretValueFailed(secretID, f.reply.err))
    ensures f.loadError.None? && (f.reply.NilOutput? || (f.reply.Output? && !HasValue(f.reply.value))) ==>
      FetchOutcome(secretID, keepStages, f) == Failed(EmptyValue(secretID))
    ensures FetchOutcome(secretID, keepStages, f).Failed? ==>
      FetchRequests(keepStages, f) == [] && FetchLogs(keepStages, f, _ => UpdateOk) == []
    ensures FetchOutcome(secretID, keepStages, f).Fetched? ==>
      f.loadError.None? && f.reply.Output? && HasValue(f.reply.value) &&
      FetchOutcome(secretID, keepStages, f).value == f.reply.value
  {
  }

  /** Rotation has no switch here: every usable fetch whose version lacks
      its timestamp label cleans up and then attaches the label to the
      fetched version (unless clean-up panics); a fetch whose version has
      the label issues nothing. */
  lemma RotationOnEveryFetch(secretID: string, keepStages: int, f: Fetch)
    ensures var rs := FetchRequests(keepStages, f);
      rs != [] ==>
        f.loadError.None? && f.reply.Output? && HasValue(f.reply.value) &&
        f.reply.value.createdDate.Some? && Label(f.reply.value.createdDate.value) !in f.reply.value.versionStages &&
        rs[|rs| - 1] == Attach(f.reply.value.versionId, Label(f.reply.value.createdDate.value)) &&
        (forall i :: 0 <= i < |rs| - 1 ==> rs[i].Detach?)
    ensures f.loadError.None? && f.reply.Output? && HasValue(f.reply.value) &&
            f.reply.value.createdDate.Some? &&
            Label(f.reply.value.createdDate.value) !in f.reply.value.versionStages &&
            FetchOutcome(secretID, keepStages, f).Fetched? ==>
      var rs := FetchRequests(keepStages, f);
      rs != [] && rs[|rs| - 1] == Attach(f.reply.value.versionId, Label(f.reply.value.createdDate.value))
    ensures f.reply.Output? && f.reply.value.createdDate.Some? &&
            Label(f.reply.value.createdDate.value) in f.reply.value.versionStages ==>
      FetchRequests(keepStages, f) == []
  {
    if f.loadError.None? && f.reply.Output? && HasValue(f.reply.value) {
      RotationOrder(f.reply.value, PlanRotation(f.reply.value, f.listing, keepStages));
    }
  }

  /** Every failed stage update is warned with its error, whatever the
      error; a success is logged at info. */
  lemma UpdateLogWarnsEveryFailure(u: StageUpdate, reply: UpdateReply)
    ensures reply.UpdateOk? ==> UpdateLog(u, reply, SuppressesInvalidParameter) == [Info(ActionOf(u), u.stage)]
    ensures !reply.UpdateOk? ==> UpdateLog(u, reply, SuppressesInvalidParameter) == [Warn(ActionOf(u), u.stage, reply.msg)]
  {
  }

  /** The outcomes of consecutive fetches. */
  function OutcomesOf(secretID: string, keepStages: int, fs: seq<Fetch>): (os: seq<Outcome>)
    ensures |os| == |fs|
    ensures forall i :: 0 <= i < |fs| ==> os[i] == FetchOutcome(secretID, keepStages, fs[i])
  {
    seq(|fs|, i requires 0 <= i < |fs| => FetchOutcome(secretID, keepStages, fs[i]))
  }

  /** The watch goroutine over consecutive ticks, up to the panic that ends
      the process (see `Run`). */
  function WatchRun(secretID: string, keepStages: int, current: string, fs: seq<Fetch>,
                    replies: StageUpdate -> UpdateReply): Run
    decreases |fs|
  {
    if fs == [] then Idle(current)
    else
      var s := TickStep(current, FetchOutcome(secretID, keepStages, fs[0]));
      Then(StepRun(s, FetchRequests(keepStages, fs[0]), FetchLogs(keepStages, fs[0], replies)),
           if s.stopped then Idle(s.versionId) else WatchRun(secretID, keepStages, s.versionId, fs[1..], replies))
  }

  /** The run from tick `i` on: one tick, then the rest unless it
      stopped. */
  lemma WatchRunStep(secretID: string, keepStages: int, current: string, fs: seq<Fetch>,
                     replies: StageUpdate -> UpdateReply, i: int)
    requires 0 <= i < |fs|
    ensures var s := TickStep(current, FetchOutcome(secretID, keepStages, fs[i]));
      WatchRun(secretID, keepStages, current, fs[i..], replies) ==
        Then(StepRun(s, FetchRequests(keepStages, fs[i]), FetchLogs(keepStages, fs[i], replies)),
             if s.stopped then Idle(s.versionId) else WatchRun(secretID, keepStages, s.versionId, fs[i + 1..], replies))
  {
    assert fs[i..][0] == fs[i];
    assert fs[i..][1..] == fs[i + 1..];
  }

  /** The watch run is the shared tick semantics applied to the fetches'
      outcomes: it pushes `Emissions`, ends at `FinalVersion` and runs
      `TicksRun` ticks. */
  lemma {:induction false} WatchRunAgrees(secretID: string, keepStages: int, current: string,
                                          fs: seq<Fetch>, replies: StageUpdate -> UpdateReply)
    ensures var r := WatchRun(secretID, keepStages, current, fs, replies);
      var os := OutcomesOf(secretID, keepStages, fs);
      r.pushed == Emissions(current, os) && r.versionId == FinalVersion(current, os) && r.ticks == TicksRun(os)
    decreases |fs|
  {
    if fs != [] {
      var os := OutcomesOf(secretID, keepStages, fs);
      var s := TickStep(current, os[0]);
      assert OutcomesOf(secretID, keepStages, fs[1..]) == os[1..];
      if !s.stopped {
        WatchRunAgrees(secretID, keepStages, s.versionId, fs[1..], replies);
      }
    }
  }

  class Provider {
    const secretID: string
    /** How many versions may exist before clean-up starts. */
    const keepStages: int
    /** Whether an `onChangeFunc` is installed. */
    const hasOnChange: bool
    /** The version last handed out. */
    var versionId: string
    /** The UpdateSecretVersionStage requests issued so far. */
    var updates: seq<StageUpdate>
    /** The lines logged so far. */
    var logs: seq<LogLine>

    /** `NewConfigProvider`: no AWS call is made until the first fetch. */
    constructor (secretID: string, hasOnChange: bool)
      ensures this.secretID == secretID && this.hasOnChange == hasOnChange
      ensures keepStages == DefaultKeepStages
      ensures versionId == "" && updates == [] && logs == []
    {
      this.secretID := secretID;
      this.hasOnChange := hasOnChange;
      keepStages := DefaultKeepStages;
      versionId := "";
      updates := [];
      logs := [];
    }

    /** `updateSecretStage`: issues the request and logs its result; every
        error is warned and none is passed on. */
    method UpdateSecretStage(u: StageUpdate, reply: UpdateReply)
      modifies this`updates, this`logs
      ensures updates == old(updates) + [u]
      ensures logs == old(logs) + UpdateLog(u, reply, SuppressesInvalidParameter)
    {
      updates := updates + [u];
      if reply.UpdateOk? {
        logs := logs + [Info(ActionOf(u), u.stage)];
      } else {
        logs := logs + [Warn(ActionOf(u), u.stage, reply.msg)];
      }
    }

    /** `cleanVersionStages`: lists the versions and detaches every label of
        the versions beyond the newest `keepStages - 2` eligible ones. It
        reports the out-of-range slice Go panics on. */
    method CleanVersionStages(listing: ListReply, replies: StageUpdate -> UpdateReply) returns (panicked: bool)
      modifies this`updates, this`logs
      ensures panicked <==> PlanCleanup(listing, keepStages).SliceOutOfRange?
      ensures updates == old(updates) + CleanupRequests(PlanCleanup(listing, keepStages))
      ensures logs == old(logs) + CleanupLogs(PlanCleanup(listing, keepStages), replies, SuppressesInvalidParameter)
    {
      if listing.ListFailed? {
        logs := logs + [ListWarn(listing.err)];
        return false;
      }
      if |listing.versions| <= keepStages {
        return false;
      }
      var vs := SortNewestFirst(listing.versions);
      vs := KeepEligible(vs);
      if keepStages - 2 < 0 || |vs| < keepStages - 2 {
        assert PlanCleanup(listing, keepStages) == SliceOutOfRange;
        return true;
      }
      var excess := vs[keepStages - 2..];
      assert PlanCleanup(listing, keepStages) == Excess(vs[..keepStages - 2], excess);
      assert CleanupLogs(PlanCleanup(listing, keepStages), replies, SuppressesInvalidParameter) ==
        UpdateLogs(DetachAll(excess), replies, SuppressesInvalidParameter);
      DetachExcess(excess, replies);
      panicked := false;
    }

    /** The outer loop of `cleanVersionStages`. */
    method DetachExcess(vs: seq<VersionEntry>, replies: StageUpdate -> UpdateReply)
      modifies this`updates, this`logs
      ensures updates == old(updates) + DetachAll(vs)
      ensures logs == old(logs) + UpdateLogs(DetachAll(vs), replies, SuppressesInvalidParameter)
    {
      ghost var u0, l0 := updates, logs;
      var i := 0;
      while i < |vs|
        invariant 0 <= i <= |vs|
        invariant updates == u0 + DetachAll(vs[..i])
        invariant logs == l0 + UpdateLogs(DetachAll(vs[..i]), replies, SuppressesInvalidParameter)
      {
        var v := vs[i];
        DetachStep(vs, i, replies, SuppressesInvalidParameter, u0, l0);
        if v.versionId.Some? && |v.versionStages| > 0 {
          DetachLabels(v, replies);
        }
        i := i + 1;
      }
      assert vs[..i] == vs;
    }

    /** The inner loop of `cleanVersionStages`: one detach per label. */
    method DetachLabels(v: VersionEntry, replies: StageUpdate -> UpdateReply)
      requires v.versionId.Some?
      modifies this`updates, this`logs
      ensures updates == old(updates) + DetachOne(v)
      ensures logs == old(logs) + UpdateLogs(DetachOne(v), replies, SuppressesInvalidParameter)
    {
      ghost var u0, l0 := updates, logs;
      var j := 0;
      while j < |v.versionStages|
        invariant 0 <= j <= |v.versionStages|
        invariant updates == u0 + DetachOne(v)[..j]
        invariant logs == l0 + UpdateLogs(DetachOne(v)[..j], replies, SuppressesInvalidParameter)
      {
        var u := Detach(v.versionId.value, v.versionStages[j]);
        DetachLabelStep(v, j, replies, SuppressesInvalidParameter, u0, l0);
        UpdateSecretStage(u, replies(u));
        j := j + 1;
      }
      assert DetachOne(v)[..j] == DetachOne(v);
    }

    /** `get`: loads the configuration, fetches AWSCURRENT, rejects an empty
        value, and when the version lacks its timestamp label cleans up and
        attaches the label. */
    method GetOutput(f: Fetch, replies: StageUpdate -> UpdateReply) returns (r: Outcome)
      modifies this`updates, this`logs
      ensures r == FetchOutcome(secretID, keepStages, f)
      ensures updates == old(updates) + FetchRequests(keepStages, f)
      ensures logs == old(logs) + FetchLogs(keepStages, f, replies)
    {
      if f.loadError.Some? {
        return Failed(LoadConfigFailed(secretID, f.loadError.value));
      }
      match f.reply
      case GetFailed(e) =>
        return Failed(GetSecretValueFailed(secretID, e));
      case NilOutput =>
        return Failed(EmptyValue(secretID));
      case Output(v) =>
        if v.secretString.None? || v.secretString.value == "" {
          return Failed(EmptyValue(secretID));
        }
        if v.createdDate.None? {
          return Panicked;
        }
        var stg := Label(v.createdDate.value);
        if stg !in v.versionStages {
          var panicked := CleanVersionStages(f.listing, replies);
          if panicked {
            return Panicked;
          }
          UpdateSecretStage(Attach(v.versionId, stg), replies(Attach(v.versionId, stg)));
        }
        return Fetched(v);
    }

    /** `Get`: the secret string as a reader; the version is remembered
        only on success. */
    method Get(f: Fetch, replies: StageUpdate -> UpdateReply) returns (r: ReadResult)
      modifies this`versionId, this`updates, this`logs
      ensures var o := FetchOutcome(secretID, keepStages, f);
        r == ReadOf(o) &&
        versionId == (if o.Fetched? then o.value.versionId else old(versionId))
      ensures updates == old(updates) + FetchRequests(keepStages, f)
      ensures logs == old(logs) + FetchLogs(keepStages, f, replies)
    {
      var o := GetOutput(f, replies);
      if o.Fetched? {
        versionId := o.value.versionId;
      }
      r := ReadOf(o);
    }

    /** One tick of the `WatchChannel` goroutine: an error is skipped, an
        unchanged version is skipped, a new version is remembered, pushed
        and then passed to the callback. A panic ends the process
        (`stopped`). */
    method Tick(f: Fetch, replies: StageUpdate -> UpdateReply)
      returns (pushed: Option<Emission>, notified: Option<Emission>, stopped: bool)
      modifies this`versionId, this`updates, this`logs
      ensures var s := TickStep(old(versionId), FetchOutcome(secretID, keepStages, f));
        pushed == s.pushed && versionId == s.versionId && stopped == s.stopped
      ensures notified == (if hasOnChange then pushed else None)
      ensures updates == old(updates) + FetchRequests(keepStages, f)
      ensures logs == old(logs) + FetchLogs(keepStages, f, replies)
    {
      var o := GetOutput(f, replies);
      if o.Panicked? {
        return None, None, true;
      }
      if o.Failed? {
        return None, None, false;
      }
      var out := o.value;
      var bs := TextOf(out);
      if versionId == out.versionId {
        return None, None, false;
      }
      versionId := out.versionId;
      pushed := Some(Emission(out.versionId, bs));
      notified := if hasOnChange then pushed else None;
      stopped := false;
    }

    /** The `WatchChannel` goroutine over consecutive ticks, until the ticks
        run out or a panic ends it. */
    method Watch(fs: seq<Fetch>, replies: StageUpdate -> UpdateReply) returns (pushed: seq<Emission>, ticks: nat)
      modifies this`versionId, this`updates, this`logs
      ensures var r := WatchRun(secretID, keepStages, old(versionId), fs, replies);
        pushed == r.pushed && versionId == r.versionId && ticks == r.ticks &&
        updates == old(updates) + r.requests && logs == old(logs) + r.logs
    {
      ghost var total := WatchRun(secretID, keepStages, versionId, fs, replies);
      ghost var done := Idle(versionId);
      ghost var u0, l0 := updates, logs;
      ThenIdle(total, versionId);
      pushed := [];
      ticks := 0;
      while ticks < |fs|
        invariant 0 <= ticks <= |fs|
        invariant pushed == done.pushed && ticks == done.ticks
        invariant updates == u0 + done.requests && logs == l0 + done.logs
        invariant Then(done, WatchRun(secretID, keepStages, versionId, fs[ticks..], replies)) == total
      {
        WatchRunStep(secretID, keepStages, versionId, fs, replies, ticks);
        ghost var s := TickStep(versionId, FetchOutcome(secretID, keepStages, fs[ticks]));
        ghost var step := StepRun(s, FetchRequests(keepStages, fs[ticks]), FetchLogs(keepStages, fs[ticks], replies));
        ghost var rest := if s.stopped then Idle(s.versionId)
                          else WatchRun(secretID, keepStages, s.versionId, fs[ticks + 1..], replies);
        ThenAssoc(done, step, rest);
        AppendAssoc(u0, done.requests, step.requests);
        AppendAssoc(l0, done.logs, step.logs);
        var e, _, stop := Tick(fs[ticks], replies);
        done := Then(done, step);
        if e.Some? {
          pushed := pushed + [e.value];
        }
        ticks := ticks + 1;
        if stop {
          ThenIdle(done, versionId);
          return;
        }
      }
      assert fs[ticks..] == [];
      ThenIdle(done, versionId);
    }
  }
}
