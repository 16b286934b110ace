/** The Secrets Manager provider of secrets/provider.go: a fetch of the
    AWSCURRENT version (`GetResult`), the optional rotation of the
    timestamp label (`cleanVersionStages`, `updateSecretStage`), the
    `versionId` it remembers (`Get`) and one tick of `WatchChannel`.

    The AWS client is replaced by its replies: a `Fetch` holds the reply to
    GetSecretValue and the reply ListSecretVersionIds would give, and
    UpdateSecretVersionStage replies through a function of the request.
    The requests issued and the lines logged are recorded in order. */
module SecretsProvider {
  import opened Common
  import opened SecretsShared

  /** This provider does not warn about an InvalidParameterException
      (a concurrent update already moved the label). */
  const SuppressesInvalidParameter: bool := true

  /** The replies one fetch sees. */
  datatype Fetch = Fetch(reply: GetSecretReply, listing: ListReply)

  /** The rotation a fetched value triggers: none unless `updateStage`. */
  function RotationFor(updateStage: bool, keepStages: int, v: SecretValue, listing: ListReply): Rotation {
    if updateStage then PlanRotation(v, listing, keepStages) else NoRotation
  }

  /** What `GetResult` ends in. */
  function FetchOutcome(secretID: string, updateStage: bool, keepStages: int, f: Fetch): Outcome {
    match f.reply
    case GetFailed(e) => Failed(GetSecretValueFailed(secretID, e))
    case NilOutput => Failed(EmptyValue(secretID))
    case Output(v) =>
      if !HasValue(v) then Failed(EmptyValue(secretID))
      else if Panics(RotationFor(updateStage, keepStages, v, f.listing)) then Panicked
      else Fetched(v)
  }

  /** The UpdateSecretVersionStage requests `GetResult` issues. */
  function FetchRequests(updateStage: bool, keepStages: int, f: Fetch): seq<StageUpdate> {
    match f.reply
    case Output(v) =>
      if HasValue(v) then RotationRequests(v, RotationFor(updateStage, keepStages, v, f.listing)) else []
    case _ => []
  }

  /** The lines `GetResult` logs. */
  function FetchLogs(updateStage: bool, keepStages: int, f: Fetch, replies: StageUpdate -> UpdateReply): seq<LogLine> {
    match f.reply
    case Output(v) =>
      if HasValue(v) then
        RotationLogs(v, RotationFor(updateStage, keepStages, v, f.listing), replies, SuppressesInvalidParameter)
      else []
    case _ => []
  }

  /** A failed fetch, and a nil result, SecretString or empty SecretString,
      end in an error and touch nothing; a usable value is returned as
      fetched unless the rotation panics. */
  lemma FetchErrors(secretID: string, updateStage: bool, keepStages: int, f: Fetch)
    ensures f.reply.GetFailed? ==>
      FetchOutcome(secretID, updateStage, keepStages, f) == Failed(GetSecretValueFailed(secretID, f.reply.err))
    ensures (f.reply.NilOutput? || (f.reply.Output? && !HasValue(f.reply.value))) ==>
      FetchOutcome(secretID, updateStage, keepStages, f) == Failed(EmptyValue(secretID))
    ensures FetchOutcome(secretID, updateStage, keepStages, f).Failed? ==>
      FetchRequests(updateStage, keepStages, f) == [] && FetchLogs(updateStage, keepStages, f, _ => UpdateOk) == []
    ensures FetchOutcome(secretID, updateStage, keepStages, f).Fetched? ==>
      f.reply.Output? && FetchOutcome(secretID, updateStage, keepStages, f).value == f.reply.value &&
      HasValue(f.reply.value)
  {
  }

  /** A fetch whose label the version lacks, with `updateStage` set: the
      clean-up's requests and lines, then the attach and its line. */
  lemma RotatingFetch(secretID: string, keepStages: int, f: Fetch, replies: StageUpdate -> UpdateReply)
    requires f.reply.Output? && HasValue(f.reply.value) && f.reply.value.createdDate.Some?
    requires Label(f.reply.value.createdDate.value) !in f.reply.value.versionStages
    ensures var v, c := f.reply.value, PlanCleanup(f.listing, keepStages);
      var attach := Attach(v.versionId, Label(v.createdDate.value));
      (FetchOutcome(secretID, true, keepStages, f) == if c.SliceOutOfRange? then Panicked else Fetched(v)) &&
      (!c.SliceOutOfRange? ==>
        FetchRequests(true, keepStages, f) == CleanupRequests(c) + [attach] &&
        FetchLogs(true, keepStages, f, replies) ==
          CleanupLogs(c, replies, SuppressesInvalidParameter) + UpdateLog(attach, replies(attach), SuppressesInvalidParameter))
  {
  }

  /** No listing, detach or attach happens unless `updateStage` is set, the
      value is usable and its stages lack its timestamp label. When they
      happen, every detach precedes the attach of that label to the fetched
      version. Whenever the gate is open and the fetch succeeds (the
      clean-up did not panic) the attach is issued: after a failed listing,
      after a listing within the limit (then it is the only request), and
      after detaching the excess. */
  lemma RotationGate(secretID: string, updateStage: bool, keepStages: int, f: Fetch)
    ensures FetchRequests(updateStage, keepStages, f) != [] ==>
      updateStage && f.reply.Output? && HasValue(f.reply.value) &&
      f.reply.value.createdDate.Some? && Label(f.reply.value.createdDate.value) !in f.reply.value.versionStages
    ensures FetchRequests(updateStage, keepStages, f) != [] ==>
      var rs := FetchRequests(updateStage, keepStages, f);
      var v := f.reply.value;
      rs[|rs| - 1] == Attach(v.versionId, Label(v.createdDate.value)) &&
      (forall i :: 0 <= i < |rs| - 1 ==> rs[i].Detach?) &&
      FetchOutcome(secretID, updateStage, keepStages, f) == Fetched(v)
    ensures (updateStage && f.reply.Output? && HasValue(f.reply.value) &&
             f.reply.value.createdDate.Some? &&
             Label(f.reply.value.createdDate.value) !in f.reply.value.versionStages &&
             f.listing.Listed? && |f.listing.versions| <= keepStages) ==>
      FetchRequests(updateStage, keepStages, f) ==
        [Attach(f.reply.value.versionId, Label(f.reply.value.createdDate.value))]
    ensures (updateStage && f.reply.Output? && HasValue(f.reply.value) &&
             f.reply.value.createdDate.Some? &&
             Label(f.reply.value.createdDate.value) !in f.reply.value.versionStages &&
             FetchOutcome(secretID, updateStage, keepStages, f).Fetched?) ==>
      var rs := FetchRequests(updateStage, keepStages, f);
      rs != [] && rs[|rs| - 1] == Attach(f.reply.value.versionId, Label(f.reply.value.createdDate.value))
    ensures (updateStage && f.reply.Output? && HasValue(f.reply.value) &&
             f.reply.value.createdDate.Some? &&
             Label(f.reply.value.createdDate.value) !in f.reply.value.versionStages &&
             f.listing.ListFailed?) ==>
      FetchRequests(updateStage, keepStages, f) ==
        [Attach(f.reply.value.versionId, Label(f.reply.value.createdDate.value))]
  {
    match f.reply
    case Output(v) =>
      if HasValue(v) {
        RotationOrder(v, RotationFor(updateStage, keepStages, v, f.listing));
      }
    case _ =>
  }

  /** With `updateStage` off, as every provider `NewConfigProvider` builds
      has it, a fetch never lists, detaches, attaches or logs, and never
      panics: it is the value, or an error. */
  lemma DefaultNeverRotates(secretID: string, keepStages: int, f: Fetch, replies: StageUpdate -> UpdateReply)
    ensures FetchRequests(false, keepStages, f) == []
    ensures FetchLogs(false, keepStages, f, replies) == []
    ensures !FetchOutcome(secretID, false, keepStages, f).Panicked?
    ensures FetchOutcome(secretID, false, keepStages, f).Fetched? <==> f.reply.Output? && HasValue(f.reply.value)
  {
  }

  /** The outcomes of consecutive fetches. */
  function OutcomesOf(secretID: string, updateStage: bool, keepStages: int, fs: seq<Fetch>): (os: seq<Outcome>)
    ensures |os| == |fs|
    ensures forall i :: 0 <= i < |fs| ==> os[i] == FetchOutcome(secretID, updateStage, keepStages, fs[i])
  {
    seq(|fs|, i requires 0 <= i < |fs| => FetchOutcome(secretID, updateStage, keepStages, fs[i]))
  }

  /** The watch goroutine over consecutive ticks (see `Run`). */
  function WatchRun(secretID: string, updateStage: bool, keepStages: int, current: string, fs: seq<Fetch>,
                    replies: StageUpdate -> UpdateReply): Run
    decreases |fs|
  {
    if fs == [] then Idle(current)
    else
      var s := TickStep(current, FetchOutcome(secretID, updateStage, keepStages, fs[0]));
      Then(StepRun(s, FetchRequests(updateStage, keepStages, fs[0]), FetchLogs(updateStage, keepStages, fs[0], replies)),
           if s.stopped then Idle(s.versionId) else WatchRun(secretID, updateStage, keepStages, s.versionId, fs[1..], replies))
  }

  /** The run from tick `i` on: one tick, then the rest unless it
      stopped. */
  lemma WatchRunStep(secretID: string, updateStage: bool, keepStages: int, current: string, fs: seq<Fetch>,
                     replies: StageUpdate -> UpdateReply, i: int)
    requires 0 <= i < |fs|
    ensures var s := TickStep(current, FetchOutcome(secretID, updateStage, keepStages, fs[i]));
      WatchRun(secretID, updateStage, keepStages, current, fs[i..], replies) ==
        Then(StepRun(s, FetchRequests(updateStage, keepStages, fs[i]), FetchLogs(updateStage, keepStages, fs[i], replies)),
             if s.stopped then Idle(s.versionId) else WatchRun(secretID, updateStage, keepStages, s.versionId, fs[i + 1..], replies))
  {
    assert fs[i..][0] == fs[i];
    assert fs[i..][1..] == fs[i + 1..];
  }

  /** One iteration of `Provider.Watch`'s loop: the run done so far, then
      this tick's step, then the rest of the run (nothing after a panic) is
      still the whole run. */
  lemma WatchLoopStep(secretID: string, updateStage: bool, keepStages: int, current: string, fs: seq<Fetch>,
                      replies: StageUpdate -> UpdateReply, i: int, done: Run, total: Run)
    requires 0 <= i < |fs|
    requires Then(done, WatchRun(secretID, updateStage, keepStages, current, fs[i..], replies)) == total
    ensures var s := TickStep(current, FetchOutcome(secretID, updateStage, keepStages, fs[i]));
      var step := StepRun(s, FetchRequests(updateStage, keepStages, fs[i]), FetchLogs(updateStage, keepStages, fs[i], replies));
      Then(Then(done, step), if s.stopped then Idle(s.versionId)
                             else WatchRun(secretID, updateStage, keepStages, s.versionId, fs[i + 1..], replies)) == total
  {
    WatchRunStep(secretID, updateStage, keepStages, current, fs, replies, i);
    var s := TickStep(current, FetchOutcome(secretID, updateStage, keepStages, fs[i]));
    var step := StepRun(s, FetchRequests(updateStage, keepStages, fs[i]), FetchLogs(updateStage, keepStages, fs[i], replies));
    ThenAssoc(done, step, if s.stopped then Idle(s.versionId)
                          else WatchRun(secretID, updateStage, keepStages, s.versionId, fs[i + 1..], replies));
  }

  /** The watch run is the shared tick semantics applied to the fetches'
      outcomes: it pushes `Emissions`, ends at `FinalVersion` and runs
      `TicksRun` ticks; so each push carries a new version. */
  lemma {:induction false} WatchRunAgrees(secretID: string, updateStage: bool, keepStages: int, current: string,
                                          fs: seq<Fetch>, replies: StageUpdate -> UpdateReply)
    ensures var r := WatchRun(secretID, updateStage, keepStages, current, fs, replies);
      var os := OutcomesOf(secretID, updateStage, keepStages, fs);
      r.pushed == Emissions(current, os) && r.versionId == FinalVersion(current, os) && r.ticks == TicksRun(os)
    decreases |fs|
  {
    if fs != [] {
      var os := OutcomesOf(secretID, updateStage, keepStages, fs);
      var s := TickStep(current, os[0]);
      assert OutcomesOf(secretID, updateStage, keepStages, fs[1..]) == os[1..];
      if !s.stopped {
        WatchRunAgrees(secretID, updateStage, keepStages, s.versionId, fs[1..], replies);
      }
    }
  }

  class Provider {
    const secretID: string
    /** Whether fetches maintain the timestamp label. */
    const updateStage: bool
    /** How many versions may exist before clean-up starts. */
    const keepStages: int
    /** Whether an `onChangeFunc` is installed. */
    const hasOnChange: bool
    /** The version last handed out. */
    var versionId: string
    /** The UpdateSecretVersionStage requests issued so far. */
    var updates: seq<StageUpdate>
    /** The lines logged so far. */
    var logs: seq<LogLine>

    /** `NewConfigProvider`, past the AWS configuration: `updateStage`
        starts false, and no option of secrets/option.go sets it. */
    constructor (secretID: string, hasOnChange: bool)
      ensures this.secretID == secretID && this.hasOnChange == hasOnChange
      ensures !updateStage && keepStages == DefaultKeepStages
      ensures versionId == "" && updates == [] && logs == []
    {
      this.secretID := secretID;
      this.updateStage := false;
      this.hasOnChange := hasOnChange;
      keepStages := DefaultKeepStages;
      versionId := "";
      updates := [];
      logs := [];
    }

    /** The same provider with `updateStage` switched on. The package has no
        option that does this; the constructor exists so that the branch of
        `GetResult` the field guards is modelled too. */
    constructor WithStageUpdates(secretID: string, hasOnChange: bool)
      ensures this.secretID == secretID && this.hasOnChange == hasOnChange
      ensures updateStage && keepStages == DefaultKeepStages
      ensures versionId == "" && updates == [] && logs == []
    {
      this.secretID := secretID;
      this.updateStage := true;
      this.hasOnChange := hasOnChange;
      keepStages := DefaultKeepStages;
      versionId := "";
      updates := [];
      logs := [];
    }

    /** `updateSecretStage`: issues the request and logs its result; an
        error is never passed on. */
    method UpdateSecretStage(u: StageUpdate, reply: UpdateReply)
      modifies this`updates, this`logs
      ensures updates == old(updates) + [u]
      ensures logs == old(logs) + UpdateLog(u, reply, SuppressesInvalidParameter)
    {
      updates := updates + [u];
      if reply.UpdateOk? {
        logs := logs + [Info(ActionOf(u), u.stage)];
      } else if !reply.InvalidParameter? {
        logs := logs + [Warn(ActionOf(u), u.stage, reply.msg)];
      }
    }

    /** `cleanVersionStages`: lists the versions and detaches every label of
        the versions beyond the newest `keepStages - 2` eligible ones. It
        reports the out-of-range slice Go panics on. */
    method CleanVersionStages(listing: ListReply, replies: StageUpdate -> UpdateReply) returns (panicked: bool)
      modifies this`updates, this`logs
      ensures panicked <==> PlanCleanup(listing, keepStages).SliceOutOfRange?
      ensures updates == old(updates) + CleanupRequests(PlanCleanup(listing, keepStages))
      ensures logs == old(logs) + CleanupLogs(PlanCleanup(listing, keepStages), replies, SuppressesInvalidParameter)
    {
      if listing.ListFailed? {
        logs := logs + [ListWarn(listing.err)];
        return false;
      }
      if |listing.versions| <= keepStages {
        return false;
      }
      var vs := SortNewestFirst(listing.versions);
      vs := KeepEligible(vs);
      if keepStages - 2 < 0 || |vs| < keepStages - 2 {
        assert PlanCleanup(listing, keepStages) == SliceOutOfRange;
        return true;
      }
      var excess := vs[keepStages - 2..];
      assert PlanCleanup(listing, keepStages) == Excess(vs[..keepStages - 2], excess);
      assert CleanupLogs(PlanCleanup(listing, keepStages), replies, SuppressesInvalidParameter) ==
        UpdateLogs(DetachAll(excess), replies, SuppressesInvalidParameter);
      DetachExcess(excess, replies);
      panicked := false;
    }

    /** The outer loop of `cleanVersionStages`: every label of every excess
        version, in order. */
    method DetachExcess(vs: seq<VersionEntry>, replies: StageUpdate -> UpdateReply)
      modifies this`updates, this`logs
      ensures updates == old(updates) + DetachAll(vs)
      ensures logs == old(logs) + UpdateLogs(DetachAll(vs), replies, SuppressesInvalidParameter)
    {
      ghost var u0, l0 := updates, logs;
      var i := 0;
      while i < |vs|
        invariant 0 <= i <= |vs|
        invariant updates == u0 + DetachAll(vs[..i])
        invariant logs == l0 + UpdateLogs(DetachAll(vs[..i]), replies, SuppressesInvalidParameter)
      {
        var v := vs[i];
        DetachStep(vs, i, replies, SuppressesInvalidParameter, u0, l0);
        if v.versionId.Some? && |v.versionStages| > 0 {
          DetachLabels(v, replies);
        }
        i := i + 1;
      }
      assert vs[..i] == vs;
    }

    /** The inner loop of `cleanVersionStages`: one detach per label of a
        version that has a VersionId. */
    method DetachLabels(v: VersionEntry, replies: StageUpdate -> UpdateReply)
      requires v.versionId.Some?
      modifies this`updates, this`logs
      ensures updates == old(updates) + DetachOne(v)
      ensures logs == old(logs) + UpdateLogs(DetachOne(v), replies, SuppressesInvalidParameter)
    {
      ghost var u0, l0 := updates, logs;
      var j := 0;
      while j < |v.versionStages|
        invariant 0 <= j <= |v.versionStages|
        invariant updates == u0 + DetachOne(v)[..j]
        invariant logs == l0 + UpdateLogs(DetachOne(v)[..j], replies, SuppressesInvalidParameter)
      {
        var u := Detach(v.versionId.value, v.versionStages[j]);
        DetachLabelStep(v, j, replies, SuppressesInvalidParameter, u0, l0);
        UpdateSecretStage(u, replies(u));
        j := j + 1;
      }
      assert DetachOne(v)[..j] == DetachOne(v);
    }

    /** `GetResult`: fetches AWSCURRENT, rejects an empty value, and when
        `updateStage` is set and the version lacks its timestamp label,
        cleans up and attaches the label. */
    method GetResult(f: Fetch, replies: StageUpdate -> UpdateReply) returns (r: Outcome)
      modifies this`updates, this`logs
      ensures r == FetchOutcome(secretID, updateStage, keepStages, f)
      ensures updates == old(updates) + FetchRequests(updateStage, keepStages, f)
      ensures logs == old(logs) + FetchLogs(updateStage, keepStages, f, replies)
    {
      match f.reply
      case GetFailed(e) =>
        return Failed(GetSecretValueFailed(secretID, e));
      case NilOutput =>
        return Failed(EmptyValue(secretID));
      case Output(v) =>
        if v.secretString.None? || v.secretString.value == "" {
          return Failed(EmptyValue(secretID));
        }
        if updateStage {
          if v.createdDate.None? {
            return Panicked;
          }
          var stg := Label(v.createdDate.value);
          if stg !in v.versionStages {
            RotatingFetch(secretID, keepStages, f, replies);
            ghost var u1, l1 := updates, logs;
            var panicked := CleanVersionStages(f.listing, replies);
            if panicked {
              return Panicked;
            }
            ghost var c := PlanCleanup(f.listing, keepStages);
            UpdateSecretStage(Attach(v.versionId, stg), replies(Attach(v.versionId, stg)));
            AppendAssoc(u1, CleanupRequests(c), [Attach(v.versionId, stg)]);
            AppendAssoc(l1, CleanupLogs(c, replies, SuppressesInvalidParameter),
                        UpdateLog(Attach(v.versionId, stg), replies(Attach(v.versionId, stg)), SuppressesInvalidParameter));
          }
        }
        return Fetched(v);
    }

    /** `Get`: the secret string as a reader; the version is remembered
        only on success. */
    method Get(f: Fetch, replies: StageUpdate -> UpdateReply) returns (r: ReadResult)
      modifies this`versionId, this`updates, this`logs
      ensures var o := FetchOutcome(secretID, updateStage, keepStages, f);
        r == ReadOf(o) &&
        versionId == (if o.Fetched? then o.value.versionId else old(versionId))
      ensures updates == old(updates) + FetchRequests(updateStage, keepStages, f)
      ensures logs == old(logs) + FetchLogs(updateStage, keepStages, f, replies)
    {
      var o := GetResult(f, replies);
      if o.Fetched? {
        versionId := o.value.versionId;
      }
      r := ReadOf(o);
    }

    /** One tick of the `WatchChannel` goroutine: an error is skipped, an
        unchanged version is skipped, a new version is remembered, pushed
        and then passed to the callback. A panic is recovered and ends the
        goroutine (`stopped`). */
    method Tick(f: Fetch, replies: StageUpdate -> UpdateReply)
      returns (pushed: Option<Emission>, notified: Option<Emission>, stopped: bool)
      modifies this`versionId, this`updates, this`logs
      ensures var s := TickStep(old(versionId), FetchOutcome(secretID, updateStage, keepStages, f));
        pushed == s.pushed && versionId == s.versionId && stopped == s.stopped
      ensures notified == (if hasOnChange then pushed else None)
      ensures updates == old(updates) + FetchRequests(updateStage, keepStages, f)
      ensures logs == old(logs) + FetchLogs(updateStage, keepStages, f, replies)
    {
      var o := GetResult(f, replies);
      if o.Panicked? {
        return None, None, true;
      }
      if o.Failed? {
        return None, None, false;
      }
      var out := o.value;
      var bs := TextOf(out);
      if versionId == out.versionId {
        return None, None, false;
      }
      versionId := out.versionId;
      pushed := Some(Emission(out.versionId, bs));
      notified := if hasOnChange then pushed else None;
      stopped := false;
    }

    /** The `WatchChannel` goroutine over consecutive ticks, until the ticks
        run out or a panic ends it. */
    method Watch(fs: seq<Fetch>, replies: StageUpdate -> UpdateReply) returns (pushed: seq<Emission>, ticks: nat)
      modifies this`versionId, this`updates, this`logs
      ensures var r := WatchRun(secretID, updateStage, keepStages, old(versionId), fs, replies);
        pushed == r.pushed && versionId == r.versionId && ticks == r.ticks &&
        updates == old(updates) + r.requests && logs == old(logs) + r.logs
    {
      ghost var total := WatchRun(secretID, updateStage, keepStages, versionId, fs, replies);
      ghost var done := Idle(versionId);
      ghost var u0, l0 := updates, logs;
      ThenIdle(total, versionId);
      pushed := [];
      ticks := 0;
      while ticks < |fs|
        invariant 0 <= ticks <= |fs|
        invariant pushed == done.pushed && ticks == done.ticks
        invariant updates == u0 + done.requests && logs == l0 + done.logs
        invariant Then(done, WatchRun(secretID, updateStage, keepStages, versionId, fs[ticks..], replies)) == total
      {
        WatchLoopStep(secretID, updateStage, keepStages, versionId, fs, replies, ticks, done, total);
        ghost var s := TickStep(versionId, FetchOutcome(secretID, updateStage, keepStages, fs[ticks]));
        ghost var step := StepRun(s, FetchRequests(updateStage, keepStages, fs[ticks]), FetchLogs(updateStage, keepStages, fs[ticks], replies));
        AppendAssoc(u0, done.requests, step.requests);
        AppendAssoc(l0, done.logs, step.logs);
        var e, _, stop := Tick(fs[ticks], replies);
        done := Then(done, step);
        if e.Some? {
          pushed := pushed + [e.value];
        }
        ticks := ticks + 1;
        if stop {
          ThenIdle(done, versionId);
          return;
        }
      }
      assert fs[ticks..] == [];
      ThenIdle(done, versionId);
    }
  }
}
