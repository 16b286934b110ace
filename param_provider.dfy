/** The Parameter Store provider (parameterstore/provider.go): the paginated
    fetch of every parameter under a base path, the diff of a new snapshot
    against the remembered versions, and one step of the poll loop.

    The remote `GetParametersByPath` conversation is an input: the pages
    that asked for more (each with its NextToken) and the reply that ended
    the traversal. */
module ParamProvider {
  import opened Common
  import opened ParamSnapshot
  import ParamOptions

  /** One entry of a `GetParametersByPath` page; a nil `Name` is `None`. */
  datatype SdkParameter = SdkParameter(name: Option<string>, value: Option<string>, version: int, lastModifiedDate: int)

  /** A page that carried a NextToken. */
  datatype Page = Page(parameters: seq<SdkParameter>, nextToken: string)

  /** The reply that ends the traversal: a failed call, a nil output, or a
      page without a NextToken. */
  datatype LastReply = Failed(err: string) | NilOutput | LastPage(parameters: seq<SdkParameter>)

  /** The replies to the successive calls of one traversal. */
  datatype Conversation = Conversation(pages: seq<Page>, last: LastReply)

  /** The reply to one call, as the loop sees it. */
  datatype Reply = CallFailed(err: string) | NilResult | Output(parameters: seq<SdkParameter>, nextToken: Option<string>)

  /** The errors GetResult returns, each annotated with the base path. */
  datatype ParamError = GetParametersFailed(basePath: string, cause: string) | ParametersEmpty(basePath: string)

  /** The outcome of the pagination fold. */
  datatype Collected = Fetched(parameters: map<string, Parameter>) | FetchError(error: ParamError)

  /** `Changes`: four key lists. */
  datatype Changes = Changes(current: seq<string>, created: seq<string>, updated: seq<string>, deleted: seq<string>)

  /** The four key sets the diff is specified by. */
  datatype ChangeSet = ChangeSet(current: set<string>, created: set<string>, updated: set<string>, deleted: set<string>)

  /** What the traversal's call number `i` is answered with. */
  function ReplyTo(c: Conversation, i: nat): (r: Reply)
    requires i <= |c.pages|
    ensures i < |c.pages| ==> r == Output(c.pages[i].parameters, Some(c.pages[i].nextToken))
    ensures i == |c.pages| ==> !(r.Output? && r.nextToken.Some?)
    ensures i == |c.pages| ==> (r.CallFailed? <==> c.last.Failed?) && (r.NilResult? <==> c.last.NilOutput?)
    ensures i == |c.pages| && r.Output? ==> c.last.LastPage? && r.parameters == c.last.parameters
    ensures r.CallFailed? ==> c.last.Failed? && r.err == c.last.err
  {
    if i < |c.pages| then Output(c.pages[i].parameters, Some(c.pages[i].nextToken))
    else match c.last
      case Failed(e) => CallFailed(e)
      case NilOutput => NilResult
      case LastPage(ps) => Output(ps, None)
  }

  /** The NextToken passed to each call: nil first, then each page's token. */
  function RequestTokens(c: Conversation): (r: seq<Option<string>>)
    ensures |r| == |c.pages| + 1 && r[0] == None
    ensures forall i :: 0 < i < |r| ==> r[i] == Some(c.pages[i - 1].nextToken)
  {
    [None] + seq(|c.pages|, i requires 0 <= i < |c.pages| => Some(c.pages[i].nextToken))
  }

  /** Every entry the traversal returns, page by page, in order. */
  function PageItems(pages: seq<Page>): seq<SdkParameter>
    decreases |pages|
  {
    if pages == [] then [] else PageItems(pages[..|pages| - 1]) + pages[|pages| - 1].parameters
  }

  function Items(c: Conversation): seq<SdkParameter> {
    PageItems(c.pages) + (if c.last.LastPage? then c.last.parameters else [])
  }

  /** The stored form of an entry (`Key` keeps the full name). */
  function ToParameter(v: SdkParameter): Parameter
    requires v.name.Some?
  {
    Parameter(v.name.value, v.value, v.version, v.lastModifiedDate)
  }

  /** Entry `v` is stored under key `k`: it has a name, and `k` is that
      name with the first occurrence of the base path cut out. */
  predicate KeyedAs(basePath: string, v: SdkParameter, k: string) {
    v.name.Some? && RemoveFirst(v.name.value, basePath) == k
  }

  /** The fold of the pagination loop: entries in order, nil names skipped,
      later entries overwriting earlier ones under the same key. */
  function Fold(basePath: string, acc: map<string, Parameter>, items: seq<SdkParameter>): map<string, Parameter>
    decreases |items|
  {
    if items == [] then acc
    else
      var v := items[|items| - 1];
      var before := Fold(basePath, acc, items[..|items| - 1]);
      if v.name.None? then before else before[RemoveFirst(v.name.value, basePath) := ToParameter(v)]
  }

  /** GetResult's answer before the snapshot object is made: the first
      failed call aborts with its error; otherwise the folded map, unless it
      is empty. */
  function Collect(basePath: string, c: Conversation): Collected {
    if c.last.Failed? then FetchError(GetParametersFailed(basePath, c.last.err))
    else
      var m := Fold(basePath, map[], Items(c));
      if |m| == 0 then FetchError(ParametersEmpty(basePath)) else Fetched(m)
  }

  /** The key/version map of a snapshot. */
  function Versions(parameters: map<string, Parameter>): (vs: map<string, int>)
    ensures vs.Keys == parameters.Keys
    ensures forall k :: k in vs ==> vs[k] == parameters[k].version
  {
    map k | k in parameters :: parameters[k].version
  }

  /** The diff of `getChanges`, as sets. */
  function Diff(prev: map<string, int>, next: map<string, int>): ChangeSet {
    ChangeSet(
      next.Keys,
      next.Keys - prev.Keys,
      (set k | k in prev && k in next && next[k] != prev[k]),
      prev.Keys - next.Keys)
  }

  predicate HasChanges(cs: ChangeSet) {
    cs.created != {} || cs.updated != {} || cs.deleted != {}
  }

  /** `xs` lists the elements of `s`, each once. */
  ghost predicate Enumerates(xs: seq<string>, s: set<string>) {
    (forall i, j :: 0 <= i < j < |xs| ==> xs[i] != xs[j]) &&
    (forall x :: x in xs <==> x in s)
  }

  /** Recording one more key's version over the remembered versions. */
  lemma RecordStep(base: map<string, int>, parameters: map<string, Parameter>, todo: set<string>, k: string)
    requires k in todo && todo <= parameters.Keys
    ensures (base + map x | x in parameters.Keys - todo :: parameters[x].version)[k := parameters[k].version] ==
      base + map x | x in parameters.Keys - (todo - {k}) :: parameters[x].version
  {
  }

  /** The lists of a `Changes` enumerate the sets of a `ChangeSet`. */
  ghost predicate Describes(ch: Changes, cs: ChangeSet) {
    Enumerates(ch.current, cs.current) && Enumerates(ch.created, cs.created) &&
    Enumerates(ch.updated, cs.updated) && Enumerates(ch.deleted, cs.deleted)
  }

  // ---------------------------------------------------------------------
  // The pagination fold

  lemma {:induction false} PageItemsSnoc(pages: seq<Page>, p: Page)
    ensures PageItems(pages + [p]) == PageItems(pages) + p.parameters
  {
    assert (pages + [p])[..|pages|] == pages;
  }

  lemma {:induction false} FoldSnoc(basePath: string, acc: map<string, Parameter>, items: seq<SdkParameter>, v: SdkParameter)
    ensures Fold(basePath, acc, items + [v]) ==
      (var before := Fold(basePath, acc, items);
       if v.name.None? then before else before[RemoveFirst(v.name.value, basePath) := ToParameter(v)])
  {
    assert (items + [v])[..|items|] == items;
  }

  /** Folding a concatenation is folding the second part over the first. */
  lemma {:induction false} FoldAppend(basePath: string, acc: map<string, Parameter>, a: seq<SdkParameter>, b: seq<SdkParameter>)
    ensures Fold(basePath, acc, a + b) == Fold(basePath, Fold(basePath, acc, a), b)
    decreases |b|
  {
    if b == [] {
      assert a + b == a;
    } else {
      var b' := b[..|b| - 1];
      var v := b[|b| - 1];
      assert a + b == (a + b') + [v];
      assert b == b' + [v];
      FoldSnoc(basePath, acc, a + b', v);
      FoldAppend(basePath, acc, a, b');
      FoldSnoc(basePath, Fold(basePath, acc, a), b', v);
    }
  }

  /** A key is in the fold's result exactly when it was there before or some
      named entry is stored under it. */
  lemma {:induction false} FoldKeys(basePath: string, acc: map<string, Parameter>, items: seq<SdkParameter>, k: string)
    ensures k in Fold(basePath, acc, items) <==>
      k in acc || exists i :: 0 <= i < |items| && KeyedAs(basePath, items[i], k)
    decreases |items|
  {
    if items != [] {
      var init, last := items[..|items| - 1], items[|items| - 1];
      FoldKeys(basePath, acc, init, k);
      assert k in Fold(basePath, acc, items) <==> k in Fold(basePath, acc, init) || KeyedAs(basePath, last, k);
      if exists i :: 0 <= i < |init| && KeyedAs(basePath, init[i], k) {
        var i :| 0 <= i < |init| && KeyedAs(basePath, init[i], k);
        assert KeyedAs(basePath, items[i], k);
      }
      if KeyedAs(basePath, last, k) {
        assert KeyedAs(basePath, items[|items| - 1], k);
      }
      if exists i :: 0 <= i < |items| && KeyedAs(basePath, items[i], k) {
        var i :| 0 <= i < |items| && KeyedAs(basePath, items[i], k);
        if i < |init| {
          assert KeyedAs(basePath, init[i], k);
        }
      }
    }
  }

  /** The last entry stored under a key wins: later pages overwrite earlier
      ones. */
  lemma {:induction false} FoldLastWins(basePath: string, acc: map<string, Parameter>, items: seq<SdkParameter>, i: nat, k: string)
    requires i < |items| && KeyedAs(basePath, items[i], k)
    requires forall j :: i < j < |items| ==> !KeyedAs(basePath, items[j], k)
    ensures k in Fold(basePath, acc, items)
    ensures Fold(basePath, acc, items)[k] == ToParameter(items[i])
    decreases |items|
  {
    var init := items[..|items| - 1];
    if i < |items| - 1 {
      assert !KeyedAs(basePath, items[|items| - 1], k);
      forall j | i < j < |init| ensures !KeyedAs(basePath, init[j], k) {
        assert init[j] == items[j];
      }
      FoldLastWins(basePath, acc, init, i, k);
    }
  }

  /** An entry with a nil name contributes nothing. */
  lemma {:induction false} FoldSkipsNilNames(basePath: string, acc: map<string, Parameter>, a: seq<SdkParameter>, v: SdkParameter, b: seq<SdkParameter>)
    requires v.name.None?
    ensures Fold(basePath, acc, a + [v] + b) == Fold(basePath, acc, a + b)
  {
    FoldAppend(basePath, acc, a + [v], b);
    FoldSnoc(basePath, acc, a, v);
    FoldAppend(basePath, acc, a, b);
  }

  /** GetResult fails exactly when some call fails, or when no entry with a
      name was returned (ErrAwsSSMParametersEmpty); a failure wins over an
      empty result. */
  lemma CollectOutcome(basePath: string, c: Conversation)
    ensures Collect(basePath, c).FetchError? <==>
      c.last.Failed? || forall i :: 0 <= i < |Items(c)| ==> Items(c)[i].name.None?
    ensures c.last.Failed? ==> Collect(basePath, c) == FetchError(GetParametersFailed(basePath, c.last.err))
    ensures Collect(basePath, c) == FetchError(ParametersEmpty(basePath)) <==>
      !c.last.Failed? && forall i :: 0 <= i < |Items(c)| ==> Items(c)[i].name.None?
  {
    var items := Items(c);
    if !c.last.Failed? {
      var m := Fold(basePath, map[], items);
      if exists i :: 0 <= i < |items| && items[i].name.Some? {
        var i :| 0 <= i < |items| && items[i].name.Some?;
        var k := RemoveFirst(items[i].name.value, basePath);
        FoldKeys(basePath, map[], items, k);
        assert k in m;
      } else {
        if |m| != 0 {
          var k :| k in m;
          FoldKeys(basePath, map[], items, k);
        }
      }
    }
  }

  /** The keys of a successful fetch are exactly the stripped names of the
      named entries returned. */
  lemma CollectKeys(basePath: string, c: Conversation, k: string)
    requires Collect(basePath, c).Fetched?
    ensures k in Collect(basePath, c).parameters <==>
      exists i :: 0 <= i < |Items(c)| && KeyedAs(basePath, Items(c)[i], k)
  {
    FoldKeys(basePath, map[], Items(c), k);
  }

  /** Once the call numbered `i` ends the traversal, the tokens passed so
      far are all of them. */
  lemma TokensComplete(c: Conversation, i: nat, tokens: seq<Option<string>>)
    requires i <= |c.pages| && tokens == RequestTokens(c)[..i + 1]
    requires var r := ReplyTo(c, i); !(r.Output? && r.nextToken.Some?)
    ensures i == |c.pages| && tokens == RequestTokens(c)
  {
  }

  // ---------------------------------------------------------------------
  // The diff

  /** The shape of every diff: Current is the new key set, Created its keys
      the old map lacks, Deleted the old keys it lacks, Updated the shared
      keys whose version moved; hence Created and Updated lie inside Current,
      Deleted outside it, and Created, Updated, Deleted are pairwise
      disjoint. */
  lemma DiffShape(prev: map<string, int>, next: map<string, int>)
    ensures var cs := Diff(prev, next);
      cs.current == next.Keys &&
      cs.created <= cs.current && cs.updated <= cs.current &&
      cs.deleted * cs.current == {} &&
      cs.created * cs.deleted == {} && cs.created * cs.updated == {} && cs.updated * cs.deleted == {}
  {
  }

  /** Where each key goes: a vanished key is Deleted only; a kept key with a
      new version is Updated (and Current); a kept key with the same version
      is only Current; a new key is Created and Current. */
  lemma DiffClassifies(prev: map<string, int>, next: map<string, int>, k: string)
    ensures var cs := Diff(prev, next);
      (k in prev && k !in next ==>
        k in cs.deleted && k !in cs.current && k !in cs.created && k !in cs.updated) &&
      (k in prev && k in next && prev[k] != next[k] ==>
        k in cs.updated && k in cs.current && k !in cs.created && k !in cs.deleted) &&
      (k in prev && k in next && prev[k] == next[k] ==>
        k in cs.current && k !in cs.created && k !in cs.updated && k !in cs.deleted) &&
      (k !in prev && k in next ==>
        k in cs.created && k in cs.current && k !in cs.updated && k !in cs.deleted)
  {
  }

  /** A diff reports a change exactly when the version maps differ. */
  lemma HasChangesIffDiffer(prev: map<string, int>, next: map<string, int>)
    ensures HasChanges(Diff(prev, next)) <==> prev != next
  {
    var cs := Diff(prev, next);
    if !HasChanges(cs) {
      assert prev.Keys == next.Keys by {
        forall k | k in next ensures k in prev {
          assert k !in cs.created;
        }
        forall k | k in prev ensures k in next {
          assert k !in cs.deleted;
        }
      }
      forall k | k in prev ensures prev[k] == next[k] {
        assert k !in cs.updated;
      }
      assert prev == next;
    } else if cs.created != {} {
      var k :| k in cs.created;
    } else if cs.deleted != {} {
      var k :| k in cs.deleted;
    } else {
      var k :| k in cs.updated;
    }
  }

  /** After the remembered versions are replaced by the snapshot's, the
      same snapshot produces no Created, Updated or Deleted keys. */
  lemma DiffAgainstItselfIsQuiet(next: map<string, int>)
    ensures !HasChanges(Diff(next, next))
    ensures Diff(next, next).current == next.Keys
  {
    HasChangesIffDiffer(next, next);
  }

  // ---------------------------------------------------------------------
  // The poll loop, as a function of the remembered versions

  /** The effect of one tick: the versions remembered afterwards and the
      payload pushed on the channel, if any. */
  datatype TickEffect = TickEffect(versions: map<string, int>, emitted: Option<seq<byte>>)

  /** One tick: a failed fetch leaves everything; a successful one replaces
      the remembered versions, and pushes the snapshot's JSON only when the
      diff has changes and marshalling succeeds. */
  function TickSpec(basePath: string, encode: map<string, string> -> Option<seq<byte>>,
                    prev: map<string, int>, c: Conversation): TickEffect
  {
    match Collect(basePath, c)
    case FetchError(_) => TickEffect(prev, None)
    case Fetched(m) =>
      if !HasChanges(Diff(prev, Versions(m))) then TickEffect(Versions(m), None)
      else TickEffect(Versions(m), encode(KeyValues(m)))
  }

  /** The payloads of consecutive ticks. */
  function Emissions(basePath: string, encode: map<string, string> -> Option<seq<byte>>,
                     prev: map<string, int>, cs: seq<Conversation>): seq<seq<byte>>
    decreases |cs|
  {
    if cs == [] then []
    else
      var t := TickSpec(basePath, encode, prev, cs[0]);
      (if t.emitted.Some? then [t.emitted.value] else []) + Emissions(basePath, encode, t.versions, cs[1..])
  }

  /** A tick emits only when the fetched versions differ from the
      remembered ones, and after any successful fetch the remembered
      versions are exactly the snapshot's. */
  lemma TickEmitsOnlyOnDifference(basePath: string, encode: map<string, string> -> Option<seq<byte>>,
                                  prev: map<string, int>, c: Conversation)
    ensures var t := TickSpec(basePath, encode, prev, c);
      (Collect(basePath, c).FetchError? ==> t == TickEffect(prev, None)) &&
      (Collect(basePath, c).Fetched? ==> t.versions == Versions(Collect(basePath, c).parameters)) &&
      (t.emitted.Some? ==> Collect(basePath, c).Fetched? && prev != t.versions) &&
      (Collect(basePath, c).Fetched? && prev != t.versions ==>
         t.emitted == encode(KeyValues(Collect(basePath, c).parameters)))
  {
    match Collect(basePath, c)
    case FetchError(_) =>
    case Fetched(m) => HasChangesIffDiffer(prev, Versions(m));
  }

  /** Repeating a conversation right after a tick that fetched it emits
      nothing and changes nothing. */
  lemma {:induction false} RepeatedTickIsQuiet(basePath: string, encode: map<string, string> -> Option<seq<byte>>,
                                               prev: map<string, int>, c: Conversation)
    ensures var t := TickSpec(basePath, encode, prev, c);
            TickSpec(basePath, encode, t.versions, c) == TickEffect(t.versions, None)
  {
    match Collect(basePath, c)
    case FetchError(_) =>
    case Fetched(m) => DiffAgainstItselfIsQuiet(Versions(m));
  }

  /** The scenario {foo:1@v1, bar:2@v1} then {foo:1@v1, bar:3@v2, baz:x@v1}:
      bar is Updated, baz Created, nothing Deleted, all three Current. */
  lemma ScenarioDiff()
    ensures var cs := Diff(map["foo" := 1, "bar" := 1], map["foo" := 1, "bar" := 2, "baz" := 1]);
      cs.updated == {"bar"} && cs.created == {"baz"} && cs.deleted == {} &&
      cs.current == {"foo", "bar", "baz"}
  {
    var prev := map["foo" := 1, "bar" := 1];
    var next := map["foo" := 1, "bar" := 2, "baz" := 1];
    var cs := Diff(prev, next);
    assert cs.updated == {"bar"} by {
      forall k | k in cs.updated ensures k == "bar" {
        assert k in prev && k in next && next[k] != prev[k];
      }
      assert "bar" in cs.updated;
    }
  }

  // ---------------------------------------------------------------------
  // The provider

  /** The result of GetResult: a fresh snapshot, or the error. */
  datatype Snapshot = Ok(ps: Parameters) | Err(error: ParamError)

  class Provider {
    const basePath: string
    const watchInterval: int
    const logger: ParamOptions.Logger
    /** Whether an `onChangeFunc` is registered. */
    const hasOnChange: bool
    /** `json.Marshal` of the key/value view. */
    const encode: map<string, string> -> Option<seq<byte>>
    /** The remembered key -> version map. */
    var versions: map<string, int>

    /** The settings `NewConfigProvider` ends with (AWS client set up aside),
        and no remembered versions. */
    constructor (s: ParamOptions.Settings, encode: map<string, string> -> Option<seq<byte>>)
      ensures basePath == s.basePath && watchInterval == s.watchInterval
      ensures logger == s.logger && hasOnChange == s.hasOnChange && this.encode == encode
      ensures versions == map[]
    {
      basePath := s.basePath;
      watchInterval := s.watchInterval;
      logger := s.logger;
      hasOnChange := s.hasOnChange;
      this.encode := encode;
      versions := map[];
    }

    /** The pagination loop of GetResult: each call passes the previous
        page's NextToken; a failed call aborts; a nil output or a page
        without a NextToken ends the traversal; entries are folded in order.
        Also returns the tokens passed to the calls made. */
    method CollectPages(c: Conversation) returns (r: Collected, tokens: seq<Option<string>>)
      ensures r == Collect(basePath, c)
      ensures tokens == RequestTokens(c)
    {
      var next: Option<string> := None;
      var ps: map<string, Parameter> := map[];
      var i := 0;
      tokens := [];
      while true
        invariant 0 <= i <= |c.pages|
        invariant ps == Fold(basePath, map[], PageItems(c.pages[..i]))
        invariant next == RequestTokens(c)[i]
        invariant tokens == RequestTokens(c)[..i]
        decreases |c.pages| - i
      {
        tokens := tokens + [next];
        var result := ReplyTo(c, i);
        if result.CallFailed? {
          TokensComplete(c, i, tokens);
          return FetchError(GetParametersFailed(basePath, result.err)), tokens;
        }
        if result.NilResult? {
          assert c.pages[..i] == c.pages;
          assert PageItems(c.pages) + [] == PageItems(c.pages);
          assert Items(c) == PageItems(c.pages);
          assert ps == Fold(basePath, map[], Items(c)) && !c.last.Failed?;
          break;
        }
        FoldAppend(basePath, map[], PageItems(c.pages[..i]), result.parameters);
        ps := AddPage(ps, result.parameters);
        if result.nextToken.None? {
          assert c.pages[..i] == c.pages && Items(c) == PageItems(c.pages) + result.parameters;
          assert ps == Fold(basePath, map[], Items(c)) && !c.last.Failed?;
          break;
        }
        assert c.pages[..i + 1] == c.pages[..i] + [c.pages[i]];
        PageItemsSnoc(c.pages[..i], c.pages[i]);
        next := result.nextToken;
        i := i + 1;
      }
      TokensComplete(c, i, tokens);
      if |ps| == 0 {
        return FetchError(ParametersEmpty(basePath)), tokens;
      }
      r := Fetched(ps);
    }

    /** One page's entries folded into `acc` (the inner `for` of GetResult):
        nil names skipped, each key the name with the base path cut out. */
    method AddPage(acc: map<string, Parameter>, items: seq<SdkParameter>) returns (ps: map<string, Parameter>)
      ensures ps == Fold(basePath, acc, items)
    {
      ps := acc;
      var j := 0;
      while j < |items|
        invariant 0 <= j <= |items|
        invariant ps == Fold(basePath, acc, items[..j])
      {
        var v := items[j];
        assert items[..j + 1] == items[..j] + [v];
        FoldSnoc(basePath, acc, items[..j], v);
        if v.name.Some? {
          var k := RemoveFirst(v.name.value, basePath);
          ps := ps[k := ToParameter(v)];
        }
        j := j + 1;
      }
      assert items[..j] == items;
    }

    /** `GetResult`: the traversal, wrapped in a fresh snapshot. */
    method GetResult(c: Conversation) returns (s: Snapshot)
      ensures Collect(basePath, c).FetchError? ==> s == Err(Collect(basePath, c).error)
      ensures Collect(basePath, c).Fetched? ==>
        s.Ok? && fresh(s.ps) && s.ps.Valid() && s.ps.bytesJSON.None? &&
        s.ps.basePath == basePath && s.ps.encode == encode &&
        s.ps.parameters == Collect(basePath, c).parameters
    {
      var r, _ := CollectPages(c);
      match r
      case FetchError(e) => s := Err(e);
      case Fetched(m) =>
        var ps := new Parameters(basePath, m, encode);
        assert ps.Valid() && ps.bytesJSON.None?;
        s := Ok(ps);
    }

    /** `Get`: on success, the snapshot's versions are merged into the
        remembered map (existing keys the snapshot lacks are kept); on
        failure nothing changes. */
    method Get(c: Conversation) returns (s: Snapshot)
      modifies this`versions
      ensures Collect(basePath, c).FetchError? ==>
        s == Err(Collect(basePath, c).error) && versions == old(versions)
      ensures Collect(basePath, c).Fetched? ==>
        s.Ok? && fresh(s.ps) && s.ps.Valid() && s.ps.bytesJSON.None? &&
        s.ps.parameters == Collect(basePath, c).parameters &&
        versions == old(versions) + Versions(s.ps.parameters)
    {
      s := GetResult(c);
      if s.Err? {
        return;
      }
      var parameters := s.ps.parameters;
      var todo := parameters.Keys;
      while todo != {}
        invariant s.ps.Valid() && s.ps.bytesJSON.None?
        invariant todo <= parameters.Keys
        invariant versions == old(versions) + map k | k in parameters.Keys - todo :: parameters[k].version
        decreases todo
      {
        var k :| k in todo;
        RecordStep(old(versions), parameters, todo, k);
        versions := versions[k := parameters[k].version];
        todo := todo - {k};
      }
      assert parameters.Keys - todo == parameters.Keys;
    }

    /** `getChanges`: walks the remembered versions (Updated, Deleted), then
        the snapshot (Current, Created), each in the maps' unspecified order,
        and replaces the remembered versions with the snapshot's wholesale. */
    method GetChanges(ps: Parameters) returns (changes: Changes)
      modifies this`versions
      ensures Describes(changes, Diff(old(versions), Versions(ps.parameters)))
      ensures versions == Versions(ps.parameters)
    {
      var prev := versions;
      var next := Versions(ps.parameters);
      ghost var cs := Diff(prev, next);
      var updated: seq<string> := [];
      var deleted: seq<string> := [];
      var todo := prev.Keys;
      while todo != {}
        invariant todo <= prev.Keys
        invariant forall x :: x in updated ==> x !in todo
        invariant forall x :: x in deleted ==> x !in todo
        invariant Enumerates(updated, cs.updated - todo)
        invariant Enumerates(deleted, cs.deleted - todo)
        decreases todo
      {
        var k :| k in todo;
        if k in ps.parameters {
          if ps.parameters[k].version != prev[k] {
            updated := updated + [k];
          }
        } else {
          deleted := deleted + [k];
        }
        todo := todo - {k};
      }
      assert cs.updated - todo == cs.updated && cs.deleted - todo == cs.deleted;
      var current: seq<string> := [];
      var created: seq<string> := [];
      var vs: map<string, int> := map[];
      todo := ps.parameters.Keys;
      while todo != {}
        invariant todo <= ps.parameters.Keys
        invariant forall x :: x in current ==> x !in todo
        invariant forall x :: x in created ==> x !in todo
        invariant Enumerates(current, cs.current - todo)
        invariant Enumerates(created, cs.created - todo)
        invariant vs.Keys == ps.parameters.Keys - todo
        invariant forall x :: x in vs ==> vs[x] == ps.parameters[x].version
        decreases todo
      {
        var k :| k in todo;
        current := current + [k];
        vs := vs[k := ps.parameters[k].version];
        if k !in prev {
          created := created + [k];
        }
        todo := todo - {k};
      }
      assert cs.current - todo == cs.current && cs.created - todo == cs.created;
      assert ps.parameters.Keys - todo == ps.parameters.Keys;
      versions := vs;
      changes := Changes(current, created, updated, deleted);
    }

    /** One tick of WatchChannel: fetch; on error skip; diff (the remembered
        versions advance here); skip when nothing was created, updated or
        deleted; read the snapshot to the end (skip on a read error, the
        versions having already advanced); push the bytes; then run the
        change callback, if one is registered, with the snapshot and the
        diff. */
    method Tick(c: Conversation) returns (emitted: Option<seq<byte>>, notified: Option<Changes>)
      modifies this`versions
      ensures var t := TickSpec(basePath, encode, old(versions), c);
              versions == t.versions && emitted == t.emitted
      ensures notified.Some? <==> emitted.Some? && hasOnChange
      ensures notified.Some? ==> (Collect(basePath, c).Fetched? &&
        Describes(notified.value, Diff(old(versions), Versions(Collect(basePath, c).parameters))))
    {
      var s := GetResult(c);
      if s.Err? {
        return None, None;
      }
      var ps := s.ps;
      var changes := GetChanges(ps);
      ghost var cs := Diff(old(versions), Versions(ps.parameters));
      if |changes.created| == 0 && |changes.updated| == 0 && |changes.deleted| == 0 {
        assert !HasChanges(cs) by {
          assert forall k :: k !in cs.created && k !in cs.updated && k !in cs.deleted;
        }
        return None, None;
      }
      assert HasChanges(cs) by {
        if |changes.created| != 0 { assert changes.created[0] in cs.created; }
        else if |changes.updated| != 0 { assert changes.updated[0] in cs.updated; }
        else { assert changes.deleted[0] in cs.deleted; }
      }
      var bytes := ReadAll(ps);
      if bytes.None? {
        return None, None;
      }
      assert ps.Json() == encode(KeyValues(ps.parameters));
      emitted := bytes;
      notified := if hasOnChange then Some(changes) else None;
    }

    /** The poll loop over a sequence of fetch results, with no ticker or
        channel: every payload pushed, in order. */
    method Watch(cs: seq<Conversation>) returns (pushed: seq<seq<byte>>)
      modifies this`versions
      ensures pushed == Emissions(basePath, encode, old(versions), cs)
    {
      pushed := [];
      var i := 0;
      while i < |cs|
        invariant 0 <= i <= |cs|
        invariant pushed + Emissions(basePath, encode, versions, cs[i..]) ==
                  Emissions(basePath, encode, old(versions), cs)
      {
        assert cs[i..][1..] == cs[i + 1..];
        ghost var t := TickSpec(basePath, encode, versions, cs[i]);
        assert Emissions(basePath, encode, versions, cs[i..]) ==
          (if t.emitted.Some? then [t.emitted.value] else []) + Emissions(basePath, encode, t.versions, cs[i + 1..]);
        var e, _ := Tick(cs[i]);
        if e.Some? {
          pushed := pushed + [e.value];
        }
        i := i + 1;
      }
    }
  }
}
