/** The functional options of the Parameter Store provider
    (parameterstore/option.go) and the defaults they are applied to. Each
    option closure assigns at most one field of the provider; here a
    closure is a value of `ParamOption` and applying it is `Apply`. */
module ParamOptions {
  import opened Common

  /** The logger interface; `EmptyLogger` is the provider's default. */
  datatype Logger = EmptyLogger | NamedLogger(name: string)

  /** The fields of `Provider` that the options set. */
  datatype Settings = Settings(
    region: string,
    accessKey: string,
    secretKey: string,
    sessionToken: string,
    basePath: string,
    watchInterval: int,
    logger: Logger,
    hasOnChange: bool)

  /** One `Option` closure (With... in option.go). A nil logger is `None`;
      WithOnChangeFunc is represented by whether the function is nil. */
  datatype ParamOption =
    | WithBasePath(bp: string)
    | WithRegion(r: string)
    | WithAccessKey(ak: string)
    | WithSecretKey(sk: string)
    | WithSessionToken(t: string)
    | WithWatchInterval(w: int)
    | WithLogger(l: Option<Logger>)
    | WithOnChangeFunc(isSet: bool)

  /** The provider before any option: region us-east-1, no base path, a
      five-second poll interval, the empty logger. */
  function Defaults(): (s: Settings)
    ensures s.region == "us-east-1" && s.basePath == ""
    ensures s.watchInterval == 5 * Second && s.logger == EmptyLogger && !s.hasOnChange
  {
    Settings("us-east-1", "", "", "", "", 5 * Second, EmptyLogger, false)
  }

  /** The base path WithBasePath(bp) stores over `current`: an empty `bp`
      keeps `current`, any other gets a trailing '/' unless it has one. */
  function BasePathAfter(current: string, bp: string): string {
    if bp == "" then current
    else if bp[|bp| - 1] != '/' then bp + "/"
    else bp
  }

  /** What WithBasePath promises: an empty argument changes nothing; a
      non-empty one is stored as itself followed by at most one '/', and the
      stored path always ends in '/'. */
  lemma BasePathAfterShape(current: string, bp: string)
    ensures bp == "" ==> BasePathAfter(current, bp) == current
    ensures bp != "" ==> |BasePathAfter(current, bp)| > 0
    ensures bp != "" ==> BasePathAfter(current, bp)[|BasePathAfter(current, bp)| - 1] == '/'
    ensures bp != "" ==> bp <= BasePathAfter(current, bp)
    ensures bp != "" ==> |BasePathAfter(current, bp)| <= |bp| + 1
  {
  }

  /** Normalising is idempotent: a path that already ends in '/' is stored
      unchanged, so passing WithBasePath its own (non-empty) result again,
      over any current path, stores the same path. */
  lemma {:induction false} BasePathAfterIdempotent(current: string, other: string, bp: string)
    requires bp != ""
    ensures var once := BasePathAfter(current, bp);
            BasePathAfter(other, once) == once
  {
    BasePathAfterShape(current, bp);
  }

  /** The interval WithWatchInterval(w) leaves: only more than a second
      replaces the current one. */
  function IntervalAfter(current: int, w: int): (r: int)
    ensures w > Second ==> r == w
    ensures w <= Second ==> r == current
  {
    if w > Second then w else current
  }

  /** The logger WithLogger(l) leaves: a nil logger changes nothing. */
  function LoggerAfter(current: Logger, l: Option<Logger>): (r: Logger)
    ensures l.None? ==> r == current
    ensures l.Some? ==> r == l.value
  {
    match l
    case None => current
    case Some(lg) => lg
  }

  /** Running one option closure on the provider. */
  function Apply(s: Settings, o: ParamOption): (r: Settings)
    ensures o.WithBasePath? ==> r == s.(basePath := BasePathAfter(s.basePath, o.bp))
    ensures o.WithWatchInterval? ==> r == s.(watchInterval := IntervalAfter(s.watchInterval, o.w))
    ensures o.WithLogger? ==> r == s.(logger := LoggerAfter(s.logger, o.l))
    ensures !o.WithBasePath? ==> r.basePath == s.basePath
    ensures !o.WithWatchInterval? ==> r.watchInterval == s.watchInterval
    ensures !o.WithLogger? ==> r.logger == s.logger
  {
    match o
    case WithBasePath(bp) => s.(basePath := BasePathAfter(s.basePath, bp))
    case WithRegion(rg) => s.(region := rg)
    case WithAccessKey(ak) => s.(accessKey := ak)
    case WithSecretKey(sk) => s.(secretKey := sk)
    case WithSessionToken(t) => s.(sessionToken := t)
    case WithWatchInterval(w) => s.(watchInterval := IntervalAfter(s.watchInterval, w))
    case WithLogger(l) => s.(logger := LoggerAfter(s.logger, l))
    case WithOnChangeFunc(isSet) => s.(hasOnChange := isSet)
  }

  /** `for _, opt := range opts { opt(p) }`: options run in order. */
  function ApplyAll(s: Settings, opts: seq<ParamOption>): Settings
    decreases |opts|
  {
    if opts == [] then s else ApplyAll(Apply(s, opts[0]), opts[1..])
  }

  /** Whatever options run, the watch interval stays above one second:
      the default is five seconds and WithWatchInterval only installs
      values above a second. */
  lemma {:induction false} ApplyAllKeepsIntervalAboveSecond(s: Settings, opts: seq<ParamOption>)
    requires s.watchInterval > Second
    ensures ApplyAll(s, opts).watchInterval > Second
    decreases |opts|
  {
    if opts != [] {
      ApplyAllKeepsIntervalAboveSecond(Apply(s, opts[0]), opts[1..]);
    }
  }

  /** Whatever options run from the defaults, a non-empty base path ends in
      '/'. */
  lemma {:induction false} ApplyAllBasePathEndsInSlash(s: Settings, opts: seq<ParamOption>)
    requires s.basePath != "" ==> s.basePath[|s.basePath| - 1] == '/'
    ensures var bp := ApplyAll(s, opts).basePath;
            bp != "" ==> bp[|bp| - 1] == '/'
    decreases |opts|
  {
    if opts != [] {
      var o := opts[0];
      if o.WithBasePath? {
        BasePathAfterShape(s.basePath, o.bp);
      }
      ApplyAllBasePathEndsInSlash(Apply(s, o), opts[1..]);
    }
  }
}
