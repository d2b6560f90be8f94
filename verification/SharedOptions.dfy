/** Worker options, their defaults, and the cache of compiled options. */
module SharedOptions {
  import opened Wrappers
  import opened Text

  /** The options that decide the compiled ones, and that the cache key names. Durations are nanoseconds. */
  datatype Settings = Settings(
    schema: string, concurrency: int, pollInterval: int, maxPoolSize: int, maxContiguousErrors: int,
    useNodeTime: bool)

  const ZERO := Settings("", 0, 0, 0, 0, false)

  const DEFAULT_SCHEMA := "graphile_worker"
  const DEFAULT_POLL_INTERVAL := 2_000_000_000
  const CONCURRENT_JOBS := 1
  const DEFAULT_MAX_POOL_SIZE := 10
  const MAX_CONTIGUOUS_ERRORS := 10
  const MIN_RESET_LOCKED_INTERVAL := 8 * 60_000_000_000
  const MAX_RESET_LOCKED_INTERVAL := 10 * 60_000_000_000

  /** The schema variable of the environment is "" if it is not set. */
  function WithDefaults(s: Settings, env: string): Settings {
    Settings(
      if s.schema != "" then s.schema else if env != "" then env else DEFAULT_SCHEMA,
      if s.concurrency == 0 then CONCURRENT_JOBS else s.concurrency,
      if s.pollInterval == 0 then DEFAULT_POLL_INTERVAL else s.pollInterval,
      if s.maxPoolSize == 0 then DEFAULT_MAX_POOL_SIZE else s.maxPoolSize,
      if s.maxContiguousErrors == 0 then MAX_CONTIGUOUS_ERRORS else s.maxContiguousErrors,
      s.useNodeTime)
  }

  /** What is given stays; what is not becomes a literal default, and the schema the environment's, if it has one. */
  ghost predicate Defaulted(given: Settings, env: string, d: Settings) {
    && (given.schema != "" ==> d.schema == given.schema)
    && (given.schema == "" && env != "" ==> d.schema == env)
    && (given.schema == "" && env == "" ==> d.schema == "graphile_worker")
    && (given.concurrency != 0 ==> d.concurrency == given.concurrency)
    && (given.concurrency == 0 ==> d.concurrency == 1)
    && (given.pollInterval != 0 ==> d.pollInterval == given.pollInterval)
    && (given.pollInterval == 0 ==> d.pollInterval == 2_000_000_000)
    && (given.maxPoolSize != 0 ==> d.maxPoolSize == given.maxPoolSize)
    && (given.maxPoolSize == 0 ==> d.maxPoolSize == 10)
    && (given.maxContiguousErrors != 0 ==> d.maxContiguousErrors == given.maxContiguousErrors)
    && (given.maxContiguousErrors == 0 ==> d.maxContiguousErrors == 10)
    && d.useNodeTime == given.useNodeTime
  }

  // The key

  function Signed(n: int): string {
    if n < 0 then "-" + Decimal(-n) else Decimal(n)
  }

  function Truth(b: bool): string {
    if b then "true" else "false"
  }

  /** The segments after the schema; show renders a duration. */
  function Segments(s: Settings, hasPgPool: bool, hasEvents: bool, show: int -> string): seq<string> {
    [ "concurrency:" + Signed(s.concurrency), "poll:" + show(s.pollInterval), "pool:" + Signed(s.maxPoolSize),
      "errors:" + Signed(s.maxContiguousErrors), "hasPgPool:" + Truth(hasPgPool), "hasEvents:" + Truth(hasEvents),
      "useNodeTime:" + Truth(s.useNodeTime) ]
  }

  function Barred(head: string, segments: seq<string>): string {
    if segments == [] then head
    else Barred(head, segments[..|segments| - 1]) + "|" + segments[|segments| - 1]
  }

  function CacheKey(s: Settings, hasPgPool: bool, hasEvents: bool, show: int -> string): string {
    Barred("schema:" + s.schema, Segments(s, hasPgPool, hasEvents, show))
  }

  /** What is used of the duration format: it has no bar, and tells durations apart. */
  ghost predicate Shows(show: int -> string) {
    && (forall d :: '|' !in show(d))
    && (forall d, e :: show(d) == show(e) ==> d == e)
  }

  lemma LastBar(a: string, x: string, b: string, y: string)
    requires a + "|" + x == b + "|" + y && '|' !in x && '|' !in y
    ensures a == b && x == y
  {
    var s := a + "|" + x;
    assert s == b + "|" + y && s[|a|] == s[|b|] == '|';
    assert forall k | |a| < k < |s| :: s[k] == x[k - |a| - 1];
    assert forall k | |b| < k < |s| :: s[k] == y[k - |b| - 1];
    assert |a| == |b|;
    assert s[..|a|] == a && s[..|a|] == b && s[|a| + 1..] == x && s[|a| + 1..] == y;
  }

  /** Read from the right: the head may have bars of its own. */
  lemma {:induction false} BarredInjective(h: string, s: seq<string>, i: string, t: seq<string>)
    requires |s| == |t| && (forall k | 0 <= k < |s| :: '|' !in s[k] && '|' !in t[k]) && Barred(h, s) == Barred(i, t)
    ensures h == i && s == t
  {
    if s != [] {
      var n := |s| - 1;
      LastBar(Barred(h, s[..n]), s[n], Barred(i, t[..n]), t[n]);
      BarredInjective(h, s[..n], i, t[..n]);
      assert s == s[..n] + [s[n]] && t == t[..n] + [t[n]];
    }
  }

  lemma SamePrefix(p: string, x: string, y: string)
    requires p + x == p + y
    ensures x == y
  {
    assert (p + x)[|p|..] == x && (p + y)[|p|..] == y;
  }

  lemma SignedHead(n: int)
    ensures Signed(n) != "" && (Signed(n)[0] == '-' <==> n < 0)
  {}

  lemma SignedInjective(m: int, n: int)
    requires Signed(m) == Signed(n)
    ensures m == n
  {
    SignedHead(m);
    SignedHead(n);
    if m < 0 {
      SamePrefix("-", Decimal(-m), Decimal(-n));
      DecimalInjective(-m, -n);
    } else {
      DecimalInjective(m, n);
    }
  }

  lemma SignedPlain(n: int)
    ensures '|' !in Signed(n)
  {}

  lemma PlainAfter(p: string, x: string)
    requires '|' !in p && '|' !in x
    ensures '|' !in p + x
  {}

  lemma NumbersPlain(s: Settings, show: int -> string)
    requires Shows(show)
    ensures '|' !in "concurrency:" + Signed(s.concurrency) && '|' !in "poll:" + show(s.pollInterval)
    ensures '|' !in "pool:" + Signed(s.maxPoolSize) && '|' !in "errors:" + Signed(s.maxContiguousErrors)
  {
    SignedPlain(s.concurrency);
    SignedPlain(s.maxPoolSize);
    SignedPlain(s.maxContiguousErrors);
    PlainAfter("concurrency:", Signed(s.concurrency));
    PlainAfter("poll:", show(s.pollInterval));
    PlainAfter("pool:", Signed(s.maxPoolSize));
    PlainAfter("errors:", Signed(s.maxContiguousErrors));
  }

  lemma FlagsPlain(s: Settings, p: bool, e: bool)
    ensures '|' !in "hasPgPool:" + Truth(p) && '|' !in "hasEvents:" + Truth(e)
    ensures '|' !in "useNodeTime:" + Truth(s.useNodeTime)
  {
    PlainAfter("hasPgPool:", Truth(p));
    PlainAfter("hasEvents:", Truth(e));
    PlainAfter("useNodeTime:", Truth(s.useNodeTime));
  }

  lemma SegmentsPlain(s: Settings, p: bool, e: bool, show: int -> string)
    requires Shows(show)
    ensures forall k | 0 <= k < 7 :: '|' !in Segments(s, p, e, show)[k]
  {
    NumbersPlain(s, show);
    FlagsPlain(s, p, e);
  }

  lemma SegmentsInjective(s: Settings, p: bool, e: bool, t: Settings, q: bool, f: bool, show: int -> string)
    requires Shows(show) && Segments(s, p, e, show) == Segments(t, q, f, show)
    ensures t == s.(schema := t.schema) && p == q && e == f
  {
    var a, b := Segments(s, p, e, show), Segments(t, q, f, show);
    assert forall k | 0 <= k < 7 :: a[k] == b[k];
    SamePrefix("concurrency:", Signed(s.concurrency), Signed(t.concurrency));
    SamePrefix("poll:", show(s.pollInterval), show(t.pollInterval));
    SamePrefix("pool:", Signed(s.maxPoolSize), Signed(t.maxPoolSize));
    SamePrefix("errors:", Signed(s.maxContiguousErrors), Signed(t.maxContiguousErrors));
    SamePrefix("hasPgPool:", Truth(p), Truth(q));
    SamePrefix("hasEvents:", Truth(e), Truth(f));
    SamePrefix("useNodeTime:", Truth(s.useNodeTime), Truth(t.useNodeTime));
    SignedInjective(s.concurrency, t.concurrency);
    SignedInjective(s.maxPoolSize, t.maxPoolSize);
    SignedInjective(s.maxContiguousErrors, t.maxContiguousErrors);
  }

  /** The key tells all settings apart, whatever characters the schema has. */
  lemma KeyInjective(s: Settings, p: bool, e: bool, t: Settings, q: bool, f: bool, show: int -> string)
    requires Shows(show) && CacheKey(s, p, e, show) == CacheKey(t, q, f, show)
    ensures s == t && p == q && e == f
  {
    SegmentsPlain(s, p, e, show);
    SegmentsPlain(t, q, f, show);
    BarredInjective("schema:" + s.schema, Segments(s, p, e, show), "schema:" + t.schema, Segments(t, q, f, show));
    SamePrefix("schema:", s.schema, t.schema);
    SegmentsInjective(s, p, e, t, q, f, show);
  }

  // The cache on values

  datatype Request = Request(settings: Settings, hasPgPool: bool, hasEvents: bool, noPreparedStatements: bool,
    env: string)
  {
    function Key(show: int -> string): string {
      CacheKey(WithDefaults(settings, env), hasPgPool, hasEvents, show)
    }
  }

  datatype Entry = Entry(
    settings: Settings, escapedWorkerSchema: string, minResetLockedInterval: int, maxResetLockedInterval: int,
    noPreparedStatements: bool)

  function Escaped(schema: string): string {
    "\"" + schema + "\""
  }

  /** Compiling without a cache. */
  function Compile(q: Request): Entry {
    var s := WithDefaults(q.settings, q.env);
    Entry(s, Escaped(s.schema), MIN_RESET_LOCKED_INTERVAL, MAX_RESET_LOCKED_INTERVAL, q.noPreparedStatements)
  }

  /** The schema in quotes; 8 and 10 minutes. */
  ghost predicate CompiledFrom(q: Request, e: Entry) {
    && Defaulted(q.settings, q.env, e.settings)
    && |e.escapedWorkerSchema| == |e.settings.schema| + 2
    && e.escapedWorkerSchema[0] == e.escapedWorkerSchema[|e.settings.schema| + 1] == '"'
    && e.escapedWorkerSchema[1..|e.settings.schema| + 1] == e.settings.schema
    && e.minResetLockedInterval == 480_000_000_000 && e.maxResetLockedInterval == 600_000_000_000
  }

  lemma CompileByField(q: Request, noPreparedStatements: bool)
    ensures CompiledFrom(q, Compile(q).(noPreparedStatements := noPreparedStatements))
    ensures Compile(q).noPreparedStatements == q.noPreparedStatements
  {}

  type Cached = map<string, Entry>

  function Processed(cache: Cached, q: Request, show: int -> string): (Cached, Entry) {
    var k := q.Key(show);
    if k in cache then (cache, cache[k]) else (cache[k := Compile(q)], Compile(q))
  }

  datatype Call = Process(request: Request) | Clear

  function AfterCalls(calls: seq<Call>, show: int -> string): Cached {
    if calls == [] then map[]
    else
      var before := AfterCalls(calls[..|calls| - 1], show);
      match calls[|calls| - 1]
      case Process(q) => Processed(before, q, show).0
      case Clear => map[]
  }

  /** Every entry was compiled for a request with its key. */
  ghost predicate CacheOk(cache: Cached, show: int -> string) {
    forall k | k in cache :: exists q: Request :: q.Key(show) == k && cache[k] == Compile(q)
  }

  lemma ProcessedOk(cache: Cached, q: Request, show: int -> string)
    requires CacheOk(cache, show)
    ensures CacheOk(Processed(cache, q, show).0, show)
  {}

  lemma {:induction false} CallsKeepCacheOk(calls: seq<Call>, show: int -> string)
    ensures CacheOk(AfterCalls(calls, show), show)
  {
    if calls != [] {
      var n := |calls| - 1;
      CallsKeepCacheOk(calls[..n], show);
      match calls[n] {
        case Process(q) => ProcessedOk(AfterCalls(calls[..n], show), q, show);
        case Clear =>
      }
    }
  }

  lemma HitAgrees(cache: Cached, q: Request, show: int -> string)
    requires Shows(show) && CacheOk(cache, show)
    ensures Processed(cache, q, show).1
      == Compile(q).(noPreparedStatements := Processed(cache, q, show).1.noPreparedStatements)
  {
    var k := q.Key(show);
    if k in cache {
      var p: Request :| p.Key(show) == k && cache[k] == Compile(p);
      KeyInjective(WithDefaults(p.settings, p.env), p.hasPgPool, p.hasEvents, WithDefaults(q.settings, q.env),
        q.hasPgPool, q.hasEvents, show);
    }
  }

  lemma RequestServed(cache: Cached, q: Request, show: int -> string, key: string, next: Cached, r: Entry)
    requires Shows(show) && CacheOk(cache, show) && key == q.Key(show) && key in next && r == next[key]
    requires next == if key in cache then cache else cache[key := Compile(q)]
    ensures next == Processed(cache, q, show).0 && CacheOk(next, show)
    ensures r == Compile(q).(noPreparedStatements := r.noPreparedStatements)
  {
    ProcessedOk(cache, q, show);
    HitAgrees(cache, q, show);
  }

  /** After every history of calls, with any schemas and any changes of the environment between them. */
  lemma CacheAgreesWithCompile(calls: seq<Call>, q: Request, show: int -> string)
    requires Shows(show)
    ensures var r := Processed(AfterCalls(calls, show), q, show).1;
      r == Compile(q).(noPreparedStatements := r.noPreparedStatements) && CompiledFrom(q, r)
  {
    CompileByField(q, Processed(AfterCalls(calls, show), q, show).1.noPreparedStatements);
    CallsKeepCacheOk(calls, show);
    HitAgrees(AfterCalls(calls, show), q, show);
  }

  /** The statement mode is not in the key: the first request with a key decides it for all later ones. */
  lemma StatementModeIsFirst(calls: seq<Call>, p: Request, q: Request, show: int -> string)
    requires p.Key(show) == q.Key(show) && p.Key(show) !in AfterCalls(calls, show)
    ensures Processed(AfterCalls(calls + [Process(p)], show), q, show).1.noPreparedStatements == p.noPreparedStatements
  {
    assert (calls + [Process(p)])[..|calls|] == calls;
  }

  // The objects

  class Pool {}

  class EventBus {
    constructor () {}
  }

  datatype Scope = Scope(tag: string, workerId: string, taskIdentifier: string, jobId: Option<string>)

  datatype Logger = Logger(scope: Scope)
  {
    /** The additional scope wins where it says something. */
    function Scoped(s: Scope): Logger {
      Logger(Scope(
        if s.tag != "" then s.tag else scope.tag,
        if s.workerId != "" then s.workerId else scope.workerId,
        if s.taskIdentifier != "" then s.taskIdentifier else scope.taskIdentifier,
        if s.jobId.Some? then s.jobId else scope.jobId))
    }
  }

  class WorkerPoolOptions {
    var schema: string
    var concurrency: int
    var pollInterval: int
    var maxPoolSize: int
    var maxContiguousErrors: int
    var useNodeTime: bool
    var pgPool: Pool?
    var events: EventBus?
    var logger: Option<Logger>
    var noPreparedStatements: bool

    constructor ()
      ensures Value() == ZERO && pgPool == null && events == null && logger.None? && !noPreparedStatements
    {
      schema, concurrency, pollInterval, maxPoolSize, maxContiguousErrors := "", 0, 0, 0, 0;
      useNodeTime, pgPool, events, logger, noPreparedStatements := false, null, null, None, false;
    }

    function Value(): Settings
      reads this
    {
      Settings(schema, concurrency, pollInterval, maxPoolSize, maxContiguousErrors, useNodeTime)
    }

    function Asked(env: string): Request
      reads this
    {
      Request(Value(), pgPool != null, events != null, noPreparedStatements, env)
    }

    method ApplyDefaultOptions(env: string)
      modifies this`schema, this`concurrency, this`pollInterval, this`maxPoolSize, this`maxContiguousErrors
      ensures Value() == WithDefaults(old(Value()), env)
      ensures Defaulted(old(Value()), env, Value())
      ensures WithDefaults(Value(), env) == Value()
    {
      if schema == "" {
        schema := if env != "" then env else DEFAULT_SCHEMA;
      }
      if pollInterval == 0 {
        pollInterval := DEFAULT_POLL_INTERVAL;
      }
      if concurrency == 0 {
        concurrency := CONCURRENT_JOBS;
      }
      if maxPoolSize == 0 {
        maxPoolSize := DEFAULT_MAX_POOL_SIZE;
      }
      if maxContiguousErrors == 0 {
        maxContiguousErrors := MAX_CONTIGUOUS_ERRORS;
      }
    }
  }

  /** Compiled options are never written again; callers share them. */
  class CompiledSharedOptions {
    const value: Entry
    const events: EventBus
    const logger: Option<Logger>
    const options: WorkerPoolOptions

    constructor (value: Entry, events: EventBus, logger: Option<Logger>, options: WorkerPoolOptions)
      ensures this.value == value && this.events == events && this.logger == logger && this.options == options
    {
      this.value, this.events, this.logger, this.options := value, events, logger, options;
    }
  }

  function EntriesOf(m: map<string, CompiledSharedOptions>): Cached {
    map k | k in m :: m[k].value
  }

  lemma EntriesAdd(m: map<string, CompiledSharedOptions>, key: string, c: CompiledSharedOptions, e: Entry)
    requires if key in m then c == m[key] else c.value == e
    ensures var next := if key in m then m else m[key := c];
      && EntriesOf(next) == (if key in EntriesOf(m) then EntriesOf(m) else EntriesOf(m)[key := e])
      && key in EntriesOf(next) && EntriesOf(next)[key] == c.value
  {}

  lemma Obtained(
    m: map<string, CompiledSharedOptions>, q: Request, show: int -> string, key: string, c: CompiledSharedOptions)
    requires Shows(show) && CacheOk(EntriesOf(m), show) && key == q.Key(show)
    requires if key in m then c == m[key] else c.value == Compile(q)
    ensures var next := EntriesOf(if key in m then m else m[key := c]);
      CacheOk(next, show) && next == Processed(EntriesOf(m), q, show).0
    ensures c.value == Compile(q).(noPreparedStatements := c.value.noPreparedStatements) && CompiledFrom(q, c.value)
  {
    var next := if key in m then m else m[key := c];
    EntriesAdd(m, key, c, Compile(q));
    RequestServed(EntriesOf(m), q, show, key, EntriesOf(next), c.value);
    CompileByField(q, c.value.noPreparedStatements);
  }

  class OptionsCache {
    const show: int -> string
    var compiled: map<string, CompiledSharedOptions>

    function Entries(): Cached
      reads this
    {
      EntriesOf(compiled)
    }

    constructor (show: int -> string)
      ensures this.show == show && compiled == map[]
    {
      this.show, compiled := show, map[];
    }

    method ClearCache()
      modifies this
      ensures compiled == map[] && Entries() == map[]
    {
      compiled := map[];
    }

    /** A copy with a scoped logger if a scope is given; null stands for the panic of scoping without a logger. */
    method Scoped(c: CompiledSharedOptions, scope: Option<Scope>) returns (r: CompiledSharedOptions?)
      ensures scope.None? ==> r == c
      ensures r == null <==> scope.Some? && c.logger.None?
      ensures r != null ==> r.value == c.value && r.events == c.events && r.options == c.options
      ensures r != null && scope.Some? ==> fresh(r) && r.logger == Some(c.logger.value.Scoped(scope.value))
      ensures r != null && scope.Some? ==> r.logger.Some?
      ensures r != null && scope.Some? ==>
        var was, more, now := c.logger.value.scope, scope.value, r.logger.value.scope; (
        && (more.tag == "" ==> now.tag == was.tag) && (more.tag != "" ==> now.tag == more.tag)
        && (more.workerId == "" ==> now.workerId == was.workerId)
        && (more.workerId != "" ==> now.workerId == more.workerId)
        && (more.taskIdentifier == "" ==> now.taskIdentifier == was.taskIdentifier)
        && (more.taskIdentifier != "" ==> now.taskIdentifier == more.taskIdentifier)
        && now.jobId == if more.jobId == None then was.jobId else more.jobId)
    {
      match scope {
        case None => r := c;
        case Some(s) =>
          if c.logger.None? {
            r := null;
          } else {
            r := new CompiledSharedOptions(c.value, c.events, Some(c.logger.value.Scoped(s)), c.options);
          }
      }
    }

    /** New compiled options, with the event bus of the options or a new one. */
    method CompileOptions(options: WorkerPoolOptions) returns (c: CompiledSharedOptions)
      ensures fresh(c) && c.options == options && c.logger == options.logger
      ensures options.events != null ==> c.events == options.events
      ensures c.value == Entry(options.Value(), Escaped(options.schema), MIN_RESET_LOCKED_INTERVAL,
        MAX_RESET_LOCKED_INTERVAL, options.noPreparedStatements)
    {
      var bus := options.events;
      if bus == null {
        bus := new EventBus();
      }
      var value := Entry(options.Value(), Escaped(options.schema), MIN_RESET_LOCKED_INTERVAL,
        MAX_RESET_LOCKED_INTERVAL, options.noPreparedStatements);
      c := new CompiledSharedOptions(value, bus, options.logger, options);
    }

    /** The cached options of a key, or new ones compiled from options with their defaults. */
    method Obtain(key: string, options: WorkerPoolOptions, ghost q: Request) returns (c: CompiledSharedOptions)
      requires Shows(show) && CacheOk(Entries(), show) && key == q.Key(show)
      requires options.Value() == WithDefaults(q.settings, q.env)
      requires options.noPreparedStatements == q.noPreparedStatements
      modifies this`compiled
      ensures CacheOk(Entries(), show) && Entries() == Processed(old(Entries()), q, show).0
      ensures key in old(compiled) ==> compiled == old(compiled)
      ensures key in compiled && c == compiled[key]
      ensures c.value == Compile(q).(noPreparedStatements := c.value.noPreparedStatements) && CompiledFrom(q, c.value)
    {
      ghost var before := compiled;
      if key in compiled {
        c := compiled[key];
      } else {
        c := CompileOptions(options);
        compiled := compiled[key := c];
      }
      Obtained(before, q, show, key, c);
    }

    /** The options given or new ones, with their defaults, and the request they make. */
    method Prepare(given: WorkerPoolOptions?, env: string) returns (options: WorkerPoolOptions, ghost q: Request)
      modifies given
      ensures options == given || (given == null && fresh(options))
      ensures q == if given == null then Request(ZERO, false, false, false, env) else old(given.Asked(env))
      ensures options.Value() == WithDefaults(q.settings, env) && options.noPreparedStatements == q.noPreparedStatements
      ensures (options.pgPool != null <==> q.hasPgPool) && (options.events != null <==> q.hasEvents)
    {
      if given == null {
        options := new WorkerPoolOptions();
      } else {
        options := given;
      }
      q := options.Asked(env);
      options.ApplyDefaultOptions(env);
    }

    /** Missing options stand for new ones; what they become is the same, so the request is all that matters. */
    method ProcessSharedOptions(given: WorkerPoolOptions?, scope: Option<Scope>, env: string)
      returns (r: CompiledSharedOptions?, ghost q: Request)
      requires Shows(show) && CacheOk(Entries(), show)
      modifies this, given
      ensures q == if given == null then Request(ZERO, false, false, false, env) else old(given.Asked(env))
      ensures CacheOk(Entries(), show) && Entries() == Processed(old(Entries()), q, show).0
      ensures given != null ==> given.Value() == WithDefaults(q.settings, env)
      ensures q.Key(show) in compiled && (r == null <==> scope.Some? && compiled[q.Key(show)].logger.None?)
      ensures q.Key(show) in old(compiled) ==> compiled == old(compiled)
      ensures scope.None? ==> r == compiled[q.Key(show)]
      ensures r != null ==> r.value == Compile(q).(noPreparedStatements := r.value.noPreparedStatements)
      ensures r != null ==> CompiledFrom(q, r.value)
    {
      var options;
      options, q := Prepare(given, env);
      var key := CacheKey(options.Value(), options.pgPool != null, options.events != null, show);
      assert key == q.Key(show);
      var c := Obtain(key, options, q);
      r := Scoped(c, scope);
    }
  }
}
