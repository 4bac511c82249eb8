/**
 Sessions and their per-domain contexts (src/lumina/api/session.py): the container of one session, the
 store of all of them, and what is kept across switches, expiries, refusals, rebuilds and closing.
 */
module Session {
  import opened Text

  // ---------------------------------------------------------------- contexts

  /** A task or task specification: its fields, serialised. An empty one counts as absent. */
  type Task = map<string, string>

  datatype Context = Context(taskSpec: Task, currentTask: Task, turnCount: int, moduleKey: string)

  /** What building a context for a domain yields: the defaults, the generated task, the chosen module. */
  datatype Made = Made(taskSpec: Task, freshTask: Task, moduleKey: string)

  function WithCompleted(task: Task): Task {
    if "completed" in task then task else task["completed" := "false"]
  }

  /** `_build_domain_context`, from the saved state of the domain if there is any. */
  function Build(made: Made, saved: Option<Context>): Context {
    var spec := if saved.Some? && saved.value.taskSpec != map[] then saved.value.taskSpec else made.taskSpec;
    var task := if saved.Some? && saved.value.currentTask != map[] then saved.value.currentTask else made.freshTask;
    Context(spec, WithCompleted(task), if saved.Some? then saved.value.turnCount else 0, made.moduleKey)
  }

  /** A built context has the saved task or the fresh one, with a completed flag that is "false" unless it had one. */
  lemma CompletedIsFilled(made: Made, saved: Option<Context>)
    ensures var context := Build(made, saved);
      var task := if saved.Some? && saved.value.currentTask != map[] then saved.value.currentTask else made.freshTask;
      && context.currentTask.Keys == task.Keys + {"completed"}
      && (forall k | k in task :: context.currentTask[k] == task[k])
      && ("completed" !in task ==> context.currentTask["completed"] == "false")
      && (saved.None? ==> context.taskSpec == made.taskSpec && context.turnCount == 0)
      && context.moduleKey == made.moduleKey
  {}

  // ---------------------------------------------------------------- one session

  /** A `domain_switch` log entry. */
  datatype Switch = Switch(from: string, to: string)

  datatype Container = Container(active: string, contexts: map<string, Context>, user: Option<string>,
                                 switches: seq<Switch>)

  /** The context served, and whether it was built for this call. */
  datatype Outcome = Served(context: Context, built: bool) | Refused | Failed

  /** The configured maximum of contexts and the registry's `resolve_domain_id`, None where it raises. */
  datatype Config = Config(max: int, resolve: string -> Option<string>)

  function Unexpired<T>(contexts: map<string, T>, active: string, expired: seq<string>): map<string, T> {
    map d | d in contexts && (d == active || d !in expired) :: contexts[d]
  }

  function SwitchedTo(c: Container, domain: string): Container {
    c.(active := domain, switches := c.switches + [Switch(c.active, domain)])
  }

  /**
   `get_or_create_session` for a session that is open. No domain (the empty string) means the active one;
   `made` is what building a context gives, should it come to that, or None where it raises.
   */
  function Get(c: Container, request: string, expired: seq<string>, made: Option<Made>, cfg: Config)
    : (Container, Outcome)
    requires c.active in c.contexts
  {
    var kept := c.(contexts := Unexpired(c.contexts, c.active, expired));
    var asked := if request == "" then c.active else request;
    if asked == c.active then (kept, Served(kept.contexts[c.active], false))
    else if asked in kept.contexts then (SwitchedTo(kept, asked), Served(kept.contexts[asked], false))
    else if |kept.contexts| >= cfg.max then (kept, Refused)
    else if cfg.resolve(asked).None? || made.None? then (kept, Failed)
    else
      var key := cfg.resolve(asked).value;
      var context := Build(made.value, None);
      (SwitchedTo(kept.(contexts := kept.contexts[key := context]), key), Served(context, true))
  }

  /** What the session's dictionary holds at the end of a turn; the module key may be missing. */
  datatype SessionDict = SessionDict(spec: Task, task: Task, moduleKey: Option<string>)

  /** `sync_from_dict` */
  function Synced(was: Context, d: SessionDict, count: int): Context {
    Context(d.spec, d.task, count, if d.moduleKey.Some? then d.moduleKey.value else was.moduleKey)
  }

  /** The end of a turn: the session's dictionary is copied back into the active context. */
  function Turn(c: Container, d: SessionDict): Container
    requires c.active in c.contexts
  {
    var was := c.contexts[c.active];
    c.(contexts := c.contexts[c.active := Synced(was, d, was.turnCount + 1)])
  }

  /** `rebuild_user_domain_context` on one container. */
  function Rebuild(c: Container, user: string, key: string, made: Made): Container {
    if c.user == Some(user) && key in c.contexts then c.(contexts := c.contexts[key := Build(made, None)]) else c
  }

  // ---------------------------------------------------------------- the store of sessions

  /** A rebuild restarts the context it is for, and touches nothing of another user or domain. */
  lemma RebuildRestarts(c: Container, user: string, key: string, made: Made, d: string)
    ensures var c' := Rebuild(c, user, key, made);
      && c'.active == c.active && c'.switches == c.switches && c'.contexts.Keys == c.contexts.Keys
      && (c.user == Some(user) && key in c.contexts ==> c'.contexts[key] == Build(made, None))
      && (c.user != Some(user) || d != key ==> d in c.contexts ==> c'.contexts[d] == c.contexts[d])
  {
    hide Build;
  }

  /** What is persisted of a session. */
  datatype Saved = Saved(active: string, contexts: map<string, Context>)

  datatype Store = Store(open: map<string, Container>, saved: map<string, Saved>)

  function Persist(c: Container): Saved {
    Saved(c.active, c.contexts)
  }

  function Put(s: Store, sid: string, c: Container, persisted: bool): Store {
    Store(s.open[sid := c], if persisted then s.saved[sid := Persist(c)] else s.saved)
  }

  /** `get_or_create_session`: only a call that builds a context persists the session. */
  function AfterGet(s: Store, sid: string, request: string, user: Option<string>, expired: seq<string>,
                    made: Option<Made>, cfg: Config): (Store, Outcome)
    requires sid in s.open ==> s.open[sid].active in s.open[sid].contexts
  {
    if sid in s.open then
      var (c, outcome) := Get(s.open[sid], request, expired, made, cfg);
      (Put(s, sid, c, outcome.Served? && outcome.built), outcome)
    else if cfg.resolve(request).None? || made.None? then (s, Failed)
    else
      var (c, outcome) := Create(SavedContext(s, sid, cfg.resolve(request).value), cfg.resolve(request).value,
                                 user, made.value);
      (Put(s, sid, c, true), outcome)
  }

  function SavedContext(s: Store, sid: string, key: string): Option<Context> {
    if sid in s.saved && key in s.saved[sid].contexts then Some(s.saved[sid].contexts[key]) else None
  }

  function Create(saved: Option<Context>, key: string, user: Option<string>, made: Made): (Container, Outcome) {
    var context := Build(made, saved);
    (Container(key, map[key := context], user, []), Served(context, true))
  }

  /** The end of a turn of `process_message`; nothing to do for a session closed meanwhile. */
  function AfterTurn(s: Store, sid: string, d: SessionDict): Store
    requires sid in s.open ==> s.open[sid].active in s.open[sid].contexts
  {
    if sid in s.open then Put(s, sid, Turn(s.open[sid], d), true) else s
  }

  /** One round of the loop of `rebuild_user_domain_context`: only a container that changes is persisted. */
  function AfterRebuild(s: Store, sid: string, user: string, key: string, made: Made): Store {
    if sid in s.open && s.open[sid].user == Some(user) && key in s.open[sid].contexts then
      Put(s, sid, Rebuild(s.open[sid], user, key, made), true)
    else s
  }

  /** `_close_session`, with the turn count each domain's closing record carries. */
  function AfterClose(s: Store, sid: string): (Store, map<string, int>) {
    if sid in s.open then
      var c := s.open[sid];
      (Store(s.open - {sid}, s.saved[sid := Persist(c)]), map d | d in c.contexts :: c.contexts[d].turnCount)
    else (s, map[])
  }

  // ---------------------------------------------------------------- the implementation

  class DomainContext {
    var taskSpec: Task
    var currentTask: Task
    var turnCount: int
    var moduleKey: string

    function Now(): Context
      reads this
    {
      Context(taskSpec, currentTask, turnCount, moduleKey)
    }

    constructor (context: Context)
      ensures Now() == context
    {
      taskSpec, currentTask, turnCount, moduleKey :=
        context.taskSpec, context.currentTask, context.turnCount, context.moduleKey;
    }

    method SyncFrom(d: SessionDict, count: int)
      modifies this
      ensures Now() == Synced(old(Now()), d, count)
    {
      taskSpec, currentTask, turnCount := d.spec, d.task, count;
      if d.moduleKey.Some? {
        moduleKey := d.moduleKey.value;
      }
    }
  }

  class SessionContainer {
    var active: string
    var contexts: map<string, DomainContext>
    var switches: seq<Switch>
    const user: Option<string>

    /** The active domain is held, and no context is shared between two domains. */
    ghost predicate Valid()
      reads this
    {
      active in contexts && forall d, e | d in contexts && e in contexts && d != e :: contexts[d] != contexts[e]
    }

    function Now(): Container
      reads this, contexts.Values
    {
      Container(active, map d | d in contexts :: contexts[d].Now(), user, switches)
    }

    constructor (domain: string, context: DomainContext, user: Option<string>)
      ensures Valid() && contexts == map[domain := context]
      ensures Now() == Container(domain, map[domain := context.Now()], user, [])
    {
      active, contexts, switches := domain, map[domain := context], [];
      this.user := user;
    }

    /** The expired entries are deleted one by one, the active domain never. */
    method Prune(expired: seq<string>)
      requires Valid()
      modifies this`contexts
      ensures Valid() && contexts == Unexpired(old(contexts), active, expired)
      ensures Now() == old(Now()).(contexts := Unexpired(old(Now()).contexts, active, expired))
    {
      for i := 0 to |expired|
        invariant contexts == Unexpired(old(contexts), active, expired[..i])
      {
        var key := expired[i];
        assert expired[..i + 1] == expired[..i] + [key];
        if key in contexts && key != active {
          contexts := contexts - {key};
        }
      }
      assert expired[..|expired|] == expired;
      assert Now().contexts == Unexpired(old(Now()).contexts, active, expired);
    }

    /** A context is built and held for a domain. */
    method Add(key: string, made: Made)
      requires Valid()
      modifies this`contexts
      ensures Valid() && key in contexts && fresh(contexts[key]) && contexts == old(contexts)[key := contexts[key]]
      ensures Now() == old(Now()).(contexts := old(Now()).contexts[key := Build(made, None)])
    {
      var context := new DomainContext(Build(made, None));
      contexts := contexts[key := context];
      assert Now().contexts == old(Now()).contexts[key := Build(made, None)];
    }

    /** The active domain changes, and the switch is logged. */
    method Activate(domain: string)
      requires Valid() && domain in contexts
      modifies this`active, this`switches
      ensures Valid()
      ensures Now() == SwitchedTo(old(Now()), domain)
    {
      var previous := active;
      active := domain;
      switches := switches + [Switch(previous, active)];
      assert Now().contexts == old(Now()).contexts;
    }

    method GetContext(request: string, expired: seq<string>, made: Option<Made>, cfg: Config)
      returns (outcome: Outcome)
      requires Valid()
      modifies this
      ensures Valid() && fresh(contexts.Values - old(contexts.Values))
      ensures (Now(), outcome) == Get(old(Now()), request, expired, made, cfg)
    {
      hide SwitchedTo, Build;
      var asked := if request == "" then active else request;
      Prune(expired);
      if asked == active {
        return Served(contexts[active].Now(), false);
      }
      if asked in contexts {
        Activate(asked);
        return Served(contexts[asked].Now(), false);
      }
      assert contexts.Keys == Now().contexts.Keys;
      if |contexts| >= cfg.max {
        return Refused;
      }
      var key := cfg.resolve(asked);
      if key.None? || made.None? {
        return Failed;
      }
      var context := Open(key.value, made.value);
      outcome := Served(context, true);
    }

    method Open(key: string, made: Made) returns (context: Context)
      requires Valid()
      modifies this
      ensures Valid() && fresh(contexts.Values - old(contexts.Values))
      ensures context == Build(made, None)
      ensures Now() == SwitchedTo(old(Now()).(contexts := old(Now()).contexts[key := Build(made, None)]), key)
    {
      hide Build;
      Add(key, made);
      ghost var held := Now();
      Activate(key);
      assert Now().contexts[key] == held.contexts[key];
      context := contexts[key].Now();
    }

    /** A turn's dictionary, one turn older, is copied back. */
    method EndTurn(d: SessionDict)
      requires Valid()
      modifies contexts[active]
      ensures Valid()
      ensures Now() == Turn(old(Now()), d)
    {
      hide Synced;
      var context := contexts[active];
      context.SyncFrom(d, context.turnCount + 1);
      assert Now().contexts == Turn(old(Now()), d).contexts;
    }

    method RebuildFor(owner: string, key: string, made: Made)
      requires Valid()
      modifies this`contexts
      ensures Valid() && fresh(contexts.Values - old(contexts.Values))
      ensures Now() == Rebuild(old(Now()), owner, key, made)
    {
      if user == Some(owner) && key in contexts {
        Add(key, made);
      }
    }
  }

  // ---------------------------------------------------------------- one call

  ghost predicate Sound(c: Container, cfg: Config) {
    c.active in c.contexts && (|c.contexts| <= 1 || |c.contexts| <= cfg.max)
  }

  /**
   The call asks for an unheld name of a domain that is held, there is room, and building succeeds:
   the held context is replaced by a new one.
   */
  predicate AliasHit(c: Container, request: string, expired: seq<string>, made: Option<Made>, cfg: Config,
                     key: string)
    requires c.active in c.contexts
  {
    var kept := Unexpired(c.contexts, c.active, expired);
    && request != "" && request !in kept && |kept| < cfg.max && made.Some?
    && cfg.resolve(request) == Some(key)
  }

  /** A held context survives a call unless it is expired and inactive; untouched unless hit by an alias. */
  lemma GetKeepsContexts(c: Container, request: string, expired: seq<string>, made: Option<Made>, cfg: Config,
                         key: string)
    requires c.active in c.contexts && key in c.contexts
    ensures var (c', _) := Get(c, request, expired, made, cfg);
      var hit := AliasHit(c, request, expired, made, cfg, key);
      && (key in c'.contexts <==> key == c.active || key !in expired || hit)
      && (key in c'.contexts ==> c'.contexts[key] == if hit then Build(made.value, None) else c.contexts[key])
      && (hit ==> c'.active == key && c'.contexts[key].turnCount == 0)
  {
    hide WithCompleted;
  }

  /** A call that is not served changes nothing but what has expired; in particular not the active domain. */
  lemma RefusalChangesNothing(c: Container, request: string, expired: seq<string>, made: Option<Made>, cfg: Config)
    requires c.active in c.contexts
    ensures var (c', outcome) := Get(c, request, expired, made, cfg);
      var kept := Unexpired(c.contexts, c.active, expired);
      && (!outcome.Served? ==> c' == c.(contexts := kept) && c'.contexts[c.active] == c.contexts[c.active])
      && (outcome.Refused? <==> request != "" && request !in kept && |kept| >= cfg.max)
      && (outcome.Failed? <==> request != "" && request !in kept && |kept| < cfg.max
                               && (cfg.resolve(request).None? || made.None?))
  {
    hide Build;
  }

  /** What is served is the context of the domain that is active afterwards, built exactly when it has to be. */
  lemma ServedIsActive(c: Container, request: string, expired: seq<string>, made: Option<Made>, cfg: Config)
    requires c.active in c.contexts
    ensures var (c', outcome) := Get(c, request, expired, made, cfg);
      && c'.active in c'.contexts
      && (outcome.Served? ==>
            && outcome.context == c'.contexts[c'.active]
            && (outcome.built <==> request != "" && request !in Unexpired(c.contexts, c.active, expired))
            && (!outcome.built ==> c'.active == (if request == "" then c.active else request)
                                   && outcome.context == c.contexts[c'.active]))
  {
    hide Build;
  }

  /** A switch is logged exactly when another name than the active domain's is asked for and served. */
  lemma SwitchIsLogged(c: Container, request: string, expired: seq<string>, made: Option<Made>, cfg: Config)
    requires c.active in c.contexts
    ensures var (c', outcome) := Get(c, request, expired, made, cfg);
      && c'.switches == (if outcome.Served? && request != "" && request != c.active
                         then c.switches + [Switch(c.active, c'.active)] else c.switches)
      && (request == "" || request == c.active ==> outcome == Served(c.contexts[c.active], false))
      && c'.user == c.user
  {
    hide Build;
  }

  lemma GetKeepsSound(c: Container, request: string, expired: seq<string>, made: Option<Made>, cfg: Config)
    requires Sound(c, cfg)
    ensures Sound(Get(c, request, expired, made, cfg).0, cfg)
  {
    hide Build;
    var kept := Unexpired(c.contexts, c.active, expired);
    FewerKeys(kept.Keys, c.contexts.Keys);
    if made.Some? && cfg.resolve(request).Some? {
      var key := cfg.resolve(request).value;
      var more := kept[key := Build(made.value, None)];
      assert more.Keys == kept.Keys + {key};
      assert |more| <= |kept| + 1;
    }
  }

  lemma FewerKeys(a: set<string>, b: set<string>)
    requires a <= b
    ensures |a| <= |b|
  {
    assert b == a + (b - a);
  }

  // ---------------------------------------------------------------- runs of one session

  datatype Op =
    | GetOp(request: string, expired: seq<string>, made: Option<Made>)
    | TurnOp(dict: SessionDict)
    | RebuildOp(user: string, key: string, rebuilt: Made)

  function Apply(c: Container, op: Op, cfg: Config): (c': Container)
    requires c.active in c.contexts
    ensures c'.active in c'.contexts
  {
    match op
    case GetOp(request, expired, made) => Get(c, request, expired, made, cfg).0
    case TurnOp(d) => Turn(c, d)
    case RebuildOp(user, key, made) => Rebuild(c, user, key, made)
  }

  function AfterOps(c: Container, ops: seq<Op>, cfg: Config): (c': Container)
    requires c.active in c.contexts
    ensures c'.active in c'.contexts
    decreases |ops|
  {
    if ops == [] then c else AfterOps(Apply(c, ops[0], cfg), ops[1..], cfg)
  }

  /** Over every run the active domain is held, and never more contexts than the maximum (or one). */
  lemma {:induction false} RunsStaySound(c: Container, ops: seq<Op>, cfg: Config)
    requires Sound(c, cfg)
    ensures Sound(AfterOps(c, ops, cfg), cfg)
    decreases |ops|
  {
    if ops != [] {
      OneOpKeepsSound(c, ops[0], cfg);
      RunsStaySound(Apply(c, ops[0], cfg), ops[1..], cfg);
    }
  }

  lemma OneOpKeepsSound(c: Container, op: Op, cfg: Config)
    requires Sound(c, cfg)
    ensures Sound(Apply(c, op, cfg), cfg)
  {
    hide Get, Build;
    match op
    case GetOp(request, expired, made) =>
      GetKeepsSound(c, request, expired, made, cfg);
    case TurnOp(d) =>
      assert |c.contexts.Keys| == |Turn(c, d).contexts.Keys|;
    case RebuildOp(user, key, made) =>
      assert |c.contexts.Keys| == |Rebuild(c, user, key, made).contexts.Keys|;
  }

  /** The operation leaves the context of `key` alone: no turn on it, no rebuild, no expiry, no alias. */
  predicate Spares(c: Container, op: Op, cfg: Config, key: string)
    requires c.active in c.contexts
  {
    match op
    case GetOp(request, expired, made) =>
      (key == c.active || key !in expired) && !AliasHit(c, request, expired, made, cfg, key)
    case TurnOp(_) => c.active != key
    case RebuildOp(user, k, _) => k != key || c.user != Some(user)
  }

  predicate RunSpares(c: Container, ops: seq<Op>, cfg: Config, key: string)
    requires c.active in c.contexts
    decreases |ops|
  {
    ops == [] || (Spares(c, ops[0], cfg, key) && RunSpares(Apply(c, ops[0], cfg), ops[1..], cfg, key))
  }

  /** After any run that spares it, asking for a held domain by its own name finds its context untouched. */
  lemma {:induction false} ReturnFindsItUntouched(c: Container, ops: seq<Op>, cfg: Config, key: string,
                                                  expired: seq<string>, made: Option<Made>)
    requires c.active in c.contexts && key in c.contexts && key != ""
    requires RunSpares(c, ops, cfg, key)
    ensures var after := AfterOps(c, ops, cfg);
      && key in after.contexts && after.contexts[key] == c.contexts[key]
      && (key == after.active || key !in expired ==>
            var (c', outcome) := Get(after, key, expired, made, cfg);
            c'.active == key && outcome == Served(c.contexts[key], false))
    decreases |ops|
  {
    hide Build, WithCompleted;
    if ops != [] {
      SparedIsKept(c, ops[0], cfg, key);
      ReturnFindsItUntouched(Apply(c, ops[0], cfg), ops[1..], cfg, key, expired, made);
    }
  }

  lemma SparedIsKept(c: Container, op: Op, cfg: Config, key: string)
    requires c.active in c.contexts && key in c.contexts && Spares(c, op, cfg, key)
    ensures var c' := Apply(c, op, cfg); key in c'.contexts && c'.contexts[key] == c.contexts[key]
  {
    hide Build, Get, AliasHit;
    match op
    case GetOp(request, expired, made) => GetKeepsContexts(c, request, expired, made, cfg, key);
    case TurnOp(_) =>
    case RebuildOp(_, _, _) =>
  }

  /** The operation leaves the context of `key` alone or is a turn of it. */
  predicate SparesOrTurns(c: Container, op: Op, cfg: Config, key: string)
    requires c.active in c.contexts
  {
    Spares(c, op, cfg, key) || (op.TurnOp? && c.active == key)
  }

  predicate RunSparesOrTurns(c: Container, ops: seq<Op>, cfg: Config, key: string)
    requires c.active in c.contexts
    decreases |ops|
  {
    ops == [] || (SparesOrTurns(c, ops[0], cfg, key) && RunSparesOrTurns(Apply(c, ops[0], cfg), ops[1..], cfg, key))
  }

  /** How many turns of a run ended while `key` was active. */
  function TurnsOf(c: Container, ops: seq<Op>, cfg: Config, key: string): nat
    requires c.active in c.contexts
    decreases |ops|
  {
    if ops == [] then 0
    else (if ops[0].TurnOp? && c.active == key then 1 else 0) + TurnsOf(Apply(c, ops[0], cfg), ops[1..], cfg, key)
  }

  /** The turn count of a domain grows by the number of turns that ended while it was active. */
  lemma {:induction false} TurnsAreCounted(c: Container, ops: seq<Op>, cfg: Config, key: string)
    requires c.active in c.contexts && key in c.contexts && RunSparesOrTurns(c, ops, cfg, key)
    ensures var after := AfterOps(c, ops, cfg);
      && key in after.contexts
      && after.contexts[key].turnCount == c.contexts[key].turnCount + TurnsOf(c, ops, cfg, key)
    decreases |ops|
  {
    hide Get, Rebuild;
    if ops != [] {
      if Spares(c, ops[0], cfg, key) {
        SparedIsKept(c, ops[0], cfg, key);
      } else {
        TurnIsWritten(c, ops[0].dict);
      }
      TurnsAreCounted(Apply(c, ops[0], cfg), ops[1..], cfg, key);
    }
  }

  /** A turn leaves its task and specification in the active context, and the module unless the turn names another. */
  lemma TurnIsWritten(c: Container, d: SessionDict)
    requires c.active in c.contexts
    ensures var c' := Turn(c, d);
      && c'.active == c.active && c.active in c'.contexts
      && var was, now := c.contexts[c.active], c'.contexts[c.active];
      && now.turnCount == was.turnCount + 1 && now.taskSpec == d.spec && now.currentTask == d.task
      && (d.moduleKey.None? ==> now.moduleKey == was.moduleKey)
      && (d.moduleKey.Some? ==> now.moduleKey == d.moduleKey.value)
  {}

  /** Asking for the active domain by another of its names restarts it: its turns are forgotten. */
  lemma AliasOfActiveRestartsIt(c: Container, alias: string, made: Made, cfg: Config)
    requires c.active in c.contexts && alias != "" && alias !in c.contexts
    requires cfg.resolve(alias) == Some(c.active) && |c.contexts| < cfg.max
    ensures var (c', outcome) := Get(c, alias, [], Some(made), cfg);
      && c'.active == c.active && c'.contexts[c.active].turnCount == 0
      && c'.switches == c.switches + [Switch(c.active, c.active)]
  {
    assert Unexpired(c.contexts, c.active, []) == c.contexts;
  }

  // ---------------------------------------------------------------- the switch log

  function Replay(active: string, switches: seq<Switch>): Option<string> {
    if switches == [] then Some(active)
    else if Replay(active, switches[..|switches| - 1]) == Some(switches[|switches| - 1].from)
      then Some(switches[|switches| - 1].to)
    else None
  }

  /** Replaying the logged switches from the first domain ends in the active one, with no gap. */
  lemma {:induction false} SwitchesReplay(first: string, c: Container, ops: seq<Op>, cfg: Config)
    requires c.active in c.contexts && Replay(first, c.switches) == Some(c.active)
    ensures Replay(first, AfterOps(c, ops, cfg).switches) == Some(AfterOps(c, ops, cfg).active)
    decreases |ops|
  {
    if ops != [] {
      OneSwitchReplays(first, c, ops[0], cfg);
      SwitchesReplay(first, Apply(c, ops[0], cfg), ops[1..], cfg);
    }
  }

  lemma OneSwitchReplays(first: string, c: Container, op: Op, cfg: Config)
    requires c.active in c.contexts && Replay(first, c.switches) == Some(c.active)
    ensures var c' := Apply(c, op, cfg); Replay(first, c'.switches) == Some(c'.active)
  {
    hide Build, Unexpired;
    var c' := Apply(c, op, cfg);
    var more := c.switches + [Switch(c.active, c'.active)];
    assert more[..|c.switches|] == c.switches;
    assert (c'.switches == c.switches && c'.active == c.active) || c'.switches == more;
  }

  // ---------------------------------------------------------------- closing and reopening

  /** What reopening a session gives back of a saved context: everything but what is empty, and the module. */
  predicate GivenBack(was: Context, outcome: Outcome) {
    && outcome.Served?
    && outcome.context.turnCount == was.turnCount
    && (was.taskSpec != map[] ==> outcome.context.taskSpec == was.taskSpec)
    && (was.currentTask != map[] ==> outcome.context.currentTask == WithCompleted(was.currentTask))
  }

  lemma ReopenedAsSaved(s: Store, sid: string, request: string, user: Option<string>, expired: seq<string>,
                        made: Made, cfg: Config, key: string)
    requires sid !in s.open && sid in s.saved && key in s.saved[sid].contexts && cfg.resolve(request) == Some(key)
    ensures var (reopened, outcome) := AfterGet(s, sid, request, user, expired, Some(made), cfg);
      && sid in reopened.open && reopened.open[sid].active == key
      && outcome.Served? && outcome.built
      && GivenBack(s.saved[sid].contexts[key], outcome)
  {
    hide WithCompleted;
  }

  /**
   Closing a session and reopening it in a domain that was held gives back that domain's turn count and,
   unless they are empty, its specification and task (with the completed flag filled in).
   */
  lemma ReopenedAsClosed(s: Store, sid: string, request: string, user: Option<string>, expired: seq<string>,
                         made: Made, cfg: Config, key: string)
    requires sid in s.open && key in s.open[sid].contexts && cfg.resolve(request) == Some(key)
    ensures var was := s.open[sid].contexts[key];
      var (closed, counts) := AfterClose(s, sid);
      && counts[key] == was.turnCount
      && sid !in closed.open
      && var (reopened, outcome) := AfterGet(closed, sid, request, user, expired, Some(made), cfg);
      && GivenBack(was, outcome)
      && reopened.open[sid].active == key
  {
    hide GivenBack;
    ReopenedAsSaved(AfterClose(s, sid).0, sid, request, user, expired, made, cfg, key);
  }

  /** Reopening persists the one new context: the saved state of every other domain is gone. */
  lemma ReopeningForgetsOtherDomains(s: Store, sid: string, request: string, user: Option<string>,
                                     expired: seq<string>, made: Made, cfg: Config)
    requires sid !in s.open && cfg.resolve(request).Some?
    ensures var (reopened, _) := AfterGet(s, sid, request, user, expired, Some(made), cfg);
      reopened.saved[sid].contexts.Keys == {cfg.resolve(request).value}
  {
    hide Build;
  }

  // ---------------------------------------------------------------- runs of the store

  datatype Call =
    | GetCall(sid: string, request: string, user: Option<string>, expired: seq<string>, made: Option<Made>)
    | TurnCall(sid: string, dict: SessionDict)
    | RebuildCall(sid: string, owner: string, key: string, rebuilt: Made)
    | CloseCall(sid: string)

  predicate AllActive(s: Store) {
    forall sid | sid in s.open :: s.open[sid].active in s.open[sid].contexts
  }

  function Perform(s: Store, call: Call, cfg: Config): (s': Store)
    requires AllActive(s)
    ensures AllActive(s')
  {
    match call
    case GetCall(sid, request, user, expired, made) =>
      hide Build;
      AfterGet(s, sid, request, user, expired, made, cfg).0
    case TurnCall(sid, d) => AfterTurn(s, sid, d)
    case RebuildCall(sid, owner, key, made) => AfterRebuild(s, sid, owner, key, made)
    case CloseCall(sid) => AfterClose(s, sid).0
  }

  function AfterCalls(s: Store, calls: seq<Call>, cfg: Config): (s': Store)
    requires AllActive(s)
    ensures AllActive(s')
  {
    if calls == [] then s
    else Perform(AfterCalls(s, calls[..|calls| - 1], cfg), calls[|calls| - 1], cfg)
  }

  /** A rebuild is performed and saved for a container of the user that holds the domain, and else is nothing. */
  lemma RebuildPerformed(s: Store, sid: string, owner: string, key: string, made: Made)
    ensures var s' := AfterRebuild(s, sid, owner, key, made);
      if sid in s.open && s.open[sid].user == Some(owner) && key in s.open[sid].contexts then
        && sid in s'.open && key in s'.open[sid].contexts && s'.open[sid].contexts[key] == Build(made, None)
        && sid in s'.saved && key in s'.saved[sid].contexts && s'.saved[sid].contexts[key] == Build(made, None)
        && (forall other | other != sid && other in s.open :: other in s'.open && s'.open[other] == s.open[other])
      else s' == s
  {
    hide Build;
  }

  /** A call that builds nothing saves nothing, and no call touches another session. */
  lemma GetSavesIff(s: Store, sid: string, request: string, user: Option<string>, expired: seq<string>,
                    made: Option<Made>, cfg: Config, other: string)
    requires AllActive(s)
    ensures var (s', outcome) := AfterGet(s, sid, request, user, expired, made, cfg);
      && (!(outcome.Served? && outcome.built) ==> s'.saved == s.saved)
      && (outcome.Served? && outcome.built ==>
            sid in s'.open && s'.saved == s.saved[sid := Saved(s'.open[sid].active, s'.open[sid].contexts)])
      && (other != sid ==> (other in s'.open <==> other in s.open))
      && (other != sid && other in s.open ==> s'.open[other] == s.open[other])
      && (outcome.Served? ==> sid in s'.open)
  {
    hide Get, Build;
  }

  /** Behind any run of calls, a turn of an open session is counted, held and saved. */
  lemma TurnIsPerformed(s: Store, calls: seq<Call>, sid: string, d: SessionDict, cfg: Config)
    requires AllActive(s)
    ensures var before, after := AfterCalls(s, calls, cfg), AfterCalls(s, calls + [TurnCall(sid, d)], cfg);
      if sid in before.open then
        var key := before.open[sid].active;
        && sid in after.open && after.open[sid].active == key && key in after.open[sid].contexts
        && after.open[sid].contexts[key].turnCount == before.open[sid].contexts[key].turnCount + 1
        && after.open[sid].contexts[key].currentTask == d.task && after.open[sid].contexts[key].taskSpec == d.spec
        && sid in after.saved && after.saved[sid].contexts == after.open[sid].contexts
      else after == before
  {
    hide Turn;
    assert (calls + [TurnCall(sid, d)])[..|calls|] == calls;
    var before := AfterCalls(s, calls, cfg);
    if sid in before.open {
      TurnIsWritten(before.open[sid], d);
    }
  }

  /** Every context in memory is saved exactly as it is held. */
  predicate HeldIsSaved(s: Store) {
    forall sid, d | sid in s.open && d in s.open[sid].contexts ::
      sid in s.saved && d in s.saved[sid].contexts && s.saved[sid].contexts[d] == s.open[sid].contexts[d]
  }

  lemma PutKeepsSaved(s: Store, sid: string, c: Container, persisted: bool)
    requires HeldIsSaved(s)
    requires persisted || (sid in s.open && forall d | d in c.contexts ::
                             d in s.open[sid].contexts && c.contexts[d] == s.open[sid].contexts[d])
    ensures HeldIsSaved(Put(s, sid, c, persisted))
  {}

  /** A call that builds nothing, and so saves nothing, changes no context that it keeps. */
  lemma UnsavedIsUnchanged(c: Container, request: string, expired: seq<string>, made: Option<Made>, cfg: Config)
    requires c.active in c.contexts
    ensures var (c', outcome) := Get(c, request, expired, made, cfg);
      !(outcome.Served? && outcome.built) ==>
        forall d | d in c'.contexts :: d in c.contexts && c'.contexts[d] == c.contexts[d]
  {
    hide Build;
  }

  lemma CallKeepsSaved(s: Store, call: Call, cfg: Config)
    requires AllActive(s) && HeldIsSaved(s)
    ensures HeldIsSaved(Perform(s, call, cfg))
  {
    hide HeldIsSaved, Get, Put, Create, Turn, Rebuild;
    match call
    case GetCall(sid, request, user, expired, made) =>
      if sid in s.open {
        var (c, outcome) := Get(s.open[sid], request, expired, made, cfg);
        UnsavedIsUnchanged(s.open[sid], request, expired, made, cfg);
        PutKeepsSaved(s, sid, c, outcome.Served? && outcome.built);
      } else if made.Some? && cfg.resolve(request).Some? {
        var key := cfg.resolve(request).value;
        PutKeepsSaved(s, sid, Create(SavedContext(s, sid, key), key, user, made.value).0, true);
      }
    case TurnCall(sid, d) =>
      if sid in s.open { PutKeepsSaved(s, sid, Turn(s.open[sid], d), true); }
    case RebuildCall(sid, owner, key, made) =>
      if sid in s.open { PutKeepsSaved(s, sid, Rebuild(s.open[sid], owner, key, made), true); }
    case CloseCall(sid) =>
      CloseKeepsSaved(s, sid);
  }

  lemma CloseKeepsSaved(s: Store, sid: string)
    requires HeldIsSaved(s)
    ensures HeldIsSaved(AfterClose(s, sid).0)
  {}

  /** Over every run of calls on any sessions, whatever is held in memory is saved as it is held. */
  lemma {:induction false} RunsKeepSaved(s: Store, calls: seq<Call>, cfg: Config)
    requires AllActive(s) && HeldIsSaved(s)
    ensures HeldIsSaved(AfterCalls(s, calls, cfg))
  {
    hide HeldIsSaved, Perform;
    if calls != [] {
      RunsKeepSaved(s, calls[..|calls| - 1], cfg);
      CallKeepsSaved(AfterCalls(s, calls[..|calls| - 1], cfg), calls[|calls| - 1], cfg);
    }
  }

  /**
   So a process that stops at any moment between two calls loses no turn: a session reopened afterwards
   in a domain it held goes on from the turn, the specification and the task it had.
   */
  lemma StoppingLosesNothing(saved: map<string, Saved>, calls: seq<Call>, sid: string, request: string,
                             user: Option<string>, expired: seq<string>, made: Made, cfg: Config, key: string)
    requires cfg.resolve(request) == Some(key)
    ensures var s := AfterCalls(Store(map[], saved), calls, cfg);
      sid in s.open && key in s.open[sid].contexts ==>
        GivenBack(s.open[sid].contexts[key],
                  AfterGet(Store(map[], s.saved), sid, request, user, expired, Some(made), cfg).1)
  {
    hide AfterCalls, GivenBack, AfterGet;
    var s := AfterCalls(Store(map[], saved), calls, cfg);
    RunsKeepSaved(Store(map[], saved), calls, cfg);
    if sid in s.open && key in s.open[sid].contexts {
      ReopenedAsSaved(Store(map[], s.saved), sid, request, user, expired, made, cfg, key);
    }
  }
}
