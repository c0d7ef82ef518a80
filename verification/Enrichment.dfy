/**
 * Container details and their cache (internal/docker/client.go): a first enrichment
 * inspects the container and records the static fields; later ones serve them from
 * the cache. Strings are byte strings. `Text` stands for the redaction and number
 * formatting that the source calls.
 */
module Enrichment {
  import opened Common

  datatype Text = Text(redact: string -> string, number: int -> string)

  datatype Static = Static(
    env: seq<string>, entrypoint: string, command: string, mounts: seq<string>,
    restartPolicy: string, cpuLimit: real, memoryLimit: int)

  datatype Display = Display(details: Static, healthStatus: string, healthLog: string, restartCount: int)

  datatype Config = Config(env: seq<string>, entrypoint: seq<string>, cmd: seq<string>)
  datatype Health = Health(status: string, outputs: seq<string>)
  datatype Host = Host(policy: string, maxRetries: int, nanoCPUs: int, memory: int)
  datatype Mount = Mount(source: string, destination: string, kind: string)

  datatype Inspect = Inspect(
    config: Option<Config>, health: Option<Health>, host: Option<Host>, restartCount: int, mounts: seq<Mount>)

  /** A new display: only the listed command is known. */
  function Listed(command: string): Display {
    Display(Static([], "", command, [], "", 0.0, 0), "", "", 0)
  }

  function Shorten(s: string, limit: nat): (r: string)
    requires limit >= 3
    ensures |r| <= limit
  {
    if |s| > limit then s[..limit - 3] + "..." else s
  }

  function Join(parts: seq<string>): string {
    if |parts| == 0 then "" else if |parts| == 1 then parts[0]
    else Join(parts[..|parts| - 1]) + " " + parts[|parts| - 1]
  }

  function CommandLine(c: Config): string {
    var entry, cmd := Join(c.entrypoint), Join(c.cmd);
    if c.cmd == [] then entry
    else if entry != "" then entry + " " + cmd
    else cmd
  }

  function Redacted(t: Text, env: seq<string>): seq<string> {
    seq(|env|, i requires 0 <= i < |env| => t.redact(env[i]))
  }

  /** A spaced rightwards arrow: five bytes of UTF-8. */
  const ARROW: string := " \U{E2}\U{86}\U{92} "

  function MountLabel(m: Mount): string {
    Shorten(m.source + ARROW + m.destination + " (" + m.kind + ")", 80)
  }

  function MountLabels(mounts: seq<Mount>): seq<string> {
    seq(|mounts|, i requires 0 <= i < |mounts| => MountLabel(mounts[i]))
  }

  // ---- The four helpers ----------------------------------------------------------------------

  function ConfigDetails(t: Text, j: Inspect, s: Static): Static {
    if j.config.None? then s
    else s.(env := Redacted(t, j.config.value.env),
            entrypoint := Shorten(t.redact(CommandLine(j.config.value)), 80))
  }

  function HostDetails(t: Text, j: Inspect, s: Static): Static {
    if j.host.None? then s
    else
      var h := j.host.value;
      s.(restartPolicy := h.policy + (if h.maxRetries > 0 then ":" + t.number(h.maxRetries) else ""),
         cpuLimit := if h.nanoCPUs > 0 then h.nanoCPUs as real / 1000000000.0 else s.cpuLimit,
         memoryLimit := if h.memory > 0 then h.memory else s.memoryLimit)
  }

  function MountDetails(j: Inspect, s: Static): Static {
    s.(mounts := s.mounts + MountLabels(j.mounts))
  }

  function StaticDetails(t: Text, j: Inspect, s: Static): Static {
    MountDetails(j, HostDetails(t, j, ConfigDetails(t, j, s)))
  }

  function Enriched(t: Text, j: Inspect, d: Display, trim: string -> string): Display {
    var health := j.health;
    var log := if health.Some? && health.value.outputs != []
               then Shorten(trim(health.value.outputs[|health.value.outputs| - 1]), 120)
               else d.healthLog;
    Display(StaticDetails(t, j, d.details),
            if health.Some? then health.value.status else d.healthStatus,
            log,
            if j.host.Some? && j.restartCount > 0 then j.restartCount else d.restartCount)
  }

  /** A cache hit overwrites the static fields and nothing else; an empty cached
      command leaves the listed one. */
  function Served(cached: Static, d: Display): Display {
    d.(details := cached.(command := if cached.command != "" then cached.command else d.details.command))
  }

  // ---- What an inspection shows, field by field ------------------------------------------------

  /** Words are joined by single spaces. */
  lemma {:induction false} JoinExactly(a: seq<string>, b: seq<string>, w: string)
    ensures Join([]) == "" && Join([w]) == w
    ensures a != [] && b != [] ==> Join(a + b) == Join(a) + " " + Join(b)
  {
    if a != [] && |b| == 1 {
      assert (a + b)[..|a + b| - 1] == a;
    } else if a != [] && b != [] {
      assert (a + b)[..|a + b| - 1] == a + b[..|b| - 1];
      JoinExactly(a, b[..|b| - 1], w);
    }
  }

  /** The command line is the entrypoint and the command joined, without a leading space
      when the entrypoint is a single empty word. */
  lemma CommandLineExactly(c: Config)
    ensures CommandLine(c) == Join(if c.entrypoint == [""] then c.cmd else c.entrypoint + c.cmd)
  {
    JoinExactly(c.entrypoint, c.cmd, "");
    if c.entrypoint == [] {
      assert c.entrypoint + c.cmd == c.cmd;
    }
    if c.cmd == [] {
      assert c.entrypoint + c.cmd == c.entrypoint;
    }
    if |c.entrypoint| > 1 {
      assert Join(c.entrypoint) != "";
    }
  }

  /** Each field of an inspected display, from the reply and the display before. */
  lemma FieldsFromReply(t: Text, j: Inspect, d: Display, trim: string -> string)
    ensures var s := Enriched(t, j, d, trim).details;
            && s.command == d.details.command
            && s.memoryLimit ==
                 (if j.host.Some? && j.host.value.memory > 0 then j.host.value.memory else d.details.memoryLimit)
            && s.cpuLimit ==
                 (if j.host.Some? && j.host.value.nanoCPUs > 0 then j.host.value.nanoCPUs as real / 1000000000.0
                  else d.details.cpuLimit)
            && s.restartPolicy ==
                 (if j.host.None? then d.details.restartPolicy
                  else if j.host.value.maxRetries > 0
                  then j.host.value.policy + ":" + t.number(j.host.value.maxRetries) else j.host.value.policy)
            && (j.config.None? ==> s.env == d.details.env && s.entrypoint == d.details.entrypoint)
    ensures var s := Enriched(t, j, d, trim).details;
            j.config.Some? ==>
              && |s.env| == |j.config.value.env|
              && (forall i :: 0 <= i < |s.env| ==> s.env[i] == t.redact(j.config.value.env[i]))
              && var full := t.redact(CommandLine(j.config.value));
                 s.entrypoint == if |full| > 80 then full[..77] + "..." else full
    ensures var n, s := |d.details.mounts|, Enriched(t, j, d, trim).details;
            && |s.mounts| == n + |j.mounts| && s.mounts[..n] == d.details.mounts
            && forall i :: 0 <= i < |j.mounts| ==>
                 var m := j.mounts[i];
                 var full := m.source + " \U{E2}\U{86}\U{92} " + m.destination + " (" + m.kind + ")";
                 s.mounts[n + i] == if |full| > 80 then full[..77] + "..." else full
  {
    var n, s := |d.details.mounts|, Enriched(t, j, d, trim).details;
    assert s.mounts == d.details.mounts + MountLabels(j.mounts);
  }

  /** The fields that change from call to call. */
  lemma DynamicFieldsFromReply(t: Text, j: Inspect, d: Display, trim: string -> string)
    ensures var r := Enriched(t, j, d, trim);
            && r.healthStatus == (if j.health.Some? then j.health.value.status else d.healthStatus)
            && r.restartCount == (if j.host.Some? && j.restartCount > 0 then j.restartCount else d.restartCount)
            && (j.health.None? || j.health.value.outputs == [] ==> r.healthLog == d.healthLog)
            && (j.health.Some? && j.health.value.outputs != [] ==>
                  var full := trim(j.health.value.outputs[|j.health.value.outputs| - 1]);
                  r.healthLog == if |full| > 120 then full[..117] + "..." else full)
  {
  }

  /** The loop that redacts the environment. */
  method RedactEnv(t: Text, env: seq<string>) returns (redacted: seq<string>)
    ensures redacted == Redacted(t, env)
  {
    redacted := [];
    for i := 0 to |env|
      invariant redacted == Redacted(t, env[..i])
    {
      redacted := redacted + [t.redact(env[i])];
    }
    assert env[..|env|] == env;
  }

  /** The loop that labels the mounts. */
  method LabelMounts(mounts: seq<Mount>, labels: seq<string>) returns (result: seq<string>)
    ensures result == labels + MountLabels(mounts)
  {
    result := labels;
    for i := 0 to |mounts|
      invariant result == labels + MountLabels(mounts[..i])
    {
      result := result + [MountLabel(mounts[i])];
    }
    assert mounts[..|mounts|] == mounts;
  }

  /** The command line is built up step by step. */
  method JoinCommand(c: Config) returns (full: string)
    ensures full == CommandLine(c)
  {
    full := "";
    if |c.entrypoint| > 0 {
      full := Join(c.entrypoint);
    }
    if |c.cmd| > 0 {
      var cmd := Join(c.cmd);
      if full != "" {
        full := full + " " + cmd;
      } else {
        full := cmd;
      }
    }
  }

  class Client {
    const text: Text
    const trim: string -> string
    var metadataCache: map<string, Static>
    var hits: nat
    var misses: nat

    constructor (text: Text, trim: string -> string)
      ensures this.text == text && this.trim == trim
      ensures metadataCache == map[] && hits == 0 && misses == 0
    {
      this.text, this.trim := text, trim;
      metadataCache, hits, misses := map[], 0, 0;
    }

    /** One enrichment that nothing interrupts; `reply` is what an inspection answers. */
    method EnrichContainerDetails(id: string, cd: Display, reply: Option<Inspect>) returns (r: Display)
      modifies this
      ensures hits + misses == old(hits + misses) + 1
      ensures hits == old(hits) + if id in old(metadataCache) then 1 else 0
      ensures id in old(metadataCache) ==> r == Served(old(metadataCache)[id], cd)
      ensures id in old(metadataCache) ==>
                && r.healthStatus == cd.healthStatus && r.healthLog == cd.healthLog && r.restartCount == cd.restartCount
                && r.details == old(metadataCache)[id].(command := r.details.command)
                && r.details.command == (var listed, cached := cd.details.command, old(metadataCache)[id].command;
                                         if cached != "" then cached else listed)
      ensures id !in old(metadataCache) ==>
                r == if reply.Some? then Enriched(text, reply.value, cd, trim) else cd
      ensures metadataCache ==
                if id !in old(metadataCache) && reply.Some? then old(metadataCache)[id := r.details]
                else old(metadataCache)
    {
      if id in metadataCache {
        hits := hits + 1;
        var cached := metadataCache[id];
        r := cd.(details := Static(cached.env, cached.entrypoint, cd.details.command, cached.mounts,
                                   cached.restartPolicy, cached.cpuLimit, cached.memoryLimit));
        if cached.command != "" {
          r := r.(details := r.details.(command := cached.command));
        }
        return;
      }
      misses := misses + 1;
      if reply.None? {
        return cd;
      }
      r := EnrichConfigDetails(reply.value, cd);
      r := EnrichHealthDetails(reply.value, r);
      r := EnrichHostConfigDetails(reply.value, r);
      r := EnrichMountDetails(reply.value, r);
      metadataCache := metadataCache[id := r.details];
    }

    method EnrichConfigDetails(j: Inspect, cd: Display) returns (r: Display)
      ensures r == cd.(details := ConfigDetails(text, j, cd.details))
    {
      r := cd;
      if j.config.None? {
        return;
      }
      var env := RedactEnv(text, j.config.value.env);
      var command := JoinCommand(j.config.value);
      r := r.(details := r.details.(env := env, entrypoint := Shorten(text.redact(command), 80)));
    }

    method EnrichHealthDetails(j: Inspect, cd: Display) returns (r: Display)
      ensures r == Enriched(text, j, cd, trim).(details := cd.details, restartCount := cd.restartCount)
    {
      r := cd;
      if j.health.None? {
        return;
      }
      r := r.(healthStatus := j.health.value.status);
      var outputs := j.health.value.outputs;
      if outputs != [] {
        r := r.(healthLog := Shorten(trim(outputs[|outputs| - 1]), 120));
      }
    }

    method EnrichHostConfigDetails(j: Inspect, cd: Display) returns (r: Display)
      ensures r == cd.(details := HostDetails(text, j, cd.details),
                       restartCount := Enriched(text, j, cd, trim).restartCount)
    {
      r := cd;
      if j.host.None? {
        return;
      }
      var h := j.host.value;
      var policy := h.policy;
      if h.maxRetries > 0 {
        policy := policy + (":" + text.number(h.maxRetries));
      }
      r := r.(details := r.details.(restartPolicy := policy));
      if h.nanoCPUs > 0 {
        r := r.(details := r.details.(cpuLimit := h.nanoCPUs as real / 1000000000.0));
      }
      if h.memory > 0 {
        r := r.(details := r.details.(memoryLimit := h.memory));
      }
      if j.restartCount > 0 {
        r := r.(restartCount := j.restartCount);
      }
      assert policy == h.policy + (if h.maxRetries > 0 then ":" + text.number(h.maxRetries) else "");
    }

    method EnrichMountDetails(j: Inspect, cd: Display) returns (r: Display)
      ensures r == cd.(details := MountDetails(j, cd.details))
    {
      var mounts := LabelMounts(j.mounts, cd.details.mounts);
      r := cd.(details := cd.details.(mounts := mounts));
    }
  }

  // ---- Concurrent enrichment ---------------------------------------------------------------------

  /** Where one enrichment goroutine is. */
  datatype Stage =
    | Started                      // about to look into the cache
    | Missed                       // about to inspect
    | Fetched                      // display filled, about to write the cache
    | Finished(hit: bool, ok: bool)

  datatype Task = Task(id: string, display: Display, stage: Stage)

  datatype State = State(cache: map<string, Static>, tasks: seq<Task>, hits: nat, misses: nat)

  datatype Action =
    | Spawn(id: string, command: string)          // a list call starts a goroutine
    | Lookup(i: nat)
    | Reply(i: nat, answer: Option<Inspect>)
    | Write(i: nat)

  function InitialState(): State {
    State(map[], [], 0, 0)
  }

  predicate Enabled(s: State, a: Action) {
    match a
    case Spawn(_, _) => true
    case Lookup(i) => i < |s.tasks| && s.tasks[i].stage.Started?
    case Reply(i, _) => i < |s.tasks| && s.tasks[i].stage.Missed?
    case Write(i) => i < |s.tasks| && s.tasks[i].stage.Fetched?
  }

  function Apply(t: Text, trim: string -> string, s: State, a: Action): State
    requires Enabled(s, a)
  {
    match a
    case Spawn(id, command) => s.(tasks := s.tasks + [Task(id, Listed(command), Started)])
    case Lookup(i) =>
      var k := s.tasks[i];
      if k.id in s.cache then
        s.(tasks := s.tasks[i := Task(k.id, Served(s.cache[k.id], k.display), Finished(true, true))],
           hits := s.hits + 1)
      else
        s.(tasks := s.tasks[i := k.(stage := Missed)], misses := s.misses + 1)
    case Reply(i, answer) =>
      var k := s.tasks[i];
      if answer.None? then s.(tasks := s.tasks[i := k.(stage := Finished(false, false))])
      else s.(tasks := s.tasks[i := Task(k.id, Enriched(t, answer.value, k.display, trim), Fetched)])
    case Write(i) =>
      var k := s.tasks[i];
      s.(cache := s.cache[k.id := k.display.details], tasks := s.tasks[i := k.(stage := Finished(false, true))])
  }

  ghost predicate IsRun(t: Text, trim: string -> string, run: seq<Action>, states: seq<State>) {
    && |states| == |run| + 1
    && states[0] == InitialState()
    && forall n :: 0 <= n < |run| ==>
         Enabled(states[n], run[n]) && states[n + 1] == Apply(t, trim, states[n], run[n])
  }

  /** The parts of inspect data that the cache keeps. */
  predicate SameStatic(a: Inspect, b: Inspect) {
    a.config == b.config && a.host == b.host && a.mounts == b.mounts
  }

  /** The steps of one enrichment that nothing interrupts do what `EnrichContainerDetails` does:
      a hit is served, a failed inspection leaves the display, and a successful one fills it
      and is cached. A list call may start one at any time. */
  lemma UninterruptedSteps(t: Text, trim: string -> string, s: State, i: nat, reply: Option<Inspect>,
                           id: string, command: string)
    requires i < |s.tasks| && s.tasks[i].stage.Started?
    ensures Enabled(s, Spawn(id, command))
            && Apply(t, trim, s, Spawn(id, command)) == s.(tasks := s.tasks + [Task(id, Listed(command), Started)])
    ensures var k := s.tasks[i];
            && Enabled(s, Lookup(i))
            && var s1 := Apply(t, trim, s, Lookup(i));
               if k.id in s.cache then
                 && s1.tasks[i].display == Served(s.cache[k.id], k.display) && s1.tasks[i].stage == Finished(true, true)
                 && s1.cache == s.cache
               else
                 && Enabled(s1, Reply(i, reply))
                 && var s2 := Apply(t, trim, s1, Reply(i, reply));
                    if reply.None? then
                      s2.tasks[i] == Task(k.id, k.display, Finished(false, false)) && s2.cache == s.cache
                    else
                      && Enabled(s2, Write(i))
                      && var s3, r := Apply(t, trim, s2, Write(i)), Enriched(t, reply.value, k.display, trim);
                         s3.tasks[i] == Task(k.id, r, Finished(false, true)) && s3.cache == s.cache[k.id := r.details]
  {
  }

  // ---- Where displays come from --------------------------------------------------------------

  predicate Spawns(a: Action, id: string, command: string) {
    a == Spawn(id, command)
  }

  /** Step `m` answers an inspection of `id` with `j`. */
  predicate Inspects(s: State, a: Action, id: string, j: Inspect) {
    a.Reply? && a.i < |s.tasks| && s.tasks[a.i].id == id && a.answer == Some(j)
  }

  /** Before step `n` a list call showed `id` with `command`. */
  ghost predicate WasListed(run: seq<Action>, n: nat, id: string, command: string)
    requires n <= |run|
  {
    exists p: nat :: p < n && Spawns(run[p], id, command)
  }

  /** Before step `n` an inspection of `id` answered `j`. */
  ghost predicate WasInspected(run: seq<Action>, states: seq<State>, n: nat, id: string, j: Inspect)
    requires n <= |run| < |states|
  {
    exists m: nat :: m < n && Inspects(states[m], run[m], id, j)
  }

  /** `s` is what some earlier inspection of `id` gave to some earlier listing of it. */
  ghost predicate FromInspection(t: Text, run: seq<Action>, states: seq<State>, n: nat, id: string, s: Static)
    requires n <= |run| < |states|
  {
    exists j, command :: Gives(t, run, states, n, id, j, command, s)
  }

  ghost predicate Gives(t: Text, run: seq<Action>, states: seq<State>, n: nat, id: string,
                        j: Inspect, command: string, s: Static)
    requires n <= |run| < |states|
  {
    && WasListed(run, n, id, command) && WasInspected(run, states, n, id, j)
    && s == StaticDetails(t, j, Listed(command).details)
  }

  /** The display is the cached `s`, served to a listing of the container. */
  ghost predicate ServedFrom(t: Text, run: seq<Action>, states: seq<State>, n: nat, k: Task, s: Static)
    requires n <= |run| < |states|
  {
    && FromInspection(t, run, states, n, k.id, s)
    && exists command :: WasListed(run, n, k.id, command) && k.display == Served(s, Listed(command))
  }

  ghost predicate StillListed(run: seq<Action>, n: nat, k: Task)
    requires n <= |run|
  {
    exists command :: WasListed(run, n, k.id, command) && k.display == Listed(command)
  }

  ghost predicate TaskSourced(t: Text, run: seq<Action>, states: seq<State>, n: nat, k: Task)
    requires n <= |run| < |states|
  {
    match k.stage
    case Started => StillListed(run, n, k)
    case Missed => StillListed(run, n, k)
    case Fetched => FromInspection(t, run, states, n, k.id, k.display.details)
    case Finished(hit, ok) =>
      if hit then ok && exists s :: ServedFrom(t, run, states, n, k, s)
      else if ok then FromInspection(t, run, states, n, k.id, k.display.details)
      else StillListed(run, n, k)
  }

  lemma SourceLasts(t: Text, run: seq<Action>, states: seq<State>, n: nat, id: string, s: Static)
    requires n < |run| < |states| && FromInspection(t, run, states, n, id, s)
    ensures FromInspection(t, run, states, n + 1, id, s)
  {
    var j, command :| Gives(t, run, states, n, id, j, command, s);
    ListingLasts(run, n, id, command);
    var m: nat :| m < n && Inspects(states[m], run[m], id, j);
    assert WasInspected(run, states, n + 1, id, j);
    assert Gives(t, run, states, n + 1, id, j, command, s);
  }

  lemma ListingLasts(run: seq<Action>, n: nat, id: string, command: string)
    requires n < |run| && WasListed(run, n, id, command)
    ensures WasListed(run, n + 1, id, command)
  {
    var p: nat :| p < n && Spawns(run[p], id, command);
  }

  lemma TaskSourceLasts(t: Text, run: seq<Action>, states: seq<State>, n: nat, k: Task)
    requires n < |run| < |states| && TaskSourced(t, run, states, n, k)
    ensures TaskSourced(t, run, states, n + 1, k)
  {
    if k.stage == Finished(true, true) {
      var s :| ServedFrom(t, run, states, n, k, s);
      var command :| WasListed(run, n, k.id, command) && k.display == Served(s, Listed(command));
      SourceLasts(t, run, states, n, k.id, s);
      ListingLasts(run, n, k.id, command);
      assert ServedFrom(t, run, states, n + 1, k, s);
    } else if k.stage.Fetched? || (k.stage.Finished? && k.stage.ok) {
      SourceLasts(t, run, states, n, k.id, k.display.details);
    } else {
      var command :| WasListed(run, n, k.id, command) && k.display == Listed(command);
      ListingLasts(run, n, k.id, command);
    }
  }

  /** The one task that step `n` starts or moves has a source afterwards. */
  lemma MovedTaskSourced(t: Text, trim: string -> string, run: seq<Action>, states: seq<State>, n: nat, i: nat)
    requires IsRun(t, trim, run, states) && n < |run|
    requires i == (if run[n].Spawn? then |states[n].tasks| else run[n].i)
    requires !run[n].Spawn? ==> TaskSourced(t, run, states, n, states[n].tasks[i])
    requires forall id :: id in states[n].cache ==> FromInspection(t, run, states, n, id, states[n].cache[id])
    ensures i < |states[n + 1].tasks| && TaskSourced(t, run, states, n + 1, states[n + 1].tasks[i])
  {
    var s, a, k' := states[n], run[n], states[n + 1].tasks[i];
    if a.Spawn? {
      assert Spawns(run[n], a.id, a.command);
      assert WasListed(run, n + 1, a.id, a.command);
    } else {
      TaskSourceLasts(t, run, states, n, s.tasks[i]);
      if a.Lookup? && s.tasks[i].id in s.cache {
        SourceLasts(t, run, states, n, s.tasks[i].id, s.cache[s.tasks[i].id]);
        assert ServedFrom(t, run, states, n + 1, k', s.cache[s.tasks[i].id]);
      } else if a.Reply? && a.answer.Some? {
        var command :| WasListed(run, n + 1, k'.id, command) && s.tasks[i].display == Listed(command);
        assert Inspects(states[n], run[n], k'.id, a.answer.value);
        assert WasInspected(run, states, n + 1, k'.id, a.answer.value);
        assert Gives(t, run, states, n + 1, k'.id, a.answer.value, command, k'.display.details);
      }
    }
  }

  /** Under every interleaving, and however containers change: a cache entry, and a display
      that an inspection filled, is what some earlier inspection of that container gave to
      some earlier listing of it; a hit serves such an entry to the listing it started from. */
  lemma {:induction false} Provenance(t: Text, trim: string -> string, run: seq<Action>, states: seq<State>, n: nat)
    requires IsRun(t, trim, run, states) && n <= |run|
    ensures forall id :: id in states[n].cache ==> FromInspection(t, run, states, n, id, states[n].cache[id])
    ensures forall i :: 0 <= i < |states[n].tasks| ==> TaskSourced(t, run, states, n, states[n].tasks[i])
  {
    if n > 0 {
      Provenance(t, trim, run, states, n - 1);
      var s, s', a := states[n - 1], states[n], run[n - 1];
      var moved := if a.Spawn? then |s.tasks| else a.i;
      MovedTaskSourced(t, trim, run, states, n - 1, moved);
      forall i | 0 <= i < |s'.tasks| ensures TaskSourced(t, run, states, n, s'.tasks[i]) {
        if i != moved {
          TaskSourceLasts(t, run, states, n - 1, s.tasks[i]);
        }
      }
      forall id | id in s'.cache ensures FromInspection(t, run, states, n, id, s'.cache[id]) {
        if a.Write? && id == s.tasks[a.i].id {
          SourceLasts(t, run, states, n - 1, id, s.tasks[a.i].display.details);
        } else {
          SourceLasts(t, run, states, n - 1, id, s.cache[id]);
        }
      }
    }
  }

  // ---- Containers that do not change ----------------------------------------------------------

  /** Up to `n`, every list call shows this container with the same command and every
      successful inspection of it shows the same static data. Its health and restarts, and
      all other containers, may vary. */
  ghost predicate Unchanging(run: seq<Action>, states: seq<State>, n: nat, id: string, command: string, data: Inspect)
    requires n <= |run| < |states|
  {
    && (forall c :: WasListed(run, n, id, c) ==> c == command)
    && (forall j :: WasInspected(run, states, n, id, j) ==> SameStatic(j, data))
  }

  lemma SameStaticSameDetails(t: Text, a: Inspect, b: Inspect, s: Static)
    requires SameStatic(a, b)
    ensures StaticDetails(t, a, s) == StaticDetails(t, b, s)
  {
  }

  lemma FromUnchanging(t: Text, run: seq<Action>, states: seq<State>, n: nat, id: string, s: Static,
                       command: string, data: Inspect)
    requires n <= |run| < |states| && FromInspection(t, run, states, n, id, s)
    requires Unchanging(run, states, n, id, command, data)
    ensures s == StaticDetails(t, data, Listed(command).details)
  {
    var j, c :| Gives(t, run, states, n, id, j, c, s);
    SameStaticSameDetails(t, j, data, Listed(c).details);
  }

  /** While one container does not change, its cache entry and every display of it that was
      served or inspected show exactly its static data, whatever other containers do. */
  lemma TruthThroughout(t: Text, trim: string -> string, run: seq<Action>, states: seq<State>,
                        n: nat, id: string, command: string, data: Inspect)
    requires IsRun(t, trim, run, states) && n <= |run|
    requires Unchanging(run, states, n, id, command, data)
    ensures var truth := StaticDetails(t, data, Listed(command).details);
            && (id in states[n].cache ==> states[n].cache[id] == truth)
            && forall k :: k in states[n].tasks && k.id == id && k.stage.Finished? && k.stage.ok ==>
                 k.display.details == truth
  {
    Provenance(t, trim, run, states, n);
    if id in states[n].cache {
      FromUnchanging(t, run, states, n, id, states[n].cache[id], command, data);
    }
    forall k | k in states[n].tasks && k.id == id && k.stage.Finished? && k.stage.ok
      ensures k.display.details == StaticDetails(t, data, Listed(command).details)
    {
      assert TaskSourced(t, run, states, n, k);
      if k.stage.hit {
        var s :| ServedFrom(t, run, states, n, k, s);
        FromUnchanging(t, run, states, n, id, s, command, data);
      } else {
        FromUnchanging(t, run, states, n, id, k.display.details, command, data);
      }
    }
  }

  /** In particular, under every interleaving, while a container does not change, a display
      of it served from the cache has the static fields that a fresh inspection would give
      it, and these are the reply's. */
  lemma HitLikeFreshInspection(t: Text, trim: string -> string, run: seq<Action>, states: seq<State>,
                               n: nat, k: Task, command: string, j: Inspect)
    requires IsRun(t, trim, run, states) && n <= |run|
    requires k in states[n].tasks && k.stage.Finished? && k.stage.hit
    requires Unchanging(run, states, n, k.id, command, j)
    ensures k.display.details == Enriched(t, j, Listed(command), trim).details
    ensures var s := k.display.details;
            && s.command == command
            && s.memoryLimit == (if j.host.Some? && j.host.value.memory > 0 then j.host.value.memory else 0)
            && s.cpuLimit ==
                 (if j.host.Some? && j.host.value.nanoCPUs > 0 then j.host.value.nanoCPUs as real / 1000000000.0
                  else 0.0)
            && s.restartPolicy ==
                 (if j.host.None? then ""
                  else if j.host.value.maxRetries > 0
                  then j.host.value.policy + ":" + t.number(j.host.value.maxRetries) else j.host.value.policy)
            && |s.env| == (if j.config.Some? then |j.config.value.env| else 0)
            && (forall i :: 0 <= i < |s.env| ==> s.env[i] == t.redact(j.config.value.env[i]))
            && |s.mounts| == |j.mounts|
  {
    Provenance(t, trim, run, states, n);
    assert TaskSourced(t, run, states, n, k);
    TruthThroughout(t, trim, run, states, n, k.id, command, j);
    FieldsFromReply(t, j, Listed(command), trim);
  }

  // ---- What the cache saves -------------------------------------------------------------------

  lemma {:induction false} CachedStaysCached(t: Text, trim: string -> string, run: seq<Action>, states: seq<State>,
                                             m: nat, n: nat, id: string)
    requires IsRun(t, trim, run, states) && m <= n <= |run| && id in states[m].cache
    ensures id in states[n].cache
    decreases n
  {
    if m < n {
      CachedStaysCached(t, trim, run, states, m, n - 1, id);
    }
  }

  /** Once a container was written to the cache, under every interleaving each later lookup
      of it is a hit, so it is never inspected for a task that looks it up after that. */
  lemma LookupAfterWriteHits(t: Text, trim: string -> string, run: seq<Action>, states: seq<State>, m: nat, n: nat)
    requires IsRun(t, trim, run, states) && m < n < |run|
    requires run[m].Write? && run[n].Lookup?
    requires states[m].tasks[run[m].i].id == states[n].tasks[run[n].i].id
    ensures states[n + 1].tasks[run[n].i].stage == Finished(true, true)
    ensures states[n + 1].hits == states[n].hits + 1 && states[n + 1].misses == states[n].misses
  {
    CachedStaysCached(t, trim, run, states, m + 1, n, states[m].tasks[run[m].i].id);
  }

  function LookedUp(tasks: seq<Task>): nat {
    if tasks == [] then 0
    else LookedUp(tasks[..|tasks| - 1]) + if tasks[|tasks| - 1].stage.Started? then 0 else 1
  }

  lemma {:induction false} LookedUpUpdate(tasks: seq<Task>, i: nat, k: Task)
    requires i < |tasks| && !k.stage.Started?
    ensures LookedUp(tasks[i := k]) == LookedUp(tasks) + if tasks[i].stage.Started? then 1 else 0
  {
    var n := |tasks| - 1;
    if i < n {
      LookedUpUpdate(tasks[..n], i, k);
      assert tasks[i := k][..n] == tasks[..n][i := k];
    } else {
      assert tasks[i := k][..n] == tasks[..n];
    }
  }

  /** Each enrichment counts once, as a hit or as a miss. */
  lemma {:induction false} HitsPlusMisses(t: Text, trim: string -> string, run: seq<Action>, states: seq<State>, n: nat)
    requires IsRun(t, trim, run, states) && n <= |run|
    ensures states[n].hits + states[n].misses == LookedUp(states[n].tasks)
    ensures (forall i :: 0 <= i < |states[n].tasks| ==> states[n].tasks[i].stage.Finished?) ==>
              states[n].hits + states[n].misses == |states[n].tasks|
  {
    if n > 0 {
      HitsPlusMisses(t, trim, run, states, n - 1);
      var s, a := states[n - 1], run[n - 1];
      if a.Spawn? {
        assert states[n].tasks[..|s.tasks|] == s.tasks;
      } else {
        LookedUpUpdate(s.tasks, a.i, states[n].tasks[a.i]);
      }
    }
    AllLookedUp(states[n].tasks);
  }

  lemma {:induction false} AllLookedUp(tasks: seq<Task>)
    ensures (forall i :: 0 <= i < |tasks| ==> !tasks[i].stage.Started?) ==> LookedUp(tasks) == |tasks|
  {
    if tasks != [] {
      AllLookedUp(tasks[..|tasks| - 1]);
    }
  }
}
