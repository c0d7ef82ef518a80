/**
 * The ten security rules (internal/security/auditor.go) as functions of the
 * container and its inspect data. `since` and `fired` are the two times an alert
 * carries; a fresh evaluation passes the same instant for both.
 */
module SecurityRules {
  import opened Common
  import opened AlertModel

  datatype Display = Display(id: string, name: string)

  datatype HostConfig = HostConfig(
    privileged: bool, capAdd: seq<string>, memory: int, nanoCPUs: int,
    readonlyRootfs: bool, securityOpt: seq<string>, networkMode: string)

  /** One entry of the port map: its "port/protocol" text, the number the nat package
      reads from it, and the host addresses it is bound to. */
  datatype Port = Port(text: string, number: nat, hostIPs: seq<string>)

  /** Inspect data. The source keeps ports in a Go map: `ports` lists its entries in
      the order in which one evaluation ranges over them. */
  datatype Inspect = Inspect(
    hostConfig: Option<HostConfig>, user: Option<string>,
    ports: Option<seq<Port>>, mounts: seq<string>)

  function SecAlert(rule: string, c: Display, metric: string, value: real, severity: string,
                    since: int, fired: int): Alert
  {
    Alert(rule, c.id, c.name, metric, value, 0.0, severity, fired, since)
  }

  predicate IsDbPort(text: string) {
    "3306/" <= text || "5432/" <= text || "27017/" <= text || "6379/" <= text
  }

  predicate IsGloballyExposed(ip: string) {
    ip == "0.0.0.0" || ip == "" || ip == "::"
  }

  predicate IsInsecurePort(text: string) {
    "22/" <= text || "23/" <= text
  }

  const SENSITIVE_CAPS: set<string> :=
    {"SYS_ADMIN", "NET_ADMIN", "SYS_PTRACE", "DAC_OVERRIDE", "SYS_RAWIO", "SYS_MODULE", "NET_RAW"}

  function When(cond: bool, a: Alert): seq<Alert> {
    if cond then [a] else []
  }

  function DbPortAlert(c: Display, p: Port, since: int, fired: int): Alert {
    SecAlert("Sec: DB Port Exposed globally", c, "security_db_port", p.number as real, "critical", since, fired)
  }

  /** One alert per globally reachable binding of a database port. */
  function DbPortAlerts(c: Display, since: int, fired: int): Port -> seq<Alert> {
    (p: Port) =>
      if IsDbPort(p.text)
      then FlatMap((ip: string) => When(IsGloballyExposed(ip), DbPortAlert(c, p, since, fired)), p.hostIPs)
      else []
  }

  function CapAlerts(c: Display, since: int, fired: int): string -> seq<Alert> {
    (cap: string) =>
      When(cap in SENSITIVE_CAPS,
           SecAlert("Sec: Sensitive CAP_ADD", c, "security_sensitive_cap", 1.0, "warning", since, fired))
  }

  datatype Rule =
    | PrivilegedMode | RootUser | DbPortExposed | SensitiveCaps | ResourceQuotas
    | WritableRootFS | InsecurePorts | NoNewPrivileges | HostNetworking | SensitiveMounts

  const DEFAULT_RULES: seq<Rule> :=
    [PrivilegedMode, RootUser, DbPortExposed, SensitiveCaps, ResourceQuotas,
     WritableRootFS, InsecurePorts, NoNewPrivileges, HostNetworking, SensitiveMounts]

  /** What one rule finds. */
  function Findings(r: Rule, c: Display, j: Inspect, since: int, fired: int): seq<Alert> {
    match r
    case PrivilegedMode =>
      When(j.hostConfig.Some? && j.hostConfig.value.privileged,
           SecAlert("Sec: Privileged Mode", c, "security_privileged", 1.0, "critical", since, fired))
    case RootUser =>
      When(j.user.None? || j.user.value in {"", "root", "0"},
           SecAlert("Sec: Root User", c, "security_root_user", 1.0, "warning", since, fired))
    case DbPortExposed =>
      if j.ports.None? then [] else FlatMap(DbPortAlerts(c, since, fired), j.ports.value)
    case SensitiveCaps =>
      if j.hostConfig.None? then [] else FlatMap(CapAlerts(c, since, fired), j.hostConfig.value.capAdd)
    case ResourceQuotas =>
      When(j.hostConfig.Some? && (j.hostConfig.value.memory == 0 || j.hostConfig.value.nanoCPUs == 0),
           SecAlert("Sec: No Resource Quotas", c, "security_no_quotas", 1.0, "warning", since, fired))
    case WritableRootFS =>
      When(j.hostConfig.Some? && !j.hostConfig.value.readonlyRootfs,
           SecAlert("Sec: Writable RootFS", c, "security_writable_rootfs", 1.0, "warning", since, fired))
    case InsecurePorts =>
      When(j.ports.Some? && exists p :: p in j.ports.value && IsInsecurePort(p.text),
           SecAlert("Sec: Insecure Port Exposed", c, "security_insecure_port", 1.0, "critical", since, fired))
    case NoNewPrivileges =>
      When(j.hostConfig.Some? && forall o :: o in j.hostConfig.value.securityOpt ==> !Contains(o, "no-new-privileges"),
           SecAlert("Sec: Missing No-New-Privileges", c, "security_no_new_privs", 1.0, "warning", since, fired))
    case HostNetworking =>
      When(j.hostConfig.Some? && j.hostConfig.value.networkMode == "host",
           SecAlert("Sec: Host Networking Mode", c, "security_host_network", 1.0, "critical", since, fired))
    case SensitiveMounts =>
      When(exists m :: m in j.mounts && Contains(m, "docker.sock"),
           SecAlert("Sec: Docker Socket Mounted", c, "security_docker_sock", 1.0, "critical", since, fired))
  }

  function AllFindings(c: Display, j: Inspect, since: int, fired: int): seq<Alert> {
    FlatMap((r: Rule) => Findings(r, c, j, since, fired), DEFAULT_RULES)
  }

  // ---- The rules that loop -----------------------------------------------------------------

  method ExposedBindings(c: Display, p: Port, now: int) returns (alerts: seq<Alert>)
    requires IsDbPort(p.text)
    ensures alerts == DbPortAlerts(c, now, now)(p)
  {
    var f := (ip: string) => When(IsGloballyExposed(ip), DbPortAlert(c, p, now, now));
    alerts := [];
    for k := 0 to |p.hostIPs|
      invariant alerts == FlatMap(f, p.hostIPs[..k])
    {
      FlatMapExtend(f, p.hostIPs, k);
      if IsGloballyExposed(p.hostIPs[k]) {
        alerts := alerts + [DbPortAlert(c, p, now, now)];
      }
    }
    assert p.hostIPs[..|p.hostIPs|] == p.hostIPs;
  }

  method EvalDbPortExposed(c: Display, j: Inspect, now: int) returns (alerts: seq<Alert>)
    ensures alerts == Findings(DbPortExposed, c, j, now, now)
  {
    alerts := [];
    if j.ports.None? {
      return;
    }
    var ports := j.ports.value;
    for i := 0 to |ports|
      invariant alerts == FlatMap(DbPortAlerts(c, now, now), ports[..i])
    {
      FlatMapExtend(DbPortAlerts(c, now, now), ports, i);
      if !IsDbPort(ports[i].text) {
        continue;
      }
      var found := ExposedBindings(c, ports[i], now);
      alerts := alerts + found;
    }
    assert ports[..|ports|] == ports;
  }

  method EvalSensitiveCaps(c: Display, j: Inspect, now: int) returns (alerts: seq<Alert>)
    ensures alerts == Findings(SensitiveCaps, c, j, now, now)
  {
    alerts := [];
    if j.hostConfig.None? {
      return;
    }
    var caps := j.hostConfig.value.capAdd;
    for i := 0 to |caps|
      invariant alerts == FlatMap(CapAlerts(c, now, now), caps[..i])
    {
      FlatMapExtend(CapAlerts(c, now, now), caps, i);
      if caps[i] in SENSITIVE_CAPS {
        alerts := alerts + [SecAlert("Sec: Sensitive CAP_ADD", c, "security_sensitive_cap", 1.0, "warning", now, now)];
      }
    }
    assert caps[..|caps|] == caps;
  }

  method EvalInsecurePorts(c: Display, j: Inspect, now: int) returns (alerts: seq<Alert>)
    ensures alerts == Findings(InsecurePorts, c, j, now, now)
  {
    if j.ports.None? {
      return [];
    }
    var ports := j.ports.value;
    for i := 0 to |ports|
      invariant forall p :: p in ports[..i] ==> !IsInsecurePort(p.text)
    {
      if IsInsecurePort(ports[i].text) {
        return [SecAlert("Sec: Insecure Port Exposed", c, "security_insecure_port", 1.0, "critical", now, now)];
      }
    }
    assert ports[..|ports|] == ports;
    return [];
  }

  method EvalNoNewPrivileges(c: Display, j: Inspect, now: int) returns (alerts: seq<Alert>)
    ensures alerts == Findings(NoNewPrivileges, c, j, now, now)
  {
    if j.hostConfig.None? {
      return [];
    }
    var opts := j.hostConfig.value.securityOpt;
    for i := 0 to |opts|
      invariant forall o :: o in opts[..i] ==> !Contains(o, "no-new-privileges")
    {
      LongerOptionContainsShorter(opts[i]);
      if Contains(opts[i], "no-new-privileges:true") || Contains(opts[i], "no-new-privileges") {
        return [];
      }
    }
    assert opts[..|opts|] == opts;
    return [SecAlert("Sec: Missing No-New-Privileges", c, "security_no_new_privs", 1.0, "warning", now, now)];
  }

  /** The source's first test is subsumed by its second. */
  lemma LongerOptionContainsShorter(o: string)
    ensures Contains(o, "no-new-privileges:true") ==> Contains(o, "no-new-privileges")
  {
    var long, short := "no-new-privileges:true", "no-new-privileges";
    if Contains(o, long) {
      var i :| 0 <= i <= |o| && MatchesAt(o, long, i);
      assert long[..|short|] == short;
      assert o[i..i + |short|] == o[i..i + |long|][..|short|];
      assert MatchesAt(o, short, i);
    }
  }

  method EvalSensitiveMounts(c: Display, j: Inspect, now: int) returns (alerts: seq<Alert>)
    ensures alerts == Findings(SensitiveMounts, c, j, now, now)
  {
    for i := 0 to |j.mounts|
      invariant forall m :: m in j.mounts[..i] ==> !Contains(m, "docker.sock")
    {
      if Contains(j.mounts[i], "docker.sock") {
        return [SecAlert("Sec: Docker Socket Mounted", c, "security_docker_sock", 1.0, "critical", now, now)];
      }
    }
    assert j.mounts[..|j.mounts|] == j.mounts;
    return [];
  }

  method Evaluate(r: Rule, c: Display, j: Inspect, now: int) returns (alerts: seq<Alert>)
    ensures alerts == Findings(r, c, j, now, now)
  {
    match r
    case DbPortExposed => alerts := EvalDbPortExposed(c, j, now);
    case SensitiveCaps => alerts := EvalSensitiveCaps(c, j, now);
    case InsecurePorts => alerts := EvalInsecurePorts(c, j, now);
    case NoNewPrivileges => alerts := EvalNoNewPrivileges(c, j, now);
    case SensitiveMounts => alerts := EvalSensitiveMounts(c, j, now);
    case _ => alerts := Findings(r, c, j, now, now);
  }

  /** The rule loop of one inspection. */
  method EvaluateAll(c: Display, j: Inspect, now: int) returns (alerts: seq<Alert>)
    ensures alerts == AllFindings(c, j, now, now)
  {
    var f := (r: Rule) => Findings(r, c, j, now, now);
    alerts := [];
    for i := 0 to |DEFAULT_RULES|
      invariant alerts == FlatMap(f, DEFAULT_RULES[..i])
    {
      FlatMapExtend(f, DEFAULT_RULES, i);
      var found := Evaluate(DEFAULT_RULES[i], c, j, now);
      alerts := alerts + found;
    }
    assert DEFAULT_RULES[..|DEFAULT_RULES|] == DEFAULT_RULES;
  }

  // ---- What is reported, rule by rule --------------------------------------------------------

  /** The alerts that carry this rule name, in order. */
  function ByRule(alerts: seq<Alert>, name: string): seq<Alert> {
    FlatMap((a: Alert) => if a.ruleName == name then [a] else [], alerts)
  }

  lemma {:induction false} ByRuleConcat(a: seq<Alert>, b: seq<Alert>, name: string)
    ensures ByRule(a + b, name) == ByRule(a, name) + ByRule(b, name)
  {
    if b == [] {
      assert a + b == a;
      assert ByRule(a, name) + [] == ByRule(a, name);
    } else {
      assert (a + b)[..|a + b| - 1] == a + b[..|b| - 1];
      ByRuleConcat(a, b[..|b| - 1], name);
    }
  }

  lemma {:induction false} ByRuleUniform(alerts: seq<Alert>, name: string, same: bool)
    requires forall a :: a in alerts ==> (a.ruleName == name <==> same)
    ensures ByRule(alerts, name) == if same then alerts else []
  {
    if alerts != [] {
      var n := |alerts| - 1;
      assert alerts == alerts[..n] + [alerts[n]];
      ByRuleUniform(alerts[..n], name, same);
    }
  }

  function AlertName(r: Rule): string {
    match r
    case PrivilegedMode => "Sec: Privileged Mode"
    case RootUser => "Sec: Root User"
    case DbPortExposed => "Sec: DB Port Exposed globally"
    case SensitiveCaps => "Sec: Sensitive CAP_ADD"
    case ResourceQuotas => "Sec: No Resource Quotas"
    case WritableRootFS => "Sec: Writable RootFS"
    case InsecurePorts => "Sec: Insecure Port Exposed"
    case NoNewPrivileges => "Sec: Missing No-New-Privileges"
    case HostNetworking => "Sec: Host Networking Mode"
    case SensitiveMounts => "Sec: Docker Socket Mounted"
  }

  lemma {:induction false} NamedFlatMap<T>(f: T -> seq<Alert>, s: seq<T>, name: string)
    requires forall x, a :: x in s && a in f(x) ==> a.ruleName == name
    ensures forall a :: a in FlatMap(f, s) ==> a.ruleName == name
  {
    if s != [] {
      NamedFlatMap(f, s[..|s| - 1], name);
    }
  }

  lemma FindingsNamed(r: Rule, c: Display, j: Inspect, since: int, fired: int)
    ensures forall a :: a in Findings(r, c, j, since, fired) ==> a.ruleName == AlertName(r)
  {
    if r.DbPortExposed? && j.ports.Some? {
      forall p: Port, a | p in j.ports.value && a in DbPortAlerts(c, since, fired)(p)
        ensures a.ruleName == AlertName(r)
      {
        NamedFlatMap((ip: string) => When(IsGloballyExposed(ip), DbPortAlert(c, p, since, fired)),
                     p.hostIPs, AlertName(r));
      }
      NamedFlatMap(DbPortAlerts(c, since, fired), j.ports.value, AlertName(r));
    } else if r.SensitiveCaps? && j.hostConfig.Some? {
      NamedFlatMap(CapAlerts(c, since, fired), j.hostConfig.value.capAdd, AlertName(r));
    }
  }

  lemma NamesDiffer(q: Rule, r: Rule)
    ensures AlertName(q) == AlertName(r) <==> q == r
  {
  }

  /** Each rule's alerts can be told apart in the report of several rules. */
  lemma {:induction false} ReportOfRule(rules: seq<Rule>, r: Rule, c: Display, j: Inspect, since: int, fired: int)
    requires NoDuplicates(rules)
    ensures ByRule(FlatMap((q: Rule) => Findings(q, c, j, since, fired), rules), AlertName(r)) ==
            if r in rules then Findings(r, c, j, since, fired) else []
  {
    if rules != [] {
      var n := |rules| - 1;
      var f := (q: Rule) => Findings(q, c, j, since, fired);
      assert rules == rules[..n] + [rules[n]];
      assert rules[n] !in rules[..n];
      ReportOfRule(rules[..n], r, c, j, since, fired);
      ByRuleConcat(FlatMap(f, rules[..n]), f(rules[n]), AlertName(r));
      FindingsNamed(rules[n], c, j, since, fired);
      NamesDiffer(rules[n], r);
      ByRuleUniform(f(rules[n]), AlertName(r), rules[n] == r);
    }
  }

  lemma ReportOf(r: Rule, c: Display, j: Inspect, since: int, fired: int)
    ensures ByRule(AllFindings(c, j, since, fired), AlertName(r)) == Findings(r, c, j, since, fired)
  {
    DefaultRulesComplete(r);
    ReportOfRule(DEFAULT_RULES, r, c, j, since, fired);
  }

  lemma DefaultRulesComplete(r: Rule)
    ensures NoDuplicates(DEFAULT_RULES) && r in DEFAULT_RULES
  {
    assert DEFAULT_RULES[0] == PrivilegedMode && DEFAULT_RULES[1] == RootUser && DEFAULT_RULES[2] == DbPortExposed;
    assert DEFAULT_RULES[3] == SensitiveCaps && DEFAULT_RULES[4] == ResourceQuotas;
    assert DEFAULT_RULES[5] == WritableRootFS && DEFAULT_RULES[6] == InsecurePorts;
    assert DEFAULT_RULES[7] == NoNewPrivileges && DEFAULT_RULES[8] == HostNetworking;
    assert DEFAULT_RULES[9] == SensitiveMounts;
  }

  /** The host configuration's part of a report: which alerts it holds, from the inspect data. */
  lemma HostConfigReport(c: Display, j: Inspect, since: int, fired: int)
    ensures var all := AllFindings(c, j, since, fired);
            && ByRule(all, "Sec: Privileged Mode") ==
                 (if j.hostConfig.Some? && j.hostConfig.value.privileged
                  then [Alert("Sec: Privileged Mode", c.id, c.name, "security_privileged", 1.0, 0.0, "critical",
                              fired, since)] else [])
            && ByRule(all, "Sec: No Resource Quotas") ==
                 (if j.hostConfig.Some? && (j.hostConfig.value.memory == 0 || j.hostConfig.value.nanoCPUs == 0)
                  then [Alert("Sec: No Resource Quotas", c.id, c.name, "security_no_quotas", 1.0, 0.0, "warning",
                              fired, since)] else [])
            && ByRule(all, "Sec: Writable RootFS") ==
                 (if j.hostConfig.Some? && !j.hostConfig.value.readonlyRootfs
                  then [Alert("Sec: Writable RootFS", c.id, c.name, "security_writable_rootfs", 1.0, 0.0, "warning",
                              fired, since)] else [])
            && ByRule(all, "Sec: Host Networking Mode") ==
                 (if j.hostConfig.Some? && j.hostConfig.value.networkMode == "host"
                  then [Alert("Sec: Host Networking Mode", c.id, c.name, "security_host_network", 1.0, 0.0, "critical",
                              fired, since)] else [])
  {
    ReportOf(PrivilegedMode, c, j, since, fired);
    ReportOf(ResourceQuotas, c, j, since, fired);
    ReportOf(WritableRootFS, c, j, since, fired);
    ReportOf(HostNetworking, c, j, since, fired);
  }

  /** The user and the exposed ports. */
  lemma UserAndPortReport(c: Display, j: Inspect, since: int, fired: int)
    ensures var all := AllFindings(c, j, since, fired);
            && ByRule(all, "Sec: Root User") ==
                 (if j.user.None? || j.user.value == "" || j.user.value == "root" || j.user.value == "0"
                  then [Alert("Sec: Root User", c.id, c.name, "security_root_user", 1.0, 0.0, "warning",
                              fired, since)] else [])
            && ByRule(all, "Sec: Insecure Port Exposed") ==
                 (if j.ports.Some? && exists p :: p in j.ports.value && ("22/" <= p.text || "23/" <= p.text)
                  then [Alert("Sec: Insecure Port Exposed", c.id, c.name, "security_insecure_port", 1.0, 0.0,
                              "critical", fired, since)] else [])
  {
    ReportOf(RootUser, c, j, since, fired);
    ReportOf(InsecurePorts, c, j, since, fired);
  }

  /** The security options. */
  lemma OptionReport(c: Display, j: Inspect, since: int, fired: int)
    ensures ByRule(AllFindings(c, j, since, fired), "Sec: Missing No-New-Privileges") ==
            if j.hostConfig.Some?
               && !(exists o, i :: o in j.hostConfig.value.securityOpt && MatchesAt(o, "no-new-privileges", i))
            then [Alert("Sec: Missing No-New-Privileges", c.id, c.name, "security_no_new_privs", 1.0, 0.0,
                        "warning", fired, since)] else []
  {
    ReportOf(NoNewPrivileges, c, j, since, fired);
  }

  /** The mounts. */
  lemma MountReport(c: Display, j: Inspect, since: int, fired: int)
    ensures ByRule(AllFindings(c, j, since, fired), "Sec: Docker Socket Mounted") ==
            if exists m, i :: m in j.mounts && MatchesAt(m, "docker.sock", i)
            then [Alert("Sec: Docker Socket Mounted", c.id, c.name, "security_docker_sock", 1.0, 0.0,
                        "critical", fired, since)] else []
  {
    ReportOf(SensitiveMounts, c, j, since, fired);
  }

  /** One alert per binding of a database port to every address. */
  lemma DbPortReport(c: Display, j: Inspect, since: int, fired: int)
    ensures ByRule(AllFindings(c, j, since, fired), "Sec: DB Port Exposed globally") ==
            if j.ports.None? then [] else FlatMap((p: Port) => FlatMap((ip: string) =>
              if ("3306/" <= p.text || "5432/" <= p.text || "27017/" <= p.text || "6379/" <= p.text)
                 && (ip == "0.0.0.0" || ip == "" || ip == "::")
              then [Alert("Sec: DB Port Exposed globally", c.id, c.name, "security_db_port", p.number as real,
                          0.0, "critical", fired, since)]
              else [], p.hostIPs), j.ports.value)
  {
    ReportOf(DbPortExposed, c, j, since, fired);
    if j.ports.Some? {
      var db := (p: Port) => FlatMap((ip: string) =>
                  if ("3306/" <= p.text || "5432/" <= p.text || "27017/" <= p.text || "6379/" <= p.text)
                     && (ip == "0.0.0.0" || ip == "" || ip == "::")
                  then [Alert("Sec: DB Port Exposed globally", c.id, c.name, "security_db_port", p.number as real,
                              0.0, "critical", fired, since)]
                  else [], p.hostIPs);
      forall p | p in j.ports.value ensures db(p) == DbPortAlerts(c, since, fired)(p) {
        var bound := (ip: string) =>
                       if ("3306/" <= p.text || "5432/" <= p.text || "27017/" <= p.text || "6379/" <= p.text)
                          && (ip == "0.0.0.0" || ip == "" || ip == "::")
                       then [Alert("Sec: DB Port Exposed globally", c.id, c.name, "security_db_port",
                                   p.number as real, 0.0, "critical", fired, since)]
                       else [];
        if IsDbPort(p.text) {
          FlatMapSame(bound, (ip: string) => When(IsGloballyExposed(ip), DbPortAlert(c, p, since, fired)), p.hostIPs);
        } else {
          FlatMapNothing(bound, p.hostIPs);
        }
      }
      FlatMapSame(db, DbPortAlerts(c, since, fired), j.ports.value);
    }
  }

  /** One alert per sensitive capability that was added. */
  lemma CapabilityReport(c: Display, j: Inspect, since: int, fired: int)
    ensures ByRule(AllFindings(c, j, since, fired), "Sec: Sensitive CAP_ADD") ==
            if j.hostConfig.None? then [] else FlatMap((cap: string) =>
              if cap == "SYS_ADMIN" || cap == "NET_ADMIN" || cap == "SYS_PTRACE" || cap == "DAC_OVERRIDE"
                 || cap == "SYS_RAWIO" || cap == "SYS_MODULE" || cap == "NET_RAW"
              then [Alert("Sec: Sensitive CAP_ADD", c.id, c.name, "security_sensitive_cap", 1.0, 0.0,
                          "warning", fired, since)]
              else [], j.hostConfig.value.capAdd)
  {
    ReportOf(SensitiveCaps, c, j, since, fired);
    if j.hostConfig.Some? {
      FlatMapSame((cap: string) =>
                    if cap == "SYS_ADMIN" || cap == "NET_ADMIN" || cap == "SYS_PTRACE" || cap == "DAC_OVERRIDE"
                       || cap == "SYS_RAWIO" || cap == "SYS_MODULE" || cap == "NET_RAW"
                    then [Alert("Sec: Sensitive CAP_ADD", c.id, c.name, "security_sensitive_cap", 1.0, 0.0,
                                "warning", fired, since)]
                    else [],
                  CapAlerts(c, since, fired), j.hostConfig.value.capAdd);
    }
  }

  /** Every alert of a report is one of these ten. */
  lemma NothingElseReported(c: Display, j: Inspect, since: int, fired: int, a: Alert)
    requires a in AllFindings(c, j, since, fired)
    ensures a.ruleName in {"Sec: Privileged Mode", "Sec: Root User", "Sec: DB Port Exposed globally",
                           "Sec: Sensitive CAP_ADD", "Sec: No Resource Quotas", "Sec: Writable RootFS",
                           "Sec: Insecure Port Exposed", "Sec: Missing No-New-Privileges",
                           "Sec: Host Networking Mode", "Sec: Docker Socket Mounted"}
  {
    var r := FromSomeRule(DEFAULT_RULES, c, j, since, fired, a);
    FindingsNamed(r, c, j, since, fired);
  }

  lemma {:induction false} FromSomeRule(rules: seq<Rule>, c: Display, j: Inspect, since: int, fired: int, a: Alert)
    returns (r: Rule)
    requires a in FlatMap((q: Rule) => Findings(q, c, j, since, fired), rules)
    ensures r in rules && a in Findings(r, c, j, since, fired)
  {
    var n := |rules| - 1;
    if a in Findings(rules[n], c, j, since, fired) {
      r := rules[n];
    } else {
      r := FromSomeRule(rules[..n], c, j, since, fired, a);
    }
  }

  /** The host configuration gives no cause for an alert. */
  ghost predicate Hardened(h: HostConfig) {
    && !h.privileged && h.memory != 0 && h.nanoCPUs != 0 && h.readonlyRootfs && h.networkMode != "host"
    && (exists o, i :: o in h.securityOpt && MatchesAt(o, "no-new-privileges", i))
    && (forall cap :: cap in h.capAdd ==>
          cap !in {"SYS_ADMIN", "NET_ADMIN", "SYS_PTRACE", "DAC_OVERRIDE", "SYS_RAWIO", "SYS_MODULE", "NET_RAW"})
  }

  ghost predicate HarmlessPort(p: Port) {
    && !("22/" <= p.text) && !("23/" <= p.text)
    && (("3306/" <= p.text || "5432/" <= p.text || "27017/" <= p.text || "6379/" <= p.text) ==>
          forall ip :: ip in p.hostIPs ==> ip != "0.0.0.0" && ip != "" && ip != "::")
  }

  /** A report is empty exactly for a container that is hardened in all ten respects. */
  lemma EmptyReportExactly(c: Display, j: Inspect, since: int, fired: int)
    ensures AllFindings(c, j, since, fired) == [] <==>
              && (j.hostConfig.Some? ==> Hardened(j.hostConfig.value))
              && j.user.Some? && j.user.value != "" && j.user.value != "root" && j.user.value != "0"
              && (j.ports.Some? ==> forall p :: p in j.ports.value ==> HarmlessPort(p))
              && (forall m, i :: m in j.mounts ==> !MatchesAt(m, "docker.sock", i))
  {
    var all := AllFindings(c, j, since, fired);
    EmptyByRule(c, j, since, fired);
    HostConfigReport(c, j, since, fired);
    UserAndPortReport(c, j, since, fired);
    OptionReport(c, j, since, fired);
    MountReport(c, j, since, fired);
    NoCapabilityReport(c, j, since, fired);
    NoDbPortReport(c, j, since, fired);
  }

  lemma EmptyByRule(c: Display, j: Inspect, since: int, fired: int)
    ensures var all := AllFindings(c, j, since, fired);
            all == [] <==>
              && ByRule(all, "Sec: Privileged Mode") == [] && ByRule(all, "Sec: Root User") == []
              && ByRule(all, "Sec: DB Port Exposed globally") == [] && ByRule(all, "Sec: Sensitive CAP_ADD") == []
              && ByRule(all, "Sec: No Resource Quotas") == [] && ByRule(all, "Sec: Writable RootFS") == []
              && ByRule(all, "Sec: Insecure Port Exposed") == []
              && ByRule(all, "Sec: Missing No-New-Privileges") == []
              && ByRule(all, "Sec: Host Networking Mode") == [] && ByRule(all, "Sec: Docker Socket Mounted") == []
  {
    var all := AllFindings(c, j, since, fired);
    if all != [] {
      NothingElseReported(c, j, since, fired, all[0]);
      FlatMapNothing((a: Alert) => if a.ruleName == all[0].ruleName then [a] else [], all);
    }
  }

  lemma NoCapabilityReport(c: Display, j: Inspect, since: int, fired: int)
    ensures ByRule(AllFindings(c, j, since, fired), "Sec: Sensitive CAP_ADD") == [] <==>
            (j.hostConfig.Some? ==> forall cap :: cap in j.hostConfig.value.capAdd ==>
               cap !in {"SYS_ADMIN", "NET_ADMIN", "SYS_PTRACE", "DAC_OVERRIDE", "SYS_RAWIO", "SYS_MODULE", "NET_RAW"})
  {
    ReportOf(SensitiveCaps, c, j, since, fired);
    if j.hostConfig.Some? {
      FlatMapNothing(CapAlerts(c, since, fired), j.hostConfig.value.capAdd);
    }
  }

  lemma NoDbPortReport(c: Display, j: Inspect, since: int, fired: int)
    ensures ByRule(AllFindings(c, j, since, fired), "Sec: DB Port Exposed globally") == [] <==>
            (j.ports.Some? ==> forall p :: p in j.ports.value ==>
               (("3306/" <= p.text || "5432/" <= p.text || "27017/" <= p.text || "6379/" <= p.text) ==>
                  forall ip :: ip in p.hostIPs ==> ip != "0.0.0.0" && ip != "" && ip != "::"))
  {
    ReportOf(DbPortExposed, c, j, since, fired);
    if j.ports.Some? {
      FlatMapNothing(DbPortAlerts(c, since, fired), j.ports.value);
      forall p | p in j.ports.value && IsDbPort(p.text)
        ensures DbPortAlerts(c, since, fired)(p) == [] <==>
                forall ip :: ip in p.hostIPs ==> ip != "0.0.0.0" && ip != "" && ip != "::"
      {
        FlatMapNothing((ip: string) => When(IsGloballyExposed(ip), DbPortAlert(c, p, since, fired)), p.hostIPs);
      }
    }
  }

  // ---- Re-stamping -----------------------------------------------------------------------

  function Restamp(alerts: seq<Alert>, fired: int): (r: seq<Alert>)
    ensures |r| == |alerts|
    ensures forall i :: 0 <= i < |r| ==> r[i] == alerts[i].(firedAt := fired)
  {
    seq(|alerts|, i requires 0 <= i < |alerts| => alerts[i].(firedAt := fired))
  }

  lemma {:induction false} RestampFlatMap<T>(f: T -> seq<Alert>, g: T -> seq<Alert>, s: seq<T>, t: int)
    requires forall x :: x in s ==> Restamp(f(x), t) == g(x)
    ensures Restamp(FlatMap(f, s), t) == FlatMap(g, s)
  {
    if s != [] {
      RestampFlatMap(f, g, s[..|s| - 1], t);
    }
  }

  lemma RestampPort(c: Display, p: Port, since: int, t1: int, t2: int)
    ensures Restamp(DbPortAlerts(c, since, t1)(p), t2) == DbPortAlerts(c, since, t2)(p)
  {
    var f := (ip: string) => When(IsGloballyExposed(ip), DbPortAlert(c, p, since, t1));
    var g := (ip: string) => When(IsGloballyExposed(ip), DbPortAlert(c, p, since, t2));
    RestampFlatMap(f, g, p.hostIPs, t2);
  }

  lemma RestampFindings(r: Rule, c: Display, j: Inspect, since: int, t1: int, t2: int)
    ensures Restamp(Findings(r, c, j, since, t1), t2) == Findings(r, c, j, since, t2)
  {
    if r.DbPortExposed? && j.ports.Some? {
      forall p { RestampPort(c, p, since, t1, t2); }
      RestampFlatMap(DbPortAlerts(c, since, t1), DbPortAlerts(c, since, t2), j.ports.value, t2);
    } else if r.SensitiveCaps? && j.hostConfig.Some? {
      RestampFlatMap(CapAlerts(c, since, t1), CapAlerts(c, since, t2), j.hostConfig.value.capAdd, t2);
    }
  }

  /** Re-stamping old findings gives what the ten rules find again, but for `since`. */
  lemma RestampAllFindings(c: Display, j: Inspect, since: int, t1: int, t2: int)
    ensures Restamp(AllFindings(c, j, since, t1), t2) == AllFindings(c, j, since, t2)
  {
    forall r { RestampFindings(r, c, j, since, t1, t2); }
    RestampFlatMap((r: Rule) => Findings(r, c, j, since, t1), (r: Rule) => Findings(r, c, j, since, t2),
                   DEFAULT_RULES, t2);
  }

  // ---- Port order does not matter --------------------------------------------------------

  /** The same inspect data, its port map ranged over in another order. */
  ghost predicate SameData(j1: Inspect, j2: Inspect) {
    && j1.hostConfig == j2.hostConfig && j1.user == j2.user && j1.mounts == j2.mounts
    && j1.ports.Some? == j2.ports.Some?
    && (j1.ports.Some? ==> multiset(j1.ports.value) == multiset(j2.ports.value))
  }

  lemma SameDataSameFindings(r: Rule, c: Display, j1: Inspect, j2: Inspect, since: int, fired: int)
    requires SameData(j1, j2)
    ensures multiset(Findings(r, c, j1, since, fired)) == multiset(Findings(r, c, j2, since, fired))
  {
    if !r.DbPortExposed? && !r.InsecurePorts? {
      PortsOnlyMatterToPortRules(r, c, j1, j2.ports, since, fired);
      assert j1.(ports := j2.ports) == j2;
    } else if j1.ports.None? {
      assert j1 == j2;
    } else if r.DbPortExposed? {
      FlatMapPermuted(DbPortAlerts(c, since, fired), j1.ports.value, j2.ports.value);
    } else {
      SameBagSameMembers(j1.ports.value, j2.ports.value);
    }
  }

  lemma PortsOnlyMatterToPortRules(r: Rule, c: Display, j: Inspect, ports: Option<seq<Port>>, since: int, fired: int)
    requires !r.DbPortExposed? && !r.InsecurePorts?
    ensures Findings(r, c, j, since, fired) == Findings(r, c, j.(ports := ports), since, fired)
  {
  }

  lemma SameBagSameMembers(s: seq<Port>, t: seq<Port>)
    requires multiset(s) == multiset(t)
    ensures forall p :: p in s <==> p in t
  {
    assert forall p :: p in s <==> p in multiset(s);
    assert forall p :: p in t <==> p in multiset(t);
  }

  /** On the same data the ten rules find the same alerts, whatever the map order. */
  lemma SameDataSameAlerts(c: Display, j1: Inspect, j2: Inspect, since: int, fired: int)
    requires SameData(j1, j2)
    ensures multiset(AllFindings(c, j1, since, fired)) == multiset(AllFindings(c, j2, since, fired))
  {
    forall r { SameDataSameFindings(r, c, j1, j2, since, fired); }
    FlatMapBags((r: Rule) => Findings(r, c, j1, since, fired), (r: Rule) => Findings(r, c, j2, since, fired),
                DEFAULT_RULES);
  }
}
