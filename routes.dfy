/**
 * The decisions the REST handlers make: which status code a request gets,
 * what body goes with it, and what the store does meanwhile. Requests
 * arrive already taken apart: path and query numbers as the result of
 * `parseInt` (none for NaN or absent), a schema-checked body as the parsed
 * insert record (none when the schema check fails), and a single body field
 * as a `Field`.
 */
module Routes {
  import opened Wrappers
  import opened Schema
  import OrderedMap
  import opened DeploymentOrder
  import opened Storage

  /** A JSON reply: a status code with a body, or with an error message. */
  datatype Reply<T> = Json(status: nat, body: T) | Message(status: nat, message: string)

  /** A field of a JSON request body: missing or null, a string, or any other JSON value. */
  datatype Field = Absent | Text(text: string) | Other

  /** The user summary the handlers attach to a deployment. */
  datatype UserSummary = UserSummary(id: int, username: string, email: Option<string>, fullName: Option<string>)

  /** A deployment with `deployedBy` replaced by the summary of that user, when found. */
  datatype DeploymentView = DeploymentView(
    id: int,
    name: string,
    buildNumber: int,
    status: string,
    environment: string,
    deployedBy: Option<UserSummary>,
    deployedAt: nat)

  /** When the newest deployment was made; how it is displayed is left abstract. */
  datatype LastDeployment = NotAvailable | At(time: nat)

  /** The body of `/api/stats`. */
  datatype Stats = Stats(
    successfulDeployments: nat,
    failedDeployments: nat,
    avgBuildTime: string,
    lastDeploymentTime: LastDeployment)

  /** `{ id, username, email, fullName }` of a user. */
  function Summary(u: User): UserSummary {
    UserSummary(u.id, u.username, u.email, u.fullName)
  }

  /** The summary does not depend on the password, so it cannot reveal it. */
  lemma SummaryHidesPassword(u: User, password: string)
    ensures Summary(u.(password := password)) == Summary(u)
    ensures Summary(u) == UserSummary(u.id, u.username, u.email, u.fullName)
  {
  }

  /**
   * `{ ...deployment, deployedBy: user ? {...} : undefined }`: the user is
   * looked up only when `deployedBy` is truthy (set and not 0), and the field
   * is undefined when the lookup misses.
   */
  function Enrich(d: Deployment, users: OrderedMap.OMap<User>): (v: DeploymentView)
    ensures v.id == d.id && v.name == d.name && v.buildNumber == d.buildNumber
    ensures v.status == d.status && v.environment == d.environment && v.deployedAt == d.deployedAt
    ensures v.deployedBy.Some? <==> d.deployedBy.Some? && d.deployedBy.value != 0 && d.deployedBy.value in users.entries
    ensures v.deployedBy.Some? ==> v.deployedBy.value == Summary(users.entries[d.deployedBy.value])
  {
    var user := if d.deployedBy.Some? && d.deployedBy.value != 0
                then OrderedMap.Get(users, d.deployedBy.value) else None;
    DeploymentView(d.id, d.name, d.buildNumber, d.status, d.environment,
                   if user.Some? then Some(Summary(user.value)) else None, d.deployedAt)
  }

  /** `if (!x || typeof x !== "string")` rejects: only a non-empty string passes. */
  function RequiredText(f: Field): (r: Option<string>)
    ensures r.Some? <==> f.Text? && f.text != ""
    ensures r.Some? ==> r.value == f.text
  {
    if f.Text? && f.text != "" then Some(f.text) else None
  }

  /** `deployments.filter(d => d.status === status).length` */
  function CountStatus(ds: seq<Deployment>, status: string): (n: nat)
    ensures n <= |ds|
    ensures n == 0 <==> forall i :: 0 <= i < |ds| ==> ds[i].status != status
  {
    if ds == [] then 0
    else (if ds[0].status == status then 1 else 0) + CountStatus(ds[1..], status)
  }

  /** A deployment is counted under at most one status, so two counts never exceed the total. */
  lemma {:induction false} CountsDisjoint(ds: seq<Deployment>, a: string, b: string)
    requires a != b
    ensures CountStatus(ds, a) + CountStatus(ds, b) <= |ds|
  {
    if ds != [] {
      CountsDisjoint(ds[1..], a, b);
    }
  }

  lemma {:induction false} CountStatusAppend(a: seq<Deployment>, b: seq<Deployment>, status: string)
    ensures CountStatus(a + b, status) == CountStatus(a, status) + CountStatus(b, status)
  {
    if a == [] {
      assert a + b == b;
    } else {
      assert (a + b)[0] == a[0];
      assert (a + b)[1..] == a[1..] + b;
      CountStatusAppend(a[1..], b, status);
    }
  }

  lemma {:induction false} CountStatusInsert(r: seq<Deployment>, x: Deployment, status: string)
    ensures CountStatus(InsertByTime(r, x), status) == CountStatus(r, status) + (if x.status == status then 1 else 0)
  {
    if r == [] {
    } else if r[0].deployedAt < x.deployedAt {
      assert ([x] + r)[1..] == r;
    } else {
      var rest := InsertByTime(r[1..], x);
      assert ([r[0]] + rest)[1..] == rest;
      CountStatusInsert(r[1..], x, status);
    }
  }

  /** Sorting newest first does not change how many deployments have a given status. */
  lemma {:induction false} CountStatusSorted(s: seq<Deployment>, status: string)
    ensures CountStatus(SortByTime(s), status) == CountStatus(s, status)
  {
    if s != [] {
      var p, x := s[..|s| - 1], s[|s| - 1];
      assert s == p + [x];
      CountStatusSorted(p, status);
      CountStatusInsert(SortByTime(p), x, status);
      CountStatusAppend(p, [x], status);
      assert [x][1..] == [];
    }
  }

  /** The head of the newest-first list is a stored deployment at least as new as every other. */
  lemma NewestFirstHead(s: seq<Deployment>)
    requires s != []
    ensures SortByTime(s) != [] && SortByTime(s)[0] in s
    ensures forall d :: d in s ==> d.deployedAt <= SortByTime(s)[0].deployedAt
  {
    var r := SortByTime(s);
    assert |r| == |multiset(r)| == |multiset(s)| == |s|;
    assert r[0] in multiset(r);
    forall d | d in s
      ensures d.deployedAt <= r[0].deployedAt
    {
      assert d in multiset(s);
      var k :| 0 <= k < |r| && r[k] == d;
    }
  }

  /**
   * The stats body for a list of deployments: the two status counts, the
   * fixed average build time, and the time of the list's first deployment.
   */
  function StatsOf(ds: seq<Deployment>): (s: Stats)
    ensures s.successfulDeployments == CountStatus(ds, "successful")
    ensures s.failedDeployments == CountStatus(ds, "failed")
    ensures s.successfulDeployments + s.failedDeployments <= |ds|
    ensures s.avgBuildTime == "3m 42s"
    ensures s.lastDeploymentTime.At? <==> ds != []
    ensures ds != [] ==> s.lastDeploymentTime.time == ds[0].deployedAt
  {
    CountsDisjoint(ds, "successful", "failed");
    Stats(CountStatus(ds, "successful"), CountStatus(ds, "failed"), "3m 42s",
          if |ds| > 0 then At(ds[0].deployedAt) else NotAvailable)
  }

  /**
   * GET /api/deployments: 200 with the store's newest-first list, cut by
   * the limit, each entry carrying its user summary.
   */
  method ListDeployments(store: MemStorage, limit: Option<int>) returns (reply: Reply<seq<DeploymentView>>)
    requires store.Valid()
    ensures reply.Json? && reply.status == 200
    ensures var ds := Limit(SortByTime(store.DeploymentList()), limit);
      && |reply.body| == |ds|
      && forall i :: 0 <= i < |ds| ==> reply.body[i] == Enrich(ds[i], store.users)
  {
    var ds := store.GetDeployments(limit);
    var users := store.users;
    reply := Json(200, seq(|ds|, i requires 0 <= i < |ds| => Enrich(ds[i], users)));
  }

  /** GET /api/deployments/:id: 404 when absent, else 200 with the user summary attached. */
  method GetDeploymentById(store: MemStorage, id: Option<int>) returns (reply: Reply<DeploymentView>)
    requires store.Valid()
    ensures (id.None? || id.value !in store.deployments.entries) <==> reply == Message(404, "Deployment not found")
    ensures id.Some? && id.value in store.deployments.entries ==>
      reply == Json(200, Enrich(store.deployments.entries[id.value], store.users))
  {
    if id.None? {
      return Message(404, "Deployment not found");
    }
    var d := store.GetDeployment(id.value);
    if d.None? {
      return Message(404, "Deployment not found");
    }
    reply := Json(200, Enrich(d.value, store.users));
  }

  /** POST /api/deployments: 400 and no change when the schema check fails, else 201 with the new row. */
  method PostDeployment(store: MemStorage, parsed: Option<InsertDeployment>, now: nat) returns (reply: Reply<Deployment>)
    requires store.Valid()
    modifies store`deployments, store`deploymentId
    ensures store.Valid()
    ensures parsed.None? ==> reply == Message(400, "Invalid deployment data") && unchanged(store)
    ensures parsed.Some? ==>
      && reply == Json(201, NewDeployment(parsed.value, old(store.deploymentId), now))
      && store.DeploymentList() == old(store.DeploymentList()) + [reply.body]
      && store.deploymentId == old(store.deploymentId) + 1
  {
    if parsed.None? {
      return Message(400, "Invalid deployment data");
    }
    var d := store.CreateDeployment(parsed.value, now);
    reply := Json(201, d);
  }

  /**
   * PATCH /api/deployments/:id/status: a missing, empty or non-string
   * status is 400; then an unknown id is 404; otherwise 200 with the row
   * whose status alone was replaced. Only the last case changes the store.
   */
  method PatchDeploymentStatus(store: MemStorage, id: Option<int>, status: Field) returns (reply: Reply<Deployment>)
    requires store.Valid()
    modifies store`deployments
    ensures store.Valid()
    ensures RequiredText(status).None? ==> reply == Message(400, "Status is required") && unchanged(store)
    ensures RequiredText(status).Some? && (id.None? || id.value !in old(store.deployments.entries)) ==>
      reply == Message(404, "Deployment not found") && unchanged(store)
    ensures RequiredText(status).Some? && id.Some? && id.value in old(store.deployments.entries) ==>
      && reply == Json(200, old(store.deployments.entries[id.value]).(status := status.text))
      && store.deployments == OrderedMap.Set(old(store.deployments), id.value, reply.body)
  {
    var text := RequiredText(status);
    if text.None? {
      return Message(400, "Status is required");
    }
    if id.None? {
      return Message(404, "Deployment not found");
    }
    var updated := store.UpdateDeploymentStatus(id.value, text.value);
    if updated.None? {
      return Message(404, "Deployment not found");
    }
    reply := Json(200, updated.value);
  }

  /** GET /api/configurations: 200 with the type's configurations when a non-empty type is given, else all. */
  method ListConfigurations(store: MemStorage, configType: Option<string>) returns (reply: Reply<seq<Configuration>>)
    requires store.Valid()
    ensures reply.Json? && reply.status == 200
    ensures configType.Some? && configType.value != "" ==>
      reply.body == WithConfigType(store.ConfigurationList(), configType.value)
    ensures configType.None? || configType.value == "" ==> reply.body == store.ConfigurationList()
  {
    var cs;
    if configType.Some? && configType.value != "" {
      cs := store.GetConfigurationByType(configType.value);
    } else {
      cs := store.GetConfigurations();
    }
    reply := Json(200, cs);
  }

  /** GET /api/configurations/:name: 404 when no configuration has the name, else 200 with the first one. */
  method GetConfigurationNamed(store: MemStorage, name: string) returns (reply: Reply<Configuration>)
    requires store.Valid()
    ensures reply == Message(404, "Configuration not found") <==>
      forall c :: c in store.ConfigurationList() ==> c.name != name
    ensures (exists c :: c in store.ConfigurationList() && c.name == name) ==>
      && reply == Json(200, FirstWithName(store.ConfigurationList(), name).value)
      && reply.body.name == name
  {
    var c := store.GetConfigurationByName(name);
    if c.None? {
      return Message(404, "Configuration not found");
    }
    reply := Json(200, c.value);
  }

  /** POST /api/configurations: 400 and no change when the schema check fails, else 201 with the new row. */
  method PostConfiguration(store: MemStorage, parsed: Option<InsertConfiguration>, now: nat) returns (reply: Reply<Configuration>)
    requires store.Valid()
    modifies store`configurations, store`configId
    ensures store.Valid()
    ensures parsed.None? ==> reply == Message(400, "Invalid configuration data") && unchanged(store)
    ensures parsed.Some? ==>
      && reply == Json(201, NewConfiguration(parsed.value, old(store.configId), now))
      && store.ConfigurationList() == old(store.ConfigurationList()) + [reply.body]
      && store.configId == old(store.configId) + 1
  {
    if parsed.None? {
      return Message(400, "Invalid configuration data");
    }
    var c := store.CreateConfiguration(parsed.value, now);
    reply := Json(201, c);
  }

  /**
   * PATCH /api/configurations/:id: a missing, empty or non-string content
   * is 400; then an unknown id is 404; otherwise 200 with the row whose
   * content and `updatedAt` were replaced. Only the last case changes the store.
   */
  method PatchConfiguration(store: MemStorage, id: Option<int>, content: Field, now: nat) returns (reply: Reply<Configuration>)
    requires store.Valid()
    modifies store`configurations
    ensures store.Valid()
    ensures RequiredText(content).None? ==> reply == Message(400, "Content is required") && unchanged(store)
    ensures RequiredText(content).Some? && (id.None? || id.value !in old(store.configurations.entries)) ==>
      reply == Message(404, "Configuration not found") && unchanged(store)
    ensures RequiredText(content).Some? && id.Some? && id.value in old(store.configurations.entries) ==>
      && reply == Json(200, old(store.configurations.entries[id.value]).(content := content.text, updatedAt := now))
      && store.configurations == OrderedMap.Set(old(store.configurations), id.value, reply.body)
  {
    var text := RequiredText(content);
    if text.None? {
      return Message(400, "Content is required");
    }
    if id.None? {
      return Message(404, "Configuration not found");
    }
    var updated := store.UpdateConfiguration(id.value, text.value, now);
    if updated.None? {
      return Message(404, "Configuration not found");
    }
    reply := Json(200, updated.value);
  }

  /**
   * GET /api/stats: the status counts over every stored deployment, and the
   * time of the newest one ("N/A" when there are none).
   */
  method GetStats(store: MemStorage) returns (reply: Reply<Stats>)
    requires store.Valid()
    ensures reply.Json? && reply.status == 200
    ensures reply.body.successfulDeployments == CountStatus(store.DeploymentList(), "successful")
    ensures reply.body.failedDeployments == CountStatus(store.DeploymentList(), "failed")
    ensures reply.body.avgBuildTime == "3m 42s"
    ensures reply.body.lastDeploymentTime.At? <==> store.DeploymentList() != []
    ensures reply.body.lastDeploymentTime.At? ==>
      && (exists d :: d in store.DeploymentList() && d.deployedAt == reply.body.lastDeploymentTime.time)
      && forall d :: d in store.DeploymentList() ==> d.deployedAt <= reply.body.lastDeploymentTime.time
  {
    var ds := store.GetDeployments(None);
    CountStatusSorted(store.DeploymentList(), "successful");
    CountStatusSorted(store.DeploymentList(), "failed");
    if store.DeploymentList() != [] {
      NewestFirstHead(store.DeploymentList());
    }
    reply := Json(200, StatsOf(ds));
  }
}
