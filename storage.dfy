/**
 * `MemStorage`: the in-memory store behind the REST API. Three tables,
 * each a number-keyed map in insertion order, and three counters that hand
 * out serial ids starting at 1. Nothing is ever deleted. The current time,
 * read by `new Date()` in the store, is passed in as `now`.
 */
module Storage {
  import opened Wrappers
  import opened Schema
  import OrderedMap
  import opened DeploymentOrder

  /**
   * The keys of a table are ids handed out by a counter whose next value is
   * `next`: all below it, and in increasing order, which is the order they
   * were handed out in.
   */
  ghost predicate Numbered<V>(t: OrderedMap.OMap<V>, next: nat) {
    && OrderedMap.Valid(t)
    && 1 <= next
    && (forall i, j :: 0 <= i < j < |t.keys| ==> t.keys[i] < t.keys[j])
    && (forall k :: k in t.entries ==> 1 <= k < next)
  }

  ghost predicate UsersValid(t: OrderedMap.OMap<User>, next: nat) {
    Numbered(t, next) && forall k :: k in t.entries ==> t.entries[k].id == k
  }

  ghost predicate DeploymentsValid(t: OrderedMap.OMap<Deployment>, next: nat) {
    Numbered(t, next) && forall k :: k in t.entries ==> t.entries[k].id == k
  }

  ghost predicate ConfigurationsValid(t: OrderedMap.OMap<Configuration>, next: nat) {
    Numbered(t, next) && forall k :: k in t.entries ==> t.entries[k].id == k
  }

  /** Two appends to an empty list give the list of the two. */
  lemma TwoAppended<T>(l0: seq<T>, l1: seq<T>, l2: seq<T>, a: T, b: T)
    requires l0 == [] && l1 == l0 + [a] && l2 == l1 + [b]
    ensures l2 == [a, b]
  {
  }

  /** Three appends to an empty list give the list of the three. */
  lemma ThreeAppended<T>(l0: seq<T>, l1: seq<T>, l2: seq<T>, l3: seq<T>, a: T, b: T, c: T)
    requires l0 == [] && l1 == l0 + [a] && l2 == l1 + [b] && l3 == l2 + [c]
    ensures l3 == [a, b, c]
  {
  }

  /** `Array.prototype.find` by username: the first match in the list, or none. */
  function FirstWithUsername(us: seq<User>, username: string): (r: Option<User>)
    ensures r.None? <==> forall i :: 0 <= i < |us| ==> us[i].username != username
    ensures r.Some? ==> exists i :: 0 <= i < |us| && us[i] == r.value && r.value.username == username
                                   && forall j :: 0 <= j < i ==> us[j].username != username
  {
    if us == [] then None
    else if us[0].username == username then Some(us[0])
    else
      var r := FirstWithUsername(us[1..], username);
      assert r.Some? ==> exists i :: 0 <= i < |us[1..]| && us[1..][i] == r.value && r.value.username == username
                                   && forall j :: 0 <= j < i ==> us[1..][j].username != username;
      assert r.Some? ==> exists i :: 1 <= i < |us| && us[i] == r.value && r.value.username == username
                                   && forall j :: 1 <= j < i ==> us[j].username != username;
      r
  }

  /** `Array.prototype.find` by configuration name: the first match in the list, or none. */
  function FirstWithName(cs: seq<Configuration>, name: string): (r: Option<Configuration>)
    ensures r.None? <==> forall i :: 0 <= i < |cs| ==> cs[i].name != name
    ensures r.Some? ==> exists i :: 0 <= i < |cs| && cs[i] == r.value && r.value.name == name
                                   && forall j :: 0 <= j < i ==> cs[j].name != name
  {
    if cs == [] then None
    else if cs[0].name == name then Some(cs[0])
    else
      var r := FirstWithName(cs[1..], name);
      assert r.Some? ==> exists i :: 0 <= i < |cs[1..]| && cs[1..][i] == r.value && r.value.name == name
                                   && forall j :: 0 <= j < i ==> cs[1..][j].name != name;
      assert r.Some? ==> exists i :: 1 <= i < |cs| && cs[i] == r.value && r.value.name == name
                                   && forall j :: 1 <= j < i ==> cs[j].name != name;
      r
  }

  /** `Array.prototype.filter` by configuration type: the matches, in list order. */
  function WithConfigType(cs: seq<Configuration>, configType: string): (r: seq<Configuration>)
    ensures |r| <= |cs|
    ensures forall c :: c in r <==> c in cs && c.configType == configType
  {
    if cs == [] then []
    else
      assert forall c :: c in cs <==> c == cs[0] || c in cs[1..];
      (if cs[0].configType == configType then [cs[0]] else []) + WithConfigType(cs[1..], configType)
  }

  /** Filtering a concatenation filters each part: the filter keeps list order. */
  lemma {:induction false} WithConfigTypeAppend(a: seq<Configuration>, b: seq<Configuration>, configType: string)
    ensures WithConfigType(a + b, configType) == WithConfigType(a, configType) + WithConfigType(b, configType)
  {
    if a == [] {
      assert a + b == b;
    } else {
      assert (a + b)[0] == a[0];
      assert (a + b)[1..] == a[1..] + b;
      WithConfigTypeAppend(a[1..], b, configType);
    }
  }

  const AdminSeed := InsertUser("admin", "admin123", Some("admin@example.com"), Some("Administrator"))

  const NginxSeedContent :=
    "server {\n"
    + "  listen 80;\n"
    + "  location / {\n"
    + "    root   /usr/share/nginx/html;\n"
    + "    index  index.html index.htm;\n"
    + "    try_files $uri $uri/ /index.html;\n"
    + "  }\n"
    + "  # Caching static assets\n"
    + "  location ~* \\.(jpg|jpeg|png|gif|ico|css|js)$ {\n"
    + "    expires 1y;\n"
    + "    add_header Cache-Control \"public, max-age=31536000\";\n"
    + "  }\n"
    + "}"

  const AngularSeedContent :=
    "{\n"
    + "  \"production\": {\n"
    + "    \"fileReplacements\": [\n"
    + "      {\n"
    + "        \"replace\": \"src/environments/environment.ts\",\n"
    + "        \"with\": \"src/environments/environment.prod.ts\"\n"
    + "      }\n"
    + "    ],\n"
    + "    \"optimization\": true,\n"
    + "    \"outputHashing\": \"all\",\n"
    + "    \"sourceMap\": false,\n"
    + "    \"namedChunks\": false,\n"
    + "    \"extractLicenses\": true,\n"
    + "    \"vendorChunk\": false,\n"
    + "    \"buildOptimizer\": true,\n"
    + "    \"budgets\": [\n"
    + "      {\n"
    + "        \"type\": \"initial\",\n"
    + "        \"maximumWarning\": \"2mb\",\n"
    + "        \"maximumError\": \"5mb\"\n"
    + "      }\n"
    + "    ]\n"
    + "  }\n"
    + "}"

  const NginxSeed := InsertConfiguration("default-nginx-config", "nginx", NginxSeedContent, Some(1))
  const AngularSeed := InsertConfiguration("angular-prod-config", "angular", AngularSeedContent, Some(1))

  const ProductionSeed := InsertDeployment("production-v1.2.5", 458, "successful", "production", Some(1))
  const StagingSeed := InsertDeployment("staging-v1.2.5", 457, "successful", "staging", Some(1))
  const DevSeed := InsertDeployment("dev-v1.2.4", 456, "failed", "development", Some(1))

  class MemStorage {
    var users: OrderedMap.OMap<User>
    var deployments: OrderedMap.OMap<Deployment>
    var configurations: OrderedMap.OMap<Configuration>
    var userId: nat
    var deploymentId: nat
    var configId: nat

    ghost predicate Valid()
      reads this
    {
      && UsersValid(users, userId)
      && DeploymentsValid(deployments, deploymentId)
      && ConfigurationsValid(configurations, configId)
    }

    /** The users in insertion order. */
    function UserList(): seq<User>
      reads this`users
      requires OrderedMap.Valid(users)
    {
      OrderedMap.Values(users)
    }

    /** The deployments in insertion order. */
    function DeploymentList(): seq<Deployment>
      reads this`deployments
      requires OrderedMap.Valid(deployments)
    {
      OrderedMap.Values(deployments)
    }

    /** The configurations in insertion order. */
    function ConfigurationList(): seq<Configuration>
      reads this`configurations
      requires OrderedMap.Valid(configurations)
    {
      OrderedMap.Values(configurations)
    }

    /**
     * Empty tables, counters at 1, then the seed data: the admin user (id 1),
     * two configurations (ids 1 and 2) and three deployments (ids 1 to 3),
     * all stamped with the one clock reading `now`.
     */
    constructor (now: nat)
      ensures Valid()
      ensures userId == 2 && configId == 3 && deploymentId == 4
      ensures UserList() == [NewUser(AdminSeed, 1)]
      ensures ConfigurationList() == [NewConfiguration(NginxSeed, 1, now), NewConfiguration(AngularSeed, 2, now)]
      ensures DeploymentList() == [NewDeployment(ProductionSeed, 1, now),
                                   NewDeployment(StagingSeed, 2, now),
                                   NewDeployment(DevSeed, 3, now)]
    {
      users := OrderedMap.Empty();
      deployments := OrderedMap.Empty();
      configurations := OrderedMap.Empty();
      userId := 1;
      deploymentId := 1;
      configId := 1;
      new;
      SeedUsers();
      SeedConfigurations(now);
      SeedDeployments(now);
    }

    /** The constructor's first step: the admin user. */
    method SeedUsers()
      requires Valid() && users == OrderedMap.Empty() && userId == 1
      modifies this`users, this`userId
      ensures Valid() && userId == 2
      ensures UserList() == [NewUser(AdminSeed, 1)]
    {
      var admin := CreateUser(AdminSeed);
    }

    /** The constructor's second step: the nginx and angular configurations. */
    method SeedConfigurations(now: nat)
      requires Valid() && configurations == OrderedMap.Empty() && configId == 1
      modifies this`configurations, this`configId
      ensures Valid() && configId == 3
      ensures ConfigurationList() == [NewConfiguration(NginxSeed, 1, now), NewConfiguration(AngularSeed, 2, now)]
    {
      ghost var zero := ConfigurationList();
      var nginx := CreateConfiguration(NginxSeed, now);
      ghost var one := ConfigurationList();
      var angular := CreateConfiguration(AngularSeed, now);
      TwoAppended(zero, one, ConfigurationList(), nginx, angular);
    }

    /** The constructor's last step: three sample deployments. */
    method SeedDeployments(now: nat)
      requires Valid() && deployments == OrderedMap.Empty() && deploymentId == 1
      modifies this`deployments, this`deploymentId
      ensures Valid() && deploymentId == 4
      ensures DeploymentList() == [NewDeployment(ProductionSeed, 1, now),
                                   NewDeployment(StagingSeed, 2, now),
                                   NewDeployment(DevSeed, 3, now)]
    {
      ghost var zero := DeploymentList();
      var production := CreateDeployment(ProductionSeed, now);
      ghost var one := DeploymentList();
      var staging := CreateDeployment(StagingSeed, now);
      ghost var two := DeploymentList();
      var dev := CreateDeployment(DevSeed, now);
      ThreeAppended(zero, one, two, DeploymentList(), production, staging, dev);
    }

    /** `getUser`: the user with this id, or none. */
    method GetUser(id: int) returns (r: Option<User>)
      requires Valid()
      ensures r == OrderedMap.Get(users, id)
      ensures r.Some? ==> r.value.id == id && r.value in UserList()
    {
      r := OrderedMap.Get(users, id);
      if id in users.entries {
        var p := OrderedMap.Position(users.keys, id);
        assert UserList()[p] == r.value;
      }
    }

    /** `getUserByUsername`: the first user in insertion order with this username. */
    method GetUserByUsername(username: string) returns (r: Option<User>)
      requires Valid()
      ensures r == FirstWithUsername(UserList(), username)
    {
      r := FirstWithUsername(UserList(), username);
    }

    /** `createUser`: the next id, and the new user appended to the table. */
    method CreateUser(ins: InsertUser) returns (u: User)
      requires Valid()
      modifies this`users, this`userId
      ensures Valid()
      ensures u == NewUser(ins, old(userId))
      ensures userId == old(userId) + 1
      ensures forall k :: k in old(users.entries) ==> k < u.id
      ensures users == OrderedMap.Set(old(users), u.id, u)
      ensures UserList() == old(UserList()) + [u]
    {
      var id := userId;
      userId := userId + 1;
      u := NewUser(ins, id);
      OrderedMap.SetAbsentAppends(users, id, u);
      users := OrderedMap.Set(users, id, u);
    }

    /**
     * `getDeployments(limit)`: the deployments newest first, ties in
     * insertion order, cut by the limit.
     */
    method GetDeployments(limit: Option<int>) returns (r: seq<Deployment>)
      requires Valid()
      ensures r == Limit(SortByTime(DeploymentList()), limit)
    {
      var all := DeploymentList();
      var a := new Deployment[|all|](i requires 0 <= i < |all| => all[i]);
      assert a[..] == all;
      SortNewestFirst(a);
      if limit.Some? && limit.value != 0 {
        r := a[..SliceEnd(a.Length, limit.value)];
      } else {
        r := a[..];
      }
    }

    /** `getDeployment`: the deployment with this id, or none. */
    method GetDeployment(id: int) returns (r: Option<Deployment>)
      requires Valid()
      ensures r == OrderedMap.Get(deployments, id)
      ensures r.Some? ==> r.value.id == id && r.value in DeploymentList()
    {
      r := OrderedMap.Get(deployments, id);
      if id in deployments.entries {
        var p := OrderedMap.Position(deployments.keys, id);
        assert DeploymentList()[p] == r.value;
      }
    }

    /**
     * `createDeployment`: the input fields with the next id and
     * `deployedAt = now`, appended to the table.
     */
    method CreateDeployment(ins: InsertDeployment, now: nat) returns (d: Deployment)
      requires Valid()
      modifies this`deployments, this`deploymentId
      ensures Valid()
      ensures d == NewDeployment(ins, old(deploymentId), now)
      ensures deploymentId == old(deploymentId) + 1
      ensures forall k :: k in old(deployments.entries) ==> k < d.id
      ensures deployments == OrderedMap.Set(old(deployments), d.id, d)
      ensures DeploymentList() == old(DeploymentList()) + [d]
    {
      var id := deploymentId;
      deploymentId := deploymentId + 1;
      d := NewDeployment(ins, id, now);
      OrderedMap.SetAbsentAppends(deployments, id, d);
      deployments := OrderedMap.Set(deployments, id, d);
    }

    /**
     * `updateDeploymentStatus`: on an unknown id, none and no change; on a
     * known id, that entry with only its status replaced, in its old place.
     */
    method UpdateDeploymentStatus(id: int, status: string) returns (r: Option<Deployment>)
      requires Valid()
      modifies this`deployments
      ensures Valid()
      ensures id !in old(deployments.entries) ==> r == None && deployments == old(deployments)
      ensures id in old(deployments.entries) ==>
        && r == Some(old(deployments.entries[id]).(status := status))
        && deployments == OrderedMap.Set(old(deployments), id, r.value)
        && DeploymentList() == old(DeploymentList())[OrderedMap.Position(old(deployments.keys), id) := r.value]
    {
      var found := OrderedMap.Get(deployments, id);
      if found.None? {
        return None;
      }
      var updated := found.value.(status := status);
      OrderedMap.SetPresentReplaces(deployments, id, updated);
      deployments := OrderedMap.Set(deployments, id, updated);
      r := Some(updated);
    }

    /** `getConfigurations`: every configuration in insertion order. */
    method GetConfigurations() returns (r: seq<Configuration>)
      requires Valid()
      ensures r == ConfigurationList()
    {
      r := ConfigurationList();
    }

    /** `getConfigurationByName`: the first configuration in insertion order with this name. */
    method GetConfigurationByName(name: string) returns (r: Option<Configuration>)
      requires Valid()
      ensures r == FirstWithName(ConfigurationList(), name)
    {
      r := FirstWithName(ConfigurationList(), name);
    }

    /** `getConfigurationByType`: the configurations of this type in insertion order. */
    method GetConfigurationByType(configType: string) returns (r: seq<Configuration>)
      requires Valid()
      ensures r == WithConfigType(ConfigurationList(), configType)
    {
      r := WithConfigType(ConfigurationList(), configType);
    }

    /**
     * `createConfiguration`: the input fields with the next id and
     * `createdAt = updatedAt = now`, appended to the table.
     */
    method CreateConfiguration(ins: InsertConfiguration, now: nat) returns (c: Configuration)
      requires Valid()
      modifies this`configurations, this`configId
      ensures Valid()
      ensures c == NewConfiguration(ins, old(configId), now)
      ensures configId == old(configId) + 1
      ensures forall k :: k in old(configurations.entries) ==> k < c.id
      ensures configurations == OrderedMap.Set(old(configurations), c.id, c)
      ensures ConfigurationList() == old(ConfigurationList()) + [c]
    {
      var id := configId;
      configId := configId + 1;
      c := NewConfiguration(ins, id, now);
      OrderedMap.SetAbsentAppends(configurations, id, c);
      configurations := OrderedMap.Set(configurations, id, c);
    }

    /**
     * `updateConfiguration`: on an unknown id, none and no change; on a known
     * id, that entry with new content and `updatedAt = now`, in its old place.
     */
    method UpdateConfiguration(id: int, content: string, now: nat) returns (r: Option<Configuration>)
      requires Valid()
      modifies this`configurations
      ensures Valid()
      ensures id !in old(configurations.entries) ==> r == None && configurations == old(configurations)
      ensures id in old(configurations.entries) ==>
        && r == Some(old(configurations.entries[id]).(content := content, updatedAt := now))
        && configurations == OrderedMap.Set(old(configurations), id, r.value)
        && ConfigurationList() == old(ConfigurationList())[OrderedMap.Position(old(configurations.keys), id) := r.value]
    {
      var found := OrderedMap.Get(configurations, id);
      if found.None? {
        return None;
      }
      var updated := found.value.(content := content, updatedAt := now);
      OrderedMap.SetPresentReplaces(configurations, id, updated);
      configurations := OrderedMap.Set(configurations, id, updated);
      r := Some(updated);
    }

    /**
     * Each stored deployment is listed once: ids rise strictly along the
     * insertion order, and each is the key it is stored under.
     */
    lemma DeploymentIdsIncrease()
      requires Valid()
      ensures forall i, j :: 0 <= i < j < |DeploymentList()| ==> DeploymentList()[i].id < DeploymentList()[j].id
      ensures forall d :: d in DeploymentList() ==> d.id in deployments.entries && deployments.entries[d.id] == d
    {
      forall d | d in DeploymentList()
        ensures d.id in deployments.entries && deployments.entries[d.id] == d
      {
        var i :| 0 <= i < |DeploymentList()| && DeploymentList()[i] == d;
        assert deployments.keys[i] in deployments.entries;
      }
    }
  }
}
