/**
 * The record shapes of the three tables and their insert forms. Each insert
 * form carries exactly the fields a caller supplies; the store adds the rest
 * (the serial `id`, and the timestamps that default to the current time).
 * Timestamps are readings of an abstract natural-number clock.
 */
module Schema {
  import opened Wrappers

  /** A row of `users`; `username` is declared unique, which nothing enforces. */
  datatype User = User(
    id: int,
    username: string,
    password: string,
    email: Option<string>,
    fullName: Option<string>)

  /** A row of `deployments`; `deployedBy` references a user id and may be unset. */
  datatype Deployment = Deployment(
    id: int,
    name: string,
    buildNumber: int,
    status: string,
    environment: string,
    deployedBy: Option<int>,
    deployedAt: nat)

  /** A row of `configurations`; `name` is declared unique, which nothing enforces. */
  datatype Configuration = Configuration(
    id: int,
    name: string,
    configType: string,
    content: string,
    createdBy: Option<int>,
    createdAt: nat,
    updatedAt: nat)

  /** `insertUserSchema`: username and password, email and full name optional. */
  datatype InsertUser = InsertUser(
    username: string,
    password: string,
    email: Option<string>,
    fullName: Option<string>)

  /** `insertDeploymentSchema`: everything but `id` and `deployedAt`. */
  datatype InsertDeployment = InsertDeployment(
    name: string,
    buildNumber: int,
    status: string,
    environment: string,
    deployedBy: Option<int>)

  /** `insertConfigurationSchema`: everything but `id`, `createdAt` and `updatedAt`. */
  datatype InsertConfiguration = InsertConfiguration(
    name: string,
    configType: string,
    content: string,
    createdBy: Option<int>)

  /** The picked fields of a user row. */
  function UserInput(u: User): InsertUser {
    InsertUser(u.username, u.password, u.email, u.fullName)
  }

  /** The picked fields of a deployment row. */
  function DeploymentInput(d: Deployment): InsertDeployment {
    InsertDeployment(d.name, d.buildNumber, d.status, d.environment, d.deployedBy)
  }

  /** The picked fields of a configuration row. */
  function ConfigurationInput(c: Configuration): InsertConfiguration {
    InsertConfiguration(c.name, c.configType, c.content, c.createdBy)
  }

  /** `{ ...insertUser, id }` */
  function NewUser(ins: InsertUser, id: int): (u: User)
    ensures UserInput(u) == ins && u.id == id
  {
    User(id, ins.username, ins.password, ins.email, ins.fullName)
  }

  /** `{ ...insertDeployment, id, deployedAt }` */
  function NewDeployment(ins: InsertDeployment, id: int, deployedAt: nat): (d: Deployment)
    ensures DeploymentInput(d) == ins && d.id == id && d.deployedAt == deployedAt
  {
    Deployment(id, ins.name, ins.buildNumber, ins.status, ins.environment, ins.deployedBy, deployedAt)
  }

  /** `{ ...insertConfiguration, id, createdAt: now, updatedAt: now }` */
  function NewConfiguration(ins: InsertConfiguration, id: int, now: nat): (c: Configuration)
    ensures ConfigurationInput(c) == ins && c.id == id
    ensures c.createdAt == now && c.updatedAt == now
  {
    Configuration(id, ins.name, ins.configType, ins.content, ins.createdBy, now, now)
  }

  /**
   * A deployment row is determined by its picked fields and the two fields
   * the store assigns: the insert form drops nothing else.
   */
  lemma DeploymentSplit(d: Deployment)
    ensures NewDeployment(DeploymentInput(d), d.id, d.deployedAt) == d
  {
  }

  /** Likewise for a configuration row and its three store-assigned fields. */
  lemma ConfigurationSplit(c: Configuration)
    requires c.createdAt == c.updatedAt
    ensures NewConfiguration(ConfigurationInput(c), c.id, c.createdAt) == c
  {
  }

  /** Likewise for a user row and its id. */
  lemma UserSplit(u: User)
    ensures NewUser(UserInput(u), u.id) == u
  {
  }
}
