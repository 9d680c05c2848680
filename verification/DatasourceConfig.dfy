/** What is stored of a datasource, how an update is merged into it, and what the resolver reads
    back. */
module DatasourceConfig {
  import opened OrderedMaps

  datatype Mode = Direct | SshTunnel | PrivateConnector | Vpn

  datatype Status = Active | ConnectionFailed | Disabled

  datatype Auth = Password | PrivateKey

  datatype SecretKind = DatabasePassword | SshPassword | SshPrivateKey | SshPassphrase

  datatype Ssh = Ssh(
    host: string, port: nat, username: string, auth: Auth,
    password: Option<string>, privateKey: Option<string>, passphrase: Option<string>)

  datatype Settings = Settings(
    mode: Mode, host: string, port: nat, databaseName: string, username: string, sslEnabled: bool)

  /** A candidate connection. */
  datatype Input = Input(settings: Settings, password: string, ssh: Option<Ssh>)

  /** An update request. `declared`: the request object has every field of its class as a property,
      given or not. */
  datatype Update = Update(
    mode: Option<Mode>, host: Option<string>, port: Option<nat>, databaseName: Option<string>,
    username: Option<string>, sslEnabled: Option<bool>, password: Option<string>, ssh: Option<Ssh>,
    status: Option<Status>, declared: bool)

  datatype Config = Config(settings: Settings, status: Status, password: string, ssh: Option<Ssh>)

  datatype SshRow = SshRow(host: string, port: nat, username: string, auth: Auth)

  datatype Stored = Stored(settings: Settings, status: Status, ssh: Option<SshRow>, secrets: map<SecretKind, string>)

  /** Hosts the network policy admits: as a target reached directly, or through a tunnel. */
  datatype Policy = Policy(target: string -> bool, remote: string -> bool)

  const SSH_SECRETS: set<SecretKind> := {SshPassword, SshPrivateKey, SshPassphrase}

  predicate Truthy(s: Option<string>) {
    s.Some? && s.value != ""
  }

  function Secret(st: Stored, kind: SecretKind): Option<string> {
    if kind in st.secrets then Some(st.secrets[kind]) else None
  }

  // Candidates.

  predicate AuthenticationFits(ssh: Ssh) {
    match ssh.auth
    case Password => Truthy(ssh.password) && !Truthy(ssh.privateKey) && !Truthy(ssh.passphrase)
    case PrivateKey => Truthy(ssh.privateKey) && !Truthy(ssh.password)
  }

  predicate HostAdmitted(policy: Policy, settings: Settings) {
    if settings.mode == Direct then policy.target(settings.host) else policy.remote(settings.host)
  }

  predicate Admitted(policy: Policy, settings: Settings, ssh: Option<Ssh>) {
    && HostAdmitted(policy, settings)
    && (ssh.Some? ==> policy.target(ssh.value.host))
  }

  predicate WellFormed(input: Input) {
    && input.settings.mode in {Direct, SshTunnel}
    && (input.settings.mode == SshTunnel <==> input.ssh.Some?)
    && (input.ssh.Some? ==> AuthenticationFits(input.ssh.value))
  }

  function ResolveCandidate(policy: Policy, input: Input): Option<Config> {
    if WellFormed(input) && Admitted(policy, input.settings, input.ssh) then
      Some(Config(input.settings, Active, input.password, input.ssh))
    else None
  }

  /** The connection as it is stored now; none if the database password is missing. */
  function CurrentInput(st: Stored): Option<Input> {
    if !Truthy(Secret(st, DatabasePassword)) then None
    else
      var ssh :=
        if st.settings.mode == SshTunnel && st.ssh.Some? then
          Some(Ssh(st.ssh.value.host, st.ssh.value.port, st.ssh.value.username, st.ssh.value.auth,
                   Secret(st, SshPassword), Secret(st, SshPrivateKey), Secret(st, SshPassphrase)))
        else None;
      Some(Input(st.settings, Secret(st, DatabasePassword).value, ssh))
  }

  function Or<T>(given: Option<T>, current: T): T {
    if given.Some? then given.value else current
  }

  function Merge(current: Input, u: Update): Input {
    var s := current.settings;
    var settings := Settings(Or(u.mode, s.mode), Or(u.host, s.host), Or(u.port, s.port),
                             Or(u.databaseName, s.databaseName), Or(u.username, s.username),
                             Or(u.sslEnabled, s.sslEnabled));
    Input(settings, Or(u.password, current.password),
          if settings.mode == Direct then None else if u.ssh.Some? then u.ssh else current.ssh)
  }

  predicate CriticalChange(u: Update) {
    u.declared || u.mode.Some? || u.host.Some? || u.port.Some? || u.databaseName.Some? || u.username.Some?
    || u.sslEnabled.Some? || u.password.Some? || u.ssh.Some?
  }

  predicate NeedsTest(u: Update) {
    CriticalChange(u) || u.status == Some(Active)
  }

  // Writes.

  function Given(kind: SecretKind, value: Option<string>): map<SecretKind, string> {
    if Truthy(value) then map[kind := value.value] else map[]
  }

  function SecretsFromInput(input: Input): map<SecretKind, string> {
    var database := map[DatabasePassword := input.password];
    if input.ssh == None then database
    else
      database + Given(SshPassword, input.ssh.value.password) + Given(SshPrivateKey, input.ssh.value.privateKey)
               + Given(SshPassphrase, input.ssh.value.passphrase)
  }

  /** The SSH configuration is inserted, never updated: a second row for one datasource violates the
      unique index. */
  function SaveSshConfig(st: Stored, ssh: Ssh): Option<Stored> {
    if st.ssh.Some? then None
    else Some(st.(ssh := Some(SshRow(ssh.host, ssh.port, ssh.username, ssh.auth))))
  }

  function UpdateSshConfig(st: Stored, input: Input): Option<Stored> {
    if input.settings.mode == Direct then Some(st.(ssh := None, secrets := st.secrets - SSH_SECRETS))
    else if input.ssh.Some? then SaveSshConfig(st, input.ssh.value)
    else Some(st)
  }

  function UpdateSecrets(st: Stored, u: Update, input: Input): Stored {
    var given := Given(DatabasePassword, u.password);
    if u.ssh.Some? then
      var dropped := if u.ssh.value.auth == Password then {SshPrivateKey, SshPassphrase} else {SshPassword};
      st.(secrets := st.secrets - dropped + (given + SecretsFromInput(input)))
    else st.(secrets := st.secrets + given)
  }

  function Created(policy: Policy, input: Input, passes: bool): Option<(Stored, Config)> {
    match ResolveCandidate(policy, input)
    case None => None
    case Some(candidate) =>
      if !passes then None
      else
        var row := Stored(input.settings, Active, None, map[]);
        var withSsh := if input.ssh.Some? then SaveSshConfig(row, input.ssh.value).value else row;
        Some((withSsh.(secrets := SecretsFromInput(input)), candidate))
  }

  /** The stored datasource after a committed update and the candidate it was made from; none if the
      update was refused or rolled back. */
  function Updated(policy: Policy, st: Stored, u: Update, passes: bool): Option<(Stored, Config)> {
    match CurrentInput(st)
    case None => None
    case Some(current) =>
      var input := Merge(current, u);
      match ResolveCandidate(policy, input)
      case None => None
      case Some(candidate) =>
        if NeedsTest(u) && !passes then None
        else
          match UpdateSshConfig(st.(settings := input.settings, status := Or(u.status, st.status)), input)
          case None => None
          case Some(saved) => Some((UpdateSecrets(saved, u, input), candidate))
  }

  // The resolver.

  function ResolveSsh(policy: Policy, st: Stored): Option<Ssh> {
    match st.ssh
    case None => None
    case Some(row) =>
      if !policy.target(row.host) then None
      else if row.auth == Password then
        if !Truthy(Secret(st, SshPassword)) then None
        else Some(Ssh(row.host, row.port, row.username, row.auth, Secret(st, SshPassword), None, None))
      else if !Truthy(Secret(st, SshPrivateKey)) then None
      else
        Some(Ssh(row.host, row.port, row.username, row.auth, None, Secret(st, SshPrivateKey),
                 if Truthy(Secret(st, SshPassphrase)) then Secret(st, SshPassphrase) else None))
  }

  function Resolve(policy: Policy, st: Stored): Option<Config> {
    if !Truthy(Secret(st, DatabasePassword)) then None
    else if !HostAdmitted(policy, st.settings) then None
    else if st.settings.mode != SshTunnel then
      Some(Config(st.settings, st.status, Secret(st, DatabasePassword).value, None))
    else
      match ResolveSsh(policy, st)
      case None => None
      case Some(ssh) => Some(Config(st.settings, st.status, Secret(st, DatabasePassword).value, Some(ssh)))
  }
}
