/** The datasource tables under create and update, one operation at a time: the resolver gives back
    the last candidate that was tested, and nothing stale. */
module DatasourceStore {
  import opened OrderedMaps
  import opened DatasourceConfig

  // Operations on the tables, with their transaction.

  class DatasourcesService {
    var row: Option<(Settings, Status)>
    var sshRow: Option<SshRow>
    var secrets: map<SecretKind, string>

    ghost function Contents(): Option<Stored>
      reads this
    {
      if row == None then None else Some(Stored(row.value.0, row.value.1, sshRow, secrets))
    }

    /** Nothing is left of a datasource that is not there. */
    ghost predicate Valid()
      reads this
    {
      row == None ==> sshRow == None && secrets == map[]
    }

    constructor ()
      ensures Valid() && Contents() == None
    {
      row, sshRow, secrets := None, None, map[];
    }

    /** Refused by the unique index when the datasource has an SSH configuration. */
    method SaveSshConfig(ssh: Ssh) returns (ok: bool)
      modifies this`sshRow
      ensures ok == (old(sshRow) == None)
      ensures sshRow == if ok then Some(SshRow(ssh.host, ssh.port, ssh.username, ssh.auth)) else old(sshRow)
    {
      ok := sshRow == None;
      if ok {
        sshRow := Some(SshRow(ssh.host, ssh.port, ssh.username, ssh.auth));
      }
    }

    method DeleteCredentials(kinds: set<SecretKind>)
      modifies this`secrets
      ensures secrets == old(secrets) - kinds
    {
      secrets := secrets - kinds;
    }

    method UpdateCredentials(given: map<SecretKind, string>)
      modifies this`secrets
      ensures secrets == old(secrets) + given
    {
      secrets := secrets + given;
    }

    method Create(policy: Policy, input: Input, passes: bool) returns (candidate: Option<Config>)
      requires Valid() && row == None
      modifies this
      ensures Valid()
      ensures candidate == (match Created(policy, input, passes) case None => None case Some((_, c)) => Some(c))
      ensures Contents() == (match Created(policy, input, passes) case None => None case Some((st, _)) => Some(st))
    {
      candidate := ResolveCandidate(policy, input);
      if candidate == None || !passes {
        return None;
      }
      row := Some((input.settings, Active));
      if input.ssh.Some? {
        var ok := SaveSshConfig(input.ssh.value);
      }
      secrets := SecretsFromInput(input);
    }

    method UpdateSshConfig(input: Input) returns (ok: bool)
      requires row.Some?
      modifies this`sshRow, this`secrets
      ensures ok == DatasourceConfig.UpdateSshConfig(old(Contents()).value, input).Some?
      ensures ok ==> Contents() == DatasourceConfig.UpdateSshConfig(old(Contents()).value, input)
    {
      ok := true;
      if input.settings.mode == Direct {
        sshRow := None;
        DeleteCredentials(SSH_SECRETS);
      } else if input.ssh.Some? {
        ok := SaveSshConfig(input.ssh.value);
      }
    }

    method UpdateSecrets(u: Update, input: Input)
      requires row.Some?
      modifies this`secrets
      ensures Contents() == Some(DatasourceConfig.UpdateSecrets(old(Contents()).value, u, input))
    {
      var given := Given(DatabasePassword, u.password);
      if u.ssh.Some? {
        given := given + SecretsFromInput(input);
        if u.ssh.value.auth == Password {
          DeleteCredentials({SshPrivateKey, SshPassphrase});
        } else {
          DeleteCredentials({SshPassword});
        }
      }
      if given != map[] {
        UpdateCredentials(given);
      } else {
        assert secrets + given == secrets;
      }
    }

    /** Commits the whole update or leaves the tables as they were. */
    method Update(policy: Policy, u: Update, passes: bool) returns (candidate: Option<Config>)
      requires Valid() && row.Some?
      modifies this
      ensures Valid() && row.Some?
      ensures candidate ==
        match Updated(policy, old(Contents()).value, u, passes) case None => None case Some((_, c)) => Some(c)
      ensures Contents() ==
        match Updated(policy, old(Contents()).value, u, passes)
        case None => old(Contents())
        case Some((st, _)) => Some(st)
    {
      var current := CurrentInput(Stored(row.value.0, row.value.1, sshRow, secrets));
      if current == None {
        return None;
      }
      var input := Merge(current.value, u);
      candidate := ResolveCandidate(policy, input);
      if candidate == None || (NeedsTest(u) && !passes) {
        return None;
      }
      var before := (row, sshRow, secrets);
      row := Some((input.settings, Or(u.status, row.value.1)));
      var ok := UpdateSshConfig(input);
      if !ok {
        row, sshRow, secrets := before.0, before.1, before.2;
        return None;
      }
      UpdateSecrets(u, input);
    }

    /** A test of the stored connection leaves its outcome in the status. */
    method TestSaved(passes: bool)
      requires Valid() && row.Some?
      modifies this`row
      ensures Valid()
      ensures Contents() == Some(old(Contents()).value.(status := if passes then Active else ConnectionFailed))
    {
      row := Some((row.value.0, if passes then Active else ConnectionFailed));
    }

    method Remove()
      requires Valid() && row.Some?
      modifies this
      ensures Valid() && Contents() == None
    {
      row, sshRow, secrets := None, None, map[];
    }
  }

  // What is stored says what the candidate said.

  function Present(s: Option<string>): Option<string> {
    if Truthy(s) then s else None
  }

  /** A candidate with empty optional fields left out. */
  function Normal(c: Config): Config {
    c.(ssh :=
      if c.ssh.Some? then
        Some(c.ssh.value.(password := Present(c.ssh.value.password), privateKey := Present(c.ssh.value.privateKey),
                          passphrase := Present(c.ssh.value.passphrase)))
      else None)
  }

  function RowOf(ssh: Ssh): SshRow {
    SshRow(ssh.host, ssh.port, ssh.username, ssh.auth)
  }

  /** The tables hold a candidate and no other SSH secret. */
  predicate Mirrors(st: Stored, c: Config) {
    && st.settings == c.settings && c.settings.mode in {Direct, SshTunnel}
    && (c.settings.mode == SshTunnel <==> c.ssh.Some?)
    && c.password != "" && Secret(st, DatabasePassword) == Some(c.password)
    && (c.ssh.Some? ==> AuthenticationFits(c.ssh.value))
    && st.ssh == (if c.ssh.Some? then Some(RowOf(c.ssh.value)) else None)
    && Secret(st, SshPassword) == (if c.ssh.Some? then Present(c.ssh.value.password) else None)
    && Secret(st, SshPrivateKey) == (if c.ssh.Some? then Present(c.ssh.value.privateKey) else None)
    && Secret(st, SshPassphrase) == (if c.ssh.Some? then Present(c.ssh.value.passphrase) else None)
  }

  /** The DTOs refuse an empty database password. */
  predicate ValidUpdate(u: Update) {
    u.password.Some? ==> u.password.value != ""
  }

  lemma SecretsHold(input: Input)
    ensures var s := SecretsFromInput(input);
      && DatabasePassword in s && s[DatabasePassword] == input.password
      && (SshPassword in s <==> input.ssh.Some? && Truthy(input.ssh.value.password))
      && (SshPassword in s ==> s[SshPassword] == input.ssh.value.password.value)
      && (SshPrivateKey in s <==> input.ssh.Some? && Truthy(input.ssh.value.privateKey))
      && (SshPrivateKey in s ==> s[SshPrivateKey] == input.ssh.value.privateKey.value)
      && (SshPassphrase in s <==> input.ssh.Some? && Truthy(input.ssh.value.passphrase))
      && (SshPassphrase in s ==> s[SshPassphrase] == input.ssh.value.passphrase.value)
  {
  }

  lemma CreatedMirrors(policy: Policy, input: Input, passes: bool)
    requires input.password != "" && Created(policy, input, passes).Some?
    ensures var (st, c) := Created(policy, input, passes).value; Mirrors(st, c)
  {
    SecretsHold(input);
  }

  /** The stored connection is the candidate. */
  lemma CurrentIsTheCandidate(st: Stored, c: Config)
    requires Mirrors(st, c)
    ensures CurrentInput(st) == Some(Input(c.settings, c.password, Normal(c).ssh))
  {
  }

  /** Given, and not empty. */
  predicate NotEmpty(s: Option<string>) {
    s.Some? && |s.value| > 0
  }

  /** The authentication has its own secret and none of the other. */
  predicate SecretsMatch(ssh: Ssh) {
    if ssh.auth == Password then NotEmpty(ssh.password) && !NotEmpty(ssh.privateKey) && !NotEmpty(ssh.passphrase)
    else NotEmpty(ssh.privateKey) && !NotEmpty(ssh.password)
  }

  /** A connection to this host in this mode is acceptable: directly and without SSH, or through an SSH host. */
  predicate Acceptable(policy: Policy, mode: Mode, host: string, ssh: Option<Ssh>) {
    || (mode == Direct && ssh == None && policy.target(host))
    || (mode == SshTunnel && ssh.Some? && SecretsMatch(ssh.value) && policy.remote(host)
        && policy.target(ssh.value.host))
  }

  lemma CandidatesAcceptedExactly(policy: Policy, input: Input)
    ensures ResolveCandidate(policy, input) ==
      if Acceptable(policy, input.settings.mode, input.settings.host, input.ssh) then
        Some(Config(input.settings, Active, input.password, input.ssh))
      else None
  {
  }

  /** When an update commits: a test that was needed passed, and either the connection is then direct and its
      host admitted, or it was direct and is now given an acceptable SSH connection. One that stays behind an
      SSH tunnel never does. */
  lemma UpdatesCommitExactly(policy: Policy, st: Stored, c: Config, u: Update, passes: bool)
    requires Mirrors(st, c)
    ensures var mode := if u.mode.Some? then u.mode.value else c.settings.mode;
      var host := if u.host.Some? then u.host.value else c.settings.host;
      Updated(policy, st, u, passes).Some? <==>
        && (NeedsTest(u) ==> passes)
        && ((mode == Direct && policy.target(host))
            || (mode == SshTunnel && c.settings.mode == Direct && Acceptable(policy, mode, host, u.ssh)))
  {
    CurrentIsTheCandidate(st, c);
    CandidatesAcceptedExactly(policy, Merge(Input(c.settings, c.password, Normal(c).ssh), u));
  }

  lemma MirroredSecrets(st: Stored, c: Config)
    requires Mirrors(st, c)
    ensures st.secrets == SecretsFromInput(Input(c.settings, c.password, c.ssh))
  {
    var expected := SecretsFromInput(Input(c.settings, c.password, c.ssh));
    SecretsHold(Input(c.settings, c.password, c.ssh));
    forall kind ensures Secret(st, kind) == if kind in expected then Some(expected[kind]) else None {
      match kind
      case DatabasePassword =>
      case SshPassword =>
      case SshPrivateKey =>
      case SshPassphrase =>
    }
    forall kind ensures kind in st.secrets <==> kind in expected {
      assert Secret(st, kind) == if kind in expected then Some(expected[kind]) else None;
    }
    forall kind | kind in expected ensures st.secrets[kind] == expected[kind] {
      assert Secret(st, kind) == Some(expected[kind]);
    }
  }

  /** What a committed update stores, field by field: what it gives, and else what was there. */
  lemma UpdatesStoreTheGiven(policy: Policy, st: Stored, c: Config, u: Update, passes: bool)
    requires Mirrors(st, c) && Updated(policy, st, u, passes).Some?
    ensures var st' := Updated(policy, st, u, passes).value.0;
      && st'.settings.mode == (if u.mode.Some? then u.mode.value else st.settings.mode)
      && st'.settings.host == (if u.host.Some? then u.host.value else st.settings.host)
      && st'.settings.port == (if u.port.Some? then u.port.value else st.settings.port)
      && st'.settings.databaseName == (if u.databaseName.Some? then u.databaseName.value else st.settings.databaseName)
      && st'.settings.username == (if u.username.Some? then u.username.value else st.settings.username)
      && st'.settings.sslEnabled == (if u.sslEnabled.Some? then u.sslEnabled.value else st.settings.sslEnabled)
      && st'.status == (if u.status.Some? then u.status.value else st.status)
  {
    CurrentIsTheCandidate(st, c);
  }

  /** The candidate an update is made from has the given database password, or else the one stored, and, unless
      it is direct, the given SSH connection. */
  lemma UpdatesUseTheGiven(policy: Policy, st: Stored, c: Config, u: Update, passes: bool)
    requires Mirrors(st, c) && Updated(policy, st, u, passes).Some?
    ensures var c' := Updated(policy, st, u, passes).value.1;
      && c'.password == (if u.password.Some? then u.password.value else c.password)
      && c'.ssh == (if c'.settings.mode == Direct then None else u.ssh)
      && (c'.settings.mode == Direct <==> c'.ssh == None)
  {
    CurrentIsTheCandidate(st, c);
  }

  /** What a committed update stores of secrets and of the SSH connection: nothing of SSH for a direct
      connection, and for any other what was given, without the secrets of the other authentication. */
  lemma UpdatesStoreTheGivenSecrets(policy: Policy, st: Stored, c: Config, u: Update, passes: bool)
    requires Mirrors(st, c) && ValidUpdate(u) && Updated(policy, st, u, passes).Some?
    ensures var st' := Updated(policy, st, u, passes).value.0;
      && Secret(st', DatabasePassword) == (if u.password.Some? then u.password else Secret(st, DatabasePassword))
      && (st'.settings.mode == Direct ==> st'.ssh == None && st'.secrets.Keys == {DatabasePassword})
      && (st'.settings.mode != Direct ==>
            && u.ssh.Some?
            && st'.ssh == Some(SshRow(u.ssh.value.host, u.ssh.value.port, u.ssh.value.username, u.ssh.value.auth))
            && (u.ssh.value.auth == Password ==>
                  && Secret(st', SshPassword) == u.ssh.value.password
                  && Secret(st', SshPrivateKey) == None && Secret(st', SshPassphrase) == None)
            && (u.ssh.value.auth == PrivateKey ==>
                  && Secret(st', SshPassword) == None && Secret(st', SshPrivateKey) == u.ssh.value.privateKey
                  && (Truthy(u.ssh.value.passphrase) ==> Secret(st', SshPassphrase) == u.ssh.value.passphrase)
                  && (!Truthy(u.ssh.value.passphrase) ==> Secret(st', SshPassphrase) == None)))
  {
    UpdatesUseTheGiven(policy, st, c, u, passes);
    UpdatedMirrors(policy, st, c, u, passes);
    var (st', c') := Updated(policy, st, u, passes).value;
    MirroredSecrets(st', c');
  }

  /** Whatever was stored: once an SSH connection was given, its own secrets are stored and those of the other
      authentication are gone. */
  lemma OtherSecretsGo(st: Stored, u: Update, input: Input)
    requires u.ssh.Some? && input.ssh == u.ssh && SecretsMatch(u.ssh.value)
    ensures var st', ssh := DatasourceConfig.UpdateSecrets(st, u, input), u.ssh.value;
      && (ssh.auth == Password ==>
            && Secret(st', SshPassword) == ssh.password
            && Secret(st', SshPrivateKey) == None && Secret(st', SshPassphrase) == None)
      && (ssh.auth == PrivateKey ==>
            && Secret(st', SshPrivateKey) == ssh.privateKey && Secret(st', SshPassword) == None
            && (NotEmpty(ssh.passphrase) ==> Secret(st', SshPassphrase) == ssh.passphrase))
  {
    SecretsHold(input);
  }

  /** A test that was needed was of exactly what is then stored. */
  lemma UpdatesTestWhatTheyStore(policy: Policy, st: Stored, c: Config, u: Update, passes: bool)
    requires Mirrors(st, c) && ValidUpdate(u) && Updated(policy, st, u, passes).Some?
    ensures var (st', c') := Updated(policy, st, u, passes).value;
      && c'.settings == st'.settings && Secret(st', DatabasePassword) == Some(c'.password) && c'.status == Active
  {
    UpdatedMirrors(policy, st, c, u, passes);
  }

  /** A created datasource stores exactly what was given, and is active. */
  lemma CreatesStoreTheGiven(policy: Policy, input: Input, passes: bool)
    requires Created(policy, input, passes).Some?
    ensures var st := Created(policy, input, passes).value.0;
      && st.settings == input.settings && st.status == Active && passes
      && Secret(st, DatabasePassword) == Some(input.password)
      && st.ssh == (if input.ssh.Some? then Some(RowOf(input.ssh.value)) else None)
  {
    SecretsHold(input);
  }

  /** An update needs a test exactly if it gives anything but a status, is sent with every field declared, or
      asks to be active. */
  lemma TestsAreNeededExactly(u: Update)
    ensures !NeedsTest(u) <==>
      && u == Update(None, None, None, None, None, None, None, None, u.status, false)
      && u.status != Some(Active)
  {
  }

  lemma UpdatedMirrors(policy: Policy, st: Stored, c: Config, u: Update, passes: bool)
    requires Mirrors(st, c) && ValidUpdate(u) && Updated(policy, st, u, passes).Some?
    ensures var (st', c') := Updated(policy, st, u, passes).value; Mirrors(st', c')
  {
    CurrentIsTheCandidate(st, c);
    SecretsHold(Merge(Input(c.settings, c.password, Normal(c).ssh), u));
  }

  /** An update that was not tested commits the connection as it was. */
  lemma UntestedChangesNothing(policy: Policy, st: Stored, c: Config, u: Update, passes: bool)
    requires Mirrors(st, c) && !NeedsTest(u) && Updated(policy, st, u, passes).Some?
    ensures var c' := Updated(policy, st, u, passes).value.1; Normal(c').(status := c.status) == Normal(c)
  {
    CurrentIsTheCandidate(st, c);
  }

  /** The resolver gives back the candidate, with the stored status, exactly if the policy admits its hosts. */
  lemma ResolverReadsTheCandidate(policy: Policy, st: Stored, c: Config)
    requires Mirrors(st, c)
    ensures Resolve(policy, st) ==
      if Admitted(policy, c.settings, c.ssh) then Some(Normal(c).(status := st.status)) else None
  {
  }

  /** Whatever is stored: what the resolver needs, and what it gives. */
  lemma ResolvesExactly(policy: Policy, st: Stored)
    ensures var tunnelled := st.settings.mode == SshTunnel;
      Resolve(policy, st).Some? <==>
        && NotEmpty(Secret(st, DatabasePassword))
        && (if st.settings.mode == Direct then policy.target(st.settings.host) else policy.remote(st.settings.host))
        && (tunnelled ==>
              && st.ssh.Some? && policy.target(st.ssh.value.host)
              && NotEmpty(Secret(st, if st.ssh.value.auth == Password then SshPassword else SshPrivateKey)))
    ensures Resolve(policy, st).Some? ==>
      var c := Resolve(policy, st).value;
      && c.settings == st.settings && c.status == st.status && Some(c.password) == Secret(st, DatabasePassword)
      && (c.ssh.Some? <==> st.settings.mode == SshTunnel)
  {
  }

  lemma ResolvedSshIs(policy: Policy, st: Stored)
    requires Resolve(policy, st).Some? && st.settings.mode == SshTunnel
    ensures var row, ssh := st.ssh.value, Resolve(policy, st).value.ssh.value;
      && ssh.host == row.host && ssh.port == row.port && ssh.username == row.username && ssh.auth == row.auth
      && (row.auth == Password ==>
            ssh.password == Secret(st, SshPassword) && ssh.privateKey == None && ssh.passphrase == None)
      && (row.auth == PrivateKey ==>
            && ssh.password == None && ssh.privateKey == Secret(st, SshPrivateKey)
            && ssh.passphrase == if NotEmpty(Secret(st, SshPassphrase)) then Secret(st, SshPassphrase) else None)
  {
  }

  // Whole runs.

  datatype Op =
    | Create(policy: Policy, input: Input, passes: bool)
    | Change(policy: Policy, update: Update, passes: bool)
    | TestSaved(passes: bool)
    | Remove

  predicate ValidOp(op: Op) {
    && (op.Create? ==> op.input.password != "")
    && (op.Change? ==> ValidUpdate(op.update))
  }

  /** What is stored, and the last candidate that was tested before it was stored. */
  datatype History = History(stored: Option<Stored>, tested: Option<Config>)

  function Apply(h: History, op: Op): History {
    match op
    case Create(policy, input, passes) =>
      var made := Created(policy, input, passes);
      if h.stored.Some? || made == None then h else History(Some(made.value.0), Some(made.value.1))
    case Change(policy, u, passes) =>
      if h.stored == None then h
      else
        var made := Updated(policy, h.stored.value, u, passes);
        if made == None then h
        else History(Some(made.value.0), if NeedsTest(u) then Some(made.value.1) else h.tested)
    case TestSaved(passes) =>
      if h.stored == None then h
      else h.(stored := Some(h.stored.value.(status := if passes then Active else ConnectionFailed)))
    case Remove => History(None, None)
  }

  function Run(ops: seq<Op>): History {
    if ops == [] then History(None, None) else Apply(Run(ops[..|ops| - 1]), ops[|ops| - 1])
  }

  predicate Faithful(h: History) {
    && (h.stored.Some? <==> h.tested.Some?)
    && (h.stored.Some? ==> Mirrors(h.stored.value, h.tested.value))
  }

  lemma NormalMirrors(st: Stored, c: Config, d: Config)
    requires Mirrors(st, c) && Normal(c).(status := d.status) == Normal(d)
    ensures Mirrors(st, d)
  {
  }

  lemma ChangeIsFaithful(h: History, policy: Policy, u: Update, passes: bool)
    requires Faithful(h) && ValidUpdate(u)
    ensures Faithful(Apply(h, Change(policy, u, passes)))
  {
    if h.stored.Some? && Updated(policy, h.stored.value, u, passes).Some? {
      var st, c := h.stored.value, h.tested.value;
      var (st', c') := Updated(policy, st, u, passes).value;
      UpdatedMirrors(policy, st, c, u, passes);
      if !NeedsTest(u) {
        UntestedChangesNothing(policy, st, c, u, passes);
        NormalMirrors(st', c', c);
      }
    }
  }

  lemma {:induction false} RunsAreFaithful(ops: seq<Op>)
    requires forall op :: op in ops ==> ValidOp(op)
    ensures Faithful(Run(ops))
  {
    if ops != [] {
      var h, op := Run(ops[..|ops| - 1]), ops[|ops| - 1];
      assert ValidOp(op);
      RunsAreFaithful(ops[..|ops| - 1]);
      match op
      case Create(policy, input, passes) =>
        if h.stored == None && Created(policy, input, passes).Some? {
          CreatedMirrors(policy, input, passes);
        }
      case Change(policy, u, passes) => ChangeIsFaithful(h, policy, u, passes);
      case TestSaved(passes) =>
      case Remove =>
    }
  }

  /** After any creates, updates, tests and removals, resolving gives the last candidate that passed its
      test, with the stored status, exactly if the policy admits its hosts; the secrets are that
      candidate's and no others, and a direct connection has no SSH row. */
  lemma ResolveGivesTheLastTested(ops: seq<Op>, policy: Policy)
    requires forall op :: op in ops ==> ValidOp(op)
    requires Run(ops).stored.Some?
    ensures Run(ops).tested.Some?
    ensures var st, c := Run(ops).stored.value, Run(ops).tested.value;
      && Resolve(policy, st) ==
           (if Admitted(policy, c.settings, c.ssh) then Some(Normal(c).(status := st.status)) else None)
      && st.secrets == SecretsFromInput(Input(c.settings, c.password, c.ssh))
      && (c.settings.mode == Direct ==> st.ssh == None && st.secrets.Keys == {DatabasePassword})
      && (forall kind :: kind in st.secrets ==> |st.secrets[kind]| > 0)
  {
    RunsAreFaithful(ops);
    var st, c := Run(ops).stored.value, Run(ops).tested.value;
    ResolverReadsTheCandidate(policy, st, c);
    MirroredSecrets(st, c);
  }

  /** An SSH datasource cannot be updated and stay one: the attempt rolls back. */
  lemma SshUpdatesRollBack(policy: Policy, st: Stored, c: Config, u: Update, passes: bool)
    requires Mirrors(st, c) && c.settings.mode == SshTunnel && Or(u.mode, SshTunnel) == SshTunnel
    ensures Updated(policy, st, u, passes) == None
  {
  }

  const OPEN: Policy := Policy(host => true, host => true)

  /** A datasource behind SSH, and an update that gives nothing new. */
  const TUNNELLED: Input :=
    Input(Settings(SshTunnel, "db", 3306, "reporting", "reader", true), "secret",
          Some(Ssh("bastion", 22, "jump", Password, Some("pass"), None, None)))
  const NOTHING_NEW: Update := Update(None, None, None, None, None, None, None, None, None, true)

  /** Even an update that gives nothing new, with a connection that passes its test, is refused and leaves
      what was stored. */
  lemma TunnelledUpdateLeavesNoTrace()
    ensures Created(OPEN, TUNNELLED, true).Some?
    ensures Updated(OPEN, Created(OPEN, TUNNELLED, true).value.0, NOTHING_NEW, true) == None
    ensures Run([Create(OPEN, TUNNELLED, true)]) ==
      History(Some(Created(OPEN, TUNNELLED, true).value.0), Some(Created(OPEN, TUNNELLED, true).value.1))
    ensures Run([Create(OPEN, TUNNELLED, true), Change(OPEN, NOTHING_NEW, true)])
         == Run([Create(OPEN, TUNNELLED, true)])
  {
    var created := [Create(OPEN, TUNNELLED, true)];
    var both := [Create(OPEN, TUNNELLED, true), Change(OPEN, NOTHING_NEW, true)];
    assert created[..0] == [] && both[..1] == created;
    CreatedMirrors(OPEN, TUNNELLED, true);
    var (st, c) := Created(OPEN, TUNNELLED, true).value;
    SshUpdatesRollBack(OPEN, st, c, NOTHING_NEW, true);
    assert Run(created) == Apply(History(None, None), created[0]);
  }
}
