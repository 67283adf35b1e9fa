/**
 The JSON document of a job, with its configuration inside: how it is written
 and read. Both are accepted with exactly these fields, each of its own kind.
 */
module HgsJobJson {
  import opened Wrappers
  import opened HgsManagement
  import opened HgsContract
  import J = ManagementJsonText

  // ----- The configuration -----

  datatype ConfigKey = Profile | Mode | Domain | Service | Source | Signing | Encryption | Dsrm | Join | MayReboot | Role | Primary

  function ConfigName(k: ConfigKey): string {
    match k
    case Profile => "profile"
    case Mode => "attestation_mode"
    case Domain => "domain_name"
    case Service => "service_name"
    case Source => "feature_source"
    case Signing => "signing_thumbprint"
    case Encryption => "encryption_thumbprint"
    case Dsrm => "dsrm_secret_ref"
    case Join => "join_secret_ref"
    case MayReboot => "allow_reboot"
    case Role => "node_role"
    case Primary => "primary_server"
  }

  function ConfigField(c: Config, k: ConfigKey): J.Value {
    match k
    case Profile => J.Str(c.profile)
    case Mode => J.Str(c.attestationMode)
    case Domain => J.Str(c.domainName)
    case Service => J.Str(c.serviceName)
    case Source => J.Str(c.featureSource)
    case Signing => J.Str(c.signingThumbprint)
    case Encryption => J.Str(c.encryptionThumbprint)
    case Dsrm => J.Str(c.dsrmSecretRef)
    case Join => J.Str(c.joinSecretRef)
    case MayReboot => J.Bool(c.allowReboot)
    case Role => J.Str(c.nodeRole)
    case Primary => J.Str(c.primaryServer)
  }

  lemma ConfigNamesDiffer(k: ConfigKey, l: ConfigKey)
    requires ConfigName(k) == ConfigName(l)
    ensures k == l
  {
  }

  function ConfigKeyOf(name: string): (k: ConfigKey)
    requires exists k :: ConfigName(k) == name
    ensures ConfigName(k) == name
  {
    forall k: ConfigKey, l: ConfigKey | ConfigName(k) == name && ConfigName(l) == name ensures k == l { ConfigNamesDiffer(k, l); }
    var k :| ConfigName(k) == name; k
  }

  const CONFIG_NAMES := set k: ConfigKey :: ConfigName(k)

  function ConfigFields(c: Config): map<string, J.Value> {
    map name | name in CONFIG_NAMES :: ConfigField(c, ConfigKeyOf(name))
  }

  predicate ConfigShaped(m: map<string, J.Value>) {
    m.Keys == CONFIG_NAMES && forall k: ConfigKey :: if k.MayReboot? then m[ConfigName(k)].Bool? else m[ConfigName(k)].Str?
  }

  function ConfigText(m: map<string, J.Value>, k: ConfigKey): string {
    if ConfigName(k) in m && m[ConfigName(k)].Str? then m[ConfigName(k)].text else ""
  }

  function ConfigFrom(m: map<string, J.Value>): Config {
    Config(ConfigText(m, Profile), ConfigText(m, Mode), ConfigText(m, Domain), ConfigText(m, Service), ConfigText(m, Source),
           ConfigText(m, Signing), ConfigText(m, Encryption), ConfigText(m, Dsrm), ConfigText(m, Join),
           ConfigName(MayReboot) in m && m[ConfigName(MayReboot)] == J.Bool(true), ConfigText(m, Role), ConfigText(m, Primary))
  }

  function ReadConfig(v: J.Value): Option<Config> {
    if v.Obj? && ConfigShaped(v.fields) && ValidConfig(ConfigFrom(v.fields)) then Some(ConfigFrom(v.fields)) else None
  }

  lemma ConfigKeys(c: Config)
    ensures ConfigFields(c).Keys == CONFIG_NAMES && forall k: ConfigKey :: ConfigName(k) in ConfigFields(c)
  {
    hide ConfigName, ConfigField;
  }

  lemma ConfigFieldAt(c: Config, k: ConfigKey)
    ensures ConfigName(k) in ConfigFields(c) && ConfigFields(c)[ConfigName(k)] == ConfigField(c, k)
    ensures ConfigField(c, k).Str? ==> ConfigText(ConfigFields(c), k) == ConfigField(c, k).text
  {
    hide ConfigName, ConfigField;
    ConfigNamesDiffer(k, ConfigKeyOf(ConfigName(k)));
  }

  lemma ConfigFieldsRead(c: Config)
    ensures ConfigFrom(ConfigFields(c)) == c
  {
    hide ConfigName, ConfigFields, ConfigText;
    ConfigFieldAt(c, Profile); ConfigFieldAt(c, Mode); ConfigFieldAt(c, Domain); ConfigFieldAt(c, Service);
    ConfigFieldAt(c, Source); ConfigFieldAt(c, Signing); ConfigFieldAt(c, Encryption); ConfigFieldAt(c, Dsrm);
    ConfigFieldAt(c, Join); ConfigFieldAt(c, MayReboot); ConfigFieldAt(c, Role); ConfigFieldAt(c, Primary);
  }

  lemma ConfigFieldsFit(c: Config)
    ensures ConfigShaped(ConfigFields(c))
  {
    hide ConfigName, ConfigFields;
    ConfigKeys(c);
    forall k: ConfigKey ensures ConfigFields(c)[ConfigName(k)] == ConfigField(c, k) { ConfigFieldAt(c, k); }
  }

  lemma ConfigReadsBack(c: Config)
    ensures ReadConfig(J.Obj(ConfigFields(c))) == if ValidConfig(c) then Some(c) else None
  {
    hide ConfigShaped, ConfigFrom, ConfigFields, ValidConfig;
    ConfigFieldsFit(c);
    ConfigFieldsRead(c);
  }

  lemma ConfigFieldFrom(m: map<string, J.Value>, k: ConfigKey)
    requires ConfigShaped(m)
    ensures ConfigName(k) in m && ConfigField(ConfigFrom(m), k) == m[ConfigName(k)]
  {
    hide ConfigName;
    assert if k.MayReboot? then m[ConfigName(k)].Bool? else m[ConfigName(k)].Str?;
  }

  lemma ConfigIsWritten(v: J.Value)
    requires ReadConfig(v).Some?
    ensures v == J.Obj(ConfigFields(ReadConfig(v).value)) && ValidConfig(ReadConfig(v).value)
  {
    hide ConfigName, ConfigFields, ConfigFrom, ConfigField, ValidConfig;
    var c := ReadConfig(v).value;
    ConfigKeys(c);
    forall name | name in v.fields ensures v.fields[name] == ConfigFields(c)[name] {
      var k := ConfigKeyOf(name);
      ConfigFieldAt(c, k);
      ConfigFieldFrom(v.fields, k);
    }
    assert v.fields == ConfigFields(c);
  }

  // ----- The job -----

  function OperationName(o: Operation): string {
    match o
    case Inspect => "inspect"
    case InstallRole => "install_role"
    case CreateForest => "create_forest"
    case JoinNode => "join_node"
    case Initialize => "initialize"
    case Verify => "verify"
    case Reboot => "reboot"
  }

  function ParseOperation(s: string): Option<Operation> {
    if s == "inspect" then Some(Inspect)
    else if s == "install_role" then Some(InstallRole)
    else if s == "create_forest" then Some(CreateForest)
    else if s == "join_node" then Some(JoinNode)
    else if s == "initialize" then Some(Initialize)
    else if s == "verify" then Some(Verify)
    else if s == "reboot" then Some(Reboot)
    else None
  }

  lemma OperationReadsBack(o: Operation)
    ensures ParseOperation(OperationName(o)) == Some(o)
  {
    match o { case Inspect => case InstallRole => case CreateForest => case JoinNode => case Initialize => case Verify => case Reboot => }
  }

  lemma OperationIsWritten(s: string)
    requires ParseOperation(s).Some?
    ensures OperationName(ParseOperation(s).value) == s
  {
  }

  datatype JobKey = Version | Id | Deployment | Tenant | Enrollment | Device | Digest | Action | Settings | Expiry

  function JobName(k: JobKey): string {
    match k
    case Version => "schema_version"
    case Id => "job_id"
    case Deployment => "deployment_id"
    case Tenant => "tenant_id"
    case Enrollment => "enrollment_id"
    case Device => "device_uri"
    case Digest => "plan_digest"
    case Action => "operation"
    case Settings => "config"
    case Expiry => "expires_at"
  }

  function JobField(j: Job, k: JobKey): J.Value {
    match k
    case Version => J.Int(1)
    case Action => J.Str(OperationName(j.operation))
    case Settings => J.Obj(ConfigFields(j.config))
    case Expiry => if 0 < j.expiresAt < 0x8000_0000_0000_0000 then J.Int(j.expiresAt) else J.Null
    case Id => J.Str(j.jobId)
    case Deployment => J.Str(j.deploymentId)
    case Tenant => J.Str(j.tenantId)
    case Enrollment => J.Str(j.enrollmentId)
    case Device => J.Str(j.deviceUri)
    case Digest => J.Str(j.planDigest)
  }

  lemma JobNamesDiffer(k: JobKey, l: JobKey)
    requires JobName(k) == JobName(l)
    ensures k == l
  {
  }

  function JobKeyOf(name: string): (k: JobKey)
    requires exists k :: JobName(k) == name
    ensures JobName(k) == name
  {
    forall k: JobKey, l: JobKey | JobName(k) == name && JobName(l) == name ensures k == l { JobNamesDiffer(k, l); }
    var k :| JobName(k) == name; k
  }

  const JOB_NAMES := set k: JobKey :: JobName(k)

  function JobFields(j: Job): map<string, J.Value> {
    map name | name in JOB_NAMES :: JobField(j, JobKeyOf(name))
  }

  predicate JobFits(k: JobKey, v: J.Value) {
    match k
    case Version => v == J.Int(1)
    case Action => v.Str? && ParseOperation(v.text).Some?
    case Settings => ReadConfig(v).Some?
    case Expiry => v.Int? && v.number > 0
    case _ => v.Str?
  }

  predicate JobShaped(m: map<string, J.Value>) {
    m.Keys == JOB_NAMES && forall k: JobKey :: JobFits(k, m[JobName(k)])
  }

  function JobText(m: map<string, J.Value>, k: JobKey): string
    requires JobName(k) in m
  {
    if m[JobName(k)].Str? then m[JobName(k)].text else ""
  }

  function JobFrom(m: map<string, J.Value>): Job
    requires JobShaped(m)
  {
    assert JobFits(Action, m[JobName(Action)]) && JobFits(Settings, m[JobName(Settings)]) && JobFits(Expiry, m[JobName(Expiry)]);
    Job(JobText(m, Id), JobText(m, Deployment), JobText(m, Tenant), JobText(m, Enrollment), JobText(m, Device), JobText(m, Digest),
        ParseOperation(m[JobName(Action)].text).value, ReadConfig(m[JobName(Settings)]).value, m[JobName(Expiry)].number)
  }

  /** None where the source throws. */
  function ReadJob(v: J.Value): Option<Job> {
    if v.Obj? && JobShaped(v.fields) && ValidJob(JobFrom(v.fields)) then Some(JobFrom(v.fields)) else None
  }

  lemma JobKeys(j: Job)
    ensures JobFields(j).Keys == JOB_NAMES && forall k: JobKey :: JobName(k) in JobFields(j)
  {
    hide JobName, JobField;
  }

  lemma JobFieldAt(j: Job, k: JobKey)
    ensures JobName(k) in JobFields(j) && JobFields(j)[JobName(k)] == JobField(j, k)
    ensures JobField(j, k).Str? ==> JobText(JobFields(j), k) == JobField(j, k).text
  {
    hide JobName, JobField;
    JobNamesDiffer(k, JobKeyOf(JobName(k)));
  }

  lemma JobFieldFits(j: Job, k: JobKey)
    ensures JobFits(k, JobField(j, k)) <==> match k
                                            case Settings => ValidConfig(j.config)
                                            case Expiry => 0 < j.expiresAt < 0x8000_0000_0000_0000
                                            case _ => true
  {
    hide ValidConfig, ReadConfig, ConfigFields, OperationName, ParseOperation;
    ConfigReadsBack(j.config);
    OperationReadsBack(j.operation);
  }

  lemma JobFieldsFit(j: Job)
    ensures JobShaped(JobFields(j)) <==> ValidConfig(j.config) && 0 < j.expiresAt < 0x8000_0000_0000_0000
  {
    hide ValidConfig, JobName, JobFields, JobField, JobFits;
    JobKeys(j);
    forall k: JobKey ensures JobFields(j)[JobName(k)] == JobField(j, k) { JobFieldAt(j, k); }
    forall k: JobKey { JobFieldFits(j, k); }
    JobFieldFits(j, Settings);
    JobFieldFits(j, Expiry);
  }

  lemma JobFieldsRead(j: Job)
    requires JobShaped(JobFields(j))
    ensures JobFrom(JobFields(j)) == j
  {
    hide JobShaped, JobName, JobFields, JobText, ReadConfig, ConfigFields, ValidConfig, OperationName, ParseOperation;
    JobFieldsFit(j);
    ConfigReadsBack(j.config);
    OperationReadsBack(j.operation);
    JobFieldAt(j, Id); JobFieldAt(j, Deployment); JobFieldAt(j, Tenant); JobFieldAt(j, Enrollment); JobFieldAt(j, Device);
    JobFieldAt(j, Digest); JobFieldAt(j, Action); JobFieldAt(j, Settings); JobFieldAt(j, Expiry);
  }

  lemma ValidJobFits(j: Job)
    requires ValidJob(j)
    ensures ValidConfig(j.config) && 0 < j.expiresAt < 0x8000_0000_0000_0000
  {
  }

  /** A job is read back from its document exactly when it is valid. */
  lemma JobReadsBack(j: Job)
    ensures ReadJob(J.Obj(JobFields(j))) == if ValidJob(j) then Some(j) else None
  {
    hide JobShaped, JobFrom, JobFields, ValidJob, ValidConfig;
    JobFieldsFit(j);
    if ValidJob(j) { ValidJobFits(j); }
    if JobShaped(JobFields(j)) { JobFieldsRead(j); }
  }

  lemma JobFieldFrom(m: map<string, J.Value>, k: JobKey)
    requires JobShaped(m)
    ensures JobName(k) in m && JobField(JobFrom(m), k) == m[JobName(k)]
  {
    hide JobName, ReadConfig, ConfigFields, OperationName, ParseOperation, ValidConfig;
    assert JobFits(k, m[JobName(k)]);
    if k.Settings? { ConfigIsWritten(m[JobName(k)]); }
    if k.Action? { OperationIsWritten(m[JobName(k)].text); }
  }

  /** A document that is accepted is the one of the job read from it. */
  lemma JobIsWritten(v: J.Value)
    requires ReadJob(v).Some?
    ensures v == J.Obj(JobFields(ReadJob(v).value)) && ValidJob(ReadJob(v).value)
  {
    hide JobName, JobFields, JobFrom, JobField, JobFits, ValidJob;
    var j := ReadJob(v).value;
    JobKeys(j);
    forall name | name in v.fields ensures v.fields[name] == JobFields(j)[name] {
      var k := JobKeyOf(name);
      JobFieldAt(j, k);
      JobFieldFrom(v.fields, k);
    }
    assert v.fields == JobFields(j);
  }
}
