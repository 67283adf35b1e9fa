/**
 The JSON document of an observation: how it is written and read. A document is
 accepted with exactly these fields, each of its own kind.
 */
module HgsObservationJson {
  import opened Wrappers
  import opened HgsManagement
  import opened HgsContract
  import J = ManagementJsonText

  datatype LookKey = OsBuild | IsServer | ComputerName | DomainName | DomainJoined | DomainRole | RoleInstalled | ServiceInitialized
                   | AttestationMode | SigningReady | EncryptionReady | FeatureSourceReady | DsrmReady | JoinReady | RebootPending
                   | BootId | ServiceHealthy | KeyAccessVerified | ModeSupported | OfflinePolicyReady
                   | ConfiguredService | ConfiguredSigning | ConfiguredEncryption

  function LookName(k: LookKey): string {
    match k
    case OsBuild => "os_build"
    case IsServer => "is_server"
    case ComputerName => "computer_name"
    case DomainName => "domain_name"
    case DomainJoined => "domain_joined"
    case DomainRole => "domain_role"
    case RoleInstalled => "role_installed"
    case ServiceInitialized => "service_initialized"
    case AttestationMode => "attestation_mode"
    case SigningReady => "signing_certificate_ready"
    case EncryptionReady => "encryption_certificate_ready"
    case FeatureSourceReady => "feature_source_ready"
    case DsrmReady => "dsrm_secret_ready"
    case JoinReady => "join_secret_ready"
    case RebootPending => "reboot_pending"
    case BootId => "boot_id"
    case ServiceHealthy => "service_healthy"
    case KeyAccessVerified => "key_access_verified"
    case ModeSupported => "mode_supported"
    case OfflinePolicyReady => "offline_source_policy_ready"
    case ConfiguredService => "configured_service_name"
    case ConfiguredSigning => "configured_signing_thumbprint"
    case ConfiguredEncryption => "configured_encryption_thumbprint"
  }

  function LookField(o: Observation, k: LookKey): J.Value {
    match k
    case OsBuild => J.Str(o.osBuild)
    case IsServer => J.Bool(o.isServer)
    case ComputerName => J.Str(o.computerName)
    case DomainName => J.Str(o.domainName)
    case DomainJoined => J.Bool(o.domainJoined)
    case DomainRole => if 0 <= o.domainRole <= 5 then J.Int(o.domainRole) else J.Null
    case RoleInstalled => J.Bool(o.roleInstalled)
    case ServiceInitialized => J.Bool(o.serviceInitialized)
    case AttestationMode => J.Str(o.attestationMode)
    case SigningReady => J.Bool(o.signingReady)
    case EncryptionReady => J.Bool(o.encryptionReady)
    case FeatureSourceReady => J.Bool(o.featureSourceReady)
    case DsrmReady => J.Bool(o.dsrmReady)
    case JoinReady => J.Bool(o.joinReady)
    case RebootPending => J.Bool(o.rebootPending)
    case BootId => J.Str(o.bootId)
    case ServiceHealthy => J.Bool(o.serviceHealthy)
    case KeyAccessVerified => J.Bool(o.keyAccessVerified)
    case ModeSupported => J.Bool(o.modeSupported)
    case OfflinePolicyReady => J.Bool(o.offlinePolicyReady)
    case ConfiguredService => J.Str(o.configuredService)
    case ConfiguredSigning => J.Str(o.configuredSigning)
    case ConfiguredEncryption => J.Str(o.configuredEncryption)
  }

  predicate IsReadiness(k: LookKey) {
    || k.SigningReady? || k.EncryptionReady? || k.FeatureSourceReady? || k.DsrmReady? || k.JoinReady? || k.RebootPending?
    || k.ServiceHealthy? || k.KeyAccessVerified? || k.ModeSupported? || k.OfflinePolicyReady?
  }

  lemma ReadinessDiffers(k: LookKey, l: LookKey)
    requires LookName(k) == LookName(l) && IsReadiness(k)
    ensures k == l
  {
  }

  lemma OthersDiffer(k: LookKey, l: LookKey)
    requires LookName(k) == LookName(l) && !IsReadiness(k) && !IsReadiness(l)
    ensures k == l
  {
  }

  lemma LookNamesDiffer(k: LookKey, l: LookKey)
    requires LookName(k) == LookName(l)
    ensures k == l
  {
    hide LookName;
    if IsReadiness(k) { ReadinessDiffers(k, l); }
    else if IsReadiness(l) { ReadinessDiffers(l, k); }
    else { OthersDiffer(k, l); }
  }

  function LookKeyOf(name: string): (k: LookKey)
    requires exists k :: LookName(k) == name
    ensures LookName(k) == name
  {
    forall k: LookKey, l: LookKey | LookName(k) == name && LookName(l) == name ensures k == l { LookNamesDiffer(k, l); }
    var k :| LookName(k) == name; k
  }

  const LOOK_NAMES := set k: LookKey :: LookName(k)

  function LookFields(o: Observation): map<string, J.Value> {
    map name | name in LOOK_NAMES :: LookField(o, LookKeyOf(name))
  }

  lemma LookFieldAt(o: Observation, k: LookKey)
    ensures LookName(k) in LookFields(o) && LookFields(o)[LookName(k)] == LookField(o, k)
  {
    hide LookName, LookField;
    LookNamesDiffer(k, LookKeyOf(LookName(k)));
  }

  predicate LookFits(k: LookKey, v: J.Value) {
    match k
    case DomainRole => v.Int?
    case OsBuild | ComputerName | DomainName | AttestationMode | BootId | ConfiguredService | ConfiguredSigning | ConfiguredEncryption => v.Str?
    case _ => v.Bool?
  }

  predicate LookShaped(m: map<string, J.Value>) {
    m.Keys == LOOK_NAMES && forall k: LookKey :: LookFits(k, m[LookName(k)])
  }

  function LookText(m: map<string, J.Value>, k: LookKey): string {
    if LookName(k) in m && m[LookName(k)].Str? then m[LookName(k)].text else ""
  }

  function LookFlag(m: map<string, J.Value>, k: LookKey): bool {
    LookName(k) in m && m[LookName(k)].Bool? && m[LookName(k)].flag
  }

  function LookNumber(m: map<string, J.Value>, k: LookKey): int {
    if LookName(k) in m && m[LookName(k)].Int? then m[LookName(k)].number else 0
  }

  function LookFrom(m: map<string, J.Value>): Observation {
    Observation(
      LookText(m, OsBuild), LookFlag(m, IsServer), LookText(m, ComputerName), LookText(m, DomainName), LookFlag(m, DomainJoined),
      LookNumber(m, DomainRole), LookFlag(m, RoleInstalled), LookFlag(m, ServiceInitialized), LookText(m, AttestationMode),
      LookFlag(m, SigningReady), LookFlag(m, EncryptionReady), LookFlag(m, FeatureSourceReady), LookFlag(m, DsrmReady),
      LookFlag(m, JoinReady), LookFlag(m, RebootPending), LookText(m, BootId), LookFlag(m, ServiceHealthy),
      LookFlag(m, KeyAccessVerified), LookFlag(m, ModeSupported), LookFlag(m, OfflinePolicyReady),
      LookText(m, ConfiguredService), LookText(m, ConfiguredSigning), LookText(m, ConfiguredEncryption))
  }

  /** None where the source throws. */
  function ReadLook(v: J.Value): Option<Observation> {
    if v.Obj? && LookShaped(v.fields) && ValidLook(LookFrom(v.fields)) then Some(LookFrom(v.fields)) else None
  }

  lemma LookFieldReads(o: Observation, k: LookKey)
    ensures var m := LookFields(o); var field := LookField(o, k);
            && (field.Str? ==> LookText(m, k) == field.text) && (field.Bool? ==> LookFlag(m, k) == field.flag)
            && (field.Int? ==> LookNumber(m, k) == field.number)
  {
    hide LookName, LookField, LookFields;
    LookFieldAt(o, k);
  }

  lemma LookFlagsRead(o: Observation)
    ensures var m := LookFields(o);
            && LookFlag(m, IsServer) == o.isServer && LookFlag(m, DomainJoined) == o.domainJoined
            && LookFlag(m, RoleInstalled) == o.roleInstalled
            && LookFlag(m, ServiceInitialized) == o.serviceInitialized && LookFlag(m, SigningReady) == o.signingReady
            && LookFlag(m, EncryptionReady) == o.encryptionReady
            && LookFlag(m, FeatureSourceReady) == o.featureSourceReady
  {
    hide LookName, LookFields, LookFlag;
    LookFieldReads(o, IsServer); LookFieldReads(o, DomainJoined); LookFieldReads(o, RoleInstalled);
    LookFieldReads(o, ServiceInitialized); LookFieldReads(o, SigningReady); LookFieldReads(o, EncryptionReady);
    LookFieldReads(o, FeatureSourceReady);
  }

  lemma MoreFlagsRead(o: Observation)
    ensures var m := LookFields(o);
            && LookFlag(m, DsrmReady) == o.dsrmReady && LookFlag(m, JoinReady) == o.joinReady
            && LookFlag(m, RebootPending) == o.rebootPending && LookFlag(m, ServiceHealthy) == o.serviceHealthy
            && LookFlag(m, KeyAccessVerified) == o.keyAccessVerified && LookFlag(m, ModeSupported) == o.modeSupported
            && LookFlag(m, OfflinePolicyReady) == o.offlinePolicyReady
  {
    hide LookName, LookFields, LookFlag;
    LookFieldReads(o, DsrmReady); LookFieldReads(o, JoinReady); LookFieldReads(o, RebootPending);
    LookFieldReads(o, ServiceHealthy); LookFieldReads(o, KeyAccessVerified); LookFieldReads(o, ModeSupported);
    LookFieldReads(o, OfflinePolicyReady);
  }

  lemma LookTextsRead(o: Observation)
    ensures var m := LookFields(o);
            && LookText(m, OsBuild) == o.osBuild && LookText(m, ComputerName) == o.computerName
            && LookText(m, DomainName) == o.domainName && LookText(m, AttestationMode) == o.attestationMode
            && LookText(m, BootId) == o.bootId && LookText(m, ConfiguredService) == o.configuredService
            && LookText(m, ConfiguredSigning) == o.configuredSigning
            && LookText(m, ConfiguredEncryption) == o.configuredEncryption
  {
    hide LookName, LookFields, LookText, LookFlag, LookNumber;
    LookFieldReads(o, OsBuild); LookFieldReads(o, ComputerName); LookFieldReads(o, DomainName);
    LookFieldReads(o, AttestationMode); LookFieldReads(o, BootId); LookFieldReads(o, ConfiguredService);
    LookFieldReads(o, ConfiguredSigning); LookFieldReads(o, ConfiguredEncryption);
  }

  lemma LookFieldsRead(o: Observation)
    requires 0 <= o.domainRole <= 5
    ensures LookFrom(LookFields(o)) == o
  {
    hide LookName, LookFields, LookText, LookFlag, LookNumber;
    LookFlagsRead(o);
    MoreFlagsRead(o);
    LookTextsRead(o);
    LookFieldReads(o, DomainRole);
  }

  lemma LookFieldKeys(o: Observation)
    ensures LookFields(o).Keys == LOOK_NAMES && forall k: LookKey :: LookName(k) in LookFields(o)
  {
    hide LookName, LookField;
  }

  lemma LookFieldFits(o: Observation, k: LookKey)
    ensures LookFits(k, LookField(o, k)) <==> (k.DomainRole? ==> 0 <= o.domainRole <= 5)
  {
  }

  lemma LookFieldsFit(o: Observation)
    ensures LookShaped(LookFields(o)) <==> 0 <= o.domainRole <= 5
  {
    hide LookName, LookField, LookFields, LookFits;
    LookFieldKeys(o);
    forall k: LookKey ensures LookFits(k, LookFields(o)[LookName(k)]) <==> (k.DomainRole? ==> 0 <= o.domainRole <= 5) {
      LookFieldAt(o, k);
      LookFieldFits(o, k);
    }
    assert LookFits(DomainRole, LookFields(o)[LookName(DomainRole)]) <==> 0 <= o.domainRole <= 5;
  }

  /** An observation is read back from its document exactly when it is valid. */
  lemma LookReadsBack(o: Observation)
    ensures ReadLook(J.Obj(LookFields(o))) == if ValidLook(o) then Some(o) else None
  {
    hide LookShaped, LookFrom, LookFields, SafeText, IsHex;
    LookFieldsFit(o);
    if 0 <= o.domainRole <= 5 { LookFieldsRead(o); }
  }

  lemma ShapedFits(m: map<string, J.Value>, k: LookKey)
    requires LookShaped(m)
    ensures LookName(k) in m && LookFits(k, m[LookName(k)])
  {
    hide LookName;
  }

  lemma LookFieldFrom(m: map<string, J.Value>, k: LookKey)
    requires LookShaped(m) && ValidLook(LookFrom(m))
    ensures LookName(k) in m && LookField(LookFrom(m), k) == m[LookName(k)]
  {
    hide LookShaped, LookName, SafeText, IsHex;
    ShapedFits(m, k);
  }

  /** A document that is accepted is the one of the observation read from it. */
  lemma LookIsWritten(v: J.Value)
    requires ReadLook(v).Some?
    ensures v == J.Obj(LookFields(ReadLook(v).value)) && ValidLook(ReadLook(v).value)
  {
    hide LookName, LookFields, LookFrom, LookField, ValidLook;
    var o := ReadLook(v).value;
    LookFieldKeys(o);
    forall name | name in v.fields ensures v.fields[name] == LookFields(o)[name] {
      var k := LookKeyOf(name);
      LookFieldAt(o, k);
      LookFieldFrom(v.fields, k);
    }
    assert v.fields == LookFields(o);
  }
}
