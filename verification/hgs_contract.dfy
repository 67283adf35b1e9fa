/**
 What the fields of a Host Guardian Service job and of an observation must look
 like before either is accepted.
 */
module HgsContract {
  import opened HgsManagement
  import GpoRecord

  predicate SafeText(s: string, maximum: nat) {
    |s| <= maximum && forall i | 0 <= i < |s| :: 32 <= s[i] as int < 127
  }

  predicate LabelChar(c: char) { 'a' <= c <= 'z' || '0' <= c <= '9' || c == '-' }

  predicate IsLabel(s: string) {
    && s != "" && |s| <= 63 && s[0] != '-' && s[|s| - 1] != '-'
    && forall i | 0 <= i < |s| :: LabelChar(s[i])
  }

  /** The text up to the first dot. */
  function FirstLabel(s: string): (front: string)
    ensures front <= s && '.' !in front && (front == s || s[|front|] == '.')
  {
    if s == "" || s[0] == '.' then "" else [s[0]] + FirstLabel(s[1..])
  }

  predicate Labels(s: string)
    decreases |s|
  {
    var first := FirstLabel(s);
    IsLabel(first) && (first == s || Labels(s[|first| + 1..]))
  }

  predicate IsDns(s: string) { |s| <= 253 && '.' in s && Labels(s) }

  predicate IsHex(s: string, n: nat, upper: bool) {
    |s| == n && forall i | 0 <= i < n :: '0' <= s[i] <= '9' || (if upper then 'A' <= s[i] <= 'F' else 'a' <= s[i] <= 'f')
  }

  predicate Letter(c: char) { 'a' <= c <= 'z' || 'A' <= c <= 'Z' }

  predicate IsReference(s: string) {
    |s| <= 64 && forall i | 0 <= i < |s| :: Letter(s[i]) || '0' <= s[i] <= '9' || s[i] == '-' || s[i] == '_'
  }

  /** A local path without quotes, wildcards, substitutions, streams or steps upwards. */
  predicate IsSourcePath(s: string) {
    && SafeText(s, 240) && |s| >= 4 && Letter(s[0]) && s[1] == ':' && s[2] == '\\'
    && (forall i | 0 <= i < |s| :: s[i] !in "\"<>|?*$;`\r\n")
    && (forall i | 0 <= i < |s| - 1 :: s[i] != '.' || s[i + 1] != '.')
    && (forall i | 2 <= i < |s| :: s[i] != ':')
  }

  predicate AddressChar(c: char) { '0' <= c <= '9' || 'a' <= c <= 'f' || 'A' <= c <= 'F' || c == '.' || c == ':' }

  /** A primary has no address; another node names the primary and a secret to join with. */
  predicate ValidRole(c: Config) {
    if c.nodeRole == "primary" then c.primaryServer == ""
    else
      && c.nodeRole == "additional" && c.joinSecretRef != "" && 0 < |c.primaryServer| <= 45
      && forall i | 0 <= i < |c.primaryServer| :: AddressChar(c.primaryServer[i])
  }

  predicate ValidConfig(c: Config) {
    && (c.profile == "vtpm" || (c.profile == "shielded" && c.attestationMode == "tpm"))
    && (c.attestationMode == "host_key" || c.attestationMode == "tpm")
    && IsDns(c.domainName) && IsLabel(c.serviceName) && IsSourcePath(c.featureSource)
    && IsHex(c.signingThumbprint, 40, true) && IsHex(c.encryptionThumbprint, 40, true) && c.signingThumbprint != c.encryptionThumbprint
    && c.dsrmSecretRef != "" && IsReference(c.dsrmSecretRef) && IsReference(c.joinSecretRef) && ValidRole(c)
  }

  const DEVICE_PREFIX := "urn:ipms:agent:"

  predicate ValidJob(j: Job) {
    && GpoRecord.ValidUuid(j.jobId) && GpoRecord.ValidUuid(j.deploymentId)
    && GpoRecord.ValidUuid(j.tenantId) && GpoRecord.ValidUuid(j.enrollmentId)
    && DEVICE_PREFIX <= j.deviceUri && GpoRecord.ValidUuid(j.deviceUri[|DEVICE_PREFIX|..]) && IsHex(j.planDigest, 64, false)
    && ValidConfig(j.config) && 0 < j.expiresAt < 0x8000_0000_0000_0000
    && (j.operation.CreateForest? ==> j.config.nodeRole == "primary")
    && (j.operation.JoinNode? ==> j.config.nodeRole == "additional")
  }

  predicate ValidLook(o: Observation) {
    && o.osBuild != "" && SafeText(o.osBuild, 12) && o.computerName != "" && SafeText(o.computerName, 63)
    && SafeText(o.domainName, 253) && o.bootId != "" && SafeText(o.bootId, 64) && 0 <= o.domainRole <= 5
    && (o.attestationMode == "none" || o.attestationMode == "host_key" || o.attestationMode == "tpm")
    && SafeText(o.configuredService, 253)
    && (o.configuredSigning == "" || IsHex(o.configuredSigning, 40, true))
    && (o.configuredEncryption == "" || IsHex(o.configuredEncryption, 40, true))
  }
}
