/** The credentials that the program keeps in a Kubernetes secret. */
module Secrets {

  import opened Wrappers
  import opened Strings

  const DEFAULT_KEY_PREFIX := "AZURE"

  // ---------------------------------------------------------------- values

  /** A private key, as far as its JSON form tells it apart from others. */
  datatype Jwk = Jwk(material: string)

  datatype Certificate = Certificate(keyId: string, jwk: Jwk)
  datatype Password = Password(keyId: string, clientSecret: string)
  datatype Credentials = Credentials(certificate: Certificate, password: Password)
  datatype Set = Set(current: Credentials, next: Credentials)

  type Data = map<string, string>

  datatype Secret = Secret(name: string, data: Data)

  /** The other values that are written beside the credentials. */
  datatype Metadata = Metadata(
    clientId: string, preAuthorizedApps: string, tenant: string,
    wellKnownUrl: string, issuer: string, jwksUri: string, tokenEndpoint: string)

  function Marshal(jwk: Jwk): string {
    "{" + jwk.material + "}"
  }

  function MarshalSet(jwk: Jwk): string {
    "[" + Marshal(jwk) + "]"
  }

  function Unmarshal(s: string): Result<Jwk> {
    if |s| >= 2 && s[0] == '{' && s[|s| - 1] == '}' then Ok(Jwk(s[1..|s| - 1])) else Err
  }

  // ------------------------------------------------------------------ keys

  datatype CredentialKeys = CredentialKeys(certificateKeyId: string, clientSecret: string, passwordKeyId: string, jwk: string)

  datatype DataKeys = DataKeys(
    clientId: string, current: CredentialKeys, currentJwks: string, next: CredentialKeys,
    preAuthApps: string, tenantId: string, wellKnownUrl: string,
    issuer: string, jwksUri: string, tokenEndpoint: string)

  function UpperCase(c: char): char {
    if 'a' <= c <= 'z' then c - 32 as char else c
  }

  function ToUpper(s: string): string {
    seq(|s|, i requires 0 <= i < |s| => UpperCase(s[i]))
  }

  function SecretPrefix(prefix: string): string {
    if prefix == "" then
      DEFAULT_KEY_PREFIX
    else if prefix[|prefix| - 1] == '_' then
      ToUpper(prefix[..|prefix| - 1])
    else
      ToUpper(prefix)
  }

  function NewDataKeys(keyPrefix: string): DataKeys {
    var prefix := SecretPrefix(keyPrefix);
    DataKeys(
      prefix + "_APP_CLIENT_ID",
      CredentialKeys(prefix + "_APP_CERTIFICATE_KEY_ID", prefix + "_APP_CLIENT_SECRET",
                     prefix + "_APP_PASSWORD_KEY_ID", prefix + "_APP_JWK"),
      prefix + "_APP_JWKS",
      CredentialKeys(prefix + "_APP_NEXT_CERTIFICATE_KEY_ID", prefix + "_APP_NEXT_CLIENT_SECRET",
                     prefix + "_APP_NEXT_PASSWORD_KEY_ID", prefix + "_APP_NEXT_JWK"),
      prefix + "_APP_PRE_AUTHORIZED_APPS",
      prefix + "_APP_TENANT_ID",
      prefix + "_APP_WELL_KNOWN_URL",
      prefix + "_OPENID_CONFIG_ISSUER",
      prefix + "_OPENID_CONFIG_JWKS_URI",
      prefix + "_OPENID_CONFIG_TOKEN_ENDPOINT")
  }

  function AllKeys(keys: DataKeys): seq<string> {
    [keys.clientId,
     keys.current.certificateKeyId, keys.current.clientSecret, keys.current.passwordKeyId, keys.currentJwks, keys.current.jwk,
     keys.next.certificateKeyId, keys.next.clientSecret, keys.next.passwordKeyId, keys.next.jwk,
     keys.preAuthApps, keys.tenantId, keys.wellKnownUrl,
     keys.issuer, keys.jwksUri, keys.tokenEndpoint]
  }

  const SUFFIXES: seq<string> := [
    "_APP_CLIENT_ID",
    "_APP_CERTIFICATE_KEY_ID", "_APP_CLIENT_SECRET", "_APP_PASSWORD_KEY_ID", "_APP_JWKS", "_APP_JWK",
    "_APP_NEXT_CERTIFICATE_KEY_ID", "_APP_NEXT_CLIENT_SECRET", "_APP_NEXT_PASSWORD_KEY_ID", "_APP_NEXT_JWK",
    "_APP_PRE_AUTHORIZED_APPS", "_APP_TENANT_ID", "_APP_WELL_KNOWN_URL",
    "_OPENID_CONFIG_ISSUER", "_OPENID_CONFIG_JWKS_URI", "_OPENID_CONFIG_TOKEN_ENDPOINT"]

  lemma SuffixesAreDistinct()
    ensures |SUFFIXES| == 16
    ensures forall i, j :: 0 <= i < j < 16 ==> SUFFIXES[i] != SUFFIXES[j]
  {
  }

  lemma PrefixedDiffer(prefix: string, a: string, b: string)
    requires a != b
    ensures prefix + a != prefix + b
  {
    assert (prefix + a)[|prefix|..] == a && (prefix + b)[|prefix|..] == b;
  }

  /** For every prefix, the sixteen keys are different. */
  lemma KeysAreDistinct(keyPrefix: string)
    ensures |AllKeys(NewDataKeys(keyPrefix))| == 16
    ensures forall i, j :: 0 <= i < j < 16 ==> AllKeys(NewDataKeys(keyPrefix))[i] != AllKeys(NewDataKeys(keyPrefix))[j]
  {
    var prefix, all := SecretPrefix(keyPrefix), AllKeys(NewDataKeys(keyPrefix));
    SuffixesAreDistinct();
    assert forall i :: 0 <= i < 16 ==> all[i] == prefix + SUFFIXES[i];
    forall i, j | 0 <= i < j < 16
      ensures all[i] != all[j]
    {
      PrefixedDiffer(prefix, SUFFIXES[i], SUFFIXES[j]);
    }
  }

  // ------------------------------------------------------------ operations

  function CredentialData(keys: CredentialKeys, c: Credentials): Data {
    map[
      keys.certificateKeyId := c.certificate.keyId,
      keys.clientSecret := c.password.clientSecret,
      keys.jwk := Marshal(c.certificate.jwk),
      keys.passwordKeyId := c.password.keyId]
  }

  function MetadataData(app: Metadata, jwks: string, keys: DataKeys): Data {
    map[
      keys.clientId := app.clientId,
      keys.currentJwks := jwks,
      keys.preAuthApps := app.preAuthorizedApps,
      keys.tenantId := app.tenant,
      keys.wellKnownUrl := app.wellKnownUrl,
      keys.issuer := app.issuer,
      keys.jwksUri := app.jwksUri,
      keys.tokenEndpoint := app.tokenEndpoint]
  }

  function SecretData(app: Metadata, set_: Set, keys: DataKeys): Data {
    MetadataData(app, MarshalSet(set_.current.certificate.jwk), keys)
    + CredentialData(keys.current, set_.current)
    + CredentialData(keys.next, set_.next)
  }

  function NonEmptyValue(data: Data, key: string): Option<string> {
    if key in data && data[key] != "" then Some(data[key]) else None
  }

  /** Ok(None) is a secret without the expected keys; a key that is no JSON is an error. */
  function ExtractCredentials(data: Data, keys: CredentialKeys): Result<Option<Credentials>> {
    match (NonEmptyValue(data, keys.clientSecret), NonEmptyValue(data, keys.passwordKeyId),
           NonEmptyValue(data, keys.jwk), NonEmptyValue(data, keys.certificateKeyId))
    case (Some(clientSecret), Some(passwordId), Some(jwkJson), Some(certificateId)) =>
      var jwk :- Unmarshal(jwkJson);
      Ok(Some(Credentials(Certificate(certificateId, jwk), Password(passwordId, clientSecret))))
    case _ => Ok(None)
  }

  function ExtractSet(data: Data, keys: DataKeys): Result<Option<Set>> {
    var current :- ExtractCredentials(data, keys.current);
    if current.None? then
      Ok(None)
    else
      var next :- ExtractCredentials(data, keys.next);
      if next.None? then Ok(None) else Ok(Some(Set(current.value, next.value)))
  }

  predicate HasNoEmptyField(c: Credentials) {
    c.certificate.keyId != "" && c.password.keyId != "" && c.password.clientSecret != ""
  }

  lemma UnmarshalUndoesMarshal(jwk: Jwk)
    ensures Unmarshal(Marshal(jwk)) == Ok(jwk)
  {
  }

  predicate AreDistinct(keys: DataKeys) {
    forall i, j :: 0 <= i < j < |AllKeys(keys)| ==> AllKeys(keys)[i] != AllKeys(keys)[j]
  }

  lemma CredentialDataAsWritten(data: Data, keys: CredentialKeys, c: Credentials)
    requires keys.certificateKeyId != keys.clientSecret && keys.certificateKeyId != keys.jwk
    requires keys.certificateKeyId != keys.passwordKeyId && keys.clientSecret != keys.jwk
    requires keys.clientSecret != keys.passwordKeyId && keys.jwk != keys.passwordKeyId
    requires HasNoEmptyField(c)
    requires forall k :: k in CredentialData(keys, c) ==> k in data && data[k] == CredentialData(keys, c)[k]
    ensures ExtractCredentials(data, keys) == Ok(Some(c))
  {
  }

  /** A credential set is read back as it was written, whatever else the secret already held. */
  lemma SecretRoundTrip(before: Data, app: Metadata, set_: Set, keyPrefix: string)
    requires HasNoEmptyField(set_.current) && HasNoEmptyField(set_.next)
    ensures ExtractSet(before + SecretData(app, set_, NewDataKeys(keyPrefix)), NewDataKeys(keyPrefix)) == Ok(Some(set_))
  {
    KeysAreDistinct(keyPrefix);
    RoundTripWith(before, app, set_, NewDataKeys(keyPrefix));
  }

  /** Neither of the two sets of credentials overwrites the other. */
  lemma CredentialKeysDiffer(keys: DataKeys)
    requires AreDistinct(keys)
    ensures var c, n := keys.current, keys.next;
            && |{c.certificateKeyId, c.clientSecret, c.passwordKeyId, c.jwk}| == 4
            && |{n.certificateKeyId, n.clientSecret, n.passwordKeyId, n.jwk}| == 4
            && {c.certificateKeyId, c.clientSecret, c.passwordKeyId, c.jwk} !!
               {n.certificateKeyId, n.clientSecret, n.passwordKeyId, n.jwk}
  {
    var all := AllKeys(keys);
    assert all[1] == keys.current.certificateKeyId && all[2] == keys.current.clientSecret;
    assert all[3] == keys.current.passwordKeyId && all[5] == keys.current.jwk;
    assert all[6] == keys.next.certificateKeyId && all[7] == keys.next.clientSecret;
    assert all[8] == keys.next.passwordKeyId && all[9] == keys.next.jwk;
  }

  lemma RoundTripWith(before: Data, app: Metadata, set_: Set, keys: DataKeys)
    requires AreDistinct(keys)
    requires HasNoEmptyField(set_.current) && HasNoEmptyField(set_.next)
    ensures ExtractSet(before + SecretData(app, set_, keys), keys) == Ok(Some(set_))
  {
    var data := before + SecretData(app, set_, keys);
    CredentialKeysDiffer(keys);
    CredentialDataAsWritten(data, keys.current, set_.current);
    CredentialDataAsWritten(data, keys.next, set_.next);
  }

  lemma ExtractedHasNoEmptyField(data: Data, keys: DataKeys)
    ensures var r := ExtractSet(data, keys);
            r.Ok? && r.value.Some? ==> HasNoEmptyField(r.value.value.current) && HasNoEmptyField(r.value.value.next)
  {
  }

  // ----------------------------------------------------- entries by name

  predicate Holds(data: Data, key: string, value: string) {
    key in data && data[key] == value
  }

  /** What the program needs to know of itself, and of where it gets tokens. */
  predicate NamesApp(data: Data, prefix: string, app: Metadata) {
    && Holds(data, prefix + "_APP_CLIENT_ID", app.clientId)
    && Holds(data, prefix + "_APP_TENANT_ID", app.tenant)
    && Holds(data, prefix + "_APP_PRE_AUTHORIZED_APPS", app.preAuthorizedApps)
    && Holds(data, prefix + "_APP_WELL_KNOWN_URL", app.wellKnownUrl)
    && Holds(data, prefix + "_OPENID_CONFIG_ISSUER", app.issuer)
    && Holds(data, prefix + "_OPENID_CONFIG_JWKS_URI", app.jwksUri)
    && Holds(data, prefix + "_OPENID_CONFIG_TOKEN_ENDPOINT", app.tokenEndpoint)
  }

  predicate HoldsCurrent(data: Data, prefix: string, c: Credentials) {
    && Holds(data, prefix + "_APP_CERTIFICATE_KEY_ID", c.certificate.keyId)
    && Holds(data, prefix + "_APP_CLIENT_SECRET", c.password.clientSecret)
    && Holds(data, prefix + "_APP_PASSWORD_KEY_ID", c.password.keyId)
    && prefix + "_APP_JWK" in data && Unmarshal(data[prefix + "_APP_JWK"]) == Ok(c.certificate.jwk)
  }

  predicate HoldsNext(data: Data, prefix: string, c: Credentials) {
    && Holds(data, prefix + "_APP_NEXT_CERTIFICATE_KEY_ID", c.certificate.keyId)
    && Holds(data, prefix + "_APP_NEXT_CLIENT_SECRET", c.password.clientSecret)
    && Holds(data, prefix + "_APP_NEXT_PASSWORD_KEY_ID", c.password.keyId)
    && prefix + "_APP_NEXT_JWK" in data && Unmarshal(data[prefix + "_APP_NEXT_JWK"]) == Ok(c.certificate.jwk)
  }

  /** All that a secret is to tell a program, entry by entry. The key set has the current key. */
  predicate IsSecretOf(data: Data, prefix: string, app: Metadata, set_: Set) {
    && NamesApp(data, prefix, app)
    && HoldsCurrent(data, prefix, set_.current)
    && HoldsNext(data, prefix, set_.next)
    && Holds(data, prefix + "_APP_JWKS", "[" + data[prefix + "_APP_JWK"] + "]")
  }

  lemma MetadataKeysDiffer(keys: DataKeys)
    requires AreDistinct(keys)
    ensures var k := keys;
            && k.clientId !in {k.currentJwks, k.preAuthApps, k.tenantId, k.wellKnownUrl, k.issuer, k.jwksUri, k.tokenEndpoint}
            && k.currentJwks !in {k.preAuthApps, k.tenantId, k.wellKnownUrl, k.issuer, k.jwksUri, k.tokenEndpoint}
            && k.preAuthApps !in {k.tenantId, k.wellKnownUrl, k.issuer, k.jwksUri, k.tokenEndpoint}
            && k.tenantId !in {k.wellKnownUrl, k.issuer, k.jwksUri, k.tokenEndpoint}
            && k.wellKnownUrl !in {k.issuer, k.jwksUri, k.tokenEndpoint}
            && k.issuer !in {k.jwksUri, k.tokenEndpoint} && k.jwksUri != k.tokenEndpoint
  {
    MetadataKeysByIndex(keys);
    var all := AllKeys(keys);
    assert all[0] != all[4] && all[0] != all[10] && all[0] != all[11] && all[0] != all[12];
    assert all[0] != all[13] && all[0] != all[14] && all[0] != all[15];
  }

  lemma MetadataKeysByIndex(keys: DataKeys)
    ensures var all := AllKeys(keys);
            && all[0] == keys.clientId && all[4] == keys.currentJwks && all[10] == keys.preAuthApps
            && all[11] == keys.tenantId && all[12] == keys.wellKnownUrl && all[13] == keys.issuer
            && all[14] == keys.jwksUri && all[15] == keys.tokenEndpoint
  {
  }

  lemma NotACredentialKey(keys: DataKeys, set_: Set, i: nat)
    requires AreDistinct(keys) && i in {0, 4, 10, 11, 12, 13, 14, 15}
    ensures AllKeys(keys)[i] !in CredentialData(keys.current, set_.current) && AllKeys(keys)[i] !in CredentialData(keys.next, set_.next)
  {
    var all := AllKeys(keys);
    assert all[1] == keys.current.certificateKeyId && all[2] == keys.current.clientSecret;
    assert all[3] == keys.current.passwordKeyId && all[5] == keys.current.jwk;
    assert all[6] == keys.next.certificateKeyId && all[7] == keys.next.clientSecret;
    assert all[8] == keys.next.passwordKeyId && all[9] == keys.next.jwk;
  }

  /** Each metadata entry stands under its own key. */
  lemma MetadataAsWritten(app: Metadata, set_: Set, keys: DataKeys)
    requires AreDistinct(keys)
    ensures var d := SecretData(app, set_, keys);
            && Holds(d, keys.clientId, app.clientId) && Holds(d, keys.tenantId, app.tenant)
            && Holds(d, keys.preAuthApps, app.preAuthorizedApps) && Holds(d, keys.wellKnownUrl, app.wellKnownUrl)
            && Holds(d, keys.issuer, app.issuer) && Holds(d, keys.jwksUri, app.jwksUri)
            && Holds(d, keys.tokenEndpoint, app.tokenEndpoint)
            && Holds(d, keys.currentJwks, MarshalSet(set_.current.certificate.jwk))
  {
    MetadataKeysDiffer(keys);
    MetadataKeysByIndex(keys);
    var metadata := MetadataData(app, MarshalSet(set_.current.certificate.jwk), keys);
    forall i | i in {0, 4, 10, 11, 12, 13, 14, 15}
      ensures AllKeys(keys)[i] in metadata ==> Holds(SecretData(app, set_, keys), AllKeys(keys)[i], metadata[AllKeys(keys)[i]])
    {
      NotACredentialKey(keys, set_, i);
    }
  }

  /** Each credential entry stands under its own key. */
  lemma CredentialsAsWritten(app: Metadata, set_: Set, keys: DataKeys)
    requires AreDistinct(keys)
    ensures forall k :: k in CredentialData(keys.current, set_.current) ==>
              Holds(SecretData(app, set_, keys), k, CredentialData(keys.current, set_.current)[k])
    ensures forall k :: k in CredentialData(keys.next, set_.next) ==>
              Holds(SecretData(app, set_, keys), k, CredentialData(keys.next, set_.next)[k])
  {
    CredentialKeysDiffer(keys);
  }

  lemma CredentialsByKey(data: Data, keys: CredentialKeys, c: Credentials)
    requires |{keys.certificateKeyId, keys.clientSecret, keys.passwordKeyId, keys.jwk}| == 4
    requires forall k :: k in CredentialData(keys, c) ==> Holds(data, k, CredentialData(keys, c)[k])
    ensures Holds(data, keys.certificateKeyId, c.certificate.keyId) && Holds(data, keys.clientSecret, c.password.clientSecret)
    ensures Holds(data, keys.passwordKeyId, c.password.keyId) && Holds(data, keys.jwk, Marshal(c.certificate.jwk))
  {
    assert {keys.certificateKeyId, keys.clientSecret, keys.passwordKeyId, keys.jwk} <= CredentialData(keys, c).Keys;
  }

  /** After a write, whatever there was before, every entry has its own value. */
  lemma SecretIsOfApp(before: Data, app: Metadata, set_: Set, keyPrefix: string)
    ensures IsSecretOf(before + SecretData(app, set_, NewDataKeys(keyPrefix)), SecretPrefix(keyPrefix), app, set_)
  {
    var keys := NewDataKeys(keyPrefix);
    var data := before + SecretData(app, set_, keys);
    KeysAreDistinct(keyPrefix);
    MetadataAsWritten(app, set_, keys);
    CredentialsAsWritten(app, set_, keys);
    CredentialKeysDiffer(keys);
    CredentialsByKey(data, keys.current, set_.current);
    CredentialsByKey(data, keys.next, set_.next);
    UnmarshalUndoesMarshal(set_.current.certificate.jwk);
    UnmarshalUndoesMarshal(set_.next.certificate.jwk);
  }

  /** The set that is read from a secret is the one that its entries make up, with none of them empty. */
  lemma ExtractedExactly(data: Data, keyPrefix: string, set_: Set)
    ensures ExtractSet(data, NewDataKeys(keyPrefix)) == Ok(Some(set_)) <==>
            && HoldsCurrent(data, SecretPrefix(keyPrefix), set_.current) && HasNoEmptyField(set_.current)
            && HoldsNext(data, SecretPrefix(keyPrefix), set_.next) && HasNoEmptyField(set_.next)
  {
  }

  /** How a prefix is brought into form: in upper case, and without an underscore at its end. */
  lemma PrefixInForm(keyPrefix: string, i: nat)
    requires i < |SecretPrefix(keyPrefix)|
    ensures keyPrefix == "" ==> SecretPrefix(keyPrefix) == "AZURE"
    ensures !('a' <= SecretPrefix(keyPrefix)[i] <= 'z')
    ensures keyPrefix != "" ==>
              && |SecretPrefix(keyPrefix)| == |keyPrefix| - (if keyPrefix[|keyPrefix| - 1] == '_' then 1 else 0)
              && (!('a' <= keyPrefix[i] <= 'z') ==> SecretPrefix(keyPrefix)[i] == keyPrefix[i])
              && ('a' <= keyPrefix[i] <= 'z' ==> SecretPrefix(keyPrefix)[i] as int == keyPrefix[i] as int - 32)
  {
  }

  // ------------------------------------------------------------ extraction

  datatype KeyIds = KeyIds(certificate: seq<string>, password: seq<string>)

  /** The managed secrets of an app, by whether any of its pods refers to them. */
  datatype Lists = Lists(used: seq<Secret>, unused: seq<Secret>)

  function IdsIn(secrets: seq<Secret>, key: string): (ids: seq<string>)
    ensures forall id :: id in ids <==> exists s :: s in secrets && NonEmptyValue(s.data, key) == Some(id)
  {
    if secrets == [] then
      []
    else
      var last := secrets[|secrets| - 1];
      assert secrets == secrets[..|secrets| - 1] + [last];
      var rest := IdsIn(secrets[..|secrets| - 1], key);
      match NonEmptyValue(last.data, key)
      case Some(id) => rest + [id]
      case None => rest
  }

  function CurrentIds(secrets: seq<Secret>, keys: DataKeys): KeyIds {
    KeyIds(Distinct(IdsIn(secrets, keys.current.certificateKeyId)), Distinct(IdsIn(secrets, keys.current.passwordKeyId)))
  }

  method CollectIds(secrets: seq<Secret>, keys: DataKeys) returns (ids: KeyIds)
    ensures ids == CurrentIds(secrets, keys)
  {
    var certificateIds, passwordIds := [], [];
    for i := 0 to |secrets|
      invariant certificateIds == IdsIn(secrets[..i], keys.current.certificateKeyId)
      invariant passwordIds == IdsIn(secrets[..i], keys.current.passwordKeyId)
    {
      assert secrets[..i + 1][..i] == secrets[..i];
      var certificateId := NonEmptyValue(secrets[i].data, keys.current.certificateKeyId);
      if certificateId.Some? {
        certificateIds := certificateIds + [certificateId.value];
      }
      var passwordId := NonEmptyValue(secrets[i].data, keys.current.passwordKeyId);
      if passwordId.Some? {
        passwordIds := passwordIds + [passwordId.value];
      }
    }
    assert secrets[..|secrets|] == secrets;
    certificateIds := RemoveDuplicates(certificateIds);
    passwordIds := RemoveDuplicates(passwordIds);
    ids := KeyIds(certificateIds, passwordIds);
  }

  method GetKeyIds(lists: Lists, keys: DataKeys) returns (used: KeyIds, unused: KeyIds)
    ensures used == CurrentIds(lists.used, keys)
    ensures unused == CurrentIds(lists.unused, keys)
  {
    used := CollectIds(lists.used, keys);
    unused := CollectIds(lists.unused, keys);
  }

  /** The first secret of the given name, in the order of the list. */
  function FindSecret(secrets: seq<Secret>, name: string): (r: Option<Secret>)
    ensures r.Some? ==> r.value in secrets && r.value.name == name
    ensures r.None? ==> forall s :: s in secrets ==> s.name != name
  {
    if secrets == [] then None else if secrets[0].name == name then Some(secrets[0]) else FindSecret(secrets[1..], name)
  }

  function PreviousSet(lists: Lists, name: string, keys: DataKeys): Result<Option<Set>> {
    match FindSecret(lists.unused + lists.used, name)
    case Some(secret) => if name == "" then Ok(None) else ExtractSet(secret.data, keys)
    case None => Ok(None)
  }

  method SearchByName(secrets: seq<Secret>, name: string) returns (r: Option<Secret>)
    ensures r == FindSecret(secrets, name)
  {
    for i := 0 to |secrets|
      invariant FindSecret(secrets, name) == FindSecret(secrets[i..], name)
    {
      if secrets[i].name == name {
        return Some(secrets[i]);
      }
    }
    return None;
  }

  method GetPreviousCredentialsSet(lists: Lists, name: string, keys: DataKeys) returns (r: Result<Option<Set>>)
    ensures r == PreviousSet(lists, name, keys)
  {
    if name == "" {
      return Ok(None);
    }
    var secret := SearchByName(lists.unused + lists.used, name);
    if secret.None? {
      return Ok(None);
    }
    return ExtractSet(secret.value.data, keys);
  }

  // ---------------------------------------------------- other prefixes

  lemma EndsDiffer(a: string, b: string, s: string, t: string, d: nat)
    requires d < |s| && d < |t| && s[|s| - 1 - d] != t[|t| - 1 - d]
    ensures a + s != b + t
  {
    assert (a + s)[|a + s| - 1 - d] == s[|s| - 1 - d];
    assert (b + t)[|b + t| - 1 - d] == t[|t| - 1 - d];
  }

  lemma CertificateKeyEnds(a: string, b: string, other: nat)
    requires other < 16 && other != 1
    ensures a + SUFFIXES[1] != b + SUFFIXES[other]
  {
    match other
    case 0 => EndsDiffer(a, b, SUFFIXES[1], SUFFIXES[0], 3);
    case 3 => EndsDiffer(a, b, SUFFIXES[1], SUFFIXES[3], 7);
    case 6 => EndsDiffer(a, b, SUFFIXES[1], SUFFIXES[6], 19);
    case 8 => EndsDiffer(a, b, SUFFIXES[1], SUFFIXES[8], 7);
    case 11 => EndsDiffer(a, b, SUFFIXES[1], SUFFIXES[11], 3);
    case _ => EndsDiffer(a, b, SUFFIXES[1], SUFFIXES[other], 0);
  }

  lemma PasswordKeyEnds(a: string, b: string, other: nat)
    requires other < 16 && other != 3
    ensures a + SUFFIXES[3] != b + SUFFIXES[other]
  {
    match other
    case 0 => EndsDiffer(a, b, SUFFIXES[3], SUFFIXES[0], 3);
    case 1 => EndsDiffer(a, b, SUFFIXES[3], SUFFIXES[1], 7);
    case 6 => EndsDiffer(a, b, SUFFIXES[3], SUFFIXES[6], 7);
    case 8 => EndsDiffer(a, b, SUFFIXES[3], SUFFIXES[8], 16);
    case 11 => EndsDiffer(a, b, SUFFIXES[3], SUFFIXES[11], 3);
    case _ => EndsDiffer(a, b, SUFFIXES[3], SUFFIXES[other], 0);
  }

  lemma OtherPrefix(a: string, b: string, suffix: string)
    requires a != b
    ensures a + suffix != b + suffix
  {
    assert (a + suffix)[..|a|] == a && (b + suffix)[..|b|] == b && |a + suffix| == |a| + |suffix|;
  }

  lemma NotAKey(app: Metadata, set_: Set, p: string, k: string)
    requires forall i :: 0 <= i < 16 ==> k != SecretPrefix(p) + SUFFIXES[i]
    ensures k !in SecretData(app, set_, NewDataKeys(p))
  {
    var all := AllKeys(NewDataKeys(p));
    assert forall i :: 0 <= i < 16 ==> all[i] == SecretPrefix(p) + SUFFIXES[i];
    assert k !in all;
  }

  lemma CertificateKeyDiffers(a: string, b: string)
    requires a != b
    ensures forall i :: 0 <= i < 16 ==> a + SUFFIXES[1] != b + SUFFIXES[i]
  {
    OtherPrefix(a, b, SUFFIXES[1]);
    forall i | 0 <= i < 16 && i != 1
      ensures a + SUFFIXES[1] != b + SUFFIXES[i]
    {
      CertificateKeyEnds(a, b, i);
    }
  }

  lemma PasswordKeyDiffers(a: string, b: string)
    requires a != b
    ensures forall i :: 0 <= i < 16 ==> a + SUFFIXES[3] != b + SUFFIXES[i]
  {
    OtherPrefix(a, b, SUFFIXES[3]);
    forall i | 0 <= i < 16 && i != 3
      ensures a + SUFFIXES[3] != b + SUFFIXES[i]
    {
      PasswordKeyEnds(a, b, i);
    }
  }

  lemma CertificateKeyIsNotIn(app: Metadata, set_: Set, p: string, q: string)
    requires SecretPrefix(p) != SecretPrefix(q)
    ensures NewDataKeys(q).current.certificateKeyId !in SecretData(app, set_, NewDataKeys(p))
  {
    CertificateKeyDiffers(SecretPrefix(q), SecretPrefix(p));
    NotAKey(app, set_, p, NewDataKeys(q).current.certificateKeyId);
  }

  lemma PasswordKeyIsNotIn(app: Metadata, set_: Set, p: string, q: string)
    requires SecretPrefix(p) != SecretPrefix(q)
    ensures NewDataKeys(q).current.passwordKeyId !in SecretData(app, set_, NewDataKeys(p))
  {
    PasswordKeyDiffers(SecretPrefix(q), SecretPrefix(p));
    NotAKey(app, set_, p, NewDataKeys(q).current.passwordKeyId);
  }

  lemma IdsOfExtracted(data: Data, keys: DataKeys, set_: Set)
    requires ExtractSet(data, keys) == Ok(Some(set_))
    ensures NonEmptyValue(data, keys.current.certificateKeyId) == Some(set_.current.certificate.keyId)
    ensures NonEmptyValue(data, keys.current.passwordKeyId) == Some(set_.current.password.keyId)
  {
  }

  lemma OwnKeysAreIn(app: Metadata, set_: Set, keyPrefix: string)
    requires HasNoEmptyField(set_.current) && HasNoEmptyField(set_.next)
    ensures var data, keys := SecretData(app, set_, NewDataKeys(keyPrefix)), NewDataKeys(keyPrefix);
            && NonEmptyValue(data, keys.current.certificateKeyId) == Some(set_.current.certificate.keyId)
            && NonEmptyValue(data, keys.current.passwordKeyId) == Some(set_.current.password.keyId)
  {
    SecretRoundTrip(map[], app, set_, keyPrefix);
    assert map[] + SecretData(app, set_, NewDataKeys(keyPrefix)) == SecretData(app, set_, NewDataKeys(keyPrefix));
    IdsOfExtracted(SecretData(app, set_, NewDataKeys(keyPrefix)), NewDataKeys(keyPrefix), set_);
  }

  /** The current IDs of a secret that was written under one prefix are read under another
      exactly if the two come to the same, as "azure_", "AZURE" and "" do. */
  lemma ReadUnderPrefix(app: Metadata, set_: Set, p: string, q: string)
    requires HasNoEmptyField(set_.current) && HasNoEmptyField(set_.next)
    ensures var data, keys, same := SecretData(app, set_, NewDataKeys(p)), NewDataKeys(q), SecretPrefix(p) == SecretPrefix(q);
            && NonEmptyValue(data, keys.current.certificateKeyId) == (if same then Some(set_.current.certificate.keyId) else None)
            && NonEmptyValue(data, keys.current.passwordKeyId) == (if same then Some(set_.current.password.keyId) else None)
  {
    if SecretPrefix(p) == SecretPrefix(q) {
      OwnKeysAreIn(app, set_, q);
    } else {
      CertificateKeyIsNotIn(app, set_, p, q);
      PasswordKeyIsNotIn(app, set_, p, q);
    }
  }

  /** What a secret holds beside the entries with these keys. */
  function OtherEntries(data: Data, keys: DataKeys): Data {
    map k | k in data && k !in AllKeys(keys) :: data[k]
  }

  /** Writing a set leaves all other entries as they are. */
  lemma WritingKeepsOthers(before: Data, app: Metadata, set_: Set, keys: DataKeys)
    ensures OtherEntries(before + SecretData(app, set_, keys), keys) == OtherEntries(before, keys)
  {
    var all := AllKeys(keys);
    assert all[0] in all && all[1] in all && all[2] in all && all[3] in all && all[4] in all && all[5] in all;
    assert all[6] in all && all[7] in all && all[8] in all && all[9] in all && all[10] in all && all[11] in all;
    assert all[12] in all && all[13] in all && all[14] in all && all[15] in all;
    assert forall k :: k in SecretData(app, set_, keys) ==> k in all;
  }

  lemma StaysAbsent(before: Data, after: Data, keys: DataKeys, k: string)
    requires OtherEntries(after, keys) == OtherEntries(before, keys) && k !in AllKeys(keys) && k !in before
    ensures k !in after
  {
    assert k in OtherEntries(after, keys) <==> k in after;
  }

  /** The key of the current certificate under one prefix is none of the keys under another. */
  lemma KeyUnderOtherPrefix(p: string, q: string)
    requires SecretPrefix(p) != SecretPrefix(q)
    ensures NewDataKeys(q).current.certificateKeyId !in AllKeys(NewDataKeys(p))
  {
    CertificateKeyDiffers(SecretPrefix(q), SecretPrefix(p));
    var all := AllKeys(NewDataKeys(p));
    assert forall i :: 0 <= i < 16 ==> all[i] == SecretPrefix(p) + SUFFIXES[i];
  }

  function CredentialKeySet(keys: DataKeys): set<string> {
    {keys.current.certificateKeyId, keys.current.clientSecret, keys.current.passwordKeyId, keys.current.jwk,
     keys.next.certificateKeyId, keys.next.clientSecret, keys.next.passwordKeyId, keys.next.jwk}
  }

  /** What is written beside a set does not disturb it. */
  lemma ExtractedBeside(data: Data, added: Data, keys: DataKeys)
    ensures (forall k :: k in CredentialKeySet(keys) ==> k !in added) ==> ExtractSet(data + added, keys) == ExtractSet(data, keys)
  {
    assert forall k :: k !in added ==> NonEmptyValue(data + added, k) == NonEmptyValue(data, k);
  }

  predicate BeginDifferently(p: string, q: string) {
    SecretPrefix(p) != "" && SecretPrefix(q) != "" && SecretPrefix(p)[0] != SecretPrefix(q)[0]
  }

  lemma StartsOtherwise(app: Metadata, set_: Set, p: string, k: string)
    requires SecretPrefix(p) != "" && k != "" && k[0] != SecretPrefix(p)[0]
    ensures k !in SecretData(app, set_, NewDataKeys(p))
  {
    assert forall i :: 0 <= i < 16 ==> (SecretPrefix(p) + SUFFIXES[i])[0] == SecretPrefix(p)[0];
    NotAKey(app, set_, p, k);
  }

  lemma KeysBegin(p: string)
    requires SecretPrefix(p) != ""
    ensures forall k :: k in CredentialKeySet(NewDataKeys(p)) ==> k != "" && k[0] == SecretPrefix(p)[0]
  {
  }

  /** A set that was written under one prefix can be read beside another one. */
  lemma SetBesideOther(before: Data, app: Metadata, app': Metadata, first: Set, second: Set, p: string, q: string)
    requires HasNoEmptyField(first.current) && HasNoEmptyField(first.next) && BeginDifferently(p, q)
    ensures ExtractSet(before + SecretData(app, first, NewDataKeys(p)) + SecretData(app', second, NewDataKeys(q)), NewDataKeys(p))
            == Ok(Some(first))
  {
    SecretRoundTrip(before, app, first, p);
    ExtractedBeside(before + SecretData(app, first, NewDataKeys(p)), SecretData(app', second, NewDataKeys(q)), NewDataKeys(p));
    KeysBegin(p);
    forall k | k in CredentialKeySet(NewDataKeys(p))
      ensures k !in SecretData(app', second, NewDataKeys(q))
    {
      StartsOtherwise(app', second, q, k);
    }
  }
}
