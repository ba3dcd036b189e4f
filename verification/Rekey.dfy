/** Access keys: their encrypted form, the unencrypted form of older versions, and the change of
    the encryption key over the whole store. */
module Rekey {
  import opened Base64
  import opened Options

  datatype SshKey = SshKey(login: string, passphrase: string, privateKey: string)

  datatype LoginPassword = LoginPassword(login: string, password: string)

  const NO_SSH := SshKey("", "", "")

  const NO_LOGIN := LoginPassword("", "")

  datatype Kind = Ssh | Login | NoKey | Unknown(name: string)

  const NONCE_SIZE := 12

  /** JSON and the authenticated cipher, as the key functions call them. */
  datatype Codec = Codec(
    sshToJson: SshKey -> seq<Byte>,
    sshFromJson: seq<Byte> -> Option<SshKey>,
    loginToJson: LoginPassword -> seq<Byte>,
    loginFromJson: seq<Byte> -> Option<LoginPassword>,
    isKey: seq<Byte> -> bool,
    seal: (seq<Byte>, seq<Byte>, seq<Byte>) -> seq<Byte>,
    open: (seq<Byte>, seq<Byte>, seq<Byte>) -> Option<seq<Byte>>)

  /** What is written is read back, and JSON of a struct is never empty. */
  ghost predicate Lawful(c: Codec) {
    && (forall x :: c.sshFromJson(c.sshToJson(x)) == Some(x) && c.sshToJson(x) != [])
    && (forall x :: c.loginFromJson(c.loginToJson(x)) == Some(x) && c.loginToJson(x) != [])
    && (forall key, nonce, text :: c.open(key, nonce, c.seal(key, nonce, text)) == Some(text))
  }

  // ---------------------------------------------------------------- one key

  /** The fields of a key that the functions below read and write. */
  datatype Fields = Fields(kind: Kind, secret: Option<string>, ssh: SshKey, login: LoginPassword)

  function Plaintext(c: Codec, k: Fields): Option<seq<Byte>> {
    match k.kind
    case Ssh => Some(c.sshToJson(k.ssh))
    case Login => Some(c.loginToJson(k.login))
    case _ => None
  }

  /** The bytes behind the base64 of the secret. */
  function Encrypted(c: Codec, encryption: string, nonce: Option<seq<Byte>>, text: seq<Byte>): Option<seq<Byte>> {
    if encryption == "" then Some(text)
    else
      var key := Decode(encryption);
      if key.None? || !c.isKey(key.value) || nonce.None? then None
      else Some(nonce.value + c.seal(key.value, nonce.value, text))
  }

  function Decrypted(c: Codec, encryption: string, data: seq<Byte>): Option<seq<Byte>> {
    if encryption == "" then Some(data)
    else
      var key := Decode(encryption);
      if key.None? || !c.isKey(key.value) || |data| < NONCE_SIZE then None
      else c.open(key.value, data[..NONCE_SIZE], data[NONCE_SIZE..])
  }

  /** None is an error, which leaves the key as it was. */
  function Serialized(c: Codec, encryption: string, nonce: Option<seq<Byte>>, k: Fields): Option<Fields> {
    if k.kind.NoKey? then Some(k.(secret := None))
    else
      var text := Plaintext(c, k);
      if text.None? then None
      else
        match Encrypted(c, encryption, nonce, text.value)
        case None => None
        case Some(data) => Some(k.(secret := Some(Encode(data))))
  }

  function Unmarshalled(c: Codec, k: Fields, text: seq<Byte>): Option<Fields> {
    match k.kind
    case Ssh => (match c.sshFromJson(text) case None => None case Some(x) => Some(k.(ssh := x)))
    case Login => (match c.loginFromJson(text) case None => None case Some(x) => Some(k.(login := x)))
    case _ => Some(k)
  }

  /** The unencrypted private keys of older versions end in a newline. */
  predicate IsLegacy(secret: string) {
    secret != "" && secret[|secret| - 1] == '\n'
  }

  function Deserialized(c: Codec, encryption: string, k: Fields): Option<Fields> {
    if k.secret.None? || k.secret.value == "" then Some(k)
    else if IsLegacy(k.secret.value) then
      if k.kind.Ssh? then Some(k.(ssh := SshKey("", "", k.secret.value))) else None
    else
      match Decode(k.secret.value)
      case None => None
      case Some(data) =>
        (match Decrypted(c, encryption, data)
         case None => None
         case Some(text) => Unmarshalled(c, k, text))
  }

  ghost predicate NonceFits(nonce: Option<seq<Byte>>) {
    nonce.Some? ==> |nonce.value| == NONCE_SIZE
  }

  lemma DecryptEncrypted(c: Codec, encryption: string, nonce: Option<seq<Byte>>, text: seq<Byte>)
    requires Lawful(c) && NonceFits(nonce) && text != [] && Encrypted(c, encryption, nonce, text).Some?
    ensures Decrypted(c, encryption, Encrypted(c, encryption, nonce, text).value) == Some(text)
    ensures Encrypted(c, encryption, nonce, text).value != []
  {
    var data := Encrypted(c, encryption, nonce, text).value;
    if encryption != "" {
      var key := Decode(encryption).value;
      assert data[..NONCE_SIZE] == nonce.value;
      assert data[NONCE_SIZE..] == c.seal(key, nonce.value, text);
    }
  }

  /** A serialized secret is never taken for an unencrypted one. */
  lemma SerializedIsNotLegacy(c: Codec, encryption: string, nonce: Option<seq<Byte>>, k: Fields)
    requires Serialized(c, encryption, nonce, k).Some?
    ensures var s := Serialized(c, encryption, nonce, k).value.secret;
            s.Some? ==> !IsLegacy(s.value)
  {
    var s := Serialized(c, encryption, nonce, k).value.secret;
    if s.Some? {
      EncodeHasNoBreak(Encrypted(c, encryption, nonce, Plaintext(c, k).value).value);
      assert s.value != "" ==> s.value[|s.value| - 1] in s.value;
    }
  }

  /** What a stored key stands for under an encryption key: the fields after loading it. */
  function Meaning(c: Codec, encryption: string, kind: Kind, secret: Option<string>): Option<(SshKey, LoginPassword)> {
    match Deserialized(c, encryption, Fields(kind, secret, NO_SSH, NO_LOGIN))
    case None => None
    case Some(k) => Some((k.ssh, k.login))
  }

  /** A secret that ends in a newline is an unencrypted private key: for an SSH key it is that private
      key and nothing else, and no other kind can have one. No secret, or an empty one, stands for
      nothing, and a key without a kind stands for nothing too. */
  lemma UnencryptedMeaning(c: Codec, encryption: string, kind: Kind, text: string)
    ensures Meaning(c, encryption, kind, Some(text + "\n")) ==
            if kind == Ssh then Some((SshKey("", "", text + "\n"), LoginPassword("", ""))) else None
    ensures Meaning(c, encryption, kind, None) == Some((SshKey("", "", ""), LoginPassword("", "")))
    ensures Meaning(c, encryption, kind, Some("")) == Some((SshKey("", "", ""), LoginPassword("", "")))
  {
    var secret := text + "\n";
    assert secret[|secret| - 1] == '\n';
  }

  /** What the JSON of a secret stands for. */
  function JsonMeaning(c: Codec, kind: Kind, text: seq<Byte>): Option<(SshKey, LoginPassword)> {
    match kind
    case Ssh => (match c.sshFromJson(text) case None => None case Some(x) => Some((x, LoginPassword("", ""))))
    case Login => (match c.loginFromJson(text) case None => None case Some(x) => Some((SshKey("", "", ""), x)))
    case _ => Some((SshKey("", "", ""), LoginPassword("", "")))
  }

  /** Without an encryption key, the base64 of a secret is its JSON. */
  lemma PlainMeaning(c: Codec, kind: Kind, text: seq<Byte>)
    requires text != []
    ensures Meaning(c, "", kind, Some(Encode(text))) == JsonMeaning(c, kind, text)
  {
    EncodedIsRead(text);
  }

  /** With one, it is the twelve bytes of the nonce and the sealed JSON; a key that cannot be used,
      or data shorter than the nonce, is an error. */
  lemma SealedMeaning(c: Codec, encryption: string, kind: Kind, data: seq<Byte>)
    requires encryption != "" && data != []
    ensures var key := Decode(encryption);
            Meaning(c, encryption, kind, Some(Encode(data))) ==
              if key.None? || !c.isKey(key.value) || |data| < 12 then None
              else
                match c.open(key.value, data[..12], data[12..])
                case None => None
                case Some(text) => JsonMeaning(c, kind, text)
  {
    EncodedIsRead(data);
  }

  lemma EncodedIsRead(data: seq<Byte>)
    requires data != []
    ensures Encode(data) != "" && !IsLegacy(Encode(data)) && Decode(Encode(data)) == Some(data)
  {
    DecodeEncode(data);
    EncodeHasNoBreak(data);
    assert Encode(data) != "" ==> Encode(data)[|Encode(data)| - 1] in Encode(data);
  }

  function SealedText(c: Codec, encryption: string, nonce: seq<Byte>, text: seq<Byte>): string
    requires Decode(encryption).Some?
  {
    Encode(nonce + c.seal(Decode(encryption).value, nonce, text))
  }

  /** A key is stored as its JSON in base64, sealed behind its nonce if there is an encryption key; a key
      of no kind has no secret. It cannot be stored exactly if its kind is unknown or the encryption key
      or the nonce cannot be had. */
  lemma StoredForm(c: Codec, encryption: string, nonce: Option<seq<Byte>>, k: Fields)
    ensures Serialized(c, encryption, nonce, k).None? <==>
            || k.kind.Unknown?
            || (!k.kind.NoKey? && encryption != "" &&
                  (nonce.None? || Decode(encryption).None? || !c.isKey(Decode(encryption).value)))
    ensures Serialized(c, encryption, nonce, k).Some? ==>
              var after := Serialized(c, encryption, nonce, k).value;
              && after == k.(secret := after.secret)
              && (k.kind.NoKey? ==> after.secret == None)
              && (k.kind.Ssh? && encryption == "" ==> after.secret == Some(Encode(c.sshToJson(k.ssh))))
              && (k.kind.Login? && encryption == "" ==> after.secret == Some(Encode(c.loginToJson(k.login))))
              && (k.kind.Ssh? && encryption != "" ==>
                    after.secret == Some(SealedText(c, encryption, nonce.value, c.sshToJson(k.ssh))))
              && (k.kind.Login? && encryption != "" ==>
                    after.secret == Some(SealedText(c, encryption, nonce.value, c.loginToJson(k.login))))
  {
  }

  /** The part of the fields that belongs to the kind. */
  function Relevant(k: Fields): (SshKey, LoginPassword) {
    (if k.kind.Ssh? then k.ssh else NO_SSH, if k.kind.Login? then k.login else NO_LOGIN)
  }

  /** A key is read back as it was written, whatever it held before. */
  lemma DeserializeSerialized(c: Codec, encryption: string, nonce: Option<seq<Byte>>, k: Fields)
    requires Lawful(c) && NonceFits(nonce) && Serialized(c, encryption, nonce, k).Some?
    ensures var after := Serialized(c, encryption, nonce, k).value;
            Meaning(c, encryption, after.kind, after.secret) == Some(Relevant(k))
  {
    var after := Serialized(c, encryption, nonce, k).value;
    SerializedIsNotLegacy(c, encryption, nonce, k);
    if !k.kind.NoKey? {
      var text := Plaintext(c, k).value;
      DecryptEncrypted(c, encryption, nonce, text);
      DecodeEncode(Encrypted(c, encryption, nonce, text).value);
      EncodeHasNoBreak(Encrypted(c, encryption, nonce, text).value);
      assert Deserialized(c, encryption, Fields(k.kind, after.secret, NO_SSH, NO_LOGIN))
             == Unmarshalled(c, Fields(k.kind, after.secret, NO_SSH, NO_LOGIN), text);
    }
  }

  class AccessKey {
    const kind: Kind
    var secret: Option<string>
    var ssh: SshKey
    var login: LoginPassword

    ghost function Value(): Fields
      reads this
    {
      Fields(kind, secret, ssh, login)
    }

    /** A key as it is loaded from the store. */
    constructor (kind: Kind, secret: Option<string>)
      ensures Value() == Fields(kind, secret, NO_SSH, NO_LOGIN)
    {
      this.kind := kind;
      this.secret := secret;
      ssh := NO_SSH;
      login := NO_LOGIN;
    }

    method SerializeSecret(c: Codec, encryption: string, nonce: Option<seq<Byte>>) returns (ok: bool)
      modifies this
      ensures ok == old(Serialized(c, encryption, nonce, Value())).Some?
      ensures Value() == if ok then old(Serialized(c, encryption, nonce, Value())).value else old(Value())
    {
      var plaintext: seq<Byte>;
      match kind {
        case Ssh => plaintext := c.sshToJson(ssh);
        case Login => plaintext := c.loginToJson(login);
        case NoKey =>
          secret := None;
          return true;
        case Unknown(_) => return false;
      }
      if encryption == "" {
        secret := Some(Encode(plaintext));
        return true;
      }
      var key := Decode(encryption);
      if key.None? || !c.isKey(key.value) || nonce.None? {
        return false;
      }
      secret := Some(Encode(nonce.value + c.seal(key.value, nonce.value, plaintext)));
      return true;
    }

    method UnmarshalAppropriateField(c: Codec, text: seq<Byte>) returns (ok: bool)
      modifies this
      ensures ok == old(Unmarshalled(c, Value(), text)).Some?
      ensures Value() == if ok then old(Unmarshalled(c, Value(), text)).value else old(Value())
    {
      match kind {
        case Ssh =>
          var x := c.sshFromJson(text);
          if x.None? { return false; }
          ssh := x.value;
        case Login =>
          var x := c.loginFromJson(text);
          if x.None? { return false; }
          login := x.value;
        case _ =>
      }
      return true;
    }

    method DeserializeSecret(c: Codec, encryption: string) returns (ok: bool)
      modifies this
      ensures ok == old(Deserialized(c, encryption, Value())).Some?
      ensures Value() == if ok then old(Deserialized(c, encryption, Value())).value else old(Value())
    {
      if secret.None? || secret.value == "" {
        return true;
      }
      if secret.value[|secret.value| - 1] == '\n' {
        if !kind.Ssh? {
          return false;
        }
        ssh := SshKey("", "", secret.value);
        return true;
      }
      var data := Decode(secret.value);
      if data.None? {
        return false;
      }
      if encryption == "" {
        ok := UnmarshalAppropriateField(c, data.value);
        return ok;
      }
      var key := Decode(encryption);
      if key.None? || !c.isKey(key.value) || |data.value| < NONCE_SIZE {
        return false;
      }
      var text := c.open(key.value, data.value[..NONCE_SIZE], data.value[NONCE_SIZE..]);
      if text.None? {
        return false;
      }
      ok := UnmarshalAppropriateField(c, text.value);
    }
  }

  // ---------------------------------------------------------------- the whole store

  datatype StoredKey = StoredKey(id: int, project: int, name: string, kind: Kind, secret: Option<string>)

  /** The keys of every project, in key order. */
  type Buckets = map<int, seq<StoredKey>>

  /** The encryption strings before and after, and the random nonce of every key, if it can be
      drawn. */
  datatype Change = Change(codec: Codec, before: string, after: string, nonce: StoredKey -> Option<seq<Byte>>)

  ghost predicate NoncesFit(ch: Change) {
    forall k :: NonceFits(ch.nonce(k))
  }

  function RekeyedKey(ch: Change, k: StoredKey): Option<StoredKey> {
    match Deserialized(ch.codec, ch.before, Fields(k.kind, k.secret, NO_SSH, NO_LOGIN))
    case None => None
    case Some(unlocked) =>
      (match Serialized(ch.codec, ch.after, ch.nonce(k), unlocked)
       case None => None
       case Some(locked) => Some(k.(secret := locked.secret)))
  }

  /** Every key lies in its project's bucket under its own id. */
  ghost predicate Wellformed(keys: Buckets) {
    forall p :: p in keys ==> WellformedBucket(p, keys[p])
  }

  ghost predicate WellformedBucket(p: int, bucket: seq<StoredKey>) {
    && (forall i :: 0 <= i < |bucket| ==> bucket[i].project == p)
    && (forall i, j :: 0 <= i < j < |bucket| ==> bucket[i].id != bucket[j].id)
  }

  ghost predicate BucketRekeyed(ch: Change, before: seq<StoredKey>, after: seq<StoredKey>) {
    |after| == |before| && forall i :: 0 <= i < |before| ==> RekeyedKey(ch, before[i]) == Some(after[i])
  }

  /** The keys of the listed projects are rekeyed, and no other bucket is touched. */
  ghost predicate StoreRekeyed(ch: Change, projects: seq<int>, before: Buckets, after: Buckets) {
    && after.Keys == before.Keys
    && (forall p :: p in before && p in projects ==> BucketRekeyed(ch, before[p], after[p]))
    && (forall p :: p in before && p !in projects ==> after[p] == before[p])
  }

  /** After a successful change every key of every project decodes under the new encryption key to
      what it decoded to under the old one, unencrypted private keys included. */
  lemma RekeyPreservesMeaning(ch: Change, projects: seq<int>, before: Buckets, after: Buckets, p: int, i: nat)
    requires Lawful(ch.codec) && NoncesFit(ch)
    requires StoreRekeyed(ch, projects, before, after)
    requires p in projects && p in before && i < |before[p]|
    ensures i < |after[p]| && after[p][i].id == before[p][i].id && after[p][i].name == before[p][i].name
    ensures Meaning(ch.codec, ch.before, before[p][i].kind, before[p][i].secret).Some?
    ensures Meaning(ch.codec, ch.after, after[p][i].kind, after[p][i].secret) ==
            Meaning(ch.codec, ch.before, before[p][i].kind, before[p][i].secret)
    ensures after[p][i].secret.Some? ==> !IsLegacy(after[p][i].secret.value)
  {
    var k := before[p][i];
    assert RekeyedKey(ch, k) == Some(after[p][i]);
    var loaded := Fields(k.kind, k.secret, NO_SSH, NO_LOGIN);
    var unlocked := Deserialized(ch.codec, ch.before, loaded).value;
    assert unlocked.kind == k.kind && Relevant(unlocked) == (unlocked.ssh, unlocked.login);
    DeserializeSerialized(ch.codec, ch.after, ch.nonce(k), unlocked);
    SerializedIsNotLegacy(ch.codec, ch.after, ch.nonce(k), unlocked);
  }

  lemma RekeyKeepsWellformed(ch: Change, projects: seq<int>, before: Buckets, after: Buckets)
    requires Wellformed(before) && StoreRekeyed(ch, projects, before, after)
    ensures Wellformed(after)
  {
    forall p | p in after ensures WellformedBucket(p, after[p]) {
      assert WellformedBucket(p, before[p]);
      if p in projects {
        forall i | 0 <= i < |after[p]|
          ensures after[p][i].project == before[p][i].project && after[p][i].id == before[p][i].id
        {
          assert RekeyedKey(ch, before[p][i]) == Some(after[p][i]);
        }
      }
    }
  }

  class BoltStore {
    const projects: seq<int>
    var keys: Buckets

    constructor (projects: seq<int>, keys: Buckets)
      ensures this.projects == projects && this.keys == keys
    {
      this.projects := projects;
      this.keys := keys;
    }

    /** All keys change in one transaction or none does. */
    method RekeyAccessKeys(ch: Change) returns (ok: bool)
      requires Wellformed(keys)
      requires forall i, j :: 0 <= i < j < |projects| ==> projects[i] != projects[j]
      modifies this
      ensures ok <==> forall p, i :: p in projects && p in old(keys) && 0 <= i < |old(keys)[p]| ==>
                        RekeyedKey(ch, old(keys)[p][i]).Some?
      ensures ok ==> StoreRekeyed(ch, projects, old(keys), keys)
      ensures !ok ==> keys == old(keys)
    {
      var tx := keys;
      for n := 0 to |projects|
        invariant keys == old(keys) && StoreRekeyed(ch, projects[..n], keys, tx)
      {
        var p := projects[n];
        assert p !in projects[..n];
        if p in tx {
          assert tx[p] == keys[p];
          var bucket, good := RekeyBucket(ch, p, tx[p]);
          if !good {
            return false;
          }
          tx := tx[p := bucket];
        }
        assert projects[..n + 1] == projects[..n] + [p];
      }
      assert projects[..|projects|] == projects;
      forall p, i | p in projects && p in keys && 0 <= i < |keys[p]| ensures RekeyedKey(ch, keys[p][i]).Some? {
        assert BucketRekeyed(ch, keys[p], tx[p]);
      }
      keys := tx;
      return true;
    }
  }

  /** Replaces the key with the same id; it must exist. */
  method UpdateObject(bucket: seq<StoredKey>, key: StoredKey) returns (after: seq<StoredKey>, found: bool)
    ensures found <==> exists i :: 0 <= i < |bucket| && bucket[i].id == key.id
    ensures found ==> exists i :: 0 <= i < |bucket| && bucket[i].id == key.id && after == bucket[i := key]
  {
    for i := 0 to |bucket|
      invariant forall j :: 0 <= j < i ==> bucket[j].id != key.id
    {
      if bucket[i].id == key.id {
        return bucket[i := key], true;
      }
    }
    return bucket, false;
  }

  /** The inner loop: every key of a project as it was when the project was reached. */
  method RekeyBucket(ch: Change, p: int, keys: seq<StoredKey>) returns (bucket: seq<StoredKey>, ok: bool)
    requires WellformedBucket(p, keys)
    ensures ok <==> forall i :: 0 <= i < |keys| ==> RekeyedKey(ch, keys[i]).Some?
    ensures ok ==> BucketRekeyed(ch, keys, bucket)
  {
    bucket := keys;
    for i := 0 to |keys|
      invariant |bucket| == |keys| && forall j :: 0 <= j < |keys| ==> bucket[j].id == keys[j].id
      invariant forall j :: 0 <= j < i ==> RekeyedKey(ch, keys[j]) == Some(bucket[j])
    {
      var key := new AccessKey(keys[i].kind, keys[i].secret);
      var unlocked := key.DeserializeSecret(ch.codec, ch.before);
      if !unlocked {
        return bucket, false;
      }
      var locked := key.SerializeSecret(ch.codec, ch.after, ch.nonce(keys[i]));
      if !locked {
        return bucket, false;
      }
      var after, found := UpdateObject(bucket, keys[i].(secret := key.secret));
      assert bucket[i].id == keys[i].id;
      ghost var at :| 0 <= at < |bucket| && bucket[at].id == keys[i].id &&
          after == bucket[at := keys[i].(secret := key.secret)];
      assert at == i;
      bucket := after;
    }
    return bucket, true;
  }
}
