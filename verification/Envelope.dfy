/**
 Envelope encryption (siyadah_crypto.py) over an ideal AEAD.

 A ciphertext is the record of how it was sealed, so opening succeeds exactly on the key, IV and
 associated data it was sealed with (RFC 5116, section 2).  Everything around the cipher is the
 source's own: the versions, the length checks and the bytes of the associated data.
 */
module Envelope {
  import opened Wrappers

  type Byte = b: int | 0 <= b < 256
  type Bytes = seq<Byte>

  const CURRENT_ENCRYPTION_VERSION: int := 1
  const SUPPORTED_DECRYPT_VERSIONS: set<int> := {1}
  const MASTER_KEY_BYTES: nat := 32
  const DEK_BYTES: nat := 32
  const GCM_IV_BYTES: nat := 12

  /** The byte '|' that separates the parts of associated data. */
  const BAR: Byte := 0x7C

  datatype CryptoError = ConfigError | UnsupportedVersion | DecryptionFailed

  datatype Ciphertext = Ciphertext(key: Bytes, iv: Bytes, ad: Bytes, plain: Bytes)

  datatype Sealed = Sealed(iv: Bytes, ciphertext: Ciphertext)

  datatype WrappedDek = WrappedDek(iv: Bytes, ciphertext: Ciphertext, version: int)

  function Open(key: Bytes, iv: Bytes, ad: Bytes, c: Ciphertext): Option<Bytes> {
    if c.key == key && c.iv == iv && c.ad == ad then Some(c.plain) else None
  }

  /** The version as two big-endian bytes, then a bar, then the caller's data. */
  function BuildAad(userAad: Bytes, version: int): Result<Bytes, CryptoError> {
    if version < 0 || version > 0xFFFF then Err(ConfigError)
    else Ok([version / 256, version % 256, BAR] + userAad)
  }

  function WrapDek(mk: Bytes, dek: Bytes, iv: Bytes, aad: Bytes): Result<WrappedDek, CryptoError> {
    if |dek| != DEK_BYTES then Err(ConfigError)
    else
      match BuildAad(aad, CURRENT_ENCRYPTION_VERSION)
      case Err(e) => Err(e)
      case Ok(full) => Ok(WrappedDek(iv, Ciphertext(mk, iv, full, dek), CURRENT_ENCRYPTION_VERSION))
  }

  function UnwrapDek(mk: Bytes, w: WrappedDek, aad: Bytes): Result<Bytes, CryptoError> {
    if w.version !in SUPPORTED_DECRYPT_VERSIONS then Err(UnsupportedVersion)
    else
      match BuildAad(aad, w.version)
      case Err(e) => Err(e)
      case Ok(full) =>
        match Open(mk, w.iv, full, w.ciphertext)
        case None => Err(DecryptionFailed)
        case Some(dek) => Ok(dek)
  }

  function EncryptWithDek(plain: Bytes, dek: Bytes, iv: Bytes, aad: Bytes): Result<Sealed, CryptoError> {
    if |dek| != DEK_BYTES then Err(ConfigError)
    else
      match BuildAad(aad, CURRENT_ENCRYPTION_VERSION)
      case Err(e) => Err(e)
      case Ok(full) => Ok(Sealed(iv, Ciphertext(dek, iv, full, plain)))
  }

  function DecryptWithDek(s: Sealed, dek: Bytes, version: int, aad: Bytes): Result<Bytes, CryptoError> {
    if version !in SUPPORTED_DECRYPT_VERSIONS then Err(UnsupportedVersion)
    else if |dek| != DEK_BYTES then Err(ConfigError)
    else
      match BuildAad(aad, version)
      case Err(e) => Err(e)
      case Ok(full) =>
        match Open(dek, s.iv, full, s.ciphertext)
        case None => Err(DecryptionFailed)
        case Some(plain) => Ok(plain)
  }

  // ------------------------------------------------------------------
  // Associated data of a stored row
  // ------------------------------------------------------------------

  /** The row identity every ciphertext of a row is bound to. */
  function RowAad(tenant: Bytes, provider: Bytes, id: Bytes): Bytes {
    tenant + [BAR] + provider + [BAR] + id
  }

  datatype Slot = AccessSlot | RefreshSlot

  /** "|access" and "|refresh". */
  function SlotSuffix(slot: Slot): Bytes {
    match slot
    case AccessSlot => [BAR, 0x61, 0x63, 0x63, 0x65, 0x73, 0x73]
    case RefreshSlot => [BAR, 0x72, 0x65, 0x66, 0x72, 0x65, 0x73, 0x68]
  }

  datatype Place = Place(tenant: Bytes, provider: Bytes, id: Bytes, slot: Slot) {
    /** Provider names and row ids never hold a bar; tenant names may. */
    predicate WellNamed() { BAR !in provider && BAR !in id }

    function Aad(): Bytes { RowAad(tenant, provider, id) + SlotSuffix(slot) }
  }

  predicate Ascii(s: string) { forall i :: 0 <= i < |s| ==> s[i] < 128 as char }

  function AsciiBytes(s: string): Bytes
    requires Ascii(s)
  {
    seq(|s|, i requires 0 <= i < |s| => s[i] as int)
  }

  /** The parts are joined as text: tenant|provider|id, then |access or |refresh. */
  lemma AadTexts(tenant: Bytes, provider: Bytes, id: Bytes)
    ensures Ascii("|") && Ascii("|access") && Ascii("|refresh")
    ensures RowAad(tenant, provider, id) == tenant + AsciiBytes("|") + provider + AsciiBytes("|") + id
    ensures SlotSuffix(AccessSlot) == AsciiBytes("|access") && SlotSuffix(RefreshSlot) == AsciiBytes("|refresh")
  {
  }

  /** A string has at most one reading as head + [BAR] + tail with a bar-free tail. */
  lemma SplitAtLastBar(a: Bytes, x: Bytes, b: Bytes, y: Bytes)
    requires BAR !in x && BAR !in y
    requires a + [BAR] + x == b + [BAR] + y
    ensures a == b && x == y
  {
    var s := a + [BAR] + x;
    var t := b + [BAR] + y;
    assert s[|a|] == BAR && t[|b|] == BAR;
    assert forall k :: |a| < k < |s| ==> s[k] == x[k - |a| - 1];
    assert forall k :: |b| < k < |t| ==> t[k] == y[k - |b| - 1];
    assert |a| == |b|;
    assert a == s[..|a|] && b == t[..|b|];
    assert x == s[|a| + 1..] && y == t[|b| + 1..];
  }

  lemma RowAadInjective(t1: Bytes, p1: Bytes, i1: Bytes, t2: Bytes, p2: Bytes, i2: Bytes)
    requires BAR !in p1 && BAR !in i1 && BAR !in p2 && BAR !in i2
    requires RowAad(t1, p1, i1) == RowAad(t2, p2, i2)
    ensures t1 == t2 && p1 == p2 && i1 == i2
  {
    SplitAtLastBar(t1 + [BAR] + p1, i1, t2 + [BAR] + p2, i2);
    SplitAtLastBar(t1, p1, t2, p2);
  }

  /** Tenant, provider, row id and slot are all recoverable from the associated data. */
  lemma PlaceAadInjective(a: Place, b: Place)
    requires a.WellNamed() && b.WellNamed()
    requires a.Aad() == b.Aad()
    ensures a == b
  {
    var ra := RowAad(a.tenant, a.provider, a.id);
    var rb := RowAad(b.tenant, b.provider, b.id);
    var sa, sb := SlotSuffix(a.slot), SlotSuffix(b.slot);
    assert sa == [BAR] + sa[1..] && sb == [BAR] + sb[1..];
    assert ra + sa == ra + [BAR] + sa[1..];
    assert rb + sb == rb + [BAR] + sb[1..];
    SplitAtLastBar(ra, sa[1..], rb, sb[1..]);
    assert |sa| == |sb|;
    RowAadInjective(a.tenant, a.provider, a.id, b.tenant, b.provider, b.id);
  }

  /** Two bytes with the version, most significant first, the byte 0x7C, and the caller's data. */
  predicate LaidOut(userAad: Bytes, version: int, full: Bytes) {
    && |full| == |userAad| + 3 && full[0] as int * 256 + full[1] as int == version && full[2] == 0x7C
    && full[3..] == userAad
  }

  lemma BuildAadIs(userAad: Bytes, version: int, full: Bytes)
    ensures BuildAad(userAad, version) == Ok(full) <==> LaidOut(userAad, version, full)
    ensures BuildAad(userAad, version).Err? <==> version < 0 || version > 65535
  {
    if BuildAad(userAad, version).Ok? {
      assert BuildAad(userAad, version).value[3..] == userAad;
    }
    if LaidOut(userAad, version, full) {
      assert full == [full[0], full[1], full[2]] + full[3..];
    }
  }

  lemma BuildAadInjective(a: Bytes, v: int, b: Bytes, w: int)
    requires BuildAad(a, v).Ok? && BuildAad(a, v) == BuildAad(b, w)
    ensures a == b && v == w
  {
    var x := BuildAad(a, v).value;
    var y := BuildAad(b, w).value;
    assert x[0] == y[0] && x[1] == y[1];
    assert a == x[3..] && b == y[3..];
  }

  /**
   A token ciphertext opens at a place, under a key and a claimed version, exactly when that is the
   place, the key and the version it was sealed for.
   */
  lemma OpensOnlyWhereSealed(plain: Bytes, dek: Bytes, iv: Bytes, home: Place,
                             key: Bytes, version: int, place: Place)
    requires |dek| == DEK_BYTES
    requires home.WellNamed() && place.WellNamed()
    ensures EncryptWithDek(plain, dek, iv, home.Aad()).Ok?
    ensures var s := EncryptWithDek(plain, dek, iv, home.Aad()).value;
            && (DecryptWithDek(s, key, version, place.Aad()).Ok? <==>
                key == dek && place == home && version == CURRENT_ENCRYPTION_VERSION)
            && (DecryptWithDek(s, key, version, place.Aad()).Ok? ==>
                DecryptWithDek(s, key, version, place.Aad()).value == plain)
  {
    var s := EncryptWithDek(plain, dek, iv, home.Aad()).value;
    if DecryptWithDek(s, key, version, place.Aad()).Ok? {
      BuildAadInjective(home.Aad(), CURRENT_ENCRYPTION_VERSION, place.Aad(), version);
      PlaceAadInjective(home, place);
    }
  }

  /** The order of the refusals: the version, the length of the key, and only then the cipher. */
  lemma RefusedFor(s: Sealed, w: WrappedDek, key: Bytes, version: int, aad: Bytes)
    ensures DecryptWithDek(s, key, version, aad) == Err(UnsupportedVersion) <==> version != 1
    ensures DecryptWithDek(s, key, version, aad) == Err(ConfigError) <==> version == 1 && |key| != 32
    ensures UnwrapDek(key, w, aad) == Err(UnsupportedVersion) <==> w.version != 1
  {
  }

  /** A wrapped data key unwraps exactly under its master key, its row and its version. */
  lemma UnwrapsOnlyForItsRow(mk: Bytes, dek: Bytes, iv: Bytes, home: Place,
                             key: Bytes, version: int, place: Place)
    requires |dek| == DEK_BYTES
    requires home.WellNamed() && place.WellNamed()
    ensures WrapDek(mk, dek, iv, RowAad(home.tenant, home.provider, home.id)).Ok?
    ensures var w := WrapDek(mk, dek, iv, RowAad(home.tenant, home.provider, home.id)).value.(version := version);
            UnwrapDek(key, w, RowAad(place.tenant, place.provider, place.id)) == Ok(dek) <==>
            (key == mk && version == CURRENT_ENCRYPTION_VERSION
             && place.tenant == home.tenant && place.provider == home.provider && place.id == home.id)
  {
    var ha := RowAad(home.tenant, home.provider, home.id);
    var pa := RowAad(place.tenant, place.provider, place.id);
    var w := WrapDek(mk, dek, iv, ha).value.(version := version);
    if UnwrapDek(key, w, pa).Ok? {
      BuildAadInjective(ha, CURRENT_ENCRYPTION_VERSION, pa, version);
      RowAadInjective(home.tenant, home.provider, home.id, place.tenant, place.provider, place.id);
    }
  }
}
