/**
 * Access keys (src/lib/accessKeys.ts): a key sold with a card is looked up
 * after normalisation and is usable only when it exists, has not been
 * activated and has not expired, checked in that order.  The `access_keys`
 * table is a map from the stored key to its row; instants are milliseconds
 * since the epoch, and an `expires_at` that is absent, empty or not a date
 * is `None`.
 */
module AccessKeys {
  import opened Common

  datatype KeyRecord = KeyRecord(
    accessKey: string, isActivated: bool, expiresAt: Option<int>, email: Option<string>)

  /** `accessKey.trim().toUpperCase()`. */
  function Normalize(accessKey: string): string
  {
    ToUpper(Trim(accessKey))
  }

  lemma UpperCharWhitespace(c: char)
    ensures IsWhitespace(UpperChar(c)) <==> IsWhitespace(c)
    ensures UpperChar(UpperChar(c)) == UpperChar(c)
  {
  }

  /** Upper-casing a text that neither begins nor ends in white space keeps it so. */
  lemma UpperEnds(t: string)
    requires t != [] ==> !IsWhitespace(t[0]) && !IsWhitespace(t[|t| - 1])
    ensures var n := ToUpper(t); n != [] ==> !IsWhitespace(n[0]) && !IsWhitespace(n[|n| - 1])
  {
    var n := ToUpper(t);
    if t != [] {
      assert n[0] == UpperChar(t[0]) && n[|n| - 1] == UpperChar(t[|t| - 1]);
      UpperCharWhitespace(t[0]);
      UpperCharWhitespace(t[|t| - 1]);
    }
  }

  /** Normalising twice is normalising once. */
  lemma NormalizeIdempotent(accessKey: string)
    ensures Normalize(Normalize(accessKey)) == Normalize(accessKey)
  {
    var t := Trim(accessKey);
    UpperEnds(t);
    TrimUnchanged(ToUpper(t));
    ToUpperIdempotent(t);
  }

  /** The result of a normalisation has no lower-case ASCII letter. */
  lemma NormalizeUpper(accessKey: string)
    ensures forall i :: 0 <= i < |Normalize(accessKey)| ==> !('a' <= Normalize(accessKey)[i] <= 'z')
  {
  }

  /** The result of a normalisation has no white space at either end. */
  lemma NormalizeTrimmed(accessKey: string)
    ensures Normalize(accessKey) != [] ==>
      !IsWhitespace(Normalize(accessKey)[0]) && !IsWhitespace(Normalize(accessKey)[|Normalize(accessKey)| - 1])
  {
    var t := Trim(accessKey);
    assert t != [] ==> !IsWhitespace(t[0]) && !IsWhitespace(t[|t| - 1]);
    UpperEnds(t);
    assert Normalize(accessKey) == ToUpper(t);
  }

  /** The four ways a lookup can end, shared by the library and the activation page. */
  datatype KeyStatus = NotFound | AlreadyActivated | Expired | Usable(record: KeyRecord)

  /** `new Date(expires_at) < new Date()`: strictly before now. */
  predicate IsExpired(record: KeyRecord, now: int)
  {
    record.expiresAt.Some? && record.expiresAt.value < now
  }

  /** Lookup of a normalised key, then the activated check, then the expiry check. */
  function Lookup(key: string, table: map<string, KeyRecord>, now: int): KeyStatus
  {
    if key !in table then NotFound
    else if table[key].isActivated then AlreadyActivated
    else if IsExpired(table[key], now) then Expired
    else Usable(table[key])
  }

  /** The chain applied to the key as typed. */
  function CheckKey(accessKey: string, table: map<string, KeyRecord>, now: int): KeyStatus
  {
    Lookup(Normalize(accessKey), table, now)
  }

  /**
   * A key is usable exactly when its normalised form is stored, not activated
   * and not expired, and then it is that row.
   */
  lemma UsableIff(accessKey: string, table: map<string, KeyRecord>, now: int)
    ensures CheckKey(accessKey, table, now).Usable? <==>
      (Normalize(accessKey) in table && !table[Normalize(accessKey)].isActivated &&
       !IsExpired(table[Normalize(accessKey)], now))
    ensures CheckKey(accessKey, table, now).Usable? ==>
      CheckKey(accessKey, table, now).record == table[Normalize(accessKey)]
  {
  }

  /** The order of the checks: a missing key is reported first, and an activated key even when it has also expired. */
  lemma CheckOrder(accessKey: string, table: map<string, KeyRecord>, now: int)
    ensures Normalize(accessKey) !in table <==> CheckKey(accessKey, table, now) == NotFound
    ensures Normalize(accessKey) in table && table[Normalize(accessKey)].isActivated <==>
      CheckKey(accessKey, table, now) == AlreadyActivated
    ensures CheckKey(accessKey, table, now) == Expired <==>
      (Normalize(accessKey) in table && !table[Normalize(accessKey)].isActivated &&
       IsExpired(table[Normalize(accessKey)], now))
  {
  }

  /** A key that expires at the current instant, or never, has not expired. */
  lemma ExpiryIsStrict(record: KeyRecord, now: int)
    requires record.expiresAt == Some(now) || record.expiresAt.None?
    ensures !IsExpired(record, now)
  {
  }

  /** Surrounding white space and letter case of the typed key do not matter. */
  lemma CheckKeyNormalized(accessKey: string, table: map<string, KeyRecord>, now: int)
    ensures CheckKey(Normalize(accessKey), table, now) == CheckKey(accessKey, table, now)
  {
    var n := Normalize(accessKey);
    calc {
      CheckKey(n, table, now);
      Lookup(Normalize(n), table, now);
      { NormalizeIdempotent(accessKey); }
      Lookup(n, table, now);
    }
  }

  const KeyNotFound: string := "Chave não encontrada"
  const KeyAlreadyActivated: string := "Chave já ativada"
  const KeyExpired: string := "Chave expirada"

  /** `{ valid: true, data }` or `{ valid: false, error }`. */
  datatype Validation = Valid(data: KeyRecord) | Invalid(error: string)

  /** `validateAccessKey`, with the table and the clock as parameters. */
  function ValidateAccessKey(accessKey: string, table: map<string, KeyRecord>, now: int): (r: Validation)
    ensures r.Valid? <==> CheckKey(accessKey, table, now).Usable?
    ensures r.Valid? ==> r.data == CheckKey(accessKey, table, now).record
    ensures r.Invalid? ==> r.error in {KeyNotFound, KeyAlreadyActivated, KeyExpired}
  {
    match CheckKey(accessKey, table, now)
    case NotFound => Invalid(KeyNotFound)
    case AlreadyActivated => Invalid(KeyAlreadyActivated)
    case Expired => Invalid(KeyExpired)
    case Usable(record) => Valid(record)
  }

  /** Each refusal has its own message, so the message tells the reason apart. */
  lemma ValidationMessages(accessKey: string, table: map<string, KeyRecord>, now: int)
    ensures ValidateAccessKey(accessKey, table, now) == Invalid(KeyNotFound) <==>
      CheckKey(accessKey, table, now) == NotFound
    ensures ValidateAccessKey(accessKey, table, now) == Invalid(KeyAlreadyActivated) <==>
      CheckKey(accessKey, table, now) == AlreadyActivated
    ensures ValidateAccessKey(accessKey, table, now) == Invalid(KeyExpired) <==>
      CheckKey(accessKey, table, now) == Expired
  {
  }
}
