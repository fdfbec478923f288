/**
 * The Pix settings editor of the dashboard: the per-type key validator, the
 * gates in front of payload generation and saving, and the automatic
 * regeneration when the form is complete.
 */
module PixManager {
  import opened Common
  import opened PixPayload

  // ---------------------------------------------------------------------------
  // The e-mail pattern ^[^\s@]+@[^\s@]+\.[^\s@]+$
  // ---------------------------------------------------------------------------

  /** A character of `[^\s@]`. */
  predicate AtomChar(c: char) { !IsWhitespace(c) && c != '@' }

  /** A match of `[^\s@]+`. */
  predicate Atom(s: string) { |s| > 0 && forall k :: 0 <= k < |s| ==> AtomChar(s[k]) }

  /** The pattern read as a language: three atoms separated by `@` and `.`. */
  ghost predicate EmailPattern(s: string)
  {
    exists i, j :: 0 <= i < j < |s| && s[i] == '@' && s[j] == '.' &&
      Atom(s[..i]) && Atom(s[i + 1..j]) && Atom(s[j + 1..])
  }

  /** The first index of `c` in `s`. */
  function IndexOf(s: string, c: char): (r: Option<nat>)
    ensures r.None? <==> c !in s
    ensures r.Some? ==> r.value < |s| && s[r.value] == c && forall k :: 0 <= k < r.value ==> s[k] != c
  {
    if s == [] then None
    else if s[0] == c then Some(0)
    else match IndexOf(s[1..], c) {
      case None => None
      case Some(k) =>
        assert forall m :: 1 <= m < k + 1 ==> s[m] == s[1..][m - 1];
        Some(k + 1)
    }
  }

  /** The part after `@`: only atom characters, with a `.` that is neither first nor last. */
  predicate MatchDomain(d: string)
  {
    |d| >= 3 && (forall k :: 0 <= k < |d| ==> AtomChar(d[k])) && '.' in d[1..|d| - 1]
  }

  /** A matcher for the e-mail pattern: split at the first `@`. */
  predicate MatchEmail(s: string)
  {
    match IndexOf(s, '@') {
      case None => false
      case Some(at) => Atom(s[..at]) && MatchDomain(s[at + 1..])
    }
  }

  lemma MatchDomainIff(d: string)
    ensures MatchDomain(d) <==>
      exists j :: 0 <= j < |d| && d[j] == '.' && Atom(d[..j]) && Atom(d[j + 1..])
  {
    if MatchDomain(d) {
      var j :| 0 <= j < |d[1..|d| - 1]| && d[1..|d| - 1][j] == '.';
      DomainSplit(d, j + 1);
    }
    if exists j :: 0 <= j < |d| && d[j] == '.' && Atom(d[..j]) && Atom(d[j + 1..]) {
      var j :| 0 <= j < |d| && d[j] == '.' && Atom(d[..j]) && Atom(d[j + 1..]);
      DomainJoin(d, j);
    }
  }

  lemma DomainSplit(d: string, j: nat)
    requires MatchDomain(d) && 1 <= j < |d| - 1 && d[j] == '.'
    ensures Atom(d[..j]) && Atom(d[j + 1..])
  {
    forall k | 0 <= k < j ensures AtomChar(d[..j][k]) {
      assert d[..j][k] == d[k];
    }
    var t := d[j + 1..];
    forall k | 0 <= k < |t| ensures AtomChar(t[k]) {
      assert t[k] == d[j + 1 + k];
    }
  }

  lemma DomainJoin(d: string, j: nat)
    requires j < |d| && d[j] == '.' && Atom(d[..j]) && Atom(d[j + 1..])
    ensures MatchDomain(d)
  {
    forall k | 0 <= k < |d| ensures AtomChar(d[k]) {
      if k < j { assert d[..j][k] == d[k]; }
      else if k > j { assert d[j + 1..][k - j - 1] == d[k]; }
    }
    assert d[1..|d| - 1][j - 1] == '.';
  }

  lemma MatchEmailSound(s: string)
    requires MatchEmail(s)
    ensures EmailPattern(s)
  {
    var at := IndexOf(s, '@').value;
    var d := s[at + 1..];
    MatchDomainIff(d);
    var j :| 0 <= j < |d| && d[j] == '.' && Atom(d[..j]) && Atom(d[j + 1..]);
    PatternAt(s, at, at + 1 + j);
  }

  /** The three atoms around an `@` at `i` and a `.` at `j` make a match of the pattern. */
  lemma PatternAt(s: string, i: nat, j: nat)
    requires i < j < |s| && s[i] == '@' && s[j] == '.'
    requires Atom(s[..i]) && Atom(s[i + 1..][..j - i - 1]) && Atom(s[i + 1..][j - i..])
    ensures EmailPattern(s)
  {
    assert s[i + 1..][..j - i - 1] == s[i + 1..j];
    assert s[i + 1..][j - i..] == s[j + 1..];
  }

  /** In a match of the pattern, the `@` is the first one. */
  lemma PatternFirstAt(s: string, i: nat)
    requires i < |s| && s[i] == '@' && Atom(s[..i])
    ensures IndexOf(s, '@') == Some(i)
  {
    forall k | 0 <= k < i ensures s[k] != '@' { assert AtomChar(s[..i][k]); }
    assert '@' in s;
  }

  lemma MatchEmailComplete(s: string)
    requires EmailPattern(s)
    ensures MatchEmail(s)
  {
    var i, j :| 0 <= i < j < |s| && s[i] == '@' && s[j] == '.' &&
      Atom(s[..i]) && Atom(s[i + 1..j]) && Atom(s[j + 1..]);
    PatternFirstAt(s, i);
    PatternDomain(s, i, j);
  }

  /** The part after the `@` of a match is a domain the matcher accepts. */
  lemma PatternDomain(s: string, i: nat, j: nat)
    requires i < j < |s| && s[j] == '.' && Atom(s[i + 1..j]) && Atom(s[j + 1..])
    ensures MatchDomain(s[i + 1..])
  {
    var d := s[i + 1..];
    assert d[..j - i - 1] == s[i + 1..j];
    assert d[j - i - 1 + 1..] == s[j + 1..];
    DomainJoin(d, j - i - 1);
  }

  /** The matcher accepts exactly the strings of the pattern. */
  lemma MatchEmailIff(s: string)
    ensures MatchEmail(s) <==> EmailPattern(s)
  {
    if MatchEmail(s) { MatchEmailSound(s); }
    if EmailPattern(s) { MatchEmailComplete(s); }
  }

  // ---------------------------------------------------------------------------
  // validatePixKey
  // ---------------------------------------------------------------------------

  /** `validatePixKey(key, type)`: the key types are the strings of the select. */
  predicate ValidatePixKey(key: string, pixType: string)
  {
    if pixType == "cpf" then |DigitsOnly(key)| == 11
    else if pixType == "cnpj" then |DigitsOnly(key)| == 14
    else if pixType == "email" then MatchEmail(key)
    else if pixType == "phone" then 10 <= |DigitsOnly(key)| <= 11
    else if pixType == "random" then |key| == 32
    else false
  }

  /** Per type, what makes a key valid; any other type accepts no key. */
  lemma ValidatePixKeyCases(key: string, pixType: string)
    ensures pixType == "cpf" ==> (ValidatePixKey(key, pixType) <==> |DigitsOnly(key)| == 11)
    ensures pixType == "cnpj" ==> (ValidatePixKey(key, pixType) <==> |DigitsOnly(key)| == 14)
    ensures pixType == "email" ==> (ValidatePixKey(key, pixType) <==> EmailPattern(key))
    ensures pixType == "phone" ==> (ValidatePixKey(key, pixType) <==> 10 <= |DigitsOnly(key)| <= 11)
    ensures pixType == "random" ==> (ValidatePixKey(key, pixType) <==> |key| == 32)
    ensures pixType !in {"cpf", "cnpj", "email", "phone", "random"} ==> !ValidatePixKey(key, pixType)
  {
    MatchEmailIff(key);
  }

  /** Separators do not matter to the digit-counting types: only the digits are compared. */
  lemma SeparatorsIgnored(a: string, b: string, pixType: string)
    requires pixType in {"cpf", "cnpj", "phone"}
    requires DigitsOnly(a) == DigitsOnly(b)
    ensures ValidatePixKey(a, pixType) <==> ValidatePixKey(b, pixType)
  {
  }

  /** Even for e-mail and random keys, the key placed in the payload holds only digits. */
  lemma EncodedKeyDigits(key: string, pixType: string)
    requires ValidatePixKey(key, pixType)
    ensures AllDigits(EncodedKey(key)) && |EncodedKey(key)| <= |key|
    ensures pixType == "email" ==> '@' !in EncodedKey(key)
  {
  }

  // ---------------------------------------------------------------------------
  // The component
  // ---------------------------------------------------------------------------

  datatype PixForm = PixForm(pixKey: string, pixType: string, beneficiaryName: string, city: string)

  /** The fields of the form `handleChange` can set. */
  datatype FormField = Key | KeyType | BeneficiaryName | City

  function WithField(form: PixForm, field: FormField, value: string): (r: PixForm)
    ensures field == Key ==> r == form.(pixKey := value)
    ensures field == KeyType ==> r == form.(pixType := value)
    ensures field == BeneficiaryName ==> r == form.(beneficiaryName := value)
    ensures field == City ==> r == form.(city := value)
  {
    match field
    case Key => form.(pixKey := value)
    case KeyType => form.(pixType := value)
    case BeneficiaryName => form.(beneficiaryName := value)
    case City => form.(city := value)
  }

  /** The effect on `formData` regenerates the QR only for a complete form. */
  predicate ShouldAutoGenerate(form: PixForm)
  {
    form.pixKey != "" && form.beneficiaryName != "" && form.city != ""
  }

  /** The `pix` object saved with the profile. */
  datatype PixUpdate = PixUpdate(
    pixEnabled: bool, pixKey: string, pixType: string,
    pix: PixForm)

  /**
   * `handleSave`: the update sent to the profile row, or `None` when the key
   * is invalid for its type and nothing is saved.
   */
  function SaveRequest(form: PixForm): (r: Option<PixUpdate>)
    ensures r.None? <==> !ValidatePixKey(form.pixKey, form.pixType)
    ensures r.Some? ==>
              r.value.pixEnabled && r.value.pixKey == form.pixKey &&
              r.value.pixType == form.pixType && r.value.pix == form
  {
    if !ValidatePixKey(form.pixKey, form.pixType) then None
    else Some(PixUpdate(true, form.pixKey, form.pixType, form))
  }

  class Manager {
    var formData: PixForm
    var qrCodeUrl: string
    var pixPayload: string

    /**
     * The editor with the form loaded from the profile, followed by the
     * effect on `formData`: a complete form is encoded at once, as
     * `GenerateQRCode` does; otherwise there is no URL and no payload yet.
     */
    constructor (form: PixForm, qrResult: Option<string>)
      ensures formData == form
      ensures !ShouldAutoGenerate(form) ==> qrCodeUrl == "" && pixPayload == ""
      ensures ShouldAutoGenerate(form) && !ValidatePixKey(form.pixKey, form.pixType) ==>
        qrCodeUrl == "" && pixPayload == ""
      ensures ShouldAutoGenerate(form) && ValidatePixKey(form.pixKey, form.pixType) ==>
        pixPayload == Payload(form.pixKey, form.beneficiaryName, form.city, 0) &&
        qrCodeUrl == (if qrResult.Some? then qrResult.value else "")
    {
      formData := form;
      qrCodeUrl := "";
      pixPayload := "";
      new;
      if ShouldAutoGenerate(formData) {
        GenerateQRCode(qrResult);
      }
    }

    /**
     * `generateQRCode`: an invalid key clears the URL and the payload and
     * encodes nothing; a valid one stores the payload without amount and
     * then the library's URL, or "" when the library throws.
     */
    method GenerateQRCode(qrResult: Option<string>)
      modifies this
      ensures formData == old(formData)
      ensures !ValidatePixKey(formData.pixKey, formData.pixType) ==> qrCodeUrl == "" && pixPayload == ""
      ensures ValidatePixKey(formData.pixKey, formData.pixType) ==>
        pixPayload == Payload(formData.pixKey, formData.beneficiaryName, formData.city, 0) &&
        qrCodeUrl == (if qrResult.Some? then qrResult.value else "")
    {
      if !ValidatePixKey(formData.pixKey, formData.pixType) {
        qrCodeUrl := "";
        pixPayload := "";
        return;
      }
      var payload := GeneratePayload(formData.pixKey, formData.beneficiaryName, formData.city);
      pixPayload := payload;
      match qrResult {
        case Some(url) => qrCodeUrl := url;
        case None => qrCodeUrl := "";
      }
    }

    /**
     * `handleChange` followed by the effect on `formData`: one field is set,
     * and the QR is regenerated when key, name and city are all filled in.
     */
    method HandleChange(field: FormField, value: string, qrResult: Option<string>)
      modifies this
      ensures formData == WithField(old(formData), field, value)
      ensures !ShouldAutoGenerate(formData) ==> qrCodeUrl == old(qrCodeUrl) && pixPayload == old(pixPayload)
      ensures ShouldAutoGenerate(formData) && !ValidatePixKey(formData.pixKey, formData.pixType) ==>
        qrCodeUrl == "" && pixPayload == ""
      ensures ShouldAutoGenerate(formData) && ValidatePixKey(formData.pixKey, formData.pixType) ==>
        pixPayload == Payload(formData.pixKey, formData.beneficiaryName, formData.city, 0) &&
        qrCodeUrl == (if qrResult.Some? then qrResult.value else "")
    {
      formData := WithField(formData, field, value);
      if ShouldAutoGenerate(formData) {
        GenerateQRCode(qrResult);
      }
    }
  }

  /** What PixManager encodes has no amount field and seven objects before the checksum. */
  lemma ManagerPayloadHasNoAmount(form: PixForm)
    ensures FieldValue(PayloadObjects(form.pixKey, form.beneficiaryName, form.city, 0), "54") == None
    ensures ChecksumValid(Payload(form.pixKey, form.beneficiaryName, form.city, 0))
  {
    NoAmountField(form.pixKey, form.beneficiaryName, form.city);
    PayloadChecksumValid(form.pixKey, form.beneficiaryName, form.city, 0);
  }
}
