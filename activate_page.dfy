/**
 * The activation page (src/app/ativar/page.tsx): a two-step state machine.
 * In the "validate" step the visitor types the access key that came with
 * the card; a usable key moves the page to the "activate" step, where an
 * account is created for it.  The access-key table, the clock, the answers
 * of the authentication service and the router are parameters or fields.
 */
module ActivatePage {
  import opened Common
  import opened AccessKeys

  datatype Step = Validate | Activate

  /** The `maxLength` of the key input. */
  const MaxKeyLength: nat := 20

  const InvalidKeyMessage: string := "❌ Chave de acesso inválida. Verifique e tente novamente."
  const KeyActivatedMessage: string := "❌ Esta chave já foi ativada. Entre com suas credenciais."
  const KeyExpiredMessage: string := "❌ Esta chave de acesso expirou. Entre em contato com o suporte."
  const ShortPasswordMessage: string := "❌ A senha deve ter no mínimo 6 caracteres."
  const MismatchMessage: string := "❌ As senhas não coincidem."
  const AlreadyRegisteredMessage: string := "❌ Este email já está cadastrado. Faça login normalmente."
  const SignUpFailedPrefix: string := "❌ Erro ao criar conta: "
  const NoUserMessage: string := "❌ Erro ao criar usuário."

  const DashboardPath: string := "/dashboard"
  const LoginPath: string := "/auth/login?message=Conta criada! Faça login."

  /** The page's message for each refused key. */
  function KeyMessage(status: KeyStatus): (r: string)
    ensures status.Usable? <==> r == ""
  {
    match status
    case NotFound => InvalidKeyMessage
    case AlreadyActivated => KeyActivatedMessage
    case Expired => KeyExpiredMessage
    case Usable(_) => ""
  }

  /** The page refuses a key exactly when the library's `validateAccessKey` does. */
  lemma PageAgreesWithLibrary(accessKey: string, table: map<string, KeyRecord>, now: int)
    ensures KeyMessage(CheckKey(accessKey, table, now)) == "" <==> ValidateAccessKey(accessKey, table, now).Valid?
  {
  }

  /** `if (keyData.email)`: a present, non-empty email replaces what was typed. */
  function PrefilledEmail(record: KeyRecord, typed: string): (r: string)
    ensures record.email.Some? && record.email.value != [] ==> r == record.email.value
    ensures record.email.None? || record.email.value == [] ==> r == typed
  {
    if record.email.Some? && record.email.value != [] then record.email.value else typed
  }

  /** The password checks of `handleActivateAccount`: length first, then the confirmation. */
  function ActivationRefusal(password: string, confirmPassword: string): Option<string>
  {
    if |password| < 6 then Some(ShortPasswordMessage)
    else if password != confirmPassword then Some(MismatchMessage)
    else None
  }

  /** The passwords are accepted exactly when the password has six characters or more and is confirmed. */
  lemma ActivationRefusalIff(password: string, confirmPassword: string)
    ensures ActivationRefusal(password, confirmPassword).None? <==> |password| >= 6 && password == confirmPassword
    ensures |password| < 6 ==> ActivationRefusal(password, confirmPassword) == Some(ShortPasswordMessage)
    ensures |password| >= 6 && password != confirmPassword ==>
      ActivationRefusal(password, confirmPassword) == Some(MismatchMessage)
  {
  }

  /** The message shown when the sign-up call reports an error. */
  function SignUpErrorMessage(message: string): (r: string)
    ensures Contains(message, "already registered") ==> r == AlreadyRegisteredMessage
    ensures !Contains(message, "already registered") ==> r == SignUpFailedPrefix + message
  {
    if Contains(message, "already registered") then AlreadyRegisteredMessage else SignUpFailedPrefix + message
  }

  /** What `supabase.auth.signUp` answers. */
  datatype SignUpResult = SignUpError(message: string) | NoUser | SignedUp(userId: string)

  /** The `profiles` row inserted for a new account. */
  datatype ProfileRow = ProfileRow(userId: string, email: string, name: string, username: string)

  /** The update marking the key as used. */
  datatype KeyActivation = KeyActivation(accessKey: string, activatedAt: int, profileId: string, email: string)

  /** `email.split("@")[0]`. */
  function ProfileName(email: string): string
  {
    Split(email, '@')[0]
  }

  /** The profile name is the part of the email before its first "@". */
  lemma ProfileNameIsLocalPart(local: string, domain: string)
    requires '@' !in local
    ensures ProfileName(local + "@" + domain) == local
  {
    SplitAfterSeparator(local, domain, '@');
  }

  class Page {
    var accessKey: string
    var email: string
    var password: string
    var confirmPassword: string
    var showPassword: bool
    var loading: bool
    var error: string
    var step: Step
    /** The path the router was sent to, if any. */
    var destination: Option<string>

    constructor()
      ensures accessKey == "" && email == "" && password == "" && confirmPassword == ""
      ensures !showPassword && !loading && error == "" && step == Validate && destination == None
    {
      accessKey, email, password, confirmPassword := "", "", "", "";
      showPassword, loading, error, step := false, false, "", Validate;
      destination := None;
    }

    /** The key input: the browser keeps at most 20 characters and the handler upper-cases them. */
    method KeyInput(value: string)
      modifies this
      ensures accessKey == ToUpper(Take(value, MaxKeyLength))
      ensures |accessKey| <= MaxKeyLength
      ensures email == old(email) && password == old(password) && confirmPassword == old(confirmPassword)
      ensures step == old(step) && error == old(error) && loading == old(loading)
      ensures showPassword == old(showPassword) && destination == old(destination)
    {
      accessKey := ToUpper(Take(value, MaxKeyLength));
    }

    method EmailInput(value: string)
      modifies this
      ensures email == value
      ensures accessKey == old(accessKey) && password == old(password) && confirmPassword == old(confirmPassword)
      ensures step == old(step) && error == old(error) && loading == old(loading)
      ensures showPassword == old(showPassword) && destination == old(destination)
    {
      email := value;
    }

    method PasswordInput(value: string)
      modifies this
      ensures password == value
      ensures accessKey == old(accessKey) && email == old(email) && confirmPassword == old(confirmPassword)
      ensures step == old(step) && error == old(error) && loading == old(loading)
      ensures showPassword == old(showPassword) && destination == old(destination)
    {
      password := value;
    }

    method ConfirmPasswordInput(value: string)
      modifies this
      ensures confirmPassword == value
      ensures accessKey == old(accessKey) && email == old(email) && password == old(password)
      ensures step == old(step) && error == old(error) && loading == old(loading)
      ensures showPassword == old(showPassword) && destination == old(destination)
    {
      confirmPassword := value;
    }

    /** The eye button shows or hides both password inputs. */
    method ToggleShowPassword()
      modifies this
      ensures showPassword == !old(showPassword)
      ensures accessKey == old(accessKey) && email == old(email) && password == old(password)
      ensures confirmPassword == old(confirmPassword)
      ensures step == old(step) && error == old(error) && loading == old(loading) && destination == old(destination)
    {
      showPassword := !showPassword;
    }

    /**
     * `handleValidateKey`, whose form exists only in the "validate" step: the
     * page moves on exactly when the library would accept the key, and fills
     * in the email stored with it.
     */
    method HandleValidateKey(table: map<string, KeyRecord>, now: int)
      requires step == Validate
      modifies this
      ensures !loading
      ensures error == KeyMessage(CheckKey(old(accessKey), table, now))
      ensures step == Activate <==> ValidateAccessKey(old(accessKey), table, now).Valid?
      ensures step == Activate ==> email == PrefilledEmail(CheckKey(old(accessKey), table, now).record, old(email))
      ensures step == Validate ==> email == old(email)
      ensures accessKey == old(accessKey) && password == old(password) && confirmPassword == old(confirmPassword)
      ensures showPassword == old(showPassword) && destination == old(destination)
    {
      error := "";
      loading := true;
      var status := CheckKey(accessKey, table, now);
      ShowKeyStatus(status);
    }

    /** The part of `handleValidateKey` after the lookup: one message per refusal, or the next step. */
    method ShowKeyStatus(status: KeyStatus)
      requires step == Validate && error == ""
      modifies this
      ensures !loading
      ensures error == KeyMessage(status)
      ensures step == Activate <==> status.Usable?
      ensures status.Usable? ==> email == PrefilledEmail(status.record, old(email))
      ensures !status.Usable? ==> email == old(email)
      ensures accessKey == old(accessKey) && password == old(password) && confirmPassword == old(confirmPassword)
      ensures showPassword == old(showPassword) && destination == old(destination)
    {
      if status.NotFound? {
        error := InvalidKeyMessage;
      } else if status.AlreadyActivated? {
        error := KeyActivatedMessage;
      } else if status.Expired? {
        error := KeyExpiredMessage;
      } else {
        var record := status.record;
        if record.email.Some? && record.email.value != [] {
          email := record.email.value;
        }
        step := Activate;
      }
      loading := false;
    }

    /**
     * `handleActivateAccount`, whose form exists only in the "activate" step.
     * The password checks come first; then the sign-up answer decides: an
     * error or a missing user is shown, a new user gets a profile row and the
     * key is marked as activated (failures of those two writes are only
     * logged), and the router goes to the dashboard or, when the sign-in
     * fails, to the login page.  `now` is `Date.now()`.
     */
    method HandleActivateAccount(signUp: SignUpResult, signInSucceeds: bool, now: nat)
      returns (profile: Option<ProfileRow>, keyUpdate: Option<KeyActivation>)
      requires step == Activate
      modifies this
      ensures ActivationRefusal(old(password), old(confirmPassword)).Some? ==>
        error == ActivationRefusal(old(password), old(confirmPassword)).value &&
        loading == old(loading) && profile.None? && keyUpdate.None? && destination == old(destination)
      ensures ActivationRefusal(old(password), old(confirmPassword)).None? && signUp.SignUpError? ==>
        error == SignUpErrorMessage(signUp.message) && !loading && profile.None? && keyUpdate.None? &&
        destination == old(destination)
      ensures ActivationRefusal(old(password), old(confirmPassword)).None? && signUp.NoUser? ==>
        error == NoUserMessage && !loading && profile.None? && keyUpdate.None? && destination == old(destination)
      ensures ActivationRefusal(old(password), old(confirmPassword)).None? && signUp.SignedUp? ==>
        error == "" && loading &&
        profile == Some(ProfileRow(signUp.userId, old(email), ProfileName(old(email)), "user" + DecStr(now))) &&
        keyUpdate == Some(KeyActivation(Normalize(old(accessKey)), now, signUp.userId, old(email))) &&
        destination == Some(if signInSucceeds then DashboardPath else LoginPath)
      ensures accessKey == old(accessKey) && email == old(email) && password == old(password)
      ensures confirmPassword == old(confirmPassword) && step == old(step) && showPassword == old(showPassword)
    {
      profile, keyUpdate := None, None;
      error := "";
      if |password| < 6 {
        error := ShortPasswordMessage;
        return;
      }
      if password != confirmPassword {
        error := MismatchMessage;
        return;
      }
      loading := true;
      profile, keyUpdate := ApplySignUp(signUp, signInSucceeds, now);
    }

    /** The part of `handleActivateAccount` after the password checks: what the sign-up answer leads to. */
    method ApplySignUp(signUp: SignUpResult, signInSucceeds: bool, now: nat)
      returns (profile: Option<ProfileRow>, keyUpdate: Option<KeyActivation>)
      requires error == "" && loading
      modifies this
      ensures signUp.SignUpError? ==>
        error == SignUpErrorMessage(signUp.message) && !loading && profile.None? && keyUpdate.None? &&
        destination == old(destination)
      ensures signUp.NoUser? ==>
        error == NoUserMessage && !loading && profile.None? && keyUpdate.None? && destination == old(destination)
      ensures signUp.SignedUp? ==>
        error == "" && loading &&
        profile == Some(ProfileRow(signUp.userId, email, ProfileName(email), "user" + DecStr(now))) &&
        keyUpdate == Some(KeyActivation(Normalize(accessKey), now, signUp.userId, email)) &&
        destination == Some(if signInSucceeds then DashboardPath else LoginPath)
      ensures accessKey == old(accessKey) && email == old(email) && password == old(password)
      ensures confirmPassword == old(confirmPassword) && step == old(step) && showPassword == old(showPassword)
    {
      profile, keyUpdate := None, None;
      match signUp {
        case SignUpError(message) =>
          ShowSignUpFailure(SignUpErrorMessage(message));
        case NoUser =>
          ShowSignUpFailure(NoUserMessage);
        case SignedUp(userId) =>
          profile, keyUpdate := CreateAccount(userId, signInSucceeds, now);
      }
    }

    /** A refused sign-up: its message is shown and the form is usable again. */
    method ShowSignUpFailure(message: string)
      modifies this
      ensures error == message && !loading && destination == old(destination)
      ensures accessKey == old(accessKey) && email == old(email) && password == old(password)
      ensures confirmPassword == old(confirmPassword) && step == old(step) && showPassword == old(showPassword)
    {
      error := message;
      loading := false;
    }

    /** A new user: the profile row, the key update and the navigation that follow. */
    method CreateAccount(userId: string, signInSucceeds: bool, now: nat)
      returns (profile: Option<ProfileRow>, keyUpdate: Option<KeyActivation>)
      modifies this
      ensures profile == Some(ProfileRow(userId, email, ProfileName(email), "user" + DecStr(now)))
      ensures keyUpdate == Some(KeyActivation(Normalize(accessKey), now, userId, email))
      ensures destination == Some(if signInSucceeds then DashboardPath else LoginPath)
      ensures accessKey == old(accessKey) && email == old(email) && password == old(password)
      ensures confirmPassword == old(confirmPassword) && step == old(step) && showPassword == old(showPassword)
      ensures error == old(error) && loading == old(loading)
    {
      var normalizedKey := Normalize(accessKey);
      profile := Some(ProfileRow(userId, email, ProfileName(email), "user" + DecStr(now)));
      keyUpdate := Some(KeyActivation(normalizedKey, now, userId, email));
      destination := Some(if signInSucceeds then DashboardPath else LoginPath);
    }

    /** "VOLTAR" returns to the key step and keeps everything typed. */
    method Back()
      modifies this
      ensures step == Validate
      ensures accessKey == old(accessKey) && email == old(email) && password == old(password)
      ensures confirmPassword == old(confirmPassword) && error == old(error) && loading == old(loading)
      ensures showPassword == old(showPassword) && destination == old(destination)
    {
      step := Validate;
    }
  }

  /** A new account is only ever created for a key the library accepts: validation, then activation. */
  method ValidateThenActivate(page: Page, table: map<string, KeyRecord>, now: nat, signUp: SignUpResult,
                              signInSucceeds: bool)
    returns (profile: Option<ProfileRow>, keyUpdate: Option<KeyActivation>)
    requires page.step == Validate
    modifies page
    ensures keyUpdate.Some? ==> ValidateAccessKey(old(page.accessKey), table, now).Valid?
    ensures keyUpdate.Some? ==> keyUpdate.value.accessKey == Normalize(old(page.accessKey))
  {
    page.HandleValidateKey(table, now);
    profile, keyUpdate := None, None;
    if page.step == Activate {
      profile, keyUpdate := page.HandleActivateAccount(signUp, signInSucceeds, now);
    }
  }
}
