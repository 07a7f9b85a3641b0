// The account form validator: per-field error messages for a submission,
// the "any errors?" test, and the options of the type selector.

module Validation {
  import opened AccountTypes
  import opened Text

  const MaxLabelsLength: nat := 50
  const MaxCredentialLength: nat := 100

  const LabelsTooLong := "Метки не могут содержать более 50 символов"
  const TypeRequired := "Необходимо выбрать тип записи"
  const LoginRequired := "Логин обязателен для заполнения"
  const LoginTooLong := "Логин не может содержать более 100 символов"
  const PasswordRequired := "Пароль обязателен для локального типа"
  const PasswordTooLong := "Пароль не может содержать более 100 символов"

  /** The selector values the validator accepts. */
  predicate IsKnownTypeName(name: string) {
    name == "LDAP" || name == "Локальная"
  }

  /** The accepted values are exactly the names of the account kinds. */
  lemma KnownTypeNames(name: string)
    ensures IsKnownTypeName(name) <==> exists t :: TypeName(t) == name
  {
    if IsKnownTypeName(name) {
      assert TypeName(if name == "LDAP" then Ldap else Local) == name;
    }
  }

  /** validateAccount: one optional message per field.
      - labels: the raw string is longer than 50 characters;
      - type: the value is unset or not one of the two kind names;
      - login: blank (required), else longer than 100 characters;
      - password: only for the local kind; blank (required), else longer than 100. */
  function ValidateAccount(data: AccountFormData): (errors: ValidationErrors)
    ensures errors.labels.Some? <==> |data.labels| > MaxLabelsLength
    ensures errors.labels.Some? ==> errors.labels.value == LabelsTooLong
    ensures errors.accountType.Some? <==> !IsKnownTypeName(data.accountType)
    ensures errors.accountType.Some? ==> errors.accountType.value == TypeRequired
    ensures errors.login == Some(LoginRequired) <==> IsBlank(data.login)
    ensures errors.login == Some(LoginTooLong)
        <==> !IsBlank(data.login) && |data.login| > MaxCredentialLength
    ensures errors.login.None? <==> !IsBlank(data.login) && |data.login| <= MaxCredentialLength
    ensures data.accountType != TypeName(Local) ==> errors.password.None?
    ensures data.accountType == TypeName(Local) ==>
      && (errors.password == Some(PasswordRequired) <==> IsBlank(data.password))
      && (errors.password == Some(PasswordTooLong)
          <==> !IsBlank(data.password) && |data.password| > MaxCredentialLength)
      && (errors.password.None?
          <==> !IsBlank(data.password) && |data.password| <= MaxCredentialLength)
  {
    TrimEmptyIffBlank(data.login);
    TrimEmptyIffBlank(data.password);
    ValidationErrors(
      if |data.labels| > MaxLabelsLength then Some(LabelsTooLong) else None,
      if !IsKnownTypeName(data.accountType) then Some(TypeRequired) else None,
      if Trim(data.login) == [] then Some(LoginRequired)
      else if |data.login| > MaxCredentialLength then Some(LoginTooLong)
      else None,
      if data.accountType != TypeName(Local) then None
      else if Trim(data.password) == [] then Some(PasswordRequired)
      else if |data.password| > MaxCredentialLength then Some(PasswordTooLong)
      else None)
  }

  /** The keys the error object ends up with, in the order they are set. */
  function ErrorKeys(errors: ValidationErrors): (keys: seq<string>)
    ensures |keys| <= 4
    ensures "labels" in keys <==> errors.labels.Some?
    ensures "type" in keys <==> errors.accountType.Some?
    ensures "login" in keys <==> errors.login.Some?
    ensures "password" in keys <==> errors.password.Some?
  {
    (if errors.labels.Some? then ["labels"] else [])
    + (if errors.accountType.Some? then ["type"] else [])
    + (if errors.login.Some? then ["login"] else [])
    + (if errors.password.Some? then ["password"] else [])
  }

  /** hasValidationErrors: the error object has at least one key. */
  function HasValidationErrors(errors: ValidationErrors): (r: bool)
    ensures r <==> errors.labels.Some? || errors.accountType.Some?
                   || errors.login.Some? || errors.password.Some?
  {
    |ErrorKeys(errors)| > 0
  }

  /** What an acceptable submission is, rule by rule. */
  predicate IsValidSubmission(data: AccountFormData) {
    && |data.labels| <= MaxLabelsLength
    && IsKnownTypeName(data.accountType)
    && !IsBlank(data.login) && |data.login| <= MaxCredentialLength
    && (data.accountType == TypeName(Local) ==>
          !IsBlank(data.password) && |data.password| <= MaxCredentialLength)
  }

  /** The validator reports nothing exactly on acceptable submissions. */
  lemma NoErrorsIffValid(data: AccountFormData)
    ensures !HasValidationErrors(ValidateAccount(data)) <==> IsValidSubmission(data)
  {
  }

  /** Each entry depends only on its own field; the password entry also on the type. */
  lemma RulesAreIndependent(d: AccountFormData, e: AccountFormData)
    ensures d.labels == e.labels ==> ValidateAccount(d).labels == ValidateAccount(e).labels
    ensures d.accountType == e.accountType
        ==> ValidateAccount(d).accountType == ValidateAccount(e).accountType
    ensures d.login == e.login ==> ValidateAccount(d).login == ValidateAccount(e).login
    ensures d.accountType == e.accountType && d.password == e.password
        ==> ValidateAccount(d).password == ValidateAccount(e).password
  {
  }

  /** An entry of the type selector: its caption (`label`) and the kind it selects. */
  datatype TypeOption = TypeOption(caption: string, value: AccountType)

  /** getAccountTypeOptions: LDAP first, then the local kind, each shown under its own name. */
  function GetAccountTypeOptions(): (options: seq<TypeOption>)
    ensures |options| == 2
    ensures options[0].value == Ldap && options[1].value == Local
    ensures forall i :: 0 <= i < |options| ==> options[i].caption == TypeName(options[i].value)
  {
    [TypeOption("LDAP", Ldap), TypeOption("Локальная", Local)]
  }

  /** Every option passes the validator's type rule, and every value the rule
      accepts is offered. */
  lemma OptionsMatchTypeRule(name: string)
    ensures forall i :: 0 <= i < |GetAccountTypeOptions()| ==>
      IsKnownTypeName(TypeName(GetAccountTypeOptions()[i].value))
    ensures IsKnownTypeName(name) ==>
      exists i :: 0 <= i < |GetAccountTypeOptions()| && GetAccountTypeOptions()[i].caption == name
  {
    var options := GetAccountTypeOptions();
    if IsKnownTypeName(name) {
      assert options[if name == "LDAP" then 0 else 1].caption == name;
    }
  }
}
