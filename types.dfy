// The shapes of the account form: records kept by the store, the raw form
// submission, and the per-field validation errors.

module AccountTypes {

  datatype Option<+T> = None | Some(value: T)

  /** The closed enumeration of account kinds. */
  datatype AccountType = Ldap | Local

  /** The text each kind has on the wire and in the type selector. */
  function TypeName(t: AccountType): (name: string)
    ensures name != []
    ensures t == Ldap <==> name == "LDAP"
  {
    match t
    case Ldap => "LDAP"
    case Local => "Локальная"
  }

  /** The two kinds have distinct names, so a name determines its kind. */
  lemma TypeNameInjective(t: AccountType, u: AccountType)
    requires TypeName(t) == TypeName(u)
    ensures t == u
  {
  }

  /** A single free-text tag. */
  datatype Label = Label(text: string)

  /** A stored account; a null password is None. */
  datatype Account = Account(
    id: string,
    labels: seq<Label>,
    accountType: AccountType,
    login: string,
    password: Option<string>)

  /** An account without its id: what the caller hands to the add operation. */
  datatype AccountData = AccountData(
    labels: seq<Label>,
    accountType: AccountType,
    login: string,
    password: Option<string>)

  /** A partial account without its id: each field is None when the patch leaves it out. */
  datatype AccountPatch = AccountPatch(
    labels: Option<seq<Label>>,
    accountType: Option<AccountType>,
    login: Option<string>,
    password: Option<Option<string>>)

  /** A form submission; labels is the raw semicolon-separated string and
      accountType the raw selector value, which may be unset ("") or unknown. */
  datatype AccountFormData = AccountFormData(
    labels: string,
    accountType: string,
    login: string,
    password: string)

  /** Optional per-field messages; None means the field is valid. */
  datatype ValidationErrors = ValidationErrors(
    labels: Option<string>,
    accountType: Option<string>,
    login: Option<string>,
    password: Option<string>)
}
