# Account management: a verified model of the store and the form validator

This project models the logic of a small account-management web application.
It has two parts:

- **The accounts store** (`src/stores/accounts.ts`). This is an ordered in-memory list of accounts. Accounts are identified by a generated id. The store can append, shallow-merge update, remove, look up and count accounts. After every change that actually happens, it mirrors the whole list to one persistent storage slot (the model takes that write to succeed; see "Left out"). On start-up it loads from that slot once. The same file holds `parseLabels`, which turns the form's `;`-separated label string into a list of labels.
- **The form validator** (`src/utils/validation.ts`). It maps a form submission to one optional error message per field. It also answers "are there any errors?" and lists the options of the account-type selector.

Files:

- `types.dfy` (module `AccountTypes`): the records of `src/types/account.ts`. These are the account kinds, labels, accounts, the id-less account data, partial updates (patches), form submissions and validation errors.
- `text.dfy` (module `Text`): the two JavaScript string built-ins the core relies on, `String.prototype.trim` and `String.prototype.split` with a one-character separator. Whitespace is ECMAScript's WhiteSpace plus LineTerminator. The module also has their laws, including the round trips with `join`.
- `accounts.dfy` (module `Accounts`) models the store:
  - `ParseLabels` and its properties;
  - the list operations behind the mutations (`FindIndex`, `Find`, `Merge`, `Updated`, `Removed`) with their laws;
  - the class `AccountsStore`. Its fields are `accounts`, the list, and `stored`, the slot. Its methods are `LoadAccounts`, `SaveAccounts`, `AddAccount`, `UpdateAccount` and `RemoveAccount`. Its read-only functions are `GetAccount` and `AccountsCount`.
- `validation.dfy` (module `Validation`): `ValidateAccount`, `HasValidationErrors` and `GetAccountTypeOptions`. It also gives an independent rule-by-rule definition of an acceptable submission.

How the model represents the outside world:

- **Storage slot.** The slot is the datatype `Slot`:
  - `Missing`: no entry, or the empty string, which the source's truthiness test also skips.
  - `Corrupt`: a text that `JSON.parse` rejects.
  - `Holds(list)`: a saved list. The JSON text is assumed to parse back to exactly the list that was saved.
- **Ids.** The id that `crypto.randomUUID()` would produce is a parameter of `AddAccount`.
- **Ids are not unique by rule.** The store never checks that ids are unique. So uniqueness (`UniqueIds`) is not a store invariant. The lemmas that need it take it as a precondition.

## Model

| member | source | states |
|---|---|---|
| AccountTypes.TypeName | src/types/account.ts:1 | every account kind has a non-empty name, and the name is `LDAP` exactly for the LDAP kind |
| AccountTypes.TypeNameInjective | src/types/account.ts:1 | two kinds with the same name are the same kind |
| Text.BlankLacks | src/stores/accounts.ts:25 | a blank string contains no non-whitespace character (such as `;`) |
| Text.IsWhitespace | src/stores/accounts.ts:29 | the characters `trim` removes: ECMAScript's WhiteSpace and LineTerminator code points (a definition, no contract) |
| Text.TrimStart | src/stores/accounts.ts:29 | drops leading whitespace one character at a time (a definition; TrimStartSpec states what it keeps and drops) |
| Text.TrimEnd | src/stores/accounts.ts:29 | drops trailing whitespace one character at a time (a definition; TrimEndSpec states what it keeps and drops) |
| Text.Trim | src/stores/accounts.ts:29 | `String.prototype.trim`, also used by the validator at src/utils/validation.ts:17 and :25, as TrimEnd after TrimStart (a definition; TrimSpec, TrimEmptyIffBlank, TrimKeepsOut, TrimOfTrimmed and TrimIdempotent state its properties) |
| Text.TrimStartSpec | src/stores/accounts.ts:29 | the leading-whitespace strip keeps a suffix that does not start with whitespace, and everything it drops is whitespace |
| Text.TrimEndSpec | src/stores/accounts.ts:29 | the trailing-whitespace strip keeps a prefix that does not end with whitespace, and everything it drops is whitespace |
| Text.TrimSpec | src/stores/accounts.ts:29 | `trim` never lengthens a string, and its result has no whitespace at either end |
| Text.TrimEmptyIffBlank | src/stores/accounts.ts:25 | `trim` gives the empty string if and only if the input is empty or whitespace-only |
| Text.TrimKeepsOut | src/stores/accounts.ts:29 | `trim` introduces no character: a character absent from the input is absent from the result |
| Text.TrimOfTrimmed | src/stores/accounts.ts:29 | `trim` leaves a string without surrounding whitespace unchanged |
| Text.TrimIdempotent | src/stores/accounts.ts:29 | trimming twice is trimming once |
| Text.Count | src/stores/accounts.ts:28 | the number of occurrences of a character is at most the length |
| Text.Split | src/stores/accounts.ts:28 | `split` always yields at least one piece |
| Text.SplitLength | src/stores/accounts.ts:28 | `split` yields exactly one more piece than there are separators |
| Text.SplitPiecesLackSeparator | src/stores/accounts.ts:28 | no piece of a split contains the separator |
| Text.Join | src/stores/accounts.ts:28 | the joined string begins with the first piece; JoinSplit and SplitJoin make `join` the inverse of `split` |
| Text.PrependAppend | src/stores/accounts.ts:28 | one more leading character changes only the first pieces of a split; the pieces after them are kept as they are |
| Text.SplitAround | src/stores/accounts.ts:28 | splitting `a + sep + b` gives the pieces of `a` followed by the pieces of `b`, so order is kept |
| Text.SplitWithoutSeparator | src/stores/accounts.ts:28 | a string without the separator splits into itself alone |
| Text.JoinSplit | src/stores/accounts.ts:28 | joining the pieces of a split with the separator gives back the original string |
| Text.SplitJoin | src/stores/accounts.ts:28 | splitting a join of separator-free pieces gives back the pieces |
| Accounts.Texts | src/stores/accounts.ts:31 | the inverse of the `{ text }` wrap, with one entry per label; the source has no such code, and it is here only to state the round trip ParseLabelsOfJoin |
| Accounts.TrimNonEmpty | src/stores/accounts.ts:29-30 | trimming and dropping empty pieces never yields more texts than there were pieces |
| Accounts.ToLabels | src/stores/accounts.ts:31 | wrapping texts as labels yields one label per text |
| Accounts.SplitLabels | src/stores/accounts.ts:27-31 | the split / trim / drop-empty / wrap pipeline without the early return (a definition; SplitLabelsOfBlank and ParseLabelsIsPipeline relate it to ParseLabels) |
| Accounts.ParseLabels | src/stores/accounts.ts:24-32 | blank input gives []; otherwise the split / trim / drop-empty / wrap pipeline (a definition; its properties are stated by ParseLabelsOfBlank, ParseLabelsWellFormed, ParseLabelsLength, ParseLabelsAround and ParseLabelsOfJoin) |
| Accounts.ParseLabelsOfBlank | src/stores/accounts.ts:25 | an empty or whitespace-only input yields no labels |
| Accounts.SplitLabelsOfBlank | src/stores/accounts.ts:27-31 | without the early return, the split/trim/filter/wrap pipeline also maps blank input to no labels |
| Accounts.ParseLabelsIsPipeline | src/stores/accounts.ts:24-32 | the early return for blank input agrees with the pipeline, so `parseLabels` is the pipeline on every input |
| Accounts.TrimNonEmptyLabelTexts | src/stores/accounts.ts:29-30 | from `;`-free pieces, every text kept is non-empty, has no surrounding whitespace and contains no `;` |
| Accounts.ToLabelsWellFormed | src/stores/accounts.ts:31 | wrapping such texts gives labels with such texts |
| Accounts.ParseLabelsWellFormed | src/stores/accounts.ts:27-31 | every parsed label has non-empty text, no leading or trailing whitespace and no `;` |
| Accounts.ParseLabelsLength | src/stores/accounts.ts:27-31 | at most one label per `;`-separated segment: no more labels than `;` count plus one |
| Accounts.TrimNonEmptyAppend | src/stores/accounts.ts:29-30 | trim-and-drop-empty works piece by piece: it distributes over concatenation |
| Accounts.ToLabelsAppend | src/stores/accounts.ts:31 | wrapping distributes over concatenation |
| Accounts.ParseLabelsAround | src/stores/accounts.ts:27-31 | order is kept: the labels of `a;b` are the labels of `a` followed by the labels of `b` |
| Accounts.ParseLabelsOfSegment | src/stores/accounts.ts:25-31 | a segment without `;` yields no label if it is blank, otherwise exactly one label holding its trimmed text |
| Accounts.ParseLabelOfText | src/stores/accounts.ts:27-31 | the text of a well-formed label parses back to that one label |
| Accounts.JoinTextsCons | src/stores/accounts.ts:27-28 | joining two or more label texts gives the first text, `;`, then the rest joined |
| Accounts.ParseJoinedTextsCons | src/stores/accounts.ts:27-31 | parsing joined texts gives the first text's labels, then the labels of the joined rest |
| Accounts.ParseLabelsOfJoinCons | src/stores/accounts.ts:27-31 | inductive step: a well-formed label in front of labels that round-trip also round-trips |
| Accounts.ParseLabelsOfJoin | src/stores/accounts.ts:24-32 | joining well-formed labels' texts with `;` and parsing the result gives back exactly those labels, in order |
| Accounts.FindIndex | src/stores/accounts.ts:45 | `findIndex` by id gives -1 exactly when no account has the id; otherwise it gives the first position holding the id |
| Accounts.Find | src/stores/accounts.ts:61 | `find` by id gives an account of the list with that id, and gives nothing exactly when no account has the id |
| Accounts.FindAtFindIndex | src/stores/accounts.ts:45-61 | `find` gives the element at the position `findIndex` reports, and nothing when that is -1 |
| Accounts.WithId | src/stores/accounts.ts:35-38 | `{ ...accountData, id }`: the data with the id attached (a definition; WithIdStripInverse states that nothing is lost) |
| Accounts.Strip | src/stores/accounts.ts:34 | the account without its id, the `Omit<Account, 'id'>` shape (a definition; WithIdStripInverse makes it WithId's inverse) |
| Accounts.WithIdStripInverse | src/stores/accounts.ts:35-38 | attaching an id to account data loses nothing: stripping it gives the data back, and re-attaching an account's own id gives the account back |
| Accounts.Merge | src/stores/accounts.ts:47 | the shallow merge keeps the id and takes each field from the patch when the patch has it, and from the old record otherwise |
| Accounts.Combine | src/stores/accounts.ts:47 | the spread of one patch over another, where the later patch's fields win (a definition; MergeLaws states that merging the combination equals merging the two patches in turn) |
| Accounts.MergeLaws | src/stores/accounts.ts:47 | merging an empty patch changes nothing; merging a patch twice equals merging it once; two merges equal one merge of the combined patch |
| Accounts.Updated | src/stores/accounts.ts:45-47 | the update keeps the length and every position except the first match of the id, and that position becomes the merged record |
| Accounts.RemoveAt | src/stores/accounts.ts:55 | `splice(index, 1)`: one shorter, the prefix before the index is kept, later elements shift down by one, and exactly that one element leaves the multiset |
| Accounts.Removed | src/stores/accounts.ts:53-55 | the list is unchanged if no account has the id. Otherwise it is one shorter, the prefix before the first match is kept, later elements shift down by one, and exactly that one element leaves the multiset |
| Accounts.AddThenFind | src/stores/accounts.ts:34-41 | an account appended under a fresh id sits at the last position and is what lookup returns |
| Accounts.AddKeepsUniqueIds | src/stores/accounts.ts:34-41 | appending under a fresh id keeps the ids unique |
| Accounts.AddUnderTakenIdIsShadowed | src/stores/accounts.ts:39-61 | for any list that already holds the id, appending under that id leaves lookup returning exactly what it returned before, i.e. the older account |
| Accounts.UpdateThenFind | src/stores/accounts.ts:44-61 | after updating a present id, lookup by that id returns the old record merged with the patch |
| Accounts.UpdateKeepsIds | src/stores/accounts.ts:47 | an update changes no position's id |
| Accounts.UpdateKeepsUniqueIds | src/stores/accounts.ts:44-50 | an update keeps the ids unique |
| Accounts.RemoveThenMissing | src/stores/accounts.ts:52-58 | with unique ids, no account with the id remains after removing it |
| Accounts.RemoveKeepsUniqueIds | src/stores/accounts.ts:52-58 | removal keeps the ids unique |
| Accounts.RemoveTwice | src/stores/accounts.ts:52-58 | with unique ids, removing the same id again changes nothing |
| Accounts.RemoveUndoesAdd | src/stores/accounts.ts:34-58 | removing an account just appended under a fresh id restores the previous list |
| Accounts.RemoveSparesLaterDuplicate | src/stores/accounts.ts:53-55 | for any list and any two positions i < j holding the same id, removing that id keeps the account from position j, now at position j - 1 |
| Accounts.Loaded | src/stores/accounts.ts:9-17 | the list after a load: the saved list, [] for a corrupt slot, the current list for a missing one (a definition; LoadAccounts and the constructor are specified by it) |
| Accounts.AccountsStore.constructor | src/stores/accounts.ts:6-66 | the store starts from the empty list and then loads from the slot once, leaving the slot as it is |
| Accounts.AccountsStore.LoadAccounts | src/stores/accounts.ts:8-18 | a saved list replaces the in-memory list; a corrupt slot clears it; a missing slot leaves it alone; the slot is never written |
| Accounts.AccountsStore.SaveAccounts | src/stores/accounts.ts:20-22 | the slot then holds exactly the in-memory list, and the list is unchanged |
| Accounts.AccountsStore.AddAccount | src/stores/accounts.ts:34-42 | the returned record is the data plus the given id; the list is the old list with that record appended; the slot holds the new list |
| Accounts.AccountsStore.UpdateAccount | src/stores/accounts.ts:44-50 | the list becomes the updated list, and the slot holds it if the id was present; an unknown id changes neither list nor slot |
| Accounts.AccountsStore.RemoveAccount | src/stores/accounts.ts:52-58 | the list loses the first match, and the slot holds the new list if the id was present; an unknown id changes neither list nor slot |
| Accounts.AccountsStore.GetAccount | src/stores/accounts.ts:60-62 | the result is an element of the list with the id, namely the one at the first matching position, and there is none exactly when no element has the id |
| Accounts.AccountsStore.AccountsCount | src/stores/accounts.ts:64 | the count is the length of the list |
| Validation.KnownTypeNames | src/utils/validation.ts:12 | the type values the validator accepts are exactly the names of the two account kinds |
| Validation.IsKnownTypeName | src/utils/validation.ts:12 | the values `LDAP` and `Локальная` the type rule accepts (a definition; KnownTypeNames and OptionsMatchTypeRule relate it to the account kinds and the selector) |
| Validation.ValidateAccount | src/utils/validation.ts:3-33 | one "if and only if" per field:<br>- labels error iff the labels string is longer than 50;<br>- type error iff the value is not `LDAP` or `Локальная`;<br>- login "required" iff blank, "too long" iff not blank and longer than 100, absent otherwise;<br>- password absent unless the type is `Локальная`, and then the same two-level rule as login.<br>Each message is the source's text |
| Validation.ErrorKeys | src/utils/validation.ts:36 | `Object.keys` of the error object: each of `labels`, `type`, `login` and `password` is a key exactly when that entry is present, so there are at most four keys |
| Validation.HasValidationErrors | src/utils/validation.ts:35-37 | true if and only if at least one of the four entries is present |
| Validation.IsValidSubmission | src/utils/validation.ts:3-33 | the rules an acceptable submission meets, stated field by field independently of the validator (a definition; NoErrorsIffValid ties it to ValidateAccount) |
| Validation.NoErrorsIffValid | src/utils/validation.ts:3-37 | the validator reports no error exactly when the submission satisfies every rule of the independent definition |
| Validation.RulesAreIndependent | src/utils/validation.ts:3-33 | each entry depends only on its own field, and the password entry also on the type |
| Validation.GetAccountTypeOptions | src/utils/validation.ts:39-44 | exactly two options, LDAP first and then the local kind, each captioned with its kind's name |
| Validation.OptionsMatchTypeRule | src/utils/validation.ts:12-44 | every offered option passes the type rule, and every value the rule accepts is offered |

## Left out

- Validation.ValidateAccount: lengths are counted in Unicode code points. JavaScript's `length` counts UTF-16 code units, so a character outside the Basic Multilingual Plane counts once here and twice in the source.
- Accounts.AccountsStore.LoadAccounts: a stored text that parses to something other than a list of accounts (a number, an object, an array of other values) is taken as it is by the source. Here a slot either fails to parse or holds a list of accounts.
- JSON serialisation and `localStorage` are foreign code. A saved list is assumed to parse back to exactly the same list.
- The source calls `localStorage.getItem` at load time. Here the slot is a field of the store.
- `crypto.randomUUID()` is foreign code. The new id is a parameter of `AddAccount`, so nothing here guarantees freshness.
- `console.error` logging on a corrupt slot is output only, and is not modelled.
- Vue reactivity (`ref`, `computed`, `defineStore`) is framework wiring. The list is a plain field, and the count is a function of it.
- Accounts.AccountsStore.GetAccount: the source returns the very object held in the reactive list, and so does `addAccount`. A caller that writes through that object changes the store's list without `saveAccounts` running. Here accounts are values, so that aliasing is not captured; `GetAccount` and `AddAccount` return copies in effect.
- Accounts.Merge: the model follows the declared patch type `Partial<Omit<Account, 'id'>>`, which has no id. TypeScript's structural typing would also accept an object that carries an `id`, and the spread would then overwrite the record's id. A patch here cannot carry an id, so `Merge` always keeps the id.
- Accounts.AccountsStore.SaveAccounts: a save is taken to succeed. `localStorage.setItem` can throw (for instance when the storage quota is exceeded), and `addAccount`, `updateAccount` and `removeAccount` change the list before they save. A throwing write would leave the list changed, the slot stale and the mutator aborted with the exception, so the `Synced()` promised by `AddAccount`, `UpdateAccount` and `RemoveAccount` holds only for writes that succeed.
- Validation.HasValidationErrors: the source counts the keys of the error object. An error object holding a key whose value is explicitly `undefined` would count as having errors; here an entry is either a message or absent, so that case cannot be expressed, and `ErrorKeys` holds a key exactly when its entry is present.
- `src/main.ts` (application bootstrap and component registration) is not part of this model.
- Accounts.Merge: a patch is a record of optional fields. A patch that holds a field explicitly set to `undefined` would, by spread, overwrite that field with `undefined`. That case cannot be expressed here.
- The form's `type` is typed as the account kind in the source, but at run time it can be unset or arbitrary. Here it is a raw string, which is what the validator's runtime check guards against.
