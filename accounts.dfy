// The account store: an ordered in-memory list of accounts, mirrored after
// every change to one persistent storage slot, with add, update (shallow
// merge), remove, lookup and count, plus the label parser that turns the
// form's semicolon-separated string into labels.

module Accounts {
  import opened AccountTypes
  import opened Text

  // ---------------------------------------------------------------------
  // Labels
  // ---------------------------------------------------------------------

  /** What the parser promises of every label text it produces. */
  predicate IsLabelText(t: string) {
    t != [] && IsTrimmed(t) && ';' !in t
  }

  predicate WellFormedLabel(l: Label) {
    IsLabelText(l.text)
  }

  /** The texts of a label list, in order. */
  function Texts(labels: seq<Label>): (r: seq<string>)
    ensures |r| == |labels|
  {
    if labels == [] then [] else [labels[0].text] + Texts(labels[1..])
  }

  /** Trims every piece and keeps the non-empty results, in order. */
  function TrimNonEmpty(parts: seq<string>): (r: seq<string>)
    ensures |r| <= |parts|
  {
    if parts == [] then []
    else
      var t := Trim(parts[0]);
      (if t == [] then [] else [t]) + TrimNonEmpty(parts[1..])
  }

  /** Wraps every text as a label, in order. */
  function ToLabels(texts: seq<string>): (r: seq<Label>)
    ensures |r| == |texts|
  {
    if texts == [] then [] else [Label(texts[0])] + ToLabels(texts[1..])
  }

  /** The split / trim / drop-empty / wrap pipeline without the early return. */
  function SplitLabels(s: string): seq<Label> {
    ToLabels(TrimNonEmpty(Split(s, ';')))
  }

  /** parseLabels: a blank input gives no labels; otherwise the pipeline. */
  function ParseLabels(s: string): seq<Label> {
    if Trim(s) == [] then [] else SplitLabels(s)
  }

  /** A blank input, the empty string included, yields no labels. */
  lemma ParseLabelsOfBlank(s: string)
    requires IsBlank(s)
    ensures ParseLabels(s) == []
  {
    TrimEmptyIffBlank(s);
  }

  /** The pipeline alone already maps a blank input to no labels. */
  lemma SplitLabelsOfBlank(s: string)
    requires IsBlank(s)
    ensures SplitLabels(s) == []
  {
    BlankLacks(s, ';');
    SplitWithoutSeparator(s, ';');
    TrimEmptyIffBlank(s);
    assert TrimNonEmpty([s]) == [];
  }

  /** The early return for blank input agrees with the pipeline itself. */
  lemma ParseLabelsIsPipeline(s: string)
    ensures ParseLabels(s) == SplitLabels(s)
  {
    TrimEmptyIffBlank(s);
    if IsBlank(s) {
      SplitLabelsOfBlank(s);
    }
  }

  /** Pieces free of ';' trim to label texts: non-empty, trimmed and ';'-free. */
  lemma {:induction false} TrimNonEmptyLabelTexts(parts: seq<string>)
    requires forall i :: 0 <= i < |parts| ==> ';' !in parts[i]
    ensures forall i :: 0 <= i < |TrimNonEmpty(parts)| ==> IsLabelText(TrimNonEmpty(parts)[i])
  {
    if parts != [] {
      var t, rest := Trim(parts[0]), parts[1..];
      TrimKeepsOut(parts[0], ';');
      TrimSpec(parts[0]);
      assert forall i :: 0 <= i < |rest| ==> rest[i] == parts[i + 1];
      TrimNonEmptyLabelTexts(rest);
      var head: seq<string> := if t == [] then [] else [t];
      assert forall i :: 0 <= i < |head| ==> IsLabelText(head[i]);
      assert TrimNonEmpty(parts) == head + TrimNonEmpty(rest);
    }
  }

  /** Wrapping label texts gives well-formed labels. */
  lemma {:induction false} ToLabelsWellFormed(texts: seq<string>)
    requires forall i :: 0 <= i < |texts| ==> IsLabelText(texts[i])
    ensures forall i :: 0 <= i < |ToLabels(texts)| ==> WellFormedLabel(ToLabels(texts)[i])
  {
    if texts != [] {
      var rest := texts[1..];
      assert forall i :: 0 <= i < |rest| ==> rest[i] == texts[i + 1];
      ToLabelsWellFormed(rest);
      assert ToLabels(texts) == [Label(texts[0])] + ToLabels(rest);
    }
  }

  /** Every label has non-empty text with no surrounding whitespace and no ';'. */
  lemma {:induction false} ParseLabelsWellFormed(s: string)
    ensures forall i :: 0 <= i < |ParseLabels(s)| ==> WellFormedLabel(ParseLabels(s)[i])
  {
    ParseLabelsIsPipeline(s);
    SplitPiecesLackSeparator(s, ';');
    TrimNonEmptyLabelTexts(Split(s, ';'));
    ToLabelsWellFormed(TrimNonEmpty(Split(s, ';')));
  }

  /** At most one label per ';'-separated segment. */
  lemma ParseLabelsLength(s: string)
    ensures |ParseLabels(s)| <= Count(s, ';') + 1
  {
    SplitLength(s, ';');
  }

  lemma {:induction false} TrimNonEmptyAppend(a: seq<string>, b: seq<string>)
    ensures TrimNonEmpty(a + b) == TrimNonEmpty(a) + TrimNonEmpty(b)
  {
    if a == [] {
      assert a + b == b;
    } else {
      assert (a + b)[0] == a[0] && (a + b)[1..] == a[1..] + b;
      TrimNonEmptyAppend(a[1..], b);
    }
  }

  lemma {:induction false} ToLabelsAppend(a: seq<string>, b: seq<string>)
    ensures ToLabels(a + b) == ToLabels(a) + ToLabels(b)
  {
    if a == [] {
      assert a + b == b;
    } else {
      assert (a + b)[0] == a[0] && (a + b)[1..] == a[1..] + b;
      ToLabelsAppend(a[1..], b);
    }
  }

  /** Order is kept: the labels left of a ';' come first, then those right of it. */
  lemma {:induction false} ParseLabelsAround(a: string, b: string)
    ensures ParseLabels(a + ";" + b) == ParseLabels(a) + ParseLabels(b)
  {
    ParseLabelsIsPipeline(a + ";" + b);
    ParseLabelsIsPipeline(a);
    ParseLabelsIsPipeline(b);
    SplitAround(a, ';', b);
    var pa, pb := Split(a, ';'), Split(b, ';');
    TrimNonEmptyAppend(pa, pb);
    ToLabelsAppend(TrimNonEmpty(pa), TrimNonEmpty(pb));
  }

  /** A string without ';' gives at most the one label of its trimmed text. */
  lemma {:induction false} ParseLabelsOfSegment(t: string)
    requires ';' !in t
    ensures ParseLabels(t) == if Trim(t) == [] then [] else [Label(Trim(t))]
  {
    SplitWithoutSeparator(t, ';');
    assert TrimNonEmpty([t]) == (if Trim(t) == [] then [] else [Trim(t)]);
  }

  /** A well-formed label's text parses back to that one label. */
  lemma ParseLabelOfText(l: Label)
    requires WellFormedLabel(l)
    ensures ParseLabels(l.text) == [l]
  {
    ParseLabelsOfSegment(l.text);
    TrimOfTrimmed(l.text);
  }

  /** The joined texts of two or more labels: the first text, ';', the rest joined. */
  lemma JoinTextsCons(labels: seq<Label>)
    requires |labels| > 1
    ensures Join(Texts(labels), ';') == labels[0].text + ";" + Join(Texts(labels[1..]), ';')
  {
  }

  /** Parsing joined texts parses the first text, then the joined rest. */
  lemma ParseJoinedTextsCons(labels: seq<Label>)
    requires |labels| > 1
    ensures ParseLabels(Join(Texts(labels), ';'))
         == ParseLabels(labels[0].text) + ParseLabels(Join(Texts(labels[1..]), ';'))
  {
    JoinTextsCons(labels);
    ParseLabelsAround(labels[0].text, Join(Texts(labels[1..]), ';'));
  }

  /** The inductive step: a first label in front of labels that round-trip. */
  lemma ParseLabelsOfJoinCons(labels: seq<Label>)
    requires |labels| > 1 && WellFormedLabel(labels[0])
    requires ParseLabels(Join(Texts(labels[1..]), ';')) == labels[1..]
    ensures ParseLabels(Join(Texts(labels), ';')) == labels
  {
    ParseLabelOfText(labels[0]);
    ParseJoinedTextsCons(labels);
    assert labels == [labels[0]] + labels[1..];
  }

  /** Joining well-formed labels with ';' and parsing the result gives them back. */
  lemma {:induction false} ParseLabelsOfJoin(labels: seq<Label>)
    requires forall i :: 0 <= i < |labels| ==> WellFormedLabel(labels[i])
    ensures ParseLabels(Join(Texts(labels), ';')) == labels
  {
    if labels == [] {
      ParseLabelsOfBlank([]);
    } else if |labels| == 1 {
      ParseLabelOfText(labels[0]);
    } else {
      ParseLabelsOfJoin(labels[1..]);
      ParseLabelsOfJoinCons(labels);
    }
  }

  // ---------------------------------------------------------------------
  // Account lists
  // ---------------------------------------------------------------------

  /** Some account in s carries id. */
  predicate HasId(s: seq<Account>, id: string) {
    exists j :: 0 <= j < |s| && s[j].id == id
  }

  /** No two accounts in s share an id. The store does not enforce this:
      it holds when every id comes from a fresh UUID. */
  predicate UniqueIds(s: seq<Account>) {
    forall i, j :: 0 <= i < j < |s| ==> s[i].id != s[j].id
  }

  /** Array.prototype.findIndex by id: the first position holding id, or -1. */
  function FindIndex(s: seq<Account>, id: string): (i: int)
    ensures -1 <= i < |s|
    ensures i == -1 <==> !HasId(s, id)
    ensures i >= 0 ==> s[i].id == id && forall j :: 0 <= j < i ==> s[j].id != id
  {
    if s == [] then -1
    else if s[0].id == id then 0
    else
      var k := FindIndex(s[1..], id);
      assert forall j :: 0 <= j < |s| - 1 ==> s[1..][j] == s[j + 1];
      if k == -1 then -1 else k + 1
  }

  /** Array.prototype.find by id: the first account holding id, if any. */
  function Find(s: seq<Account>, id: string): (r: Option<Account>)
    ensures r.Some? ==> r.value in s && r.value.id == id
    ensures r.None? <==> !HasId(s, id)
  {
    if s == [] then None
    else if s[0].id == id then Some(s[0])
    else
      var r := Find(s[1..], id);
      assert forall j :: 0 <= j < |s| - 1 ==> s[1..][j] == s[j + 1];
      r
  }

  /** find and findIndex agree: find yields the element at findIndex's position. */
  lemma {:induction false} FindAtFindIndex(s: seq<Account>, id: string)
    ensures Find(s, id) == if FindIndex(s, id) == -1 then None else Some(s[FindIndex(s, id)])
  {
    if s != [] && s[0].id != id {
      FindAtFindIndex(s[1..], id);
    }
  }

  // ---------------------------------------------------------------------
  // Records
  // ---------------------------------------------------------------------

  /** The value an optional patch field contributes: its own if present, else the fallback. */
  function Pick<T>(o: Option<T>, fallback: T): T {
    if o.Some? then o.value else fallback
  }

  /** `{ ...data, id }`: the data with an id attached. */
  function WithId(data: AccountData, id: string): Account {
    Account(id, data.labels, data.accountType, data.login, data.password)
  }

  /** The account without its id. */
  function Strip(a: Account): AccountData {
    AccountData(a.labels, a.accountType, a.login, a.password)
  }

  /** Attaching an id loses nothing: stripping it gives the data back, and
      re-attaching an account's own id gives the account back. */
  lemma WithIdStripInverse(data: AccountData, id: string, a: Account)
    ensures Strip(WithId(data, id)) == data && WithId(data, id).id == id
    ensures WithId(Strip(a), a.id) == a
  {
  }

  /** `{ ...a, ...patch }`: a shallow merge where the patch wins wherever it has a field. */
  function Merge(a: Account, patch: AccountPatch): (r: Account)
    ensures r.id == a.id
    ensures patch.labels.Some? ==> r.labels == patch.labels.value
    ensures patch.labels.None? ==> r.labels == a.labels
    ensures patch.accountType.Some? ==> r.accountType == patch.accountType.value
    ensures patch.accountType.None? ==> r.accountType == a.accountType
    ensures patch.login.Some? ==> r.login == patch.login.value
    ensures patch.login.None? ==> r.login == a.login
    ensures patch.password.Some? ==> r.password == patch.password.value
    ensures patch.password.None? ==> r.password == a.password
  {
    Account(
      a.id,
      Pick(patch.labels, a.labels),
      Pick(patch.accountType, a.accountType),
      Pick(patch.login, a.login),
      Pick(patch.password, a.password))
  }

  /** The patch that changes nothing. */
  const EmptyPatch := AccountPatch(None, None, None, None)

  /** `{ ...p, ...q }` on patches: q's fields win over p's. */
  function Combine(p: AccountPatch, q: AccountPatch): AccountPatch {
    AccountPatch(
      if q.labels.Some? then q.labels else p.labels,
      if q.accountType.Some? then q.accountType else p.accountType,
      if q.login.Some? then q.login else p.login,
      if q.password.Some? then q.password else p.password)
  }

  /** Merging the empty patch is the identity; merging the same patch twice
      is merging it once; two merges in a row are one merge of the combined patch. */
  lemma MergeLaws(a: Account, p: AccountPatch, q: AccountPatch)
    ensures Merge(a, EmptyPatch) == a
    ensures Merge(Merge(a, p), p) == Merge(a, p)
    ensures Merge(Merge(a, p), q) == Merge(a, Combine(p, q))
  {
  }

  // ---------------------------------------------------------------------
  // List operations behind the store's mutations
  // ---------------------------------------------------------------------

  /** The list after updating id with patch: the first match is merged, all else stays. */
  function Updated(s: seq<Account>, id: string, patch: AccountPatch): (r: seq<Account>)
    ensures |r| == |s|
    ensures forall j :: 0 <= j < |s| && j != FindIndex(s, id) ==> r[j] == s[j]
    ensures HasId(s, id) ==> r[FindIndex(s, id)] == Merge(s[FindIndex(s, id)], patch)
  {
    var i := FindIndex(s, id);
    if i == -1 then s else s[i := Merge(s[i], patch)]
  }

  /** `splice(i, 1)`: the element at i is gone, the rest keep their order. */
  function RemoveAt(s: seq<Account>, i: int): (r: seq<Account>)
    requires 0 <= i < |s|
    ensures |r| == |s| - 1
    ensures r[..i] == s[..i]
    ensures forall j :: i <= j < |r| ==> r[j] == s[j + 1]
    ensures multiset(r) + multiset{s[i]} == multiset(s)
  {
    assert s == s[..i] + [s[i]] + s[i + 1..];
    s[..i] + s[i + 1..]
  }

  /** The list after removing id: the first match is gone, the rest keep their order. */
  function Removed(s: seq<Account>, id: string): (r: seq<Account>)
    ensures !HasId(s, id) ==> r == s
    ensures HasId(s, id) ==> |r| == |s| - 1
    ensures HasId(s, id) ==> r[..FindIndex(s, id)] == s[..FindIndex(s, id)]
    ensures HasId(s, id) ==> forall j :: FindIndex(s, id) <= j < |r| ==> r[j] == s[j + 1]
    ensures HasId(s, id) ==> multiset(r) + multiset{s[FindIndex(s, id)]} == multiset(s)
  {
    var i := FindIndex(s, id);
    if i == -1 then s else RemoveAt(s, i)
  }

  /** An account appended under a fresh id is the one lookup finds, at the end. */
  lemma AddThenFind(s: seq<Account>, a: Account)
    requires !HasId(s, a.id)
    ensures FindIndex(s + [a], a.id) == |s|
    ensures Find(s + [a], a.id) == Some(a)
  {
    var t := s + [a];
    assert t[|s|].id == a.id;
    assert forall j :: 0 <= j < |s| ==> t[j] == s[j];
    FindAtFindIndex(t, a.id);
  }

  /** Appending under a fresh id keeps the ids unique. */
  lemma AddKeepsUniqueIds(s: seq<Account>, a: Account)
    requires UniqueIds(s) && !HasId(s, a.id)
    ensures UniqueIds(s + [a])
  {
  }

  /** Without a fresh id an appended account is shadowed: lookup keeps
      returning the earlier account that has the same id. */
  lemma {:induction false} AddUnderTakenIdIsShadowed(s: seq<Account>, a: Account)
    requires HasId(s, a.id)
    ensures Find(s + [a], a.id) == Find(s, a.id)
  {
    if s[0].id != a.id {
      assert (s + [a])[1..] == s[1..] + [a];
      assert HasId(s[1..], a.id) by {
        var j :| 0 <= j < |s| && s[j].id == a.id;
        assert s[1..][j - 1] == s[j];
      }
      AddUnderTakenIdIsShadowed(s[1..], a);
    }
  }

  /** After an update the lookup by that id finds the merged record. */
  lemma UpdateThenFind(s: seq<Account>, id: string, patch: AccountPatch)
    requires HasId(s, id)
    ensures Find(Updated(s, id, patch), id) == Some(Merge(Find(s, id).value, patch))
  {
    var r := Updated(s, id, patch);
    FindAtFindIndex(s, id);
    UpdateKeepsIds(s, id, patch);
    assert HasId(r, id) by { assert r[FindIndex(s, id)].id == id; }
    assert FindIndex(r, id) == FindIndex(s, id);
    FindAtFindIndex(r, id);
  }

  /** An update never changes any position's id. */
  lemma UpdateKeepsIds(s: seq<Account>, id: string, patch: AccountPatch)
    ensures forall j :: 0 <= j < |s| ==> Updated(s, id, patch)[j].id == s[j].id
  {
  }

  /** An update keeps the ids unique. */
  lemma UpdateKeepsUniqueIds(s: seq<Account>, id: string, patch: AccountPatch)
    requires UniqueIds(s)
    ensures UniqueIds(Updated(s, id, patch))
  {
  }

  /** With unique ids, removing id leaves no account with that id. */
  lemma RemoveThenMissing(s: seq<Account>, id: string)
    requires UniqueIds(s)
    ensures !HasId(Removed(s, id), id)
  {
  }

  /** Removing keeps the ids unique. */
  lemma RemoveKeepsUniqueIds(s: seq<Account>, id: string)
    requires UniqueIds(s)
    ensures UniqueIds(Removed(s, id))
  {
  }

  /** With unique ids a second removal of the same id changes nothing. */
  lemma RemoveTwice(s: seq<Account>, id: string)
    requires UniqueIds(s)
    ensures Removed(Removed(s, id), id) == Removed(s, id)
  {
  }

  /** Removing an account that was just appended under a fresh id restores the list. */
  lemma RemoveUndoesAdd(s: seq<Account>, a: Account)
    requires !HasId(s, a.id)
    ensures Removed(s + [a], a.id) == s
  {
    AddThenFind(s, a);
    assert (s + [a])[..|s|] == s;
  }

  /** With a duplicated id only the first holder is removed: a later account
      with the same id survives, one position further forward. */
  lemma RemoveSparesLaterDuplicate(s: seq<Account>, i: int, j: int)
    requires 0 <= i < j < |s| && s[i].id == s[j].id
    ensures Removed(s, s[i].id)[j - 1] == s[j]
  {
  }

  // ---------------------------------------------------------------------
  // The store
  // ---------------------------------------------------------------------

  /** The persistent slot under the key "accounts": nothing usable (no entry,
      or the empty string), a text JSON.parse rejects, or the serialised list,
      which parses back to exactly the list that was saved. */
  datatype Slot = Missing | Corrupt | Holds(snapshot: seq<Account>)

  /** The list loadAccounts leaves behind, starting from current. */
  function Loaded(current: seq<Account>, slot: Slot): seq<Account> {
    match slot
    case Missing => current
    case Corrupt => []
    case Holds(snapshot) => snapshot
  }

  /** The accounts store: the in-memory list and the slot it is mirrored to. */
  class AccountsStore {
    var accounts: seq<Account>
    var stored: Slot

    /** The slot holds exactly the in-memory list. */
    ghost predicate Synced()
      reads this
    {
      stored == Holds(accounts)
    }

    /** Store setup: an empty list, then one load from the slot. */
    constructor (slot: Slot)
      ensures stored == slot
      ensures accounts == Loaded([], slot)
    {
      accounts := [];
      stored := slot;
      new;
      LoadAccounts();
    }

    /** loadAccounts: take the saved list; a corrupt slot clears the list;
        a missing slot leaves it as it is. */
    method LoadAccounts()
      modifies this
      ensures stored == old(stored)
      ensures accounts == Loaded(old(accounts), stored)
      ensures stored.Holds? ==> Synced()
    {
      match stored
      case Missing =>
      case Corrupt =>
        accounts := [];
      case Holds(snapshot) =>
        accounts := snapshot;
    }

    /** saveAccounts: overwrite the slot with the current list. */
    method SaveAccounts()
      modifies this
      ensures accounts == old(accounts)
      ensures Synced()
    {
      stored := Holds(accounts);
    }

    /** addAccount: append the data under the given id (a fresh UUID in the
        store), save, and return the new record. */
    method AddAccount(data: AccountData, id: string) returns (created: Account)
      modifies this
      ensures created.id == id && Strip(created) == data
      ensures accounts == old(accounts) + [created]
      ensures Synced()
    {
      created := WithId(data, id);
      accounts := accounts + [created];
      SaveAccounts();
    }

    /** updateAccount: merge the patch into the first account with the id and
        save; an unknown id changes neither the list nor the slot. */
    method UpdateAccount(id: string, patch: AccountPatch)
      modifies this
      ensures accounts == Updated(old(accounts), id, patch)
      ensures HasId(old(accounts), id) ==> Synced()
      ensures !HasId(old(accounts), id) ==> stored == old(stored) && accounts == old(accounts)
    {
      var index := FindIndex(accounts, id);
      if index != -1 {
        accounts := accounts[index := Merge(accounts[index], patch)];
        SaveAccounts();
      }
    }

    /** removeAccount: delete the first account with the id and save; an
        unknown id changes neither the list nor the slot. */
    method RemoveAccount(id: string)
      modifies this
      ensures accounts == Removed(old(accounts), id)
      ensures HasId(old(accounts), id) ==> Synced() && |accounts| == |old(accounts)| - 1
      ensures !HasId(old(accounts), id) ==> stored == old(stored) && accounts == old(accounts)
    {
      var index := FindIndex(accounts, id);
      if index != -1 {
        accounts := RemoveAt(accounts, index);
        SaveAccounts();
      }
    }

    /** getAccount: the first account with the id, or none. */
    function GetAccount(id: string): (r: Option<Account>)
      reads this
      ensures r.Some? ==> r.value in accounts && r.value.id == id
      ensures r.None? <==> !HasId(accounts, id)
      ensures r.Some? ==> r.value == accounts[FindIndex(accounts, id)]
    {
      FindAtFindIndex(accounts, id);
      Find(accounts, id)
    }

    /** accountsCount: how many accounts the list holds. */
    function AccountsCount(): (n: nat)
      reads this
      ensures n == |accounts|
    {
      |accounts|
    }
  }
}
