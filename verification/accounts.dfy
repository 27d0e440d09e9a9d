/**
 * The profile store and the settings store of mgas/accounts.py.
 *
 * The backing JSON files are modelled by what `json.load` yields for them: an object
 * whose members come in file order, each key once.  Each store keeps a ghost snapshot
 * of its file as last read or written, and its invariant says that loading that
 * snapshot again rebuilds the in-memory state.
 */
module Accounts {
  import opened Options

  /**
   * One identity profile: the `Account` dataclass.  Its `label` field is called `key`
   * here (`label` is a Dafny keyword); it is the store's key for the profile.
   */
  datatype Account = Account(key: string, username: string, name: string, email: string)

  predicate DistinctKeys<V>(members: seq<(string, V)>) {
    forall i, j | 0 <= i < j < |members| :: members[i].0 != members[j].0
  }

  /** A decoded JSON object: its members in file order, no key twice. */
  type JsonObject<V> = members: seq<(string, V)> | DistinctKeys(members) witness []

  /** The profile file: each label maps to an object of string fields. */
  type Document = JsonObject<map<string, string>>

  // ---------------------------------------------------------------------------
  // The profile table

  /** `AccountStore._accounts`: its labels in dictionary (insertion) order and the account under each. */
  datatype Table = Table(order: seq<string>, accounts: map<string, Account>)

  const EmptyTable := Table([], map[])

  predicate Distinct(s: seq<string>) {
    forall i, j | 0 <= i < j < |s| :: s[i] != s[j]
  }

  /** No label twice, `order` lists exactly the stored labels, and each account's label is its key. */
  ghost predicate WellFormed(t: Table) {
    && Distinct(t.order)
    && (forall l :: l in t.accounts <==> l in t.order)
    && (forall l | l in t.accounts :: t.accounts[l].key == l)
  }

  /** `get(label)` */
  function Lookup(t: Table, key: string): Option<Account> {
    if key in t.accounts then Some(t.accounts[key]) else None
  }

  /** `s` without `x`, the others kept in order. */
  function Without(s: seq<string>, x: string): (r: seq<string>)
    ensures forall y :: y in r <==> y in s && y != x
    ensures Distinct(s) ==> Distinct(r)
    ensures x !in s ==> r == s
  {
    if s == [] then []
    else if s[0] == x then Without(s[1..], x)
    else
      var rest := Without(s[1..], x);
      assert Distinct(s) ==> Distinct(s[1..]) && s[0] !in rest by {
        if Distinct(s) {
          assert forall i | 0 <= i < |s| - 1 :: s[1..][i] == s[i + 1];
        }
      }
      [s[0]] + rest
  }

  /** `self._accounts[account.label] = account`: a new label goes last, a known one keeps its place. */
  function Upserted(t: Table, a: Account): (r: Table)
    ensures Lookup(r, a.key) == Some(a)
    ensures forall l | l != a.key :: Lookup(r, l) == Lookup(t, l)
    ensures WellFormed(t) ==> WellFormed(r)
    ensures WellFormed(t) && a.key in t.accounts ==> r.order == t.order
    ensures WellFormed(t) && a.key !in t.accounts ==> r.order == t.order + [a.key]
  {
    Table(if a.key in t.accounts then t.order else t.order + [a.key], t.accounts[a.key := a])
  }

  /** Dropping the one occurrence of `x` keeps the other labels in their order. */
  lemma {:induction false} WithoutDropsOne(s: seq<string>, x: string, k: nat)
    requires k < |s| && s[k] == x
    requires forall i | 0 <= i < |s| && i != k :: s[i] != x
    ensures Without(s, x) == s[..k] + s[k + 1..]
    decreases k
  {
    if k == 0 {
      DropsFirst(s, x);
    } else {
      var tail := s[1..];
      assert forall i | 0 <= i < |tail| && i != k - 1 :: tail[i] == s[i + 1] != x;
      WithoutDropsOne(tail, x, k - 1);
      DropsLater(s, x, k);
    }
  }

  lemma DropsFirst(s: seq<string>, x: string)
    requires 0 < |s| && s[0] == x
    requires forall i | 0 < i < |s| :: s[i] != x
    ensures Without(s, x) == s[..0] + s[1..]
  {
    assert x !in s[1..] by {
      assert forall i | 0 <= i < |s| - 1 :: s[1..][i] == s[i + 1];
    }
  }

  lemma DropsLater(s: seq<string>, x: string, k: nat)
    requires 0 < k < |s| && s[0] != x
    requires Without(s[1..], x) == s[1..][..k - 1] + s[1..][k..]
    ensures Without(s, x) == s[..k] + s[k + 1..]
  {
    assert Without(s, x) == [s[0]] + Without(s[1..], x);
    assert [s[0]] + (s[1..][..k - 1] + s[1..][k..]) == s[..k] + s[k + 1..];
  }

  /** `self._accounts.pop(label, None)` */
  function Removed(t: Table, key: string): (r: Table)
    ensures Lookup(r, key) == None
    ensures forall l | l != key :: Lookup(r, l) == Lookup(t, l)
    ensures WellFormed(t) ==> WellFormed(r)
    ensures WellFormed(t) && key !in t.accounts ==> r == t
    ensures r.order == Without(t.order, key)
  {
    var r := Table(Without(t.order, key), t.accounts - {key});
    assert WellFormed(t) ==> WellFormed(r) && (key !in t.accounts ==> r == t) by {
      if WellFormed(t) {
        RemovedWellFormed(t, key);
      }
    }
    r
  }

  lemma RemovedWellFormed(t: Table, key: string)
    requires WellFormed(t)
    ensures WellFormed(Table(Without(t.order, key), t.accounts - {key}))
    ensures key !in t.accounts ==> Table(Without(t.order, key), t.accounts - {key}) == t
  {
    var r := Table(Without(t.order, key), t.accounts - {key});
    assert forall l :: l in r.accounts <==> l in t.accounts && l != key;
    if key !in t.accounts {
      assert r.accounts == t.accounts;
    }
  }

  /** Removing a stored label takes it out of the order and keeps the other labels in their order. */
  lemma RemoveKeepsOrder(t: Table, key: string)
    requires WellFormed(t) && key in t.accounts
    ensures exists k | 0 <= k < |t.order| ::
              t.order[k] == key && Removed(t, key).order == t.order[..k] + t.order[k + 1..]
  {
    var k :| 0 <= k < |t.order| && t.order[k] == key;
    WithoutDropsOne(t.order, key, k);
  }

  /** Removing a label twice is removing it once. */
  lemma RemoveIdempotent(t: Table, key: string)
    ensures Removed(Removed(t, key), key) == Removed(t, key)
  {
    var once := Removed(t, key);
    assert key !in once.order;
  }

  /** `list(self._accounts.values())` */
  function Listed(t: Table): (r: seq<Account>)
    requires WellFormed(t)
    ensures |r| == |t.order|
    ensures forall i | 0 <= i < |r| :: r[i] == t.accounts[t.order[i]]
    ensures forall l :: l in t.accounts <==> exists i | 0 <= i < |r| :: r[i].key == l
    ensures forall i, j | 0 <= i < j < |r| :: r[i].key != r[j].key
  {
    var r := seq(|t.order|, i requires 0 <= i < |t.order| => t.accounts[t.order[i]]);
    assert forall i | 0 <= i < |r| :: r[i].key == t.order[i];
    r
  }

  // ---------------------------------------------------------------------------
  // The profile file

  const FieldNames: set<string> := {"username", "name", "email"}

  /** Why `_load` raises: the entry under this label does not have exactly the three account fields. */
  datatype LoadError = MalformedEntry(key: string)

  /** The file entry of an account: `{"username": …, "name": …, "email": …}`. */
  function EntryOf(a: Account): map<string, string> {
    map["username" := a.username, "name" := a.name, "email" := a.email]
  }

  /** `Account(label=label, **data)`, which raises unless `data` has exactly the other three fields. */
  function AccountOf(key: string, data: map<string, string>): Option<Account> {
    if data.Keys == FieldNames then Some(Account(key, data["username"], data["name"], data["email"]))
    else None
  }

  /** The table comprehension of `_load`; it stops at the first malformed member. */
  function LoadMembers(raw: seq<(string, map<string, string>)>): (r: Result<Table, LoadError>)
    requires DistinctKeys(raw)
    ensures r.Ok? ==> WellFormed(r.value) && |r.value.order| == |raw|
    ensures r.Ok? ==> forall i | 0 <= i < |raw| :: r.value.order[i] == raw[i].0
    ensures r.Ok? ==> forall i | 0 <= i < |raw| ::
              raw[i].0 in r.value.accounts && Some(r.value.accounts[raw[i].0]) == AccountOf(raw[i].0, raw[i].1)
    ensures r.Ok? <==> forall i | 0 <= i < |raw| :: raw[i].1.Keys == FieldNames
    ensures r.Err? ==> exists i | 0 <= i < |raw| :: r.error == MalformedEntry(raw[i].0)
  {
    if raw == [] then Ok(EmptyTable)
    else
      var key := raw[0].0;
      match AccountOf(key, raw[0].1)
      case None => Err(MalformedEntry(key))
      case Some(a) =>
        assert DistinctKeys(raw[1..]) by {
          assert forall i | 0 <= i < |raw| - 1 :: raw[1..][i] == raw[i + 1];
        }
        match LoadMembers(raw[1..])
        case Err(e) =>
          assert forall i | 0 <= i < |raw| - 1 :: raw[1..][i] == raw[i + 1];
          Err(e)
        case Ok(t) =>
          LoadedCons(raw, t, a);
          Ok(Table([key] + t.order, t.accounts[key := a]))
  }

  /** Loading one more member in front: the table that `LoadMembers` builds from the rest, extended. */
  lemma LoadedCons(raw: seq<(string, map<string, string>)>, t: Table, a: Account)
    requires DistinctKeys(raw) && raw != []
    requires AccountOf(raw[0].0, raw[0].1) == Some(a)
    requires WellFormed(t) && |t.order| == |raw[1..]|
    requires forall i | 0 <= i < |raw[1..]| :: t.order[i] == raw[1..][i].0
    requires forall i | 0 <= i < |raw[1..]| ::
               raw[1..][i].0 in t.accounts && Some(t.accounts[raw[1..][i].0]) == AccountOf(raw[1..][i].0, raw[1..][i].1)
    requires forall i | 0 <= i < |raw[1..]| :: raw[1..][i].1.Keys == FieldNames
    ensures var r := Table([raw[0].0] + t.order, t.accounts[raw[0].0 := a]);
            && WellFormed(r) && |r.order| == |raw|
            && (forall i | 0 <= i < |raw| :: r.order[i] == raw[i].0)
            && (forall i | 0 <= i < |raw| ::
                  raw[i].0 in r.accounts && Some(r.accounts[raw[i].0]) == AccountOf(raw[i].0, raw[i].1))
            && (forall i | 0 <= i < |raw| :: raw[i].1.Keys == FieldNames)
  {
    var key := raw[0].0;
    var r := Table([key] + t.order, t.accounts[key := a]);
    assert forall i | 1 <= i < |raw| :: raw[i] == raw[1..][i - 1] && raw[i].0 != key;
    assert key !in t.order;
    assert forall i | 0 <= i < |raw| :: r.order[i] == raw[i].0;
    assert Distinct(r.order);
  }

  /** `_load`: a missing file gives an empty table; otherwise one account per member, in file order. */
  function LoadAccounts(file: Option<Document>): (r: Result<Table, LoadError>)
    ensures file.None? ==> r == Ok(EmptyTable)
    ensures r.Ok? ==> WellFormed(r.value)
    ensures file.Some? ==> (r.Ok? <==> forall i | 0 <= i < |file.value| :: file.value[i].1.Keys == FieldNames)
    ensures file.Some? && r.Ok? ==>
              |r.value.order| == |file.value| && forall i | 0 <= i < |file.value| :: r.value.order[i] == file.value[i].0
    ensures file.Some? && r.Ok? ==> forall i | 0 <= i < |file.value| ::
              file.value[i].0 in r.value.accounts
              && Some(r.value.accounts[file.value[i].0]) == AccountOf(file.value[i].0, file.value[i].1)
  {
    match file
    case None => Ok(EmptyTable)
    case Some(raw) => LoadMembers(raw)
  }

  /** `_persist`'s payload: each label, in table order, with its username, name and email. */
  function Payload(t: Table): (doc: Document)
    requires WellFormed(t)
  {
    var members := seq(|t.order|, i requires 0 <= i < |t.order| => (t.order[i], EntryOf(t.accounts[t.order[i]])));
    assert DistinctKeys(members);
    members
  }

  /** The table without its first label. */
  function Tail(t: Table): (r: Table)
    requires WellFormed(t) && t.order != []
    ensures WellFormed(r)
    ensures t.order == [t.order[0]] + r.order
    ensures t.accounts == r.accounts[t.order[0] := t.accounts[t.order[0]]]
  {
    var first := t.order[0];
    var r := Table(t.order[1..], t.accounts - {first});
    TailWellFormed(t, r);
    assert t.order == [first] + r.order;
    assert first in t.accounts;
    RestoreKey(t.accounts, first);
    r
  }

  lemma RestoreKey<K, V>(m: map<K, V>, k: K)
    requires k in m
    ensures m == (m - {k})[k := m[k]]
  {
  }

  lemma TailWellFormed(t: Table, r: Table)
    requires WellFormed(t) && t.order != []
    requires r == Table(t.order[1..], t.accounts - {t.order[0]})
    ensures WellFormed(r)
  {
    var first := t.order[0];
    assert forall i | 0 <= i < |r.order| :: r.order[i] == t.order[i + 1];
    assert Distinct(r.order);
    assert first !in r.order;
    assert t.order == [first] + r.order;
    assert forall l :: l in r.order <==> l in t.order && l != first;
    assert forall l :: l in r.accounts <==> l in r.order;
  }

  lemma PayloadTail(t: Table)
    requires WellFormed(t) && t.order != []
    ensures Payload(t)[0] == (t.order[0], EntryOf(t.accounts[t.order[0]]))
    ensures Payload(t)[1..] == Payload(Tail(t))
  {
    var p, q := Payload(t), Payload(Tail(t));
    assert |p[1..]| == |q|;
    forall i | 0 <= i < |q|
      ensures p[1..][i] == q[i]
    {
      assert t.order[i + 1] != t.order[0];
    }
  }

  /** The file entry of an account rebuilds that account. */
  lemma EntryRoundTrip(a: Account)
    ensures AccountOf(a.key, EntryOf(a)) == Some(a)
  {
    var e := EntryOf(a);
    assert e.Keys == FieldNames;
  }

  lemma LoadMembersCons(raw: seq<(string, map<string, string>)>, t: Table, a: Account)
    requires DistinctKeys(raw) && raw != []
    requires AccountOf(raw[0].0, raw[0].1) == Some(a)
    requires LoadMembers(raw[1..]) == Ok(t)
    ensures LoadMembers(raw) == Ok(Table([raw[0].0] + t.order, t.accounts[raw[0].0 := a]))
  {
  }

  /** Writing the table out and loading it back gives the same table. */
  lemma {:induction false} PersistLoadRoundTrip(t: Table)
    requires WellFormed(t)
    ensures LoadAccounts(Some(Payload(t))) == Ok(t)
    decreases |t.order|
  {
    if t.order != [] {
      var first := t.order[0];
      var a := t.accounts[first];
      var rest := Tail(t);
      var p := Payload(t);
      PersistLoadRoundTrip(rest);
      PayloadTail(t);
      EntryRoundTrip(a);
      LoadMembersCons(p, rest, a);
    }
  }

  /** The profile store: a table changed in place, written back whole after every change. */
  class AccountStore {
    var order: seq<string>
    var accounts: map<string, Account>
    /** The profile file as this store last read or wrote it (`None`: no file). */
    ghost var disk: Option<Document>

    function Contents(): Table
      reads this
    {
      Table(order, accounts)
    }

    ghost predicate Valid()
      reads this
    {
      WellFormed(Contents()) && LoadAccounts(disk) == Ok(Contents())
    }

    constructor FromFile(file: Option<Document>, t: Table)
      requires LoadAccounts(file) == Ok(t)
      ensures Valid() && Contents() == t && disk == file
    {
      order, accounts := t.order, t.accounts;
      disk := file;
    }

    /** `AccountStore(path)`: loads the file, and fails as `_load` raises on a malformed entry. */
    static method Open(file: Option<Document>) returns (r: Result<AccountStore, LoadError>)
      ensures r.Err? <==> LoadAccounts(file).Err?
      ensures r.Err? ==> r.error == LoadAccounts(file).error
      ensures r.Ok? ==> fresh(r.value) && r.value.Valid() && r.value.disk == file
      ensures r.Ok? ==> r.value.Contents() == LoadAccounts(file).value
      ensures r.Ok? && file.None? ==> r.value.Contents() == EmptyTable
    {
      var loaded := LoadAccounts(file);
      if loaded.Err? {
        return Err(loaded.error);
      }
      var store := new AccountStore.FromFile(file, loaded.value);
      return Ok(store);
    }

    /** `_persist`: the whole table replaces the file. */
    method Persist()
      requires WellFormed(Contents())
      modifies this`disk
      ensures Valid() && disk == Some(Payload(Contents()))
    {
      disk := Some(Payload(Contents()));
      PersistLoadRoundTrip(Contents());
    }

    /** `all()`: every stored account once, in insertion order. */
    method All() returns (r: seq<Account>)
      requires Valid()
      ensures |r| == |order|
      ensures forall i | 0 <= i < |r| :: r[i] == accounts[order[i]]
      ensures forall l :: l in accounts <==> exists i | 0 <= i < |r| :: r[i].key == l
      ensures forall i, j | 0 <= i < j < |r| :: r[i].key != r[j].key
    {
      r := Listed(Contents());
    }

    /** `get(label)` */
    method Get(key: string) returns (r: Option<Account>)
      requires Valid()
      ensures r.Some? <==> key in accounts
      ensures r.Some? ==> r.value == accounts[key] && r.value.key == key
    {
      r := if key in accounts then Some(accounts[key]) else None;
    }

    /** `upsert(account)`: insert or wholly replace, then persist. */
    method Upsert(a: Account)
      requires Valid()
      modifies this
      ensures Valid()
      ensures Contents() == Upserted(old(Contents()), a)
      ensures disk == Some(Payload(Contents()))
    {
      if a.key !in accounts {
        order := order + [a.key];
      }
      accounts := accounts[a.key := a];
      Persist();
    }

    /** `remove(key)`: delete if present, no error if absent, then persist either way. */
    method Remove(key: string)
      requires Valid()
      modifies this
      ensures Valid()
      ensures Contents() == Removed(old(Contents()), key)
      ensures disk == Some(Payload(Contents()))
    {
      order := Without(order, key);
      accounts := accounts - {key};
      Persist();
    }
  }

  // ---------------------------------------------------------------------------
  // The settings store

  const CommitMessageKey := "initial_commit_message"
  const DefaultCommitMessage := "Initial commit from Multi-GitHub Account Switcher"

  /** `DEFAULT_SETTINGS` */
  const DefaultSettings: map<string, string> := map[CommitMessageKey := DefaultCommitMessage]

  /** `SettingsManager._load`: the stored keys over the defaults; a missing file gives the defaults. */
  function MergeSettings(file: Option<map<string, string>>): (s: map<string, string>)
    ensures forall k :: k in s <==> k in DefaultSettings || (file.Some? && k in file.value)
    ensures forall k | file.Some? && k in file.value :: s[k] == file.value[k]
    ensures file.None? || CommitMessageKey !in file.value ==> s[CommitMessageKey] == DefaultCommitMessage
  {
    match file
    case None => DefaultSettings
    case Some(data) => DefaultSettings + data
  }

  /** A saved settings record loads back unchanged. */
  lemma SettingsRoundTrip(s: map<string, string>)
    requires CommitMessageKey in s
    ensures MergeSettings(Some(s)) == s
  {
    assert MergeSettings(Some(s)).Keys == s.Keys;
  }

  /** `get_commit_message()` on a settings record. */
  function CommitMessageOf(s: map<string, string>): string {
    if CommitMessageKey in s then s[CommitMessageKey] else DefaultCommitMessage
  }

  /** The record after `set_commit_message(message)`: an empty message stands for the default. */
  function WithCommitMessage(s: map<string, string>, message: string): (r: map<string, string>)
    ensures CommitMessageOf(r) == if message == "" then DefaultCommitMessage else message
    ensures forall k | k != CommitMessageKey :: (k in r <==> k in s) && (k in s ==> r[k] == s[k])
    ensures CommitMessageKey in r
  {
    s[CommitMessageKey := if message == "" then DefaultCommitMessage else message]
  }

  /** The settings store: one record, saved whole after every change. */
  class SettingsManager {
    var settings: map<string, string>
    /** The settings file as this store last read or wrote it (`None`: no file). */
    ghost var disk: Option<map<string, string>>

    ghost predicate Valid()
      reads this
    {
      CommitMessageKey in settings && MergeSettings(disk) == settings
    }

    /** `SettingsManager(path)`: loads the file over the defaults. */
    constructor (file: Option<map<string, string>>)
      ensures Valid() && settings == MergeSettings(file) && disk == file
    {
      settings := MergeSettings(file);
      disk := file;
    }

    /** `save()`: the whole record replaces the file. */
    method Save()
      requires CommitMessageKey in settings
      modifies this`disk
      ensures Valid() && disk == Some(settings)
    {
      disk := Some(settings);
      SettingsRoundTrip(settings);
    }

    /** `get_commit_message()`: the stored message, or the default when the file never held one. */
    method GetCommitMessage() returns (m: string)
      requires Valid()
      ensures m == settings[CommitMessageKey]
      ensures m == if disk.Some? && CommitMessageKey in disk.value then disk.value[CommitMessageKey]
                   else DefaultCommitMessage
    {
      m := if CommitMessageKey in settings then settings[CommitMessageKey] else DefaultCommitMessage;
    }

    /** `set_commit_message(message)`: replace the message (the default for ""), then save. */
    method SetCommitMessage(message: string)
      requires Valid()
      modifies this
      ensures Valid()
      ensures settings == WithCommitMessage(old(settings), message)
      ensures disk == Some(settings)
    {
      settings := settings[CommitMessageKey := if message == "" then DefaultCommitMessage else message];
      Save();
    }
  }
}
