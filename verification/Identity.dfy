/** Accounts merged only where the operator's bindings say so. */
module Identity {
  import opened Basics

  /** `figures` stands for the quota and coverage columns, which are copied as they are. */
  datatype Account = Account(
    id: string, aliases: seq<string>, website: string, note: string, title: string, billing: string, figures: string)

  datatype Binding = Binding(id: string, members: seq<string>, title: string, billing: string)

  datatype Row = Row(
    id: string, members: seq<string>, website: string, note: string, title: string, billing: string, figures: string)

  datatype Refusal = InvalidBinding | ConflictingOwnership

  // ------------------------------------------------------------ ownership

  /** The binding names the string, as its own id or as a member. */
  predicate Lists(b: Binding, name: string) {
    name == b.id || name in b.members
  }

  predicate Owns(bindings: seq<Binding>, owner: string, name: string) {
    exists i | 0 <= i < |bindings| :: bindings[i].id == owner && Lists(bindings[i], name)
  }

  /** Bindings of different ids list the same string. */
  predicate Conflicting(bindings: seq<Binding>) {
    exists i, j | 0 <= i < |bindings| && 0 <= j < |bindings| && bindings[i].id != bindings[j].id ::
      Lists(bindings[i], bindings[j].id) || exists k | 0 <= k < |bindings[j].members| ::
        Lists(bindings[i], bindings[j].members[k])
  }

  predicate Nameless(bindings: seq<Binding>) {
    exists i | 0 <= i < |bindings| :: bindings[i].id == ""
  }

  type Owners = map<string, string>

  /** The map holds exactly what the bindings say. */
  ghost predicate Exact(owners: Owners, bindings: seq<Binding>) {
    && (forall name | name in owners :: Owns(bindings, owners[name], name))
    && (forall owner, name | Owns(bindings, owner, name) :: name in owners && owners[name] == owner)
  }

  lemma ConflictMeans(bindings: seq<Binding>)
    ensures Conflicting(bindings) <==> exists a, b, name :: a != b && Owns(bindings, a, name) && Owns(bindings, b, name)
  {
    if Conflicting(bindings) {
      var i, j :| 0 <= i < |bindings| && 0 <= j < |bindings| && bindings[i].id != bindings[j].id
        && (Lists(bindings[i], bindings[j].id) || exists k | 0 <= k < |bindings[j].members| ::
              Lists(bindings[i], bindings[j].members[k]));
      var name := if Lists(bindings[i], bindings[j].id) then bindings[j].id
                  else
                    var k :| 0 <= k < |bindings[j].members| && Lists(bindings[i], bindings[j].members[k]);
                    bindings[j].members[k];
      assert Lists(bindings[j], name);
      assert Owns(bindings, bindings[i].id, name) && Owns(bindings, bindings[j].id, name);
    }
    if a, b, name :| a != b && Owns(bindings, a, name) && Owns(bindings, b, name) {
      var i :| 0 <= i < |bindings| && bindings[i].id == a && Lists(bindings[i], name);
      var j :| 0 <= j < |bindings| && bindings[j].id == b && Lists(bindings[j], name);
      if name != b {
        var k :| 0 <= k < |bindings[j].members| && bindings[j].members[k] == name;
        assert Lists(bindings[i], bindings[j].members[k]);
      }
    }
  }

  lemma OwnsOfPrefix(bindings: seq<Binding>, n: nat, owner: string, name: string)
    requires n < |bindings|
    ensures Owns(bindings[..n + 1], owner, name) <==>
      Owns(bindings[..n], owner, name) || (bindings[n].id == owner && Lists(bindings[n], name))
  {
    if Owns(bindings[..n], owner, name) {
      var i :| 0 <= i < n && bindings[..n][i].id == owner && Lists(bindings[..n][i], name);
      assert bindings[..n + 1][i] == bindings[..n][i];
    }
    if Owns(bindings[..n + 1], owner, name) {
      var i :| 0 <= i < n + 1 && bindings[..n + 1][i].id == owner && Lists(bindings[..n + 1][i], name);
      if i < n {
        assert bindings[..n][i] == bindings[i];
      }
    }
    assert bindings[..n + 1][n] == bindings[n];
  }

  /** Enters one binding's names; it fails exactly when another binding already owns one of them. */
  method Enter(owners: Owners, b: Binding) returns (r: Option<Owners>)
    ensures r.None? <==> exists name | name in owners :: Lists(b, name) && owners[name] != b.id
    ensures r.Some? ==> forall name :: (name in r.value <==> name in owners || Lists(b, name))
    ensures r.Some? ==> forall name | name in r.value :: r.value[name] == if Lists(b, name) then b.id else owners[name]
  {
    var names := [b.id] + b.members;
    assert forall name :: Lists(b, name) <==> name in names;
    var next := owners;
    for k := 0 to |names|
      invariant forall name :: (name in next <==> name in owners || name in names[..k])
      invariant forall name | name in next :: next[name] == if name in names[..k] then b.id else owners[name]
      invariant forall name | name in names[..k] && name in owners :: owners[name] == b.id
    {
      assert names[..k + 1] == names[..k] + [names[k]];
      if names[k] in next && next[names[k]] != b.id {
        assert Lists(b, names[k]);
        return None;
      }
      next := next[names[k] := b.id];
    }
    assert names[..|names|] == names;
    r := Some(next);
  }

  /** Every conflicting ownership is refused, and nothing else that is well formed. */
  method CollectOwners(bindings: seq<Binding>) returns (r: Result<Owners, Refusal>)
    ensures r.Ok? <==> !Nameless(bindings) && !Conflicting(bindings)
    ensures r.Ok? ==> Exact(r.value, bindings)
    ensures r.Err? && !Nameless(bindings) ==> r.error == ConflictingOwnership
    ensures r.Err? && !Conflicting(bindings) ==> r.error == InvalidBinding
  {
    var owners: Owners := map[];
    for n := 0 to |bindings|
      invariant !Nameless(bindings[..n])
      invariant Exact(owners, bindings[..n])
    {
      if bindings[n].id == "" {
        return Err(InvalidBinding);
      }
      var next := Enter(owners, bindings[n]);
      if next.None? {
        var name :| name in owners && Lists(bindings[n], name) && owners[name] != bindings[n].id;
        OwnsGrows(bindings, n, owners[name], name);
        assert Owns(bindings, bindings[n].id, name);
        ConflictMeans(bindings);
        return Err(ConflictingOwnership);
      }
      ExactGrows(owners, next.value, bindings, n);
      owners := next.value;
    }
    assert bindings[..|bindings|] == bindings;
    ExactIsFree(owners, bindings);
    ConflictMeans(bindings);
    r := Ok(owners);
  }

  lemma ExactGrows(owners: Owners, next: Owners, bindings: seq<Binding>, n: nat)
    requires n < |bindings| && Exact(owners, bindings[..n])
    requires forall name | name in owners && Lists(bindings[n], name) :: owners[name] == bindings[n].id
    requires forall name :: (name in next <==> name in owners || Lists(bindings[n], name))
    requires forall name | name in next ::
      next[name] == if Lists(bindings[n], name) then bindings[n].id else owners[name]
    ensures Exact(next, bindings[..n + 1])
  {
    forall name | name in next ensures Owns(bindings[..n + 1], next[name], name) {
      OwnsOfPrefix(bindings, n, next[name], name);
    }
    var longer := bindings[..n + 1];
    forall owner, name | Owns(longer, owner, name) ensures name in next && next[name] == owner {
      OwnsOfPrefix(bindings, n, owner, name);
    }
  }

  lemma ExactIsFree(owners: Owners, bindings: seq<Binding>)
    requires Exact(owners, bindings)
    ensures forall a, b, name | Owns(bindings, a, name) && Owns(bindings, b, name) :: a == b
  {
  }

  lemma OwnsGrows(bindings: seq<Binding>, n: nat, owner: string, name: string)
    requires n <= |bindings| && Owns(bindings[..n], owner, name)
    ensures Owns(bindings, owner, name)
  {
    var i :| 0 <= i < n && bindings[..n][i].id == owner && Lists(bindings[..n][i], name);
    assert bindings[i] == bindings[..n][i];
  }

  // ------------------------------------------------------------ resolving one account

  /** How many accounts carry an alias. */
  function Carriers(accounts: seq<Account>, alias: string): nat {
    if accounts == [] then 0
    else Carriers(accounts[..|accounts| - 1], alias) + if alias in accounts[|accounts| - 1].aliases then 1 else 0
  }

  /** The first alias only this account carries that some binding owns. */
  function AliasOwner(owners: Owners, accounts: seq<Account>, aliases: seq<string>): Option<string> {
    if aliases == [] then None
    else if Carriers(accounts, aliases[0]) == 1 && aliases[0] in owners then Some(owners[aliases[0]])
    else AliasOwner(owners, accounts, aliases[1..])
  }

  function Resolve(owners: Owners, accounts: seq<Account>, a: Account): string {
    if a.id in owners then owners[a.id]
    else if AliasOwner(owners, accounts, a.aliases).Some? then AliasOwner(owners, accounts, a.aliases).value
    else a.id
  }

  /** The binding names the account, by its id or by an alias that identifies it. */
  ghost predicate Names(bindings: seq<Binding>, accounts: seq<Account>, owner: string, a: Account) {
    || Owns(bindings, owner, a.id)
    || exists alias | alias in a.aliases :: Carriers(accounts, alias) == 1 && Owns(bindings, owner, alias)
  }

  lemma {:induction false} AliasOwnerNames(owners: Owners, accounts: seq<Account>, aliases: seq<string>)
    ensures AliasOwner(owners, accounts, aliases).Some? ==>
      exists alias | alias in aliases ::
        Carriers(accounts, alias) == 1 && alias in owners
          && owners[alias] == AliasOwner(owners, accounts, aliases).value
    ensures AliasOwner(owners, accounts, aliases).None? ==>
      forall alias | alias in aliases :: !(Carriers(accounts, alias) == 1 && alias in owners)
  {
    if aliases != [] {
      assert aliases[0] in aliases && aliases == [aliases[0]] + aliases[1..];
      AliasOwnerNames(owners, accounts, aliases[1..]);
    }
  }

  /** A resolved account belongs to a binding that names it, or keeps its own id when none does. */
  lemma ResolveMeans(owners: Owners, bindings: seq<Binding>, accounts: seq<Account>, a: Account)
    requires Exact(owners, bindings)
    ensures Names(bindings, accounts, Resolve(owners, accounts, a), a)
      || (Resolve(owners, accounts, a) == a.id && forall owner :: !Names(bindings, accounts, owner, a))
  {
    AliasOwnerNames(owners, accounts, a.aliases);
  }

  /** The alias identifies this account alone, and some binding owns it. */
  ghost predicate Binds(bindings: seq<Binding>, accounts: seq<Account>, alias: string) {
    Carriers(accounts, alias) == 1 && exists owner :: Owns(bindings, owner, alias)
  }

  /** The binding an account prefers, read off bindings and accounts alone: the owner of its id or, if nobody owns
      that, of its first alias that binds. */
  ghost predicate Prefers(bindings: seq<Binding>, accounts: seq<Account>, owner: string, a: Account) {
    || Owns(bindings, owner, a.id)
    || (&& (forall other :: !Owns(bindings, other, a.id))
        && exists i | 0 <= i < |a.aliases| ::
             FirstBinds(bindings, accounts, a.aliases, i) && Owns(bindings, owner, a.aliases[i]))
  }

  ghost predicate FirstBinds(bindings: seq<Binding>, accounts: seq<Account>, aliases: seq<string>, i: nat)
    requires i < |aliases|
  {
    Binds(bindings, accounts, aliases[i]) && forall k | 0 <= k < i :: !Binds(bindings, accounts, aliases[k])
  }

  lemma ExactBinds(owners: Owners, bindings: seq<Binding>, accounts: seq<Account>, alias: string)
    requires Exact(owners, bindings)
    ensures Binds(bindings, accounts, alias) <==> Carriers(accounts, alias) == 1 && alias in owners
    ensures forall owner :: Owns(bindings, owner, alias) <==> alias in owners && owners[alias] == owner
  {
  }

  /** The scan over the aliases finds the first that binds. */
  lemma {:induction false} AliasOwnerIsFirst(owners: Owners, bindings: seq<Binding>, accounts: seq<Account>,
                                             aliases: seq<string>, i: nat)
    requires Exact(owners, bindings) && i < |aliases| && FirstBinds(bindings, accounts, aliases, i)
    ensures aliases[i] in owners && AliasOwner(owners, accounts, aliases) == Some(owners[aliases[i]])
  {
    ExactBinds(owners, bindings, accounts, aliases[0]);
    if i > 0 {
      assert !Binds(bindings, accounts, aliases[0]);
      assert forall k | 0 <= k < i - 1 :: aliases[1..][k] == aliases[k + 1];
      AliasOwnerIsFirst(owners, bindings, accounts, aliases[1..], i - 1);
    }
  }

  lemma {:induction false} AliasOwnerHasFirst(owners: Owners, bindings: seq<Binding>, accounts: seq<Account>,
                                              aliases: seq<string>)
    returns (i: nat)
    requires Exact(owners, bindings) && AliasOwner(owners, accounts, aliases).Some?
    ensures i < |aliases| && FirstBinds(bindings, accounts, aliases, i)
  {
    ExactBinds(owners, bindings, accounts, aliases[0]);
    if Binds(bindings, accounts, aliases[0]) {
      i := 0;
    } else {
      var k := AliasOwnerHasFirst(owners, bindings, accounts, aliases[1..]);
      i := k + 1;
      forall j | 0 <= j < i ensures !Binds(bindings, accounts, aliases[j]) {
        if j > 0 {
          assert aliases[1..][j - 1] == aliases[j];
        }
      }
    }
  }

  /** An account resolves to the binding it prefers, and to its own id when no binding names it. */
  lemma ResolvesToPreferred(owners: Owners, bindings: seq<Binding>, accounts: seq<Account>, a: Account, owner: string)
    requires Exact(owners, bindings)
    ensures Prefers(bindings, accounts, owner, a) ==> Resolve(owners, accounts, a) == owner
    ensures (exists other :: Names(bindings, accounts, other, a)) ==>
      Prefers(bindings, accounts, Resolve(owners, accounts, a), a)
  {
    ExactBinds(owners, bindings, accounts, a.id);
    if Prefers(bindings, accounts, owner, a) && a.id !in owners {
      var i :|
        0 <= i < |a.aliases| && FirstBinds(bindings, accounts, a.aliases, i) && Owns(bindings, owner, a.aliases[i]);
      AliasOwnerIsFirst(owners, bindings, accounts, a.aliases, i);
    }
    if a.id !in owners && AliasOwner(owners, accounts, a.aliases).Some? {
      var i := AliasOwnerHasFirst(owners, bindings, accounts, a.aliases);
      AliasOwnerIsFirst(owners, bindings, accounts, a.aliases, i);
    }
    AliasOwnerNames(owners, accounts, a.aliases);
  }

  // ------------------------------------------------------------ merging

  predicate HasRow(rows: seq<Row>, id: string) {
    exists i | 0 <= i < |rows| :: rows[i].id == id
  }

  function FirstText(a: string, b: string): string {
    if a != "" then a else b
  }

  function AddMember(members: seq<string>, id: string): seq<string> {
    if id in members then members else members + [id]
  }

  function MergeRow(row: Row, a: Account): Row {
    row.(website := FirstText(row.website, a.website), note := FirstText(row.note, a.note),
         members := AddMember(row.members, a.id))
  }

  function MergeInto(rows: seq<Row>, key: string, a: Account): (merged: seq<Row>)
    ensures |merged| == |rows|
    ensures forall i | 0 <= i < |rows| :: merged[i] == if rows[i].id == key then MergeRow(rows[i], a) else rows[i]
  {
    seq(|rows|, i requires 0 <= i < |rows| => if rows[i].id == key then MergeRow(rows[i], a) else rows[i])
  }

  /** The first binding with an id, or one without any text. */
  function FindBinding(bindings: seq<Binding>, id: string): Binding {
    if bindings == [] then Binding(id, [], "", "")
    else if bindings[0].id == id then bindings[0]
    else FindBinding(bindings[1..], id)
  }

  function NewRow(bindings: seq<Binding>, key: string, a: Account): Row {
    var binding := FindBinding(bindings, key);
    Row(key, [a.id], a.website, a.note, FirstText(binding.title, a.title), FirstText(binding.billing, a.billing),
        a.figures)
  }

  function Absorb(bindings: seq<Binding>, rows: seq<Row>, key: string, a: Account): seq<Row> {
    if HasRow(rows, key) then MergeInto(rows, key, a) else rows + [NewRow(bindings, key, a)]
  }

  /** The rows after the first `n` accounts. */
  function RowsOf(owners: Owners, bindings: seq<Binding>, accounts: seq<Account>, n: nat): seq<Row>
    requires n <= |accounts|
  {
    if n == 0 then []
    else Absorb(bindings, RowsOf(owners, bindings, accounts, n - 1), Resolve(owners, accounts, accounts[n - 1]),
                accounts[n - 1])
  }

  /** `bindAccountIdentities`. */
  method BindAccountIdentities(accounts: seq<Account>, bindings: seq<Binding>) returns (r: Result<seq<Row>, Refusal>)
    ensures r.Ok? <==> !Nameless(bindings) && !Conflicting(bindings)
    ensures r.Ok? ==>
      exists owners: Owners :: Exact(owners, bindings) && r.value == RowsOf(owners, bindings, accounts, |accounts|)
    ensures r.Ok? && DistinctIds(accounts) ==> exists places :: RowsAsTold(bindings, accounts, r.value, places)
  {
    var owned := CollectOwners(bindings);
    if owned.Err? {
      return Err(owned.error);
    }
    var counts := CountAliases(accounts);
    var rows: seq<Row> := [];
    for n := 0 to |accounts|
      invariant rows == RowsOf(owned.value, bindings, accounts, n)
    {
      var a := accounts[n];
      var key := a.id;
      if a.id in owned.value {
        key := owned.value[a.id];
      } else {
        var owner := FirstOwner(owned.value, accounts, counts, a.aliases);
        key := if owner.Some? then owner.value else a.id;
      }
      rows := Absorb(bindings, rows, key, a);
    }
    if DistinctIds(accounts) {
      RowsAreTold(owned.value, bindings, accounts);
    }
    r := Ok(rows);
  }

  method FirstOwner(owners: Owners, ghost accounts: seq<Account>, counts: string -> nat, aliases: seq<string>)
    returns (owner: Option<string>)
    requires forall alias :: counts(alias) == Carriers(accounts, alias)
    ensures owner == AliasOwner(owners, accounts, aliases)
  {
    var k := 0;
    while k < |aliases| && !(counts(aliases[k]) == 1 && aliases[k] in owners)
      invariant 0 <= k <= |aliases|
      invariant AliasOwner(owners, accounts, aliases) == AliasOwner(owners, accounts, aliases[k..])
    {
      k := k + 1;
    }
    owner := if k < |aliases| then Some(owners[aliases[k]]) else None;
  }

  /** One scan over the accounts counts every alias, once per account that carries it. */
  method CountAliases(accounts: seq<Account>) returns (counts: string -> nat)
    ensures forall alias :: counts(alias) == Carriers(accounts, alias)
  {
    var table: map<string, nat> := map[];
    for n := 0 to |accounts|
      invariant forall alias :: (if alias in table then table[alias] else 0) == Carriers(accounts[..n], alias)
    {
      assert accounts[..n + 1][..n] == accounts[..n];
      var names := accounts[n].aliases;
      ghost var before := table;
      for k := 0 to |names|
        invariant forall alias :: ((if alias in table then table[alias] else 0)
          == (if alias in before then before[alias] else 0) + if alias in names[..k] then 1 else 0)
      {
        assert names[..k + 1] == names[..k] + [names[k]];
        if names[k] !in names[..k] {
          table := table[names[k] := (if names[k] in table then table[names[k]] else 0) + 1];
        }
      }
      assert names[..|names|] == names;
    }
    assert accounts[..|accounts|] == accounts;
    var final := table;
    counts := alias => if alias in final then final[alias] else 0;
  }

  // ------------------------------------------------------------ the partition

  predicate DistinctIds(accounts: seq<Account>) {
    forall i, j | 0 <= i < j < |accounts| :: accounts[i].id != accounts[j].id
  }

  /** The ids of the first `n` accounts that resolve to a key, in input order. */
  function Class(owners: Owners, accounts: seq<Account>, n: nat, key: string): seq<string>
    requires n <= |accounts|
  {
    if n == 0 then []
    else
      Class(owners, accounts, n - 1, key)
      + if Resolve(owners, accounts, accounts[n - 1]) == key then [accounts[n - 1].id] else []
  }

  lemma {:induction false} ClassMembers(owners: Owners, accounts: seq<Account>, n: nat, key: string)
    requires n <= |accounts|
    ensures forall id ::
      id in Class(owners, accounts, n, key) <==>
        exists i | 0 <= i < n :: accounts[i].id == id && Resolve(owners, accounts, accounts[i]) == key
  {
    if n > 0 {
      ClassMembers(owners, accounts, n - 1, key);
      forall id
        ensures id in Class(owners, accounts, n, key) <==>
          exists i | 0 <= i < n :: accounts[i].id == id && Resolve(owners, accounts, accounts[i]) == key
      {
        if id in Class(owners, accounts, n, key) && id !in Class(owners, accounts, n - 1, key) {
          assert accounts[n - 1].id == id;
        }
        if i :| 0 <= i < n && accounts[i].id == id && Resolve(owners, accounts, accounts[i]) == key {
          assert i == n - 1 || id in Class(owners, accounts, n - 1, key);
        }
      }
    }
  }

  ghost predicate Keyed(owners: Owners, accounts: seq<Account>, n: nat, key: string)
    requires n <= |accounts|
  {
    exists k | 0 <= k < n :: Resolve(owners, accounts, accounts[k]) == key
  }

  predicate DistinctRows(rows: seq<Row>) {
    forall i, j | 0 <= i < j < |rows| :: rows[i].id != rows[j].id
  }

  predicate HoldsClasses(owners: Owners, accounts: seq<Account>, n: nat, rows: seq<Row>)
    requires n <= |accounts|
  {
    forall i | 0 <= i < |rows| :: rows[i].members == Class(owners, accounts, n, rows[i].id)
  }

  /** Row ids are distinct, and each row holds exactly the accounts that resolve to it, in input order. */
  ghost predicate Partition(owners: Owners, accounts: seq<Account>, n: nat, rows: seq<Row>)
    requires n <= |accounts|
  {
    && DistinctRows(rows)
    && HoldsClasses(owners, accounts, n, rows)
    && (forall key :: HasRow(rows, key) <==> Keyed(owners, accounts, n, key))
  }

  lemma KeyedGrows(owners: Owners, accounts: seq<Account>, n: nat, key: string)
    requires n < |accounts|
    ensures Keyed(owners, accounts, n + 1, key) <==>
      Keyed(owners, accounts, n, key) || Resolve(owners, accounts, accounts[n]) == key
  {
  }

  lemma AbsorbedRows(bindings: seq<Binding>, rows: seq<Row>, key: string, a: Account, other: string)
    ensures HasRow(Absorb(bindings, rows, key, a), other) <==> HasRow(rows, other) || other == key
    ensures DistinctRows(rows) ==> DistinctRows(Absorb(bindings, rows, key, a))
  {
    var next := Absorb(bindings, rows, key, a);
    assert forall i | 0 <= i < |rows| :: next[i].id == rows[i].id;
    if HasRow(rows, other) {
      var i :| 0 <= i < |rows| && rows[i].id == other;
      assert next[i].id == other;
    }
    if !HasRow(rows, key) {
      assert next[|rows|].id == key;
    }
  }

  lemma AbsorbedClasses(owners: Owners, bindings: seq<Binding>, accounts: seq<Account>, n: nat, rows: seq<Row>)
    requires DistinctIds(accounts) && n < |accounts| && Partition(owners, accounts, n, rows)
    ensures HoldsClasses(owners, accounts, n + 1,
                         Absorb(bindings, rows, Resolve(owners, accounts, accounts[n]), accounts[n]))
  {
    var a := accounts[n];
    var key := Resolve(owners, accounts, a);
    var next := Absorb(bindings, rows, key, a);
    ClassMembers(owners, accounts, n, key);
    assert a.id !in Class(owners, accounts, n, key);
    if !HasRow(rows, key) {
      assert !Keyed(owners, accounts, n, key);
      NoneYet(owners, accounts, n, key);
    }
    forall i | 0 <= i < |next| ensures next[i].members == Class(owners, accounts, n + 1, next[i].id) {
      if i < |rows| {
        assert rows[i].members == Class(owners, accounts, n, rows[i].id);
      }
    }
  }

  /** The first non-empty text of some accounts. */
  function FirstOf(texts: seq<string>): string {
    if texts == [] then "" else FirstText(texts[0], FirstOf(texts[1..]))
  }

  lemma {:induction false} FirstOfAppend(texts: seq<string>, more: string)
    ensures FirstOf(texts + [more]) == FirstText(FirstOf(texts), more)
  {
    if texts != [] {
      assert (texts + [more])[1..] == texts[1..] + [more];
      FirstOfAppend(texts[1..], more);
    }
  }

  /** The accounts of a class, in input order. */
  function ClassAccounts(owners: Owners, accounts: seq<Account>, n: nat, key: string): seq<Account>
    requires n <= |accounts|
  {
    if n == 0 then []
    else
      ClassAccounts(owners, accounts, n - 1, key)
      + if Resolve(owners, accounts, accounts[n - 1]) == key then [accounts[n - 1]] else []
  }

  predicate Columns(bindings: seq<Binding>, row: Row, members: seq<Account>) {
    && members != []
    && row.website == FirstOf(seq(|members|, i requires 0 <= i < |members| => members[i].website))
    && row.note == FirstOf(seq(|members|, i requires 0 <= i < |members| => members[i].note))
    && row.title == FirstText(FindBinding(bindings, row.id).title, members[0].title)
    && row.billing == FirstText(FindBinding(bindings, row.id).billing, members[0].billing)
    && row.figures == members[0].figures
  }

  lemma MergedColumns(bindings: seq<Binding>, row: Row, members: seq<Account>, a: Account)
    requires Columns(bindings, row, members)
    ensures Columns(bindings, MergeRow(row, a), members + [a])
  {
    var more := members + [a];
    var sites := seq(|members|, i requires 0 <= i < |members| => members[i].website);
    var notes := seq(|members|, i requires 0 <= i < |members| => members[i].note);
    FirstOfAppend(sites, a.website);
    FirstOfAppend(notes, a.note);
    assert seq(|more|, i requires 0 <= i < |more| => more[i].website) == sites + [a.website];
    assert seq(|more|, i requires 0 <= i < |more| => more[i].note) == notes + [a.note];
  }

  lemma NewColumns(bindings: seq<Binding>, key: string, a: Account)
    ensures Columns(bindings, NewRow(bindings, key, a), [a])
  {
    assert seq(1, i requires 0 <= i < 1 => [a][i].website) == [a.website];
    assert seq(1, i requires 0 <= i < 1 => [a][i].note) == [a.note];
    FirstOfAppend([], a.website);
    FirstOfAppend([], a.note);
    assert [] + [a.website] == [a.website] && [] + [a.note] == [a.note];
  }

  lemma {:induction false} ClassEmptyExactly(owners: Owners, accounts: seq<Account>, n: nat, key: string)
    requires n <= |accounts|
    ensures ClassAccounts(owners, accounts, n, key) == [] <==> !Keyed(owners, accounts, n, key)
  {
    if n > 0 {
      ClassEmptyExactly(owners, accounts, n - 1, key);
      KeyedGrows(owners, accounts, n - 1, key);
    }
  }

  lemma OldRowColumns(owners: Owners, bindings: seq<Binding>, accounts: seq<Account>, n: nat, row: Row)
    requires n < |accounts| && Columns(bindings, row, ClassAccounts(owners, accounts, n, row.id))
    ensures
      var a := accounts[n];
      Columns(bindings, if row.id == Resolve(owners, accounts, a) then MergeRow(row, a) else row,
              ClassAccounts(owners, accounts, n + 1, row.id))
  {
    var members := ClassAccounts(owners, accounts, n, row.id);
    if row.id == Resolve(owners, accounts, accounts[n]) {
      MergedColumns(bindings, row, members, accounts[n]);
    } else {
      assert members + [] == members;
    }
  }

  lemma NewRowColumns(owners: Owners, bindings: seq<Binding>, accounts: seq<Account>, n: nat)
    requires n < |accounts| && !Keyed(owners, accounts, n, Resolve(owners, accounts, accounts[n]))
    ensures
      var key := Resolve(owners, accounts, accounts[n]);
      Columns(bindings, NewRow(bindings, key, accounts[n]), ClassAccounts(owners, accounts, n + 1, key))
  {
    ClassEmptyExactly(owners, accounts, n, Resolve(owners, accounts, accounts[n]));
    NewColumns(bindings, Resolve(owners, accounts, accounts[n]), accounts[n]);
    assert [] + [accounts[n]] == [accounts[n]];
  }

  lemma AbsorbedAt(bindings: seq<Binding>, rows: seq<Row>, key: string, a: Account, i: nat)
    requires i < |Absorb(bindings, rows, key, a)|
    ensures i < |rows| ==>
      Absorb(bindings, rows, key, a)[i] == if rows[i].id == key then MergeRow(rows[i], a) else rows[i]
    ensures i >= |rows| ==> Absorb(bindings, rows, key, a)[i] == NewRow(bindings, key, a) && !HasRow(rows, key)
  {
  }

  /** What a merged row shows: the first website and note anybody in it has, and otherwise its first account, under
      the binding's own label and billing mode if it has them. */
  lemma {:induction false} RowColumns(owners: Owners, bindings: seq<Binding>, accounts: seq<Account>, n: nat, i: nat)
    requires DistinctIds(accounts) && n <= |accounts| && i < |RowsOf(owners, bindings, accounts, n)|
    ensures
      var row := RowsOf(owners, bindings, accounts, n)[i];
      Columns(bindings, row, ClassAccounts(owners, accounts, n, row.id))
    decreases n
  {
    var before, a := RowsOf(owners, bindings, accounts, n - 1), accounts[n - 1];
    AbsorbedAt(bindings, before, Resolve(owners, accounts, a), a, i);
    if i < |before| {
      RowColumns(owners, bindings, accounts, n - 1, i);
      OldRowColumns(owners, bindings, accounts, n - 1, before[i]);
    } else {
      RowsPartition(owners, bindings, accounts, n - 1);
      NewRowColumns(owners, bindings, accounts, n - 1);
    }
  }

  lemma NoneYet(owners: Owners, accounts: seq<Account>, n: nat, key: string)
    requires n <= |accounts| && !Keyed(owners, accounts, n, key)
    ensures Class(owners, accounts, n, key) == []
    decreases n
  {
    if n > 0 {
      assert !Keyed(owners, accounts, n - 1, key);
      NoneYet(owners, accounts, n - 1, key);
    }
  }

  lemma {:induction false} RowsPartition(owners: Owners, bindings: seq<Binding>, accounts: seq<Account>, n: nat)
    requires DistinctIds(accounts) && n <= |accounts|
    ensures Partition(owners, accounts, n, RowsOf(owners, bindings, accounts, n))
  {
    if n > 0 {
      var rows, a := RowsOf(owners, bindings, accounts, n - 1), accounts[n - 1];
      var key := Resolve(owners, accounts, a);
      RowsPartition(owners, bindings, accounts, n - 1);
      AbsorbedClasses(owners, bindings, accounts, n - 1, rows);
      forall other ensures HasRow(Absorb(bindings, rows, key, a), other) <==> Keyed(owners, accounts, n, other) {
        AbsorbedRows(bindings, rows, key, a, other);
        KeyedGrows(owners, accounts, n - 1, other);
      }
      AbsorbedRows(bindings, rows, key, a, key);
    }
  }

  // ------------------------------------------------------------ the rows, told from accounts and bindings

  /** The accounts that carry an alias. */
  function CarriedBy(accounts: seq<Account>, alias: string): set<int> {
    set k | 0 <= k < |accounts| && alias in accounts[k].aliases
  }

  /** Their number is what is counted. */
  lemma {:induction false} CarriersExactly(accounts: seq<Account>, alias: string)
    ensures Carriers(accounts, alias) == |CarriedBy(accounts, alias)|
  {
    if accounts != [] {
      var front := accounts[..|accounts| - 1];
      CarriersExactly(front, alias);
      assert forall k | 0 <= k < |front| :: front[k] == accounts[k];
      assert CarriedBy(accounts, alias) ==
        CarriedBy(front, alias) + if alias in accounts[|accounts| - 1].aliases then {|accounts| - 1} else {};
    } else {
      assert CarriedBy(accounts, alias) == {};
    }
  }

  /** The account goes to the row: the one of the binding it prefers or, if no binding names it, its own. */
  ghost predicate GoesTo(bindings: seq<Binding>, accounts: seq<Account>, a: Account, key: string) {
    || Prefers(bindings, accounts, key, a)
    || (key == a.id && forall owner :: !Names(bindings, accounts, owner, a))
  }

  /** The places of the accounts that go to the row, in input order. */
  ghost predicate PlacesOf(bindings: seq<Binding>, accounts: seq<Account>, key: string, places: seq<nat>) {
    && Increasing(places) && (forall i | 0 <= i < |places| :: places[i] < |accounts|)
    && (forall k: nat | k < |accounts| :: k in places <==> GoesTo(bindings, accounts, accounts[k], key))
  }

  /** The first of the texts that is not empty, or the empty one. */
  predicate IsFirstText(text: string, texts: seq<string>) {
    if text == "" then forall i | 0 <= i < |texts| :: texts[i] == ""
    else exists i | 0 <= i < |texts| :: texts[i] == text && forall j | 0 <= j < i :: texts[j] == ""
  }

  /** Binding `i` is the first with this id. */
  predicate FirstWithId(bindings: seq<Binding>, key: string, i: nat) {
    i < |bindings| && bindings[i].id == key && forall j | 0 <= j < i :: bindings[j].id != key
  }

  /** The row shows the binding's own texts where it has them, and else those of its accounts. */
  ghost predicate ShowsTexts(bindings: seq<Binding>, row: Row, members: seq<Account>) {
    && members != []
    && IsFirstText(row.website, seq(|members|, i requires 0 <= i < |members| => members[i].website))
    && IsFirstText(row.note, seq(|members|, i requires 0 <= i < |members| => members[i].note))
    && row.figures == members[0].figures
    && (forall i: nat | FirstWithId(bindings, row.id, i) ::
          && row.title == (if bindings[i].title != "" then bindings[i].title else members[0].title)
          && row.billing == (if bindings[i].billing != "" then bindings[i].billing else members[0].billing))
    && ((forall i: nat :: !FirstWithId(bindings, row.id, i)) ==>
          row.title == members[0].title && row.billing == members[0].billing)
  }

  ghost predicate RowAsTold(bindings: seq<Binding>, accounts: seq<Account>, row: Row, places: seq<nat>) {
    && PlacesOf(bindings, accounts, row.id, places) && places != [] && |row.members| == |places|
    && (forall i | 0 <= i < |places| :: row.members[i] == accounts[places[i]].id)
    && ShowsTexts(bindings, row, seq(|places|, i requires 0 <= i < |places| => accounts[places[i]]))
  }

  /** Every row stands for some accounts and every account goes to a row; rows stand in the order of their first
      accounts. */
  ghost predicate RowsAsTold(bindings: seq<Binding>, accounts: seq<Account>, rows: seq<Row>, places: seq<seq<nat>>) {
    && |places| == |rows|
    && (forall i | 0 <= i < |rows| :: RowAsTold(bindings, accounts, rows[i], places[i]))
    && (forall i, j | 0 <= i < j < |rows| :: places[i][0] < places[j][0])
    && (forall k: nat | k < |accounts| :: Placed(places, k))
  }

  predicate Placed(places: seq<seq<nat>>, k: nat) {
    exists i | 0 <= i < |places| :: k in places[i]
  }

  /** An account resolves to the row it goes to, and to no other. */
  lemma GoesExactly(owners: Owners, bindings: seq<Binding>, accounts: seq<Account>, a: Account, key: string)
    requires Exact(owners, bindings)
    ensures GoesTo(bindings, accounts, a, key) <==> Resolve(owners, accounts, a) == key
  {
    var own := Resolve(owners, accounts, a);
    ResolveMeans(owners, bindings, accounts, a);
    ResolvesToPreferred(owners, bindings, accounts, a, key);
    if Prefers(bindings, accounts, key, a) {
      PreferredIsNamed(bindings, accounts, key, a);
    }
  }

  lemma PreferredIsNamed(bindings: seq<Binding>, accounts: seq<Account>, owner: string, a: Account)
    requires Prefers(bindings, accounts, owner, a)
    ensures Names(bindings, accounts, owner, a)
  {
    if !Owns(bindings, owner, a.id) {
      var i :|
        0 <= i < |a.aliases| && FirstBinds(bindings, accounts, a.aliases, i) && Owns(bindings, owner, a.aliases[i]);
      assert a.aliases[i] in a.aliases && Carriers(accounts, a.aliases[i]) == 1;
    }
  }

  /** The places of a class. */
  function Places(owners: Owners, accounts: seq<Account>, n: nat, key: string): seq<nat>
    requires n <= |accounts|
  {
    if n == 0 then []
    else
      Places(owners, accounts, n - 1, key)
      + if Resolve(owners, accounts, accounts[n - 1]) == key then [n - 1] else []
  }

  predicate Increasing(places: seq<nat>) {
    forall i, j | 0 <= i < j < |places| :: places[i] < places[j]
  }

  lemma IncreasingMore(places: seq<nat>, n: nat)
    requires Increasing(places) && forall k | k in places :: k < n
    ensures Increasing(places + [n])
  {
    assert forall i | 0 <= i < |places| :: places[i] in places;
  }

  lemma {:induction false} PlacesExactly(owners: Owners, accounts: seq<Account>, n: nat, key: string)
    requires n <= |accounts|
    ensures Increasing(Places(owners, accounts, n, key))
    ensures forall k: nat :: k in Places(owners, accounts, n, key) <==>
      k < n && Resolve(owners, accounts, accounts[k]) == key
  {
    if n > 0 {
      PlacesExactly(owners, accounts, n - 1, key);
      IncreasingMore(Places(owners, accounts, n - 1, key), n - 1);
    }
  }

  lemma {:induction false} PlacesAreClass(owners: Owners, accounts: seq<Account>, n: nat, key: string)
    requires n <= |accounts|
    ensures
      var p, ids := Places(owners, accounts, n, key), Class(owners, accounts, n, key);
      var members := ClassAccounts(owners, accounts, n, key);
      && |p| == |ids| == |members|
      && forall i | 0 <= i < |p| ::
           p[i] < |accounts| && ids[i] == accounts[p[i]].id && members[i] == accounts[p[i]]
  {
    if n > 0 {
      PlacesAreClass(owners, accounts, n - 1, key);
    }
  }

  lemma {:induction false} FirstOfExactly(texts: seq<string>)
    ensures IsFirstText(FirstOf(texts), texts)
  {
    if texts != [] {
      var rest := texts[1..];
      FirstOfExactly(rest);
      assert forall i | 0 < i < |texts| :: texts[i] == rest[i - 1];
      if texts[0] == "" && FirstOf(rest) != "" {
        var i :| 0 <= i < |rest| && rest[i] == FirstOf(rest) && forall j | 0 <= j < i :: rest[j] == "";
        assert texts[i + 1] == FirstOf(texts) && forall j | 0 <= j < i + 1 :: texts[j] == "";
      }
    }
  }

  lemma {:induction false} FindExactly(bindings: seq<Binding>, key: string)
    ensures forall i: nat | FirstWithId(bindings, key, i) :: FindBinding(bindings, key) == bindings[i]
    ensures (forall i: nat :: !FirstWithId(bindings, key, i)) ==>
      FindBinding(bindings, key).title == "" && FindBinding(bindings, key).billing == ""
  {
    if bindings != [] && bindings[0].id != key {
      var rest := bindings[1..];
      FindExactly(rest, key);
      assert forall i | 0 < i < |bindings| :: bindings[i] == rest[i - 1];
      forall i: nat ensures FirstWithId(rest, key, i) <==> FirstWithId(bindings, key, i + 1) {
        FirstWithTail(bindings, key, i);
      }
      forall i: nat | FirstWithId(bindings, key, i) ensures FindBinding(bindings, key) == bindings[i] {
        FirstWithTail(bindings, key, i - 1);
      }
      if i: nat :| FirstWithId(rest, key, i) {
        assert FirstWithId(bindings, key, i + 1);
      }
    } else if bindings != [] {
      assert FirstWithId(bindings, key, 0);
    }
  }

  lemma FirstWithTail(bindings: seq<Binding>, key: string, i: nat)
    requires bindings != [] && bindings[0].id != key
    ensures FirstWithId(bindings[1..], key, i) <==> FirstWithId(bindings, key, i + 1)
  {
    var rest := bindings[1..];
    assert forall j | 0 <= j < |rest| :: rest[j] == bindings[j + 1];
    if FirstWithId(rest, key, i) {
      assert forall j | 0 < j < i + 1 :: bindings[j] == rest[j - 1];
    }
  }

  lemma TextsAreShown(bindings: seq<Binding>, row: Row, members: seq<Account>)
    requires Columns(bindings, row, members)
    ensures ShowsTexts(bindings, row, members)
  {
    FirstOfExactly(seq(|members|, i requires 0 <= i < |members| => members[i].website));
    FirstOfExactly(seq(|members|, i requires 0 <= i < |members| => members[i].note));
    FindExactly(bindings, row.id);
  }

  lemma RowIsTold(owners: Owners, bindings: seq<Binding>, accounts: seq<Account>, i: nat)
    requires Exact(owners, bindings) && DistinctIds(accounts)
    requires i < |RowsOf(owners, bindings, accounts, |accounts|)|
    ensures
      var row := RowsOf(owners, bindings, accounts, |accounts|)[i];
      RowAsTold(bindings, accounts, row, Places(owners, accounts, |accounts|, row.id))
  {
    var n := |accounts|;
    var row := RowsOf(owners, bindings, accounts, n)[i];
    var places := Places(owners, accounts, n, row.id);
    PlacesAreClass(owners, accounts, n, row.id);
    RowsPartition(owners, bindings, accounts, n);
    RowColumns(owners, bindings, accounts, n, i);
    var members := seq(|places|, i requires 0 <= i < |places| => accounts[places[i]]);
    assert members == ClassAccounts(owners, accounts, n, row.id);
    TextsAreShown(bindings, row, members);
    PlacesAreTold(owners, bindings, accounts, row.id);
  }

  lemma PlacesAreTold(owners: Owners, bindings: seq<Binding>, accounts: seq<Account>, key: string)
    requires Exact(owners, bindings)
    ensures PlacesOf(bindings, accounts, key, Places(owners, accounts, |accounts|, key))
  {
    var places := Places(owners, accounts, |accounts|, key);
    PlacesExactly(owners, accounts, |accounts|, key);
    assert forall i | 0 <= i < |places| :: places[i] in places;
    forall k: nat | k < |accounts| ensures k in places <==> GoesTo(bindings, accounts, accounts[k], key) {
      GoesExactly(owners, bindings, accounts, accounts[k], key);
    }
  }

  /** Place `head` is the first of a class. */
  predicate FirstPlace(owners: Owners, accounts: seq<Account>, n: nat, key: string, head: nat)
    requires n <= |accounts|
  {
    Places(owners, accounts, n, key) != [] && Places(owners, accounts, n, key)[0] == head
  }

  ghost predicate AreHeads(owners: Owners, accounts: seq<Account>, n: nat, rows: seq<Row>, heads: seq<nat>)
    requires n <= |accounts|
  {
    && |heads| == |rows| && Increasing(heads)
    && forall i | 0 <= i < |rows| :: heads[i] < n && FirstPlace(owners, accounts, n, rows[i].id, heads[i])
  }

  /** Rows stand in the order of their first accounts. */
  lemma {:induction false} RowsInOrder(owners: Owners, bindings: seq<Binding>, accounts: seq<Account>, n: nat)
    returns (heads: seq<nat>)
    requires DistinctIds(accounts) && n <= |accounts|
    ensures AreHeads(owners, accounts, n, RowsOf(owners, bindings, accounts, n), heads)
  {
    if n == 0 {
      heads := [];
    } else {
      var before := RowsOf(owners, bindings, accounts, n - 1);
      var earlier := RowsInOrder(owners, bindings, accounts, n - 1);
      RowsPartition(owners, bindings, accounts, n - 1);
      heads := HeadsNext(owners, bindings, accounts, n, before, earlier);
    }
  }

  lemma HeadsNext(owners: Owners, bindings: seq<Binding>, accounts: seq<Account>, n: nat, before: seq<Row>,
                  earlier: seq<nat>)
    returns (heads: seq<nat>)
    requires 0 < n <= |accounts| && AreHeads(owners, accounts, n - 1, before, earlier)
    requires Partition(owners, accounts, n - 1, before)
    ensures AreHeads(owners, accounts, n,
                     Absorb(bindings, before, Resolve(owners, accounts, accounts[n - 1]), accounts[n - 1]), heads)
  {
    var key := Resolve(owners, accounts, accounts[n - 1]);
    var after := Absorb(bindings, before, key, accounts[n - 1]);
    heads := if HasRow(before, key) then earlier else earlier + [n - 1];
    IncreasingMore(earlier, n - 1);
    if !HasRow(before, key) {
      NewHead(owners, accounts, n, key);
    }
    forall i | 0 <= i < |after| ensures heads[i] < n && FirstPlace(owners, accounts, n, after[i].id, heads[i]) {
      AbsorbedAt(bindings, before, key, accounts[n - 1], i);
      if i < |before| {
        FirstStays(owners, accounts, n, before[i].id, earlier[i]);
      }
    }
  }

  lemma NewHead(owners: Owners, accounts: seq<Account>, n: nat, key: string)
    requires 0 < n <= |accounts| && key == Resolve(owners, accounts, accounts[n - 1])
    requires !Keyed(owners, accounts, n - 1, key)
    ensures FirstPlace(owners, accounts, n, key, n - 1)
  {
    NoPlaceYet(owners, accounts, n - 1, key);
  }

  lemma FirstStays(owners: Owners, accounts: seq<Account>, n: nat, key: string, head: nat)
    requires 0 < n <= |accounts| && FirstPlace(owners, accounts, n - 1, key, head)
    ensures FirstPlace(owners, accounts, n, key, head)
  {
  }

  lemma NoPlaceYet(owners: Owners, accounts: seq<Account>, n: nat, key: string)
    requires n <= |accounts| && !Keyed(owners, accounts, n, key)
    ensures Places(owners, accounts, n, key) == []
  {
    PlacesAreClass(owners, accounts, n, key);
    NoneYet(owners, accounts, n, key);
  }

  lemma PlacedSomewhere(owners: Owners, bindings: seq<Binding>, accounts: seq<Account>, k: nat, places: seq<seq<nat>>)
    requires DistinctIds(accounts) && k < |accounts|
    requires |places| == |RowsOf(owners, bindings, accounts, |accounts|)|
    requires forall i | 0 <= i < |places| ::
      places[i] == Places(owners, accounts, |accounts|, RowsOf(owners, bindings, accounts, |accounts|)[i].id)
    ensures Placed(places, k)
  {
    var n, rows := |accounts|, RowsOf(owners, bindings, accounts, |accounts|);
    var key := Resolve(owners, accounts, accounts[k]);
    RowsPartition(owners, bindings, accounts, n);
    assert Keyed(owners, accounts, n, key);
    var i :| 0 <= i < |rows| && rows[i].id == key;
    PlacesExactly(owners, accounts, n, key);
    assert k in places[i];
  }

  /** The rows of the merge are the rows told. */
  lemma RowsAreTold(owners: Owners, bindings: seq<Binding>, accounts: seq<Account>)
    requires Exact(owners, bindings) && DistinctIds(accounts)
    ensures exists places :: RowsAsTold(bindings, accounts, RowsOf(owners, bindings, accounts, |accounts|), places)
  {
    var n, rows := |accounts|, RowsOf(owners, bindings, accounts, |accounts|);
    var places := seq(|rows|, i requires 0 <= i < |rows| => Places(owners, accounts, n, rows[i].id));
    forall i | 0 <= i < |rows| ensures RowAsTold(bindings, accounts, rows[i], places[i]) {
      RowIsTold(owners, bindings, accounts, i);
    }
    var heads := RowsInOrder(owners, bindings, accounts, n);
    forall i, j | 0 <= i < j < |rows| ensures places[i][0] < places[j][0] {
      assert FirstPlace(owners, accounts, n, rows[i].id, heads[i]);
      assert FirstPlace(owners, accounts, n, rows[j].id, heads[j]);
    }
    forall k: nat | k < n ensures Placed(places, k) {
      PlacedSomewhere(owners, bindings, accounts, k, places);
    }
    assert RowsAsTold(bindings, accounts, rows, places);
  }

  predicate Member(rows: seq<Row>, id: string) {
    exists i | 0 <= i < |rows| :: id in rows[i].members
  }

  ghost predicate Share(rows: seq<Row>, a: string, b: string) {
    exists i | 0 <= i < |rows| :: a in rows[i].members && b in rows[i].members
  }

  /** Identity binding is a partition: every account is a member of exactly one row, rows hold nothing but
      accounts, and two accounts share a row exactly when they resolve to the same identity. */
  lemma BindingPartitions(owners: Owners, bindings: seq<Binding>, accounts: seq<Account>, j: nat, k: nat)
    requires Exact(owners, bindings) && DistinctIds(accounts) && j < |accounts| && k < |accounts|
    ensures
      var rows := RowsOf(owners, bindings, accounts, |accounts|);
      && Member(rows, accounts[j].id)
      && (forall i, i' | 0 <= i < i' < |rows| ::
            !(accounts[j].id in rows[i].members && accounts[j].id in rows[i'].members))
      && (Share(rows, accounts[j].id, accounts[k].id) <==>
            Resolve(owners, accounts, accounts[j]) == Resolve(owners, accounts, accounts[k]))
  {
    var rows := RowsOf(owners, bindings, accounts, |accounts|);
    RowsPartition(owners, bindings, accounts, |accounts|);
    MemberMeans(owners, accounts, rows, j);
    MemberMeans(owners, accounts, rows, k);
  }

  lemma MemberMeans(owners: Owners, accounts: seq<Account>, rows: seq<Row>, j: nat)
    requires DistinctIds(accounts) && Partition(owners, accounts, |accounts|, rows) && j < |accounts|
    ensures forall i | 0 <= i < |rows| ::
      accounts[j].id in rows[i].members <==> rows[i].id == Resolve(owners, accounts, accounts[j])
    ensures Member(rows, accounts[j].id)
  {
    forall i | 0 <= i < |rows|
      ensures accounts[j].id in rows[i].members <==> rows[i].id == Resolve(owners, accounts, accounts[j])
    {
      ClassMembers(owners, accounts, |accounts|, rows[i].id);
      if accounts[j].id in rows[i].members {
        var k :|
          0 <= k < |accounts| && accounts[k].id == accounts[j].id
            && Resolve(owners, accounts, accounts[k]) == rows[i].id;
        assert k == j;
      }
    }
    assert Keyed(owners, accounts, |accounts|, Resolve(owners, accounts, accounts[j]));
    var i :| 0 <= i < |rows| && rows[i].id == Resolve(owners, accounts, accounts[j]);
    assert accounts[j].id in rows[i].members;
  }

  ghost predicate NamedTogether(bindings: seq<Binding>, accounts: seq<Account>, a: Account, b: Account) {
    exists owner :: Names(bindings, accounts, owner, a) && Names(bindings, accounts, owner, b)
  }

  ghost predicate PreferTogether(bindings: seq<Binding>, accounts: seq<Account>, a: Account, b: Account) {
    exists owner :: Prefers(bindings, accounts, owner, a) && Prefers(bindings, accounts, owner, b)
  }

  /** Two accounts share a row if and only if both prefer the same binding. So "one binding names them both" decides
      it exactly when no binding does, or the binding each prefers is the same one. */
  lemma SharedExactlyByBindings(owners: Owners, bindings: seq<Binding>, accounts: seq<Account>, j: nat, k: nat)
    requires Exact(owners, bindings) && DistinctIds(accounts) && j < |accounts| && k < |accounts| && j != k
    ensures
      var shared := Share(RowsOf(owners, bindings, accounts, |accounts|), accounts[j].id, accounts[k].id);
      var named := NamedTogether(bindings, accounts, accounts[j], accounts[k]);
      var preferred := PreferTogether(bindings, accounts, accounts[j], accounts[k]);
      && (shared <==> preferred)
      && ((shared <==> named) <==> !named || preferred)
  {
    var a, b := accounts[j], accounts[k];
    BindingPartitions(owners, bindings, accounts, j, k);
    var x, y := Resolve(owners, accounts, a), Resolve(owners, accounts, b);
    if x == y {
      SharedIsNamed(owners, bindings, accounts, j, k);
      ResolvesToPreferred(owners, bindings, accounts, a, x);
      ResolvesToPreferred(owners, bindings, accounts, b, x);
    }
    if owner :| Prefers(bindings, accounts, owner, a) && Prefers(bindings, accounts, owner, b) {
      ResolvesToPreferred(owners, bindings, accounts, a, owner);
      ResolvesToPreferred(owners, bindings, accounts, b, owner);
    }
  }

  /** Accounts that resolve alike are named by the binding they resolve to. */
  lemma SharedIsNamed(owners: Owners, bindings: seq<Binding>, accounts: seq<Account>, j: nat, k: nat)
    requires Exact(owners, bindings) && DistinctIds(accounts) && j < |accounts| && k < |accounts| && j != k
    requires Resolve(owners, accounts, accounts[j]) == Resolve(owners, accounts, accounts[k])
    ensures Names(bindings, accounts, Resolve(owners, accounts, accounts[j]), accounts[j])
    ensures Names(bindings, accounts, Resolve(owners, accounts, accounts[j]), accounts[k])
  {
    var x := Resolve(owners, accounts, accounts[j]);
    ResolveMeans(owners, bindings, accounts, accounts[j]);
    ResolveMeans(owners, bindings, accounts, accounts[k]);
    BindingOwnsItself(bindings, accounts, x, accounts[k]);
    BindingOwnsItself(bindings, accounts, x, accounts[j]);
  }

  lemma BindingOwnsItself(bindings: seq<Binding>, accounts: seq<Account>, owner: string, a: Account)
    ensures Names(bindings, accounts, owner, a) ==> Owns(bindings, owner, owner)
  {
    forall name | Owns(bindings, owner, name) ensures Owns(bindings, owner, owner) {
      var i :| 0 <= i < |bindings| && bindings[i].id == owner && Lists(bindings[i], name);
      assert Lists(bindings[i], owner);
    }
  }

  /** An account no binding names stays alone, under its own id. */
  lemma UnnamedStaysAlone(owners: Owners, bindings: seq<Binding>, accounts: seq<Account>, j: nat, k: nat)
    requires Exact(owners, bindings) && DistinctIds(accounts) && j < |accounts| && k < |accounts| && j != k
    requires forall owner :: !Names(bindings, accounts, owner, accounts[j])
    ensures Resolve(owners, accounts, accounts[j]) == accounts[j].id
    ensures !Share(RowsOf(owners, bindings, accounts, |accounts|), accounts[j].id, accounts[k].id)
  {
    ResolveMeans(owners, bindings, accounts, accounts[j]);
    BindingPartitions(owners, bindings, accounts, j, k);
    if Resolve(owners, accounts, accounts[j]) == Resolve(owners, accounts, accounts[k]) {
      SharedIsNamed(owners, bindings, accounts, j, k);
    }
  }

  const SPLIT_ACCOUNTS: seq<Account> :=
    [Account("a", ["x", "y"], "", "", "", "", ""), Account("b", [], "", "", "", "", "")]
  const SPLIT_BINDINGS: seq<Binding> := [Binding("p", ["x"], "", ""), Binding("q", ["y", "b"], "", "")]

  lemma SplitOwnership(owner: string, name: string)
    ensures Owns(SPLIT_BINDINGS, owner, name) <==>
      (owner == "p" && name in ["p", "x"]) || (owner == "q" && name in ["q", "y", "b"])
  {
    var p, q := SPLIT_BINDINGS[0], SPLIT_BINDINGS[1];
    assert Lists(p, name) <==> name in ["p", "x"];
    assert Lists(q, name) <==> name in ["q", "y", "b"];
    if owner == "p" && Lists(p, name) {
      assert SPLIT_BINDINGS[0].id == owner && Lists(SPLIT_BINDINGS[0], name);
    }
    if owner == "q" && Lists(q, name) {
      assert SPLIT_BINDINGS[1].id == owner && Lists(SPLIT_BINDINGS[1], name);
    }
  }

  lemma SplitCarriers()
    ensures Carriers(SPLIT_ACCOUNTS, "x") == 1 && Carriers(SPLIT_ACCOUNTS, "y") == 1
  {
    var one := SPLIT_ACCOUNTS[..1];
    assert one == [SPLIT_ACCOUNTS[0]] && one[..0] == [];
    assert "x" in SPLIT_ACCOUNTS[0].aliases && "y" in SPLIT_ACCOUNTS[0].aliases;
    assert Carriers(one, "x") == 1 && Carriers(one, "y") == 1;
  }

  lemma SplitOneOwner(a: string, b: string, name: string)
    requires Owns(SPLIT_BINDINGS, a, name) && Owns(SPLIT_BINDINGS, b, name)
    ensures a == b
  {
    SplitOwnership(a, name);
    SplitOwnership(b, name);
  }

  lemma SplitHasNoConflict()
    ensures !Conflicting(SPLIT_BINDINGS)
  {
    forall a, b, name | Owns(SPLIT_BINDINGS, a, name) && Owns(SPLIT_BINDINGS, b, name) ensures a == b {
      SplitOneOwner(a, b, name);
    }
    ConflictMeans(SPLIT_BINDINGS);
  }

  lemma SplitIsWellFormed()
    ensures DistinctIds(SPLIT_ACCOUNTS) && !Nameless(SPLIT_BINDINGS) && !Conflicting(SPLIT_BINDINGS)
  {
    SplitHasNoConflict();
  }

  lemma SplitNames()
    ensures Names(SPLIT_BINDINGS, SPLIT_ACCOUNTS, "q", SPLIT_ACCOUNTS[0])
    ensures Names(SPLIT_BINDINGS, SPLIT_ACCOUNTS, "q", SPLIT_ACCOUNTS[1])
  {
    SplitCarriers();
    SplitOwnership("q", "b");
    SplitOwnership("q", "y");
    assert "y" in SPLIT_ACCOUNTS[0].aliases;
  }

  lemma SplitFirst(owners: Owners)
    requires Exact(owners, SPLIT_BINDINGS)
    ensures Resolve(owners, SPLIT_ACCOUNTS, SPLIT_ACCOUNTS[0]) == "p"
  {
    SplitCarriers();
    SplitOwnership("p", "x");
    forall owner ensures !Owns(SPLIT_BINDINGS, owner, "a") {
      SplitOwnership(owner, "a");
    }
    assert "a" !in owners;
    assert owners["x"] == "p" && SPLIT_ACCOUNTS[0].aliases[0] == "x";
  }

  lemma SplitSecond(owners: Owners)
    requires Exact(owners, SPLIT_BINDINGS)
    ensures Resolve(owners, SPLIT_ACCOUNTS, SPLIT_ACCOUNTS[1]) == "q"
  {
    SplitOwnership("q", "b");
  }

  /** The proviso is needed: an account whose two aliases belong to two bindings joins only the first, so one
      binding can name two accounts that stay apart. */
  lemma TwoBindingsForOneAccount(owners: Owners)
    requires Exact(owners, SPLIT_BINDINGS)
    ensures !Nameless(SPLIT_BINDINGS) && !Conflicting(SPLIT_BINDINGS) && DistinctIds(SPLIT_ACCOUNTS)
    ensures Names(SPLIT_BINDINGS, SPLIT_ACCOUNTS, "q", SPLIT_ACCOUNTS[0])
    ensures Names(SPLIT_BINDINGS, SPLIT_ACCOUNTS, "q", SPLIT_ACCOUNTS[1])
    ensures !Share(RowsOf(owners, SPLIT_BINDINGS, SPLIT_ACCOUNTS, 2), SPLIT_ACCOUNTS[0].id, SPLIT_ACCOUNTS[1].id)
  {
    SplitIsWellFormed();
    SplitNames();
    SplitFirst(owners);
    SplitSecond(owners);
    BindingPartitions(owners, SPLIT_BINDINGS, SPLIT_ACCOUNTS, 0, 1);
  }
}
