/** What a saved sign-in is worth: whether the proxy's inventory shows that this account's credential works again. */
module Credential {
  import opened Basics

  /** One row of the proxy's inventory. `id` is the opaque id of its file name; `provider` falls back to `type`. */
  datatype File = File(id: string, provider: string, email: Option<string>, active: bool)

  /** A binding of the account: its own id and its members. */
  datatype BindingLinks = BindingLinks(id: string, members: seq<string>)

  /** Where the configuration names the account's credential. An unset snapshot key is absent. */
  datatype Links = Links(quotaKey: Option<string>, bindings: seq<BindingLinks>)

  /** The account signed in to: its e-mail, how e-mails are compared, and the rename-proof id of its credential. */
  datatype Owner = Owner(expected: string, normal: string -> string, stable: string)

  /** A place of the configuration that no longer names the credential. */
  datatype Note = QuotaKey | BindingAt(index: nat)

  datatype Verdict = Unread | Inactive | OwnIsDead | OtherIsDead | Verified(notes: seq<Note>)

  predicate Holds(f: File, owner: Owner) {
    f.provider == "claude" && f.email.Some? && owner.normal(f.email.value) == owner.expected
  }

  function Mine(files: seq<File>, owner: Owner): seq<File> {
    if files == [] then []
    else (if Holds(files[0], owner) then [files[0]] else []) + Mine(files[1..], owner)
  }

  predicate Names(b: BindingLinks, id: string) {
    id == b.id || id in b.members
  }

  predicate Linked(links: Links, id: string) {
    links.quotaKey == Some(id) || exists i | 0 <= i < |links.bindings| :: Names(links.bindings[i], id)
  }

  function ActiveIds(files: seq<File>): set<string> {
    set f | f in files && f.active :: f.id
  }

  predicate NamesOneOf(b: BindingLinks, ids: set<string>) {
    exists id | id in ids :: Names(b, id)
  }

  /** The bindings without any of these names, in order. */
  function BindingNotes(bindings: seq<BindingLinks>, ids: set<string>): seq<Note> {
    if bindings == [] then []
    else
      var n := |bindings| - 1;
      BindingNotes(bindings[..n], ids) + if NamesOneOf(bindings[n], ids) then [] else [BindingAt(n)]
  }

  predicate SomeLinked(files: seq<File>, links: Links) {
    exists f | f in files :: Linked(links, f.id)
  }

  predicate SomeActiveLinked(files: seq<File>, links: Links) {
    exists f | f in files :: Linked(links, f.id) && f.active
  }

  predicate SomeDead(files: seq<File>) {
    exists f | f in files :: !f.active
  }

  predicate Pinned(ids: set<string>, links: Links) {
    exists id | id in ids :: Linked(links, id)
  }

  /** `verifyCredential`; `files` is absent when the inventory could not be read. */
  function Verify(files: Option<seq<File>>, links: Links, owner: Owner): Verdict {
    if files.None? then Unread
    else
      var mine := Mine(files.value, owner);
      var ids := ActiveIds(mine);
      if ids == {} then Inactive
      else if SomeLinked(mine, links) && !SomeActiveLinked(mine, links) then OwnIsDead
      else if |mine| == 1 then Verified(Notes(links, ids + {owner.stable, owner.expected}, links.quotaKey.Some?))
      else if !Pinned(ids, links) && SomeDead(mine) then OtherIsDead
      else Verified(Notes(links, ids, true))
  }

  /** The places that name none of these ids; an unset snapshot key is one only if `keyed`. */
  function Notes(links: Links, ids: set<string>, keyed: bool): seq<Note> {
    (if keyed && (links.quotaKey.None? || links.quotaKey.value !in ids) then [QuotaKey] else [])
    + BindingNotes(links.bindings, ids)
  }

  /** The job succeeds: the credential was verified, or the inventory could not be read. */
  predicate Succeeds(verdict: Verdict) {
    verdict.Unread? || verdict.Verified?
  }

  lemma {:induction false} MineMembers(files: seq<File>, owner: Owner)
    ensures forall f :: f in Mine(files, owner) <==> f in files && Holds(f, owner)
  {
    if files != [] {
      MineMembers(files[1..], owner);
    }
  }

  /** Exactly one row of the inventory is a credential of the e-mail. */
  ghost predicate Sole(files: seq<File>, owner: Owner) {
    exists i | 0 <= i < |files| :: SoleAt(files, owner, i)
  }

  predicate SoleAt(files: seq<File>, owner: Owner, i: nat)
    requires i < |files|
  {
    Holds(files[i], owner) && forall j | 0 <= j < |files| && j != i :: !Holds(files[j], owner)
  }

  lemma {:induction false} MineIsSole(files: seq<File>, owner: Owner)
    ensures |Mine(files, owner)| == 0 <==> forall j | 0 <= j < |files| :: !Holds(files[j], owner)
    ensures |Mine(files, owner)| == 1 <==> Sole(files, owner)
  {
    if files != [] {
      var rest := files[1..];
      MineIsSole(rest, owner);
      if Holds(files[0], owner) {
        if |Mine(rest, owner)| == 0 {
          assert SoleAt(files, owner, 0);
        }
      } else {
        if i :| 0 <= i < |rest| && SoleAt(rest, owner, i) {
          assert SoleAt(files, owner, i + 1);
        }
        if i :| 0 <= i < |files| && SoleAt(files, owner, i) {
          assert SoleAt(rest, owner, i - 1);
        }
      }
    }
  }

  /** A credential of the e-mail that a link names. */
  predicate Own(f: File, files: seq<File>, links: Links, owner: Owner) {
    f in files && Holds(f, owner) && Linked(links, f.id)
  }

  lemma IdsMean(files: seq<File>, links: Links)
    ensures ActiveIds(files) == {} <==> forall f | f in files :: !f.active
    ensures Pinned(ActiveIds(files), links) <==> SomeActiveLinked(files, links)
  {
    if f :| f in files && f.active {
      assert f.id in ActiveIds(files);
    }
    if f :| f in files && Linked(links, f.id) && f.active {
      assert f.id in ActiveIds(files);
    }
  }

  lemma MineMeans(files: seq<File>, links: Links, owner: Owner)
    ensures
      var mine := Mine(files, owner);
      && (SomeLinked(mine, links) <==> exists f :: Own(f, files, links, owner))
      && (SomeActiveLinked(mine, links) <==> exists f :: Own(f, files, links, owner) && f.active)
      && (SomeDead(mine) <==> exists f | f in files :: Holds(f, owner) && !f.active)
      && ((exists f | f in mine :: f.active) <==> exists f | f in files :: Holds(f, owner) && f.active)
  {
    MineMembers(files, owner);
    var mine := Mine(files, owner);
    assert forall f :: Own(f, files, links, owner) <==> f in mine && Linked(links, f.id);
  }

  // ------------------------------------------------------------ the verdict, told from inventory and configuration

  /** The row is a credential of the account's e-mail. */
  predicate IsCredential(f: File, owner: Owner) {
    f.provider == "claude" && f.email.Some? && owner.normal(f.email.value) == owner.expected
  }

  predicate BindingHas(b: BindingLinks, id: string) {
    b.id == id || exists i | 0 <= i < |b.members| :: b.members[i] == id
  }

  predicate ConfigurationHas(links: Links, id: string) {
    || (links.quotaKey.Some? && links.quotaKey.value == id)
    || exists i | 0 <= i < |links.bindings| :: BindingHas(links.bindings[i], id)
  }

  ghost predicate HasActive(files: seq<File>, owner: Owner) {
    exists f | f in files :: IsCredential(f, owner) && f.active
  }

  ghost predicate HasDead(files: seq<File>, owner: Owner) {
    exists f | f in files :: IsCredential(f, owner) && !f.active
  }

  ghost predicate HasLinked(files: seq<File>, links: Links, owner: Owner) {
    exists f | f in files :: IsCredential(f, owner) && ConfigurationHas(links, f.id)
  }

  ghost predicate HasActiveLinked(files: seq<File>, links: Links, owner: Owner) {
    exists f | f in files :: IsCredential(f, owner) && ConfigurationHas(links, f.id) && f.active
  }

  ghost predicate HasOne(files: seq<File>, owner: Owner) {
    exists i | 0 <= i < |files| ::
      IsCredential(files[i], owner) && forall j | 0 <= j < |files| && j != i :: !IsCredential(files[j], owner)
  }

  /** What a link may say: the id of an active credential of the e-mail, and, if it has one credential only, the e-mail
      or the rename-proof id. */
  ghost predicate MayName(files: seq<File>, owner: Owner, id: string) {
    || (exists f | f in files :: IsCredential(f, owner) && f.active && f.id == id)
    || (HasOne(files, owner) && (id == owner.stable || id == owner.expected))
  }

  /** The places noted are those that name nothing of it; an unset snapshot key counts when there are several. */
  ghost predicate NotesAsTold(files: seq<File>, links: Links, owner: Owner, notes: seq<Note>) {
    && (QuotaKey in notes <==>
          if links.quotaKey.Some? then !MayName(files, owner, links.quotaKey.value) else !HasOne(files, owner))
    && (forall i: nat :: BindingAt(i) in notes <==>
          i < |links.bindings| && forall id | MayName(files, owner, id) :: !BindingHas(links.bindings[i], id))
  }

  ghost predicate VerdictAsTold(files: Option<seq<File>>, links: Links, owner: Owner, verdict: Verdict) {
    if files.None? then verdict == Unread
    else if !HasActive(files.value, owner) then verdict == Inactive
    else if HasLinked(files.value, links, owner) && !HasActiveLinked(files.value, links, owner) then
      verdict == OwnIsDead
    else if !HasLinked(files.value, links, owner) && HasDead(files.value, owner) then verdict == OtherIsDead
    else verdict.Verified? && NotesAsTold(files.value, links, owner, verdict.notes)
  }

  lemma LinkedExactly(links: Links, id: string)
    ensures Linked(links, id) <==> ConfigurationHas(links, id)
    ensures forall i | 0 <= i < |links.bindings| ::
      Names(links.bindings[i], id) <==> BindingHas(links.bindings[i], id)
  {
  }

  lemma AllLinkedExactly(links: Links)
    ensures forall id :: Linked(links, id) <==> ConfigurationHas(links, id)
    ensures forall i, id | 0 <= i < |links.bindings| ::
      Names(links.bindings[i], id) <==> BindingHas(links.bindings[i], id)
  {
    forall id ensures Linked(links, id) <==> ConfigurationHas(links, id) {
      LinkedExactly(links, id);
    }
  }

  lemma OneExactly(files: seq<File>, owner: Owner)
    ensures |Mine(files, owner)| == 1 <==> HasOne(files, owner)
    ensures HasOne(files, owner) && HasActive(files, owner) ==> !HasDead(files, owner)
  {
    MineIsSole(files, owner);
    if i :| 0 <= i < |files| && SoleAt(files, owner, i) {
      assert IsCredential(files[i], owner);
    }
    if HasOne(files, owner) {
      var i :| 0 <= i < |files| && IsCredential(files[i], owner)
        && forall j | 0 <= j < |files| && j != i :: !IsCredential(files[j], owner);
      assert SoleAt(files, owner, i);
    }
  }

  lemma IdsExactly(files: seq<File>, owner: Owner, id: string)
    ensures id in ActiveIds(Mine(files, owner)) <==>
      exists f | f in files :: IsCredential(f, owner) && f.active && f.id == id
  {
    MineMembers(files, owner);
  }

  lemma NotesExactly(files: seq<File>, links: Links, owner: Owner, ids: set<string>)
    requires forall id :: id in ids <==> MayName(files, owner, id)
    ensures NotesAsTold(files, links, owner, Notes(links, ids, links.quotaKey.Some? || !HasOne(files, owner)))
  {
    var notes := Notes(links, ids, links.quotaKey.Some? || !HasOne(files, owner));
    BindingNotesMean(links.bindings, ids);
    AllLinkedExactly(links);
    forall i: nat ensures BindingAt(i) in notes <==>
      i < |links.bindings| && forall id | MayName(files, owner, id) :: !BindingHas(links.bindings[i], id)
    {
      assert i < |links.bindings| ==>
        (NamesOneOf(links.bindings[i], ids) <==> exists id | id in ids :: BindingHas(links.bindings[i], id));
    }
  }

  /** Every verdict is the one that inventory and configuration tell. */
  lemma VerifyIsTold(files: Option<seq<File>>, links: Links, owner: Owner)
    ensures VerdictAsTold(files, links, owner, Verify(files, links, owner))
  {
    if files.Some? {
      MineExactly(files.value, links, owner);
      OneExactly(files.value, owner);
      NamesExactly(files.value, owner);
      NotesExactly(files.value, links, owner, NamesOf(files.value, owner));
    }
  }

  lemma MineExactly(files: seq<File>, links: Links, owner: Owner)
    ensures
      var mine := Mine(files, owner);
      && (HasActive(files, owner) <==> ActiveIds(mine) != {})
      && (HasDead(files, owner) <==> SomeDead(mine))
      && (HasLinked(files, links, owner) <==> SomeLinked(mine, links))
      && (HasActiveLinked(files, links, owner) <==> SomeActiveLinked(mine, links))
      && (HasActiveLinked(files, links, owner) <==> Pinned(ActiveIds(mine), links))
  {
    MineMembers(files, owner);
    IdsMean(Mine(files, owner), links);
    AllLinkedExactly(links);
  }

  /** The ids that the notes are made with. */
  function NamesOf(files: seq<File>, owner: Owner): set<string> {
    var mine := Mine(files, owner);
    if |mine| == 1 then ActiveIds(mine) + {owner.stable, owner.expected} else ActiveIds(mine)
  }

  lemma NamesExactly(files: seq<File>, owner: Owner)
    ensures forall id :: id in NamesOf(files, owner) <==> MayName(files, owner, id)
  {
    OneExactly(files, owner);
    forall id ensures id in NamesOf(files, owner) <==> MayName(files, owner, id) {
      IdsExactly(files, owner, id);
    }
  }

  /** The sign-in counts as this account's if and only if the configuration names an active credential of the e-mail,
      or names none of its credentials and there is nothing to choose between: an active one that is the only one, or
      several that are all active. */
  lemma VerifiedExactly(files: seq<File>, links: Links, owner: Owner)
    ensures Verify(Some(files), links, owner).Verified? <==>
      || (exists f :: Own(f, files, links, owner) && f.active)
      || (&& (forall f :: !Own(f, files, links, owner))
          && (exists f | f in files :: Holds(f, owner) && f.active)
          && (Sole(files, owner) || forall f | f in files && Holds(f, owner) :: f.active))
  {
    MineIsSole(files, owner);
    MineMeans(files, links, owner);
    IdsMean(Mine(files, owner), links);
  }

  lemma {:induction false} BindingNotesMean(bindings: seq<BindingLinks>, ids: set<string>)
    ensures forall note | note in BindingNotes(bindings, ids) ::
      note.BindingAt? && note.index < |bindings| && !NamesOneOf(bindings[note.index], ids)
    ensures forall i: nat | i < |bindings| && !NamesOneOf(bindings[i], ids) ::
      BindingAt(i) in BindingNotes(bindings, ids)
  {
    if bindings != [] {
      var n := |bindings| - 1;
      BindingNotesMean(bindings[..n], ids);
    }
  }

  /** A success without a note is a working link: every binding names an active credential of the e-mail, or the only
      one by its e-mail or its rename-proof id, and so does the snapshot key, which several credentials require. */
  lemma NoNoteMeansLinked(files: seq<File>, links: Links, owner: Owner)
    requires Verify(Some(files), links, owner) == Verified([])
    ensures
      var ids := ActiveIds(Mine(files, owner));
      var names := if Sole(files, owner) then ids + {owner.stable, owner.expected} else ids;
      && (forall i | 0 <= i < |links.bindings| :: NamesOneOf(links.bindings[i], names))
      && (links.quotaKey.Some? ==> links.quotaKey.value in names)
      && (links.quotaKey.None? ==> Sole(files, owner))
  {
    MineIsSole(files, owner);
    var ids := ActiveIds(Mine(files, owner));
    BindingNotesMean(links.bindings, ids);
    BindingNotesMean(links.bindings, ids + {owner.stable, owner.expected});
  }
}
