/**
 * The per-account character ignore list of EVEMon (`CharacterIdentityIgnoreList`).
 *
 * An account key owns one ignore list: an ordered list of character identities
 * that the account chose to stop tracking.  Adding to or removing from the list
 * moves characters out of or back into the process-wide collection of tracked
 * characters, and importing resolves saved (ID, name) records through the
 * process-wide identity directory.
 *
 * The module first describes every operation as a function on a `World` value
 * (the list, the tracked-character collection and the identity directory) and
 * proves the properties the list promises about those functions; the classes at
 * the end hold the same state in fields and are proved to follow the functions.
 */
module IgnoreList {
  import opened Wrappers
  import opened Collections

  /** Stands for an `APIKey` object; the source compares keys by reference. */
  type ApiKeyId = nat

  /** A `CharacterIdentity`: numeric character ID, display name and owning key (absent when unowned). */
  datatype Identity = Identity(characterId: nat, name: string, apiKey: Option<ApiKeyId>)

  /** `CCPCharacter` is the fully managed kind; `UriCharacter` the other kind of `Character`. */
  datatype CharacterKind = Ccp | Uri

  datatype Character = Character(identity: Identity, kind: CharacterKind)

  /** An entry of the global character collection, with the `isNew` flag it was added with. */
  datatype TrackedCharacter = TrackedCharacter(character: Character, isNew: bool)

  /** The persisted record of one ignored identity. */
  datatype SerializableIdentity = SerializableIdentity(id: nat, name: string)

  /**
   * What the ignore list reads and writes: its own items, the global character
   * collection (`EveMonClient.Characters`) and the identity directory
   * (`EveMonClient.CharacterIdentities`), keyed by character ID.
   */
  datatype World = World(items: seq<Identity>, tracked: seq<TrackedCharacter>, directory: map<nat, Identity>)

  // ---------------------------------------------------------------------------
  // The collaborators, by the interface the ignore list uses

  /** The characters of the global collection, in order. */
  function Characters(tracked: seq<TrackedCharacter>): (r: seq<Character>)
    ensures |r| == |tracked|
    ensures forall k | 0 <= k < |tracked| :: r[k] == tracked[k].character
  {
    seq(|tracked|, k requires 0 <= k < |tracked| => tracked[k].character)
  }

  /**
   * `identity.CCPCharacter != null`: the global collection holds a CCP
   * character for the identity.
   */
  predicate HasCcpCharacter(tracked: seq<TrackedCharacter>, id: Identity): (b: bool)
    ensures b <==> exists k | 0 <= k < |tracked| :: tracked[k].character == Character(id, Ccp)
  {
    Character(id, Ccp) in Characters(tracked)
  }

  /** `EveMonClient.Characters.Remove(character)`: drops the first entry holding the character. */
  function Untrack(tracked: seq<TrackedCharacter>, c: Character): (r: seq<TrackedCharacter>)
    ensures Characters(r) == RemoveFirst(Characters(tracked), c)
    ensures c !in Characters(tracked) ==> r == tracked
    ensures c in Characters(tracked) ==>
              exists k | 0 <= k < |tracked| ::
                && tracked[k].character == c
                && c !in Characters(tracked[..k])
                && r == tracked[..k] + tracked[k + 1..]
  {
    var k := FirstIndex(Characters(tracked), c);
    if k == |tracked| then tracked
    else
      var r := tracked[..k] + tracked[k + 1..];
      assert Characters(r) == Characters(tracked)[..k] + Characters(tracked)[k + 1..];
      assert Characters(tracked[..k]) == Characters(tracked)[..k];
      r
  }

  /** Every directory entry is stored under its own character ID. */
  ghost predicate ValidDirectory(directory: map<nat, Identity>)
  {
    forall id | id in directory :: directory[id].characterId == id
  }

  /**
   * `CharacterIdentities[id] ?? CharacterIdentities.Add(id, name)`: the known
   * identity for the record's ID, or a new unowned identity added to the directory.
   */
  function Resolve(directory: map<nat, Identity>, record: SerializableIdentity): (r: (Identity, map<nat, Identity>))
    ensures r.1.Keys == directory.Keys + {record.id}
    ensures forall known | known in directory :: r.1[known] == directory[known]
    ensures r.0 == r.1[record.id]
    ensures record.id !in directory ==> r.0 == Identity(record.id, record.name, None)
  {
    if record.id in directory then (directory[record.id], directory)
    else
      var id := Identity(record.id, record.name, None);
      (id, directory[record.id := id])
  }

  /** The character IDs named by a list of records. */
  function RecordIds(records: seq<SerializableIdentity>): set<nat>
  {
    set i | 0 <= i < |records| :: records[i].id
  }

  /**
   * Resolves the records in order, threading the directory through: the
   * identities and the final directory.
   */
  function ResolveAll(directory: map<nat, Identity>, records: seq<SerializableIdentity>): (r: (seq<Identity>, map<nat, Identity>))
    ensures |r.0| == |records|
  {
    if records == [] then ([], directory)
    else
      var n := |records| - 1;
      var prefix := ResolveAll(directory, records[..n]);
      var (id, directory') := Resolve(prefix.1, records[n]);
      (prefix.0 + [id], directory')
  }

  /**
   * Import resolves against the directory: known identities are reused and kept,
   * only the IDs of the records are added, and element i is the directory's
   * identity for record i afterwards.
   */
  lemma ResolveAllShape(directory: map<nat, Identity>, records: seq<SerializableIdentity>)
    ensures var r := ResolveAll(directory, records);
      && r.1.Keys == directory.Keys + RecordIds(records)
      && (forall id | id in directory :: r.1[id] == directory[id])
      && (forall i | 0 <= i < |records| :: r.0[i] == r.1[records[i].id])
  {
    ResolveAllDirectory(directory, records);
    ResolveAllElements(directory, records);
  }

  /** The directory after resolving: the old entries unchanged, plus one per record ID. */
  lemma {:induction false} ResolveAllDirectory(directory: map<nat, Identity>, records: seq<SerializableIdentity>)
    ensures var r := ResolveAll(directory, records);
      && r.1.Keys == directory.Keys + RecordIds(records)
      && (forall id | id in directory :: r.1[id] == directory[id])
  {
    if records != [] {
      var n := |records| - 1;
      ResolveAllDirectory(directory, records[..n]);
      RecordIdsLast(records);
    }
  }

  /** Element i of the resolved list is the final directory's entry for record i. */
  lemma {:induction false} ResolveAllElements(directory: map<nat, Identity>, records: seq<SerializableIdentity>)
    ensures var r := ResolveAll(directory, records);
      forall i | 0 <= i < |records| :: records[i].id in r.1 && r.0[i] == r.1[records[i].id]
  {
    if records != [] {
      var n := |records| - 1;
      var init := records[..n];
      ResolveAllElements(directory, init);
      ResolveAllDirectory(directory, init);
      var prefix := ResolveAll(directory, init);
      var r := ResolveAll(directory, records);
      assert r.0 == prefix.0 + [Resolve(prefix.1, records[n]).0];
      forall i | 0 <= i < n ensures records[i].id in r.1 && r.0[i] == r.1[records[i].id] {
        assert init[i] == records[i];
        assert r.0[i] == prefix.0[i];
      }
    }
  }

  /** The IDs of a list of records are those of all but the last, and the last one's. */
  lemma RecordIdsLast(records: seq<SerializableIdentity>)
    requires records != []
    ensures RecordIds(records) == RecordIds(records[..|records| - 1]) + {records[|records| - 1].id}
  {
    var n := |records| - 1;
    forall id | id in RecordIds(records) ensures id in RecordIds(records[..n]) + {records[n].id} {
      var i :| 0 <= i < |records| && records[i].id == id;
      if i < n {
        assert records[..n][i] == records[i];
      }
    }
    forall id | id in RecordIds(records[..n]) ensures id in RecordIds(records) {
      var i :| 0 <= i < n && records[..n][i].id == id;
      assert records[i] == records[..n][i];
    }
  }

  /** Import only ever adds unowned identities named by the first record with their ID. */
  lemma {:induction false} ResolveAllAdds(directory: map<nat, Identity>, records: seq<SerializableIdentity>, id: nat)
    requires var r := ResolveAll(directory, records); id in r.1 && id !in directory
    ensures exists i | 0 <= i < |records| ::
              && records[i].id == id
              && ResolveAll(directory, records).1[id] == Identity(id, records[i].name, None)
              && (forall j | 0 <= j < i :: records[j].id != id)
  {
    var n := |records| - 1;
    var prefix := ResolveAll(directory, records[..n]);
    if id in prefix.1 {
      ResolveAllAdds(directory, records[..n], id);
      var i :| 0 <= i < n && records[..n][i].id == id && prefix.1[id] == Identity(id, records[..n][i].name, None)
                && (forall j | 0 <= j < i :: records[..n][j].id != id);
      assert records[..n][i] == records[i];
      forall j | 0 <= j < i ensures records[j].id != id {
        assert records[..n][j] == records[j];
      }
    } else {
      assert records[n].id == id;
      ResolveAllShape(directory, records[..n]);
      forall j | 0 <= j < n ensures records[j].id != id {
        assert records[..n][j] == records[j];
        assert records[j].id in RecordIds(records[..n]);
      }
    }
  }

  // ---------------------------------------------------------------------------
  // The operations, as functions of the world

  /**
   * `Add(character)`: a no-op when the identity is already ignored; otherwise
   * the identity is appended and, when it belongs to the list's owner, the
   * character leaves the global collection.
   */
  function AddStep(w: World, owner: ApiKeyId, c: Character): (r: World)
    ensures r.directory == w.directory
    ensures c.identity in r.items
    ensures c.identity in w.items ==> r == w
    ensures c.identity !in w.items ==> r.items == w.items + [c.identity]
    ensures multiset(Characters(r.tracked)) ==
              if c.identity !in w.items && c.identity.apiKey == Some(owner)
              then multiset(Characters(w.tracked)) - multiset{c}
              else multiset(Characters(w.tracked))
    ensures c.identity !in w.items ==>
              r.tracked == if c.identity.apiKey == Some(owner) then Untrack(w.tracked, c) else w.tracked
  {
    var id := c.identity;
    if id in w.items then w
    else
      var tracked := if id.apiKey == Some(owner) then Untrack(w.tracked, c) else w.tracked;
      w.(items := w.items + [id], tracked := tracked)
  }

  /**
   * `Remove(id)`: a no-op when the identity is not ignored; otherwise its first
   * occurrence leaves the list and, when no CCP character exists for it, a new
   * one joins the global collection flagged as new.
   */
  function RemoveStep(w: World, id: Identity): (r: World)
    ensures r.directory == w.directory
    ensures id !in w.items ==> r == w
    ensures id in w.items ==> r.items == RemoveFirst(w.items, id)
    ensures id in w.items && HasCcpCharacter(w.tracked, id) ==> r.tracked == w.tracked
    ensures id in w.items && !HasCcpCharacter(w.tracked, id) ==>
              r.tracked == w.tracked + [TrackedCharacter(Character(id, Ccp), true)]
    ensures id in w.items ==> HasCcpCharacter(r.tracked, id)
  {
    var hadCcp := HasCcpCharacter(w.tracked, id);
    if id !in w.items then w
    else if hadCcp then w.(items := RemoveFirst(w.items, id))
    else
      var tracked := w.tracked + [TrackedCharacter(Character(id, Ccp), true)];
      assert Characters(tracked)[|w.tracked|] == Character(id, Ccp);
      w.(items := RemoveFirst(w.items, id), tracked := tracked)
  }

  /** `Import(records)`: the list becomes the resolved records, in input order. */
  function ImportStep(w: World, records: seq<SerializableIdentity>): (r: World)
    ensures |r.items| == |records|
    ensures r.tracked == w.tracked
  {
    var (ids, directory) := ResolveAll(w.directory, records);
    w.(items := ids, directory := directory)
  }

  /** `Export()`: one (ID, name) record per ignored identity, in list order. */
  function Serialize(items: seq<Identity>): (r: seq<SerializableIdentity>)
    ensures |r| == |items|
    ensures forall i | 0 <= i < |items| :: r[i] == SerializableIdentity(items[i].characterId, items[i].name)
  {
    seq(|items|, i requires 0 <= i < |items| => SerializableIdentity(items[i].characterId, items[i].name))
  }

  // ---------------------------------------------------------------------------
  // Properties of the operations

  /** Adding a character twice leaves the world as adding it once. */
  lemma AddIsIdempotent(w: World, owner: ApiKeyId, c: Character)
    ensures AddStep(AddStep(w, owner, c), owner, c) == AddStep(w, owner, c)
  {
  }

  /** Add never creates duplicates: a list without repetitions stays without. */
  lemma AddKeepsDistinct(w: World, owner: ApiKeyId, c: Character)
    requires Distinct(w.items)
    ensures Distinct(AddStep(w, owner, c).items)
  {
  }

  /**
   * An owned character added once to the global collection is no longer tracked
   * after it is ignored; the other entries stay, in order.
   */
  lemma {:induction false} AddUntracksOwned(w: World, owner: ApiKeyId, c: Character)
    requires c.identity !in w.items && c.identity.apiKey == Some(owner)
    requires multiset(Characters(w.tracked))[c] == 1
    ensures c !in Characters(AddStep(w, owner, c).tracked)
    ensures exists k | 0 <= k < |w.tracked| ::
              AddStep(w, owner, c).tracked == w.tracked[..k] + w.tracked[k + 1..]
  {
    var r := AddStep(w, owner, c);
    assert multiset(Characters(r.tracked))[c] == 0;
    assert c in Characters(w.tracked);
    var k := FirstIndex(Characters(w.tracked), c);
    assert r.tracked == Untrack(w.tracked, c);
    assert Untrack(w.tracked, c) == w.tracked[..k] + w.tracked[k + 1..];
  }

  /**
   * Un-ignoring an owned CCP character that was ignored while tracked once:
   * the list is back as it was and the global collection again holds the
   * character, now as a new entry at the end.
   */
  lemma {:induction false} AddThenRemoveOwned(w: World, owner: ApiKeyId, c: Character)
    requires c.identity !in w.items && c.identity.apiKey == Some(owner) && c.kind == Ccp
    requires multiset(Characters(w.tracked))[c] == 1
    ensures var r := RemoveStep(AddStep(w, owner, c), c.identity);
      && r.items == w.items
      && r.directory == w.directory
      && multiset(Characters(r.tracked)) == multiset(Characters(w.tracked))
      && r.tracked == Untrack(w.tracked, c) + [TrackedCharacter(c, true)]
  {
    var a := AddStep(w, owner, c);
    assert a.tracked == Untrack(w.tracked, c);
    assert multiset(Characters(a.tracked))[c] == 0;
    assert !HasCcpCharacter(a.tracked, c.identity);
    RemoveFirstAppended(w.items, c.identity);
    CharactersAppend(a.tracked, TrackedCharacter(c, true));
  }

  /** Appending an entry to the global collection appends its character. */
  lemma CharactersAppend(tracked: seq<TrackedCharacter>, t: TrackedCharacter)
    ensures Characters(tracked + [t]) == Characters(tracked) + [t.character]
  {
  }

  /**
   * Ignoring and un-ignoring a character of another account touches only the
   * list: the global collection never changes.
   */
  lemma {:induction false} AddThenRemoveForeign(w: World, owner: ApiKeyId, c: Character)
    requires c.identity !in w.items && c.identity.apiKey != Some(owner) && c.kind == Ccp
    requires c in Characters(w.tracked)
    ensures RemoveStep(AddStep(w, owner, c), c.identity) == w
  {
    RemoveFirstAppended(w.items, c.identity);
  }

  /** Remove keeps the list free of repetitions and the identity is no longer ignored. */
  lemma RemoveKeepsDistinct(w: World, id: Identity)
    requires Distinct(w.items)
    ensures Distinct(RemoveStep(w, id).items)
    ensures id !in RemoveStep(w, id).items
  {
    RemoveFirstDistinct(w.items, id);
  }

  /**
   * After an import over a consistent directory, the list exports the imported
   * IDs in input order, records with equal IDs give the same identity, and the
   * directory stays consistent.
   */
  lemma ImportFollowsRecords(w: World, records: seq<SerializableIdentity>)
    requires ValidDirectory(w.directory)
    ensures var r := ImportStep(w, records);
      && ValidDirectory(r.directory)
      && (forall i | 0 <= i < |records| :: Serialize(r.items)[i].id == records[i].id)
      && (forall i, j | 0 <= i < |records| && 0 <= j < |records| && records[i].id == records[j].id ::
            r.items[i] == r.items[j])
  {
    var r := ImportStep(w, records);
    ResolveAllShape(w.directory, records);
    forall id | id in r.directory ensures r.directory[id].characterId == id {
      if id !in w.directory {
        ResolveAllAdds(w.directory, records, id);
      }
    }
  }

  /** Every identity of the list is the one the directory holds for its ID. */
  ghost predicate ResolvedByDirectory(items: seq<Identity>, directory: map<nat, Identity>)
  {
    forall i | 0 <= i < |items| :: items[i].characterId in directory && directory[items[i].characterId] == items[i]
  }

  /**
   * Exporting and importing again reproduces the same identities, in the same
   * order, and adds nothing to the directory, when the directory maps each
   * exported ID back to its identity.
   */
  lemma {:induction false} ResolveExported(items: seq<Identity>, directory: map<nat, Identity>)
    requires ResolvedByDirectory(items, directory)
    ensures ResolveAll(directory, Serialize(items)) == (items, directory)
  {
    if items != [] {
      var n := |items| - 1;
      assert Serialize(items)[..n] == Serialize(items[..n]);
      ResolveExported(items[..n], directory);
      assert items[..n] + [items[n]] == items;
    }
  }

  /** `Import(Export())` leaves the world unchanged when the directory resolves every ignored identity. */
  lemma ImportOfExport(w: World)
    requires ResolvedByDirectory(w.items, w.directory)
    ensures ImportStep(w, Serialize(w.items)) == w
  {
    ResolveExported(w.items, w.directory);
  }

  // ---------------------------------------------------------------------------
  // The objects

  /**
   * The two process-wide registries of `EveMonClient` the ignore list talks to:
   * the tracked characters and the identity directory.
   */
  class Client {
    var characters: seq<TrackedCharacter>
    var identities: map<nat, Identity>

    constructor ()
      ensures characters == [] && identities == map[]
    {
      characters := [];
      identities := map[];
    }

    /** `EveMonClient.Characters.Add(character, isNew)` */
    method AddCharacter(c: Character, isNew: bool)
      modifies this`characters
      ensures characters == old(characters) + [TrackedCharacter(c, isNew)]
    {
      characters := characters + [TrackedCharacter(c, isNew)];
    }

    /** `EveMonClient.Characters.Remove(character)` */
    method RemoveCharacter(c: Character)
      modifies this`characters
      ensures characters == Untrack(old(characters), c)
    {
      characters := Untrack(characters, c);
    }

    /** `EveMonClient.CharacterIdentities[id]`: the identity for an ID, or null. */
    function Lookup(id: nat): (r: Option<Identity>)
      reads this
      ensures r.Some? <==> id in identities
      ensures r.Some? ==> r.value == identities[id]
    {
      if id in identities then Some(identities[id]) else None
    }

    /** `EveMonClient.CharacterIdentities.Add(id, name)`: a new unowned identity, registered under its ID. */
    method AddIdentity(id: nat, name: string) returns (identity: Identity)
      modifies this`identities
      ensures identity == Identity(id, name, None)
      ensures identities == old(identities)[id := identity]
    {
      identity := Identity(id, name, None);
      identities := identities[id := identity];
    }
  }

  /** The ignore list of one account key. */
  class CharacterIdentityIgnoreList {
    const owner: ApiKeyId
    const client: Client
    var items: seq<Identity>

    constructor (apiKey: ApiKeyId, client: Client)
      ensures owner == apiKey && this.client == client && items == []
    {
      owner := apiKey;
      this.client := client;
      items := [];
    }

    /** The list together with the two registries it acts on. */
    function State(): World
      reads this, client
    {
      World(items, client.characters, client.identities)
    }

    /** True when the character's identity is ignored. */
    function Contains(character: Character): (r: bool)
      reads this
      ensures r <==> exists i | 0 <= i < |items| :: items[i] == character.identity
    {
      character.identity in items
    }

    method Remove(id: Identity)
      modifies this`items, client`characters
      ensures State() == RemoveStep(old(State()), id)
    {
      var hadCcp := HasCcpCharacter(client.characters, id);
      var removed := id in items;
      items := RemoveFirst(items, id);
      if !removed {
        return;
      }
      if hadCcp {
        return;
      }
      client.AddCharacter(Character(id, Ccp), true);
    }

    method Add(character: Character)
      modifies this`items, client`characters
      ensures State() == AddStep(old(State()), owner, character)
    {
      var id := character.identity;
      if id in items {
        return;
      }
      items := items + [id];
      if id.apiKey == Some(owner) {
        client.RemoveCharacter(character);
      }
    }

    method Import(records: seq<SerializableIdentity>)
      modifies this`items, client`identities
      ensures State() == ImportStep(old(State()), records)
    {
      items := [];
      for i := 0 to |records|
        invariant (items, client.identities) == ResolveAll(old(client.identities), records[..i])
        invariant client.characters == old(client.characters)
      {
        assert records[..i + 1][..i] == records[..i];
        var record := records[i];
        var found := client.Lookup(record.id);
        var id;
        if found.Some? {
          id := found.value;
        } else {
          id := client.AddIdentity(record.id, record.name);
        }
        items := items + [id];
      }
      assert records[..|records|] == records;
    }

    method Export() returns (records: seq<SerializableIdentity>)
      ensures |records| == |items|
      ensures records == Serialize(items)
    {
      records := Serialize(items);
    }
  }
}
