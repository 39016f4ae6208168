/** The user store (`src/stores/user.js`): the profile list the views show,
    the search term, the current selection and matching state, and the
    actions that read and write the profile entry in `localStorage`. Every
    action is a function from the store state to the next state. */
module UserStore {
  import opened Wrappers
  import opened Strings
  import opened Profiles
  import ProfileStorage
  import Matching
  import Seqs

  /** The messages the store keeps in `lastError`. */
  datatype StoreError =
    | InvalidRole        // 'Invalid role. Must be "admin" or "user"'
    | UserNotFound(id: int)
    | NotArrayData       // 'Data is not an array'

  datatype State = State(
    users: seq<Profile>,
    selectedUser: Option<Profile>,
    userForMatching: Option<Profile>,
    matchResults: seq<Matching.ScoredMatch>,
    searchTerm: string,
    lastError: Option<StoreError>,
    editingUser: Option<Profile>,
    creatingUser: bool,
    storage: Slot)

  /** The state the store starts in, over whatever the entry holds. */
  function Initial(storage: Slot): State
  {
    State([], None, None, [], "", None, None, false, storage)
  }

  // ---------------------------------------------------------------------------
  // Getters
  // ---------------------------------------------------------------------------

  /** Some string of the optional list contains `term`, ignoring case. */
  predicate SomeContains(xs: Option<seq<string>>, term: string)
  {
    xs.Some? && exists k :: 0 <= k < |xs.value| && Contains(Lower(xs.value[k]), term)
  }

  /** The search predicate for a lower-cased term: the name, a skill or an
      interest contains it, ignoring case. */
  predicate MatchesTerm(u: Profile, term: string)
  {
    Contains(Lower(u.name), term) || SomeContains(u.skills, term) || SomeContains(u.interests, term)
  }

  /** `filteredUsers`: every user for an empty search term; otherwise the
      users that match the lower-cased term, in their order. */
  function FilteredUsers(users: seq<Profile>, searchTerm: string): (r: seq<Profile>)
    ensures searchTerm == [] ==> r == users
    ensures searchTerm != [] ==>
      && |r| <= |users|
      && (forall i :: 0 <= i < |r| ==> r[i] in users && MatchesTerm(r[i], Lower(searchTerm)))
      && (forall i :: 0 <= i < |users| && MatchesTerm(users[i], Lower(searchTerm)) ==> users[i] in r)
  {
    if searchTerm == [] then users
    else Seqs.Filter(users, (u: Profile) => MatchesTerm(u, Lower(searchTerm)))
  }

  /** Filtering keeps the users' order: it distributes over concatenation. */
  lemma FilteredUsersAppend(a: seq<Profile>, b: seq<Profile>, searchTerm: string)
    ensures FilteredUsers(a + b, searchTerm) == FilteredUsers(a, searchTerm) + FilteredUsers(b, searchTerm)
  {
    if searchTerm != [] {
      Seqs.FilterAppend(a, b, (u: Profile) => MatchesTerm(u, Lower(searchTerm)));
    }
  }

  /** Filtering an already filtered list by the same term changes nothing. */
  lemma FilteredUsersIdempotent(users: seq<Profile>, searchTerm: string)
    ensures FilteredUsers(FilteredUsers(users, searchTerm), searchTerm) == FilteredUsers(users, searchTerm)
  {
    if searchTerm != [] {
      var r := FilteredUsers(users, searchTerm);
      Seqs.FilterKeepsAll(r, (u: Profile) => MatchesTerm(u, Lower(searchTerm)));
    }
  }

  /** `getUserById(id)`: the first user whose id equals `Number(id)`, or null.
      `key` is the number `Number(id)` gives, `None` for NaN (which equals
      nothing). */
  function GetUserById(users: seq<Profile>, key: Option<int>): (r: Option<Profile>)
    ensures key.None? ==> r.None?
    ensures key.Some? ==> (r.Some? <==> HasId(users, key.value))
    ensures r.Some? ==> r.value.id == key.value
    ensures r.Some? ==> exists i :: 0 <= i < |users| && users[i] == r.value
                                    && forall j :: 0 <= j < i ==> users[j].id != key.value
  {
    match key
    case None => None
    case Some(id) =>
      match FindIndex(users, id)
      case None => None
      case Some(i) => Some(users[i])
  }

  // ---------------------------------------------------------------------------
  // Loading
  // ---------------------------------------------------------------------------

  /** `loadUsers(forceReset)`: a non-empty stored list is taken as it is;
      otherwise, or on a forced reset, the data is loaded and merged (giving
      the test user the admin role) and written back. */
  function LoadUsers(s: State, forceReset: bool, source: DataSource): (r: (State, seq<Profile>))
    ensures r.0.users == r.1 && r.0.lastError.None?
    ensures !forceReset && ProfileStorage.GetAllProfiles(s.storage) != [] ==>
      r.1 == ProfileStorage.GetAllProfiles(s.storage) && r.0.storage == s.storage
    ensures forceReset || ProfileStorage.GetAllProfiles(s.storage) == [] ==>
      && r.1 == LoadAndMerge(source, StoreMerge)
      && r.0.storage == Stored(r.1)
      && (forall k :: 0 <= k < |AuthUsers| ==> HasId(r.1, AuthUsers[k].id))
      && (forall i :: 0 <= i < |r.1| && r.1[i].id == AdminId ==> r.1[i].role == Some("admin"))
    ensures r.0 == s.(users := r.1, lastError := None, storage := r.0.storage)
  {
    StoreLoadMakesAdmin(source);
    var existing := ProfileStorage.GetAllProfiles(s.storage);
    if !forceReset && existing != [] then
      (s.(users := existing, lastError := None), existing)
    else
      var merged := LoadAndMerge(source, StoreMerge);
      (s.(users := merged, lastError := None, storage := Stored(merged)), merged)
  }

  /** `resetToInitialData`: the entry is removed and the data loaded and
      merged again; unlike `loadUsers`, the last error is left as it was. */
  function ResetToInitialData(s: State, source: DataSource): (r: (State, seq<Profile>))
    ensures r.1 == LoadAndMerge(source, StoreMerge) && r.0.users == r.1
    ensures r.0.storage == Stored(r.1)
    ensures forall k :: 0 <= k < |AuthUsers| ==> HasId(r.1, AuthUsers[k].id)
    ensures forall i :: 0 <= i < |r.1| && r.1[i].id == AdminId ==> r.1[i].role == Some("admin")
    ensures r.0 == s.(users := r.1, storage := r.0.storage)
  {
    StoreLoadMakesAdmin(source);
    var merged := LoadAndMerge(source, StoreMerge);
    (s.(users := merged, storage := Stored(merged)), merged)
  }

  /** A reset is a forced `loadUsers` except that it keeps the last error. */
  lemma ResetIsForcedLoad(s: State, source: DataSource)
    ensures ResetToInitialData(s, source).1 == LoadUsers(s, true, source).1
    ensures ResetToInitialData(s, source).0 == LoadUsers(s, true, source).0.(lastError := s.lastError)
  {
  }

  // ---------------------------------------------------------------------------
  // Saving, deleting, role changes, bulk update
  // ---------------------------------------------------------------------------

  /** `saveUser(userData)`: update-or-append with a fresh id on the stored
      list; the store shows the stored list and leaves editing mode. */
  function SaveUser(s: State, userData: Profile): (r: (State, Profile))
    ensures var ps := ProfileStorage.GetAllProfiles(s.storage); var saved := r.1;
      && r.0.storage == Stored(r.0.users)
      && r.0.editingUser.None? && !r.0.creatingUser && r.0.lastError.None?
      && HasId(r.0.users, saved.id) && r.0.users[FindIndex(r.0.users, saved.id).value] == saved
      && (HasId(ps, userData.id) ==>
            && saved == userData && |r.0.users| == |ps|
            && r.0.users[FindIndex(ps, userData.id).value] == userData
            && forall j :: 0 <= j < |ps| && j != FindIndex(ps, userData.id).value ==> r.0.users[j] == ps[j])
      && (!HasId(ps, userData.id) ==>
            && saved == userData.(id := saved.id)
            && (ps == [] ==> saved.id == 1)
            && (ps != [] ==> saved.id == MaxId(ps) + 1)
            && (forall j :: 0 <= j < |ps| ==> ps[j].id < saved.id)
            && r.0.users == ps + [saved])
    ensures r.0.selectedUser == s.selectedUser && r.0.userForMatching == s.userForMatching
    ensures r.0.matchResults == s.matchResults && r.0.searchTerm == s.searchTerm
  {
    var ps := ProfileStorage.GetAllProfiles(s.storage);
    SaveThenFind(ps, userData);
    var (saved, qs) := SaveWithFreshId(ps, userData);
    (s.(users := qs, storage := Stored(qs), editingUser := None, creatingUser := false, lastError := None),
     saved)
  }

  /** A saved user is what `getUserById` finds next. */
  lemma SaveThenGet(s: State, userData: Profile)
    ensures var (t, saved) := SaveUser(s, userData);
      GetUserById(t.users, Some(saved.id)) == Some(saved)
  {
  }

  /** `clearMatching`. */
  function ClearMatching(s: State): (r: State)
    ensures r.userForMatching.None? && r.matchResults == []
    ensures r == s.(userForMatching := None, matchResults := [])
  {
    s.(userForMatching := None, matchResults := [])
  }

  /** The selection refers to the user with id `id`. */
  predicate Refers(sel: Option<Profile>, id: int)
  {
    sel.Some? && sel.value.id == id
  }

  /** `deleteUser(userId)`: drops every profile with the id from the stored
      list; the matching state and the selection are cleared only when they
      refer to the deleted id. */
  function DeleteUser(s: State, userId: int): (r: (State, bool))
    ensures r.1
    ensures r.0.users == RemoveId(ProfileStorage.GetAllProfiles(s.storage), userId)
    ensures r.0.storage == Stored(r.0.users) && r.0.lastError.None?
    ensures !HasId(r.0.users, userId)
    ensures Refers(s.userForMatching, userId) ==> r.0.userForMatching.None? && r.0.matchResults == []
    ensures !Refers(s.userForMatching, userId) ==>
      r.0.userForMatching == s.userForMatching && r.0.matchResults == s.matchResults
    ensures Refers(s.selectedUser, userId) ==> r.0.selectedUser.None?
    ensures !Refers(s.selectedUser, userId) ==> r.0.selectedUser == s.selectedUser
    ensures !Refers(r.0.userForMatching, userId) && !Refers(r.0.selectedUser, userId)
    ensures r.0.searchTerm == s.searchTerm && r.0.editingUser == s.editingUser
    ensures r.0.creatingUser == s.creatingUser
  {
    var remaining := RemoveId(ProfileStorage.GetAllProfiles(s.storage), userId);
    var t := s.(users := remaining, storage := Stored(remaining), lastError := None);
    var t := if Refers(t.userForMatching, userId) then ClearMatching(t) else t;
    var t := if Refers(t.selectedUser, userId) then t.(selectedUser := None) else t;
    (t, true)
  }

  /** After a delete, the id is gone and deleting again changes nothing. */
  lemma DeleteIdempotent(s: State, userId: int)
    ensures var t := DeleteUser(s, userId).0;
      && GetUserById(t.users, Some(userId)).None?
      && DeleteUser(t, userId).0 == t
  {
    var t := DeleteUser(s, userId).0;
    RemoveIdSplits(t.users, [], userId);
    assert t.users + [] == t.users;
  }

  /** The roles `updateUserRole` accepts. */
  predicate ValidRole(role: string)
  {
    role == "admin" || role == "user"
  }

  /** `updateUserRole(userId, newRole)`: refuses a role other than "admin" or
      "user", and an id that is not stored, recording the error and writing
      nothing; otherwise sets the role of the first profile with the id. */
  function UpdateUserRole(s: State, userId: int, newRole: string): (r: (State, bool))
    ensures var ps := ProfileStorage.GetAllProfiles(s.storage);
      r.1 <==> ValidRole(newRole) && HasId(ps, userId)
    ensures !ValidRole(newRole) ==> r.0 == s.(lastError := Some(InvalidRole))
    ensures ValidRole(newRole) && !HasId(ProfileStorage.GetAllProfiles(s.storage), userId) ==>
      r.0 == s.(lastError := Some(UserNotFound(userId)))
    ensures r.1 ==>
      var ps := ProfileStorage.GetAllProfiles(s.storage);
      var i := FindIndex(ps, userId).value;
      && r.0 == s.(users := r.0.users, storage := Stored(r.0.users), lastError := None)
      && |r.0.users| == |ps|
      && r.0.users[i] == ps[i].(role := Some(newRole))
      && forall j :: 0 <= j < |ps| && j != i ==> r.0.users[j] == ps[j]
  {
    if !ValidRole(newRole) then (s.(lastError := Some(InvalidRole)), false)
    else
      var ps := ProfileStorage.GetAllProfiles(s.storage);
      match FindIndex(ps, userId)
      case None => (s.(lastError := Some(UserNotFound(userId))), false)
      case Some(i) =>
        var qs := ps[i := ps[i].(role := Some(newRole))];
        (s.(users := qs, storage := Stored(qs), lastError := None), true)
  }

  /** Setting the same role twice stores the same list as setting it once. */
  lemma UpdateUserRoleIdempotent(s: State, userId: int, newRole: string)
    requires UpdateUserRole(s, userId, newRole).1
    ensures var t := UpdateUserRole(s, userId, newRole).0;
      UpdateUserRole(t, userId, newRole).0.users == t.users
  {
    var ps := ProfileStorage.GetAllProfiles(s.storage);
    var i := FindIndex(ps, userId).value;
    var t := UpdateUserRole(s, userId, newRole).0;
    assert FindIndex(t.users, userId) == Some(i) by {
      assert t.users[i].id == userId;
      assert forall j :: 0 <= j < i ==> t.users[j] == ps[j];
    }
  }

  /** `updateAllUsers(profiles)`: `None` stands for a value that is not an
      array, which is refused with an error; otherwise the list is stored and
      shown. A success leaves an earlier error in place. */
  function UpdateAllUsers(s: State, profiles: Option<seq<Profile>>): (r: (State, bool))
    ensures r.1 <==> profiles.Some?
    ensures !r.1 ==> r.0 == s.(lastError := Some(NotArrayData))
    ensures r.1 ==> r.0 == s.(users := profiles.value, storage := Stored(profiles.value))
    ensures r.1 ==> ProfileStorage.GetAllProfiles(r.0.storage) == r.0.users
  {
    match profiles
    case None => (s.(lastError := Some(NotArrayData)), false)
    case Some(ps) => (s.(users := ps, storage := Stored(ps)), true)
  }

  /** `selectForMatching(user)`: remembers the user and ranks the other
      users against it. */
  function SelectForMatching(s: State, user: Option<Profile>): (r: State)
    ensures r.userForMatching == user
    ensures |r.matchResults| <= Matching.DefaultTopN
    ensures user.Some? ==> forall i :: 0 <= i < |r.matchResults| ==>
      r.matchResults[i].user in s.users && r.matchResults[i].user.id != user.value.id
    ensures user.Some? ==> forall i :: 0 <= i < |r.matchResults| ==>
      r.matchResults[i] == Matching.ScoreCandidate(user.value, r.matchResults[i].user)
    ensures forall i, j :: 0 <= i < j < |r.matchResults| ==> r.matchResults[i].score >= r.matchResults[j].score
    ensures r.matchResults == Matching.FindTopMatches(user, Some(s.users), Matching.DefaultTopN)
    ensures r == s.(userForMatching := user, matchResults := r.matchResults)
  {
    s.(userForMatching := user,
       matchResults := Matching.FindTopMatches(user, Some(s.users), Matching.DefaultTopN))
  }

  // ---------------------------------------------------------------------------
  // Map entries
  // ---------------------------------------------------------------------------

  /** The origin of a map entry, as its id string `<kind>-<user id>[-<idx>]`
      encodes it. */
  datatype EntryKind = Firma | Company | IconProject | OwnProject | ContributedProject | Table

  datatype EntryId = EntryId(kind: EntryKind, userId: int, index: Option<nat>)

  /** An entry of the map view: a place with exactly two coordinates, its
      owner, a status for projects and a host name for tables. */
  datatype MapEntry = MapEntry(
    id: EntryId,
    name: string,
    description: string,
    status: Option<string>,
    address: string,
    coordinates: seq<real>,
    hostName: Option<string>,
    owner: Profile)

  /** The place has an array of exactly two coordinates. */
  predicate Locatable(p: Place)
  {
    p.coordinates.Some? && |p.coordinates.value| == 2
  }

  /** `x || fallback` on a string. */
  function OrElse(x: string, fallback: string): (r: string)
    ensures r != [] <==> x != [] || fallback != []
  {
    if x == [] then fallback else x
  }

  function DefaultName(kind: EntryKind): string
  {
    match kind
    case Firma => "Firma"
    case Company => "Unternehmen"
    case Table => "Meetup"
    case _ => "Projekt"
  }

  /** The entry for one locatable place. Projects get status "Aktiv"; tables
      take their address from the `location` field and name the owner as host. */
  function Entry(kind: EntryKind, u: Profile, p: Place, index: Option<nat>): (e: MapEntry)
    requires Locatable(p)
    ensures e.id == EntryId(kind, u.id, index) && e.owner == u
    ensures e.coordinates == p.coordinates.value && |e.coordinates| == 2
    ensures e.name == OrElse(p.name, DefaultName(kind)) && e.name != []
  {
    var isProject := kind == IconProject || kind == OwnProject || kind == ContributedProject;
    MapEntry(
      EntryId(kind, u.id, index),
      OrElse(p.name, DefaultName(kind)),
      p.description,
      if isProject then Some("Aktiv") else None,
      if kind == Table then p.location else p.address,
      p.coordinates.value,
      if kind == Table then Some(u.name) else None,
      u)
  }

  /** Entries of one user's owner and id, each with two coordinates. */
  ghost predicate EntriesOf(es: seq<MapEntry>, u: Profile)
  {
    forall i :: 0 <= i < |es| ==> es[i].owner == u && es[i].id.userId == u.id && |es[i].coordinates| == 2
  }

  /** The entry of the place at position `k`, if it is locatable. */
  function EntryAt(kind: EntryKind, u: Profile, places: seq<Place>, k: nat): (r: seq<MapEntry>)
    requires k < |places|
    ensures |r| == (if Locatable(places[k]) then 1 else 0)
    ensures Locatable(places[k]) ==> r[0] == Entry(kind, u, places[k], Some(k))
  {
    if Locatable(places[k]) then [Entry(kind, u, places[k], Some(k))] else []
  }

  /** Whether an entry is the one of the locatable place its index names, at
      or after `from`. */
  ghost predicate FromSomePlace(e: MapEntry, kind: EntryKind, u: Profile, places: seq<Place>, from: nat)
  {
    match e.id.index
    case None => false
    case Some(k) => from <= k < |places| && Locatable(places[k]) && e == Entry(kind, u, places[k], Some(k))
  }

  /** The entries for the places from position `from` on, each carrying its
      position as index: one per locatable place, in order, skipping the
      others. */
  function EntriesFrom(kind: EntryKind, u: Profile, places: seq<Place>, from: nat): seq<MapEntry>
    requires from <= |places|
    decreases |places| - from
  {
    if from == |places| then [] else EntryAt(kind, u, places, from) + EntriesFrom(kind, u, places, from + 1)
  }

  /** `EntriesFrom` keeps one entry per locatable place, and each entry is
      the one of the place its index names. */
  lemma {:induction false} EntriesFromSound(kind: EntryKind, u: Profile, places: seq<Place>, from: nat)
    requires from <= |places|
    ensures |EntriesFrom(kind, u, places, from)| == Seqs.Count(places[from..], Locatable)
    ensures forall i :: 0 <= i < |EntriesFrom(kind, u, places, from)| ==>
              FromSomePlace(EntriesFrom(kind, u, places, from)[i], kind, u, places, from)
    decreases |places| - from
  {
    if from < |places| {
      EntriesFromSound(kind, u, places, from + 1);
      assert places[from..][1..] == places[from + 1..];
      ConcatFromSomePlace(kind, u, places, from, EntryAt(kind, u, places, from), EntriesFrom(kind, u, places, from + 1));
    }
  }

  /** The soundness step of `EntriesFromSound`. */
  lemma ConcatFromSomePlace(kind: EntryKind, u: Profile, places: seq<Place>, from: nat, head: seq<MapEntry>, rest: seq<MapEntry>)
    requires from < |places| && head == EntryAt(kind, u, places, from)
    requires forall i :: 0 <= i < |rest| ==> FromSomePlace(rest[i], kind, u, places, from + 1)
    ensures forall i :: 0 <= i < |head + rest| ==> FromSomePlace((head + rest)[i], kind, u, places, from)
  {
    var r := head + rest;
    forall i | 0 <= i < |r|
      ensures FromSomePlace(r[i], kind, u, places, from)
    {
      if i < |head| {
        assert r[i] == head[i];
      } else {
        assert r[i] == rest[i - |head|];
      }
    }
  }

  /** `places.forEach((p, index) => ...)`: the entries of all locatable
      places, indexed by position. */
  function IndexedEntries(kind: EntryKind, u: Profile, places: seq<Place>): (r: seq<MapEntry>)
    ensures |r| == Seqs.Count(places, Locatable)
    ensures forall i :: 0 <= i < |r| ==> FromSomePlace(r[i], kind, u, places, 0)
    ensures EntriesOf(r, u)
    ensures forall i :: 0 <= i < |r| ==> r[i].id.kind == kind
  {
    EntriesFromSound(kind, u, places, 0);
    assert places[0..] == places;
    EntriesFrom(kind, u, places, 0)
  }

  /** `EntriesFrom` on a non-empty suffix: the entry of the place at `from`
      (if it is locatable), then the rest. */
  lemma EntriesFromUnfold(kind: EntryKind, u: Profile, places: seq<Place>, from: nat)
    requires from < |places|
    ensures EntriesFrom(kind, u, places, from)
            == EntryAt(kind, u, places, from) + EntriesFrom(kind, u, places, from + 1)
  {
  }

  /** Every locatable place at or after `from` has its entry, at the position
      given by the number of locatable places between `from` and it. */
  lemma {:induction false} EntriesFromComplete(kind: EntryKind, u: Profile, places: seq<Place>, from: nat, k: nat)
    requires from <= k < |places| && Locatable(places[k])
    ensures Seqs.Count(places[from..k], Locatable) < |EntriesFrom(kind, u, places, from)|
    ensures EntriesFrom(kind, u, places, from)[Seqs.Count(places[from..k], Locatable)]
            == Entry(kind, u, places[k], Some(k))
    decreases k - from
  {
    EntriesFromUnfold(kind, u, places, from);
    var head, rest := EntryAt(kind, u, places, from), EntriesFrom(kind, u, places, from + 1);
    if k == from {
      assert places[from..k] == [];
      assert (head + rest)[0] == head[0];
    } else {
      EntriesFromComplete(kind, u, places, from + 1, k);
      Seqs.CountSliceStep(places, from, k, Locatable);
      var j := Seqs.Count(places[from + 1..k], Locatable);
      assert |head| == (if Locatable(places[from]) then 1 else 0);
      Seqs.ConcatIndex(head, rest, j);
      assert Seqs.Count(places[from..k], Locatable) == |head| + j;
      assert rest[j] == Entry(kind, u, places[k], Some(k));
    }
  }

  /** Every locatable place has its entry, at the position given by the
      number of locatable places before it. */
  lemma IndexedEntriesComplete(kind: EntryKind, u: Profile, places: seq<Place>, k: nat)
    requires k < |places| && Locatable(places[k])
    ensures Seqs.Count(places[..k], Locatable) < |IndexedEntries(kind, u, places)|
    ensures IndexedEntries(kind, u, places)[Seqs.Count(places[..k], Locatable)] == Entry(kind, u, places[k], Some(k))
  {
    EntriesFromComplete(kind, u, places, 0, k);
    assert places[0..k] == places[..k];
  }

  /** One user's companies: the `firma` icon entry, then the `companies`. */
  function CompaniesOf(u: Profile): (r: seq<MapEntry>)
    ensures EntriesOf(r, u)
    ensures forall i :: 0 <= i < |r| ==> r[i].id.kind == Firma || r[i].id.kind == Company
  {
    FirmaOf(u) + IndexedEntries(Company, u, u.companies.GetOr([]))
  }

  /** The entry of a user's `firma` icon, when it is locatable. */
  function FirmaOf(u: Profile): (r: seq<MapEntry>)
    ensures EntriesOf(r, u)
    ensures forall i :: 0 <= i < |r| ==> r[i].id.kind == Firma
  {
    var firma := u.icons.firma;
    if firma.Some? && Locatable(firma.value) then [Entry(Firma, u, firma.value, None)] else []
  }

  /** One user's projects: the `projekt` icons, then own and contributed
      projects. */
  function ProjectsOf(u: Profile): (r: seq<MapEntry>)
    ensures EntriesOf(r, u)
  {
    IndexedEntries(IconProject, u, u.icons.projekt.GetOr([]))
    + IndexedEntries(OwnProject, u, u.ownProjects.GetOr([]))
    + IndexedEntries(ContributedProject, u, u.contributedProjects.GetOr([]))
  }

  /** One user's meetup tables: the `tisch` icons. */
  function TablesOf(u: Profile): (r: seq<MapEntry>)
    ensures EntriesOf(r, u)
    ensures forall i :: 0 <= i < |r| ==> r[i].hostName == Some(u.name)
  {
    IndexedEntries(Table, u, u.icons.tisch.GetOr([]))
  }

  /** The three lists the map view draws. */
  datatype Layer = Companies | Projects | Tables

  /** One user's entries for a layer. */
  function EntriesFor(layer: Layer, u: Profile): (r: seq<MapEntry>)
    ensures EntriesOf(r, u)
    ensures layer == Companies ==> forall i :: 0 <= i < |r| ==> r[i].id.kind == Firma || r[i].id.kind == Company
    ensures layer == Tables ==> forall i :: 0 <= i < |r| ==> r[i].hostName == Some(u.name)
  {
    match layer
    case Companies => CompaniesOf(u)
    case Projects => ProjectsOf(u)
    case Tables => TablesOf(u)
  }

  /** Whether every entry has the properties its layer promises. */
  ghost predicate LayerShape(layer: Layer, es: seq<MapEntry>)
  {
    && (layer == Companies ==> forall i :: 0 <= i < |es| ==> es[i].id.kind == Firma || es[i].id.kind == Company)
    && (layer == Tables ==> forall i :: 0 <= i < |es| ==> es[i].hostName == Some(es[i].owner.name))
  }

  /** Appending two lists keeps the properties both have. */
  lemma ConcatShape(users: seq<Profile>, head: seq<MapEntry>, rest: seq<MapEntry>, layer: Layer)
    requires users != []
    requires EntriesOf(head, users[0]) && LayerShape(layer, head)
    requires forall i :: 0 <= i < |rest| ==> rest[i].owner in users[1..] && |rest[i].coordinates| == 2
    requires LayerShape(layer, rest)
    ensures forall i :: 0 <= i < |head + rest| ==> (head + rest)[i].owner in users && |(head + rest)[i].coordinates| == 2
    ensures LayerShape(layer, head + rest)
  {
    var r := head + rest;
    forall i | 0 <= i < |r|
      ensures r[i].owner in users && |r[i].coordinates| == 2
      ensures layer == Companies ==> r[i].id.kind == Firma || r[i].id.kind == Company
      ensures layer == Tables ==> r[i].hostName == Some(r[i].owner.name)
    {
      if i < |head| {
        assert r[i] == head[i];
      } else {
        assert r[i] == rest[i - |head|];
      }
    }
  }

  /** The entries of every user in turn (`users.forEach(...)` pushing into
      one array). */
  function Collect(users: seq<Profile>, layer: Layer): seq<MapEntry>
  {
    Seqs.Flatten(users, EntriesFn(layer))
  }

  /** `EntriesFor` for one layer, as a function value. */
  function EntriesFn(layer: Layer): Profile -> seq<MapEntry>
  {
    u => EntriesFor(layer, u)
  }

  /** Every collected entry belongs to one of the users, has two coordinates
      and has the shape its layer promises. */
  lemma {:induction false} CollectShape(users: seq<Profile>, layer: Layer)
    ensures var r := Collect(users, layer);
      && (forall i :: 0 <= i < |r| ==> r[i].owner in users && |r[i].coordinates| == 2)
      && LayerShape(layer, r)
  {
    if users != [] {
      CollectShape(users[1..], layer);
      ConcatShape(users, EntriesFor(layer, users[0]), Collect(users[1..], layer), layer);
    }
  }

  /** Collecting distributes over the user list: the entries of a user sit
      between those of the users before and after it. */
  lemma CollectAppend(a: seq<Profile>, b: seq<Profile>, layer: Layer)
    ensures Collect(a + b, layer) == Collect(a, layer) + Collect(b, layer)
  {
    Seqs.FlattenAppend(a, b, EntriesFn(layer));
  }

  /** The entries of the user at position `k` appear, contiguously, in the
      collected list. */
  lemma CollectSplit(users: seq<Profile>, k: nat, layer: Layer)
    requires k < |users|
    ensures Collect(users, layer) == Collect(users[..k], layer) + EntriesFor(layer, users[k]) + Collect(users[k + 1..], layer)
  {
    var front, back := users[..k], users[k + 1..];
    assert users == front + ([users[k]] + back);
    CollectAppend(front, [users[k]] + back, layer);
    CollectCons(users[k], back, layer);
  }

  /** The entries of the first user come first. */
  lemma CollectCons(u: Profile, rest: seq<Profile>, layer: Layer)
    ensures Collect([u] + rest, layer) == EntriesFor(layer, u) + Collect(rest, layer)
  {
    assert ([u] + rest)[1..] == rest;
  }

  /** `extractCompanies`. */
  function ExtractCompanies(users: seq<Profile>): (r: seq<MapEntry>)
    ensures forall i :: 0 <= i < |r| ==> r[i].owner in users && |r[i].coordinates| == 2
    ensures forall i :: 0 <= i < |r| ==> r[i].id.kind == Firma || r[i].id.kind == Company
  {
    CollectShape(users, Companies);
    Collect(users, Companies)
  }

  /** `extractProjects`. */
  function ExtractProjects(users: seq<Profile>): (r: seq<MapEntry>)
    ensures forall i :: 0 <= i < |r| ==> r[i].owner in users && |r[i].coordinates| == 2
  {
    CollectShape(users, Projects);
    Collect(users, Projects)
  }

  /** `extractTables`. */
  function ExtractTables(users: seq<Profile>): (r: seq<MapEntry>)
    ensures forall i :: 0 <= i < |r| ==> r[i].owner in users && |r[i].coordinates| == 2
    ensures forall i :: 0 <= i < |r| ==> r[i].hostName == Some(r[i].owner.name)
  {
    CollectShape(users, Tables);
    Collect(users, Tables)
  }

  /** The list of places an indexed entry of `kind` comes from; the `firma`
      icon is a single place, not a list. */
  function PlacesOf(kind: EntryKind, u: Profile): seq<Place>
  {
    match kind
    case Firma => []
    case Company => u.companies.GetOr([])
    case IconProject => u.icons.projekt.GetOr([])
    case OwnProject => u.ownProjects.GetOr([])
    case ContributedProject => u.contributedProjects.GetOr([])
    case Table => u.icons.tisch.GetOr([])
  }

  /** The entry of a locatable place at position `j` is among the indexed
      entries of its list. */
  lemma IndexedEntriesHas(kind: EntryKind, u: Profile, places: seq<Place>, j: nat)
    requires j < |places| && Locatable(places[j])
    ensures Entry(kind, u, places[j], Some(j)) in IndexedEntries(kind, u, places)
  {
    IndexedEntriesComplete(kind, u, places, j);
  }

  /** An entry of one user is among the entries collected for all users. */
  lemma CollectHas(users: seq<Profile>, k: nat, layer: Layer, e: MapEntry)
    requires k < |users| && e in EntriesFor(layer, users[k])
    ensures e in Collect(users, layer)
  {
    CollectSplit(users, k, layer);
  }

  /** No company is dropped: the locatable `firma` icon of every user is on
      the companies layer. */
  lemma ExtractCompaniesHasFirma(users: seq<Profile>, k: nat)
    requires k < |users|
    requires users[k].icons.firma.Some? && Locatable(users[k].icons.firma.value)
    ensures Entry(Firma, users[k], users[k].icons.firma.value, None) in ExtractCompanies(users)
  {
    CollectHas(users, k, Companies, Entry(Firma, users[k], users[k].icons.firma.value, None));
  }

  /** No company is dropped: every locatable entry of a user's `companies`
      is on the companies layer, with its position as index. */
  lemma ExtractCompaniesComplete(users: seq<Profile>, k: nat, j: nat)
    requires k < |users|
    requires j < |PlacesOf(Company, users[k])| && Locatable(PlacesOf(Company, users[k])[j])
    ensures Entry(Company, users[k], PlacesOf(Company, users[k])[j], Some(j)) in ExtractCompanies(users)
  {
    var u := users[k];
    IndexedEntriesHas(Company, u, PlacesOf(Company, u), j);
    CollectHas(users, k, Companies, Entry(Company, u, PlacesOf(Company, u)[j], Some(j)));
  }

  /** No project is dropped: every locatable `projekt` icon, own project and
      contributed project of a user is on the projects layer. */
  lemma ExtractProjectsComplete(users: seq<Profile>, k: nat, kind: EntryKind, j: nat)
    requires k < |users|
    requires kind == IconProject || kind == OwnProject || kind == ContributedProject
    requires j < |PlacesOf(kind, users[k])| && Locatable(PlacesOf(kind, users[k])[j])
    ensures Entry(kind, users[k], PlacesOf(kind, users[k])[j], Some(j)) in ExtractProjects(users)
  {
    var u := users[k];
    IndexedEntriesHas(kind, u, PlacesOf(kind, u), j);
    CollectHas(users, k, Projects, Entry(kind, u, PlacesOf(kind, u)[j], Some(j)));
  }

  /** No table is dropped: every locatable `tisch` icon of a user is on the
      tables layer. */
  lemma ExtractTablesComplete(users: seq<Profile>, k: nat, j: nat)
    requires k < |users|
    requires j < |PlacesOf(Table, users[k])| && Locatable(PlacesOf(Table, users[k])[j])
    ensures Entry(Table, users[k], PlacesOf(Table, users[k])[j], Some(j)) in ExtractTables(users)
  {
    var u := users[k];
    IndexedEntriesHas(Table, u, PlacesOf(Table, u), j);
    CollectHas(users, k, Tables, Entry(Table, u, PlacesOf(Table, u)[j], Some(j)));
  }

  /** Whether `e` is the entry of one of `u`'s places: the locatable `firma`
      icon, or the locatable place at the position its index names in the
      list its kind comes from. */
  ghost predicate FromUser(e: MapEntry, u: Profile)
  {
    if e.id.kind == Firma then
      u.icons.firma.Some? && Locatable(u.icons.firma.value) && e == Entry(Firma, u, u.icons.firma.value, None)
    else
      FromSomePlace(e, e.id.kind, u, PlacesOf(e.id.kind, u), 0)
  }

  /** Two lists of `u`'s entries appended are still `u`'s entries. */
  lemma ConcatFromUser(a: seq<MapEntry>, b: seq<MapEntry>, u: Profile)
    requires forall i :: 0 <= i < |a| ==> FromUser(a[i], u)
    requires forall i :: 0 <= i < |b| ==> FromUser(b[i], u)
    ensures forall i :: 0 <= i < |a + b| ==> FromUser((a + b)[i], u)
  {
    forall i | 0 <= i < |a + b|
      ensures FromUser((a + b)[i], u)
    {
      if i < |a| {
        assert (a + b)[i] == a[i];
      } else {
        assert (a + b)[i] == b[i - |a|];
      }
    }
  }

  /** The indexed entries of one of `u`'s lists come from that list. */
  lemma IndexedFromUser(kind: EntryKind, u: Profile)
    requires kind != Firma
    ensures var r := IndexedEntries(kind, u, PlacesOf(kind, u));
      forall i :: 0 <= i < |r| ==> FromUser(r[i], u)
  {
  }

  /** Every entry of a user on any layer is the entry of one of its places. */
  lemma EntriesForSound(layer: Layer, u: Profile)
    ensures var r := EntriesFor(layer, u);
      forall i :: 0 <= i < |r| ==> FromUser(r[i], u)
  {
    match layer
    case Companies =>
      IndexedFromUser(Company, u);
      ConcatFromUser(FirmaOf(u), IndexedEntries(Company, u, PlacesOf(Company, u)), u);
    case Projects =>
      IndexedFromUser(IconProject, u);
      IndexedFromUser(OwnProject, u);
      IndexedFromUser(ContributedProject, u);
      ConcatFromUser(IndexedEntries(IconProject, u, PlacesOf(IconProject, u)),
                     IndexedEntries(OwnProject, u, PlacesOf(OwnProject, u)), u);
      ConcatFromUser(IndexedEntries(IconProject, u, PlacesOf(IconProject, u))
                     + IndexedEntries(OwnProject, u, PlacesOf(OwnProject, u)),
                     IndexedEntries(ContributedProject, u, PlacesOf(ContributedProject, u)), u);
    case Tables =>
      IndexedFromUser(Table, u);
  }

  /** Whether `e` is the entry of a place of one of `users`. */
  ghost predicate FromSomeUser(e: MapEntry, users: seq<Profile>)
  {
    exists k :: 0 <= k < |users| && FromUser(e, users[k])
  }

  /** Entries of the first user followed by entries of the others are all
      entries of some user. */
  lemma ConsFromSomeUser(users: seq<Profile>, head: seq<MapEntry>, rest: seq<MapEntry>)
    requires users != []
    requires forall i :: 0 <= i < |head| ==> FromUser(head[i], users[0])
    requires forall i :: 0 <= i < |rest| ==> FromSomeUser(rest[i], users[1..])
    ensures forall i :: 0 <= i < |head + rest| ==> FromSomeUser((head + rest)[i], users)
  {
    forall i | 0 <= i < |head + rest|
      ensures FromSomeUser((head + rest)[i], users)
    {
      if i < |head| {
        assert (head + rest)[i] == head[i];
        assert FromUser((head + rest)[i], users[0]);
      } else {
        assert (head + rest)[i] == rest[i - |head|];
        var k :| 0 <= k < |users[1..]| && FromUser(rest[i - |head|], users[1..][k]);
        assert users[1..][k] == users[k + 1];
        assert FromUser((head + rest)[i], users[k + 1]);
      }
    }
  }

  /** Nothing is invented: every collected entry is the entry of a place of
      one of the users. */
  lemma {:induction false} CollectSound(users: seq<Profile>, layer: Layer)
    ensures var r := Collect(users, layer);
      forall i :: 0 <= i < |r| ==> FromSomeUser(r[i], users)
  {
    if users != [] {
      CollectSound(users[1..], layer);
      EntriesForSound(layer, users[0]);
      ConsFromSomeUser(users, EntriesFor(layer, users[0]), Collect(users[1..], layer));
    }
  }

  /** The three layers hold nothing but entries of the users' places. */
  lemma ExtractSound(users: seq<Profile>)
    ensures var r := ExtractCompanies(users);
      forall i :: 0 <= i < |r| ==> FromSomeUser(r[i], users)
    ensures var r := ExtractProjects(users);
      forall i :: 0 <= i < |r| ==> FromSomeUser(r[i], users)
    ensures var r := ExtractTables(users);
      forall i :: 0 <= i < |r| ==> FromSomeUser(r[i], users)
  {
    CollectSound(users, Companies);
    CollectSound(users, Projects);
    CollectSound(users, Tables);
  }
}
