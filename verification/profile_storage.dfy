/** The profile storage service (`src/services/StorageService.js`): the
    profile list lives in one `localStorage` entry, which every operation
    reads, transforms and writes back. The entry is passed in and returned
    explicitly. */
module ProfileStorage {
  import opened Wrappers
  import opened Profiles

  /** `getAllProfiles`: the stored list; a missing entry and one that does not
      parse both read as the empty list. */
  function GetAllProfiles(slot: Slot): (r: seq<Profile>)
    ensures slot.Stored? ==> r == slot.profiles
    ensures !slot.Stored? ==> r == []
  {
    match slot
    case Stored(ps) => ps
    case _ => []
  }

  /** `loadAndMergeDataJson`: returns the merged profiles and the entry it
      wrote them to. */
  function LoadAndStore(source: DataSource): (r: (seq<Profile>, Slot))
    ensures r.1 == Stored(r.0)
    ensures r.0 == LoadAndMerge(source, ServiceMerge)
    ensures forall k :: 0 <= k < |AuthUsers| ==> HasId(r.0, AuthUsers[k].id)
  {
    var ps := LoadAndMerge(source, ServiceMerge);
    (ps, Stored(ps))
  }

  /** `initializeStorage(forceReset)`: keeps a non-empty stored list as it is;
      otherwise, or when a reset is forced, loads, merges and stores. */
  function InitializeStorage(forceReset: bool, slot: Slot, source: DataSource): (r: (seq<Profile>, Slot))
    ensures !forceReset && GetAllProfiles(slot) != [] ==> r.0 == GetAllProfiles(slot) && r.1 == slot
    ensures forceReset || GetAllProfiles(slot) == [] ==>
      && r.1 == Stored(r.0)
      && r.0 == LoadAndMerge(source, ServiceMerge)
    ensures r.0 != [] && GetAllProfiles(r.1) == r.0
  {
    if forceReset then LoadAndStore(source)
    else
      var existing := GetAllProfiles(slot);
      if existing == [] then LoadAndStore(source) else (existing, slot)
  }

  /** Initialisation is idempotent: once it has run, running it again without
      a forced reset changes nothing, whatever the data source says then. */
  lemma InitializeTwice(forceReset: bool, slot: Slot, first: DataSource, second: DataSource)
    ensures var (ps, s) := InitializeStorage(forceReset, slot, first);
      InitializeStorage(false, s, second) == (ps, s)
  {
  }

  /** `resetToInitialData`: removes the entry, then loads, merges and stores
      (the removal is always overwritten, so only the final write shows). */
  function ResetToInitialData(source: DataSource): (r: (seq<Profile>, Slot))
    ensures r.1 == Stored(r.0)
    ensures forall k :: 0 <= k < |AuthUsers| ==> HasId(r.0, AuthUsers[k].id)
  {
    LoadAndStore(source)
  }

  /** A reset is a forced initialisation from any entry, and an unforced one
      from a missing entry. */
  lemma ResetIsForcedInitialize(slot: Slot, source: DataSource)
    ensures ResetToInitialData(source) == InitializeStorage(true, slot, source)
    ensures ResetToInitialData(source) == InitializeStorage(false, Absent, source)
  {
  }

  /** `saveProfile`: updates the first profile with the same id in place, or
      gives the profile a fresh id and appends it; returns the saved profile. */
  function SaveProfile(slot: Slot, profile: Profile): (r: (Profile, Slot))
    ensures r.1.Stored?
    ensures var ps := GetAllProfiles(slot); var qs := GetAllProfiles(r.1);
      && HasId(qs, r.0.id)
      && qs[FindIndex(qs, r.0.id).value] == r.0
      && (HasId(ps, profile.id) ==>
            && r.0 == profile && |qs| == |ps|
            && qs[FindIndex(ps, profile.id).value] == profile
            && forall j :: 0 <= j < |ps| && j != FindIndex(ps, profile.id).value ==> qs[j] == ps[j])
      && (!HasId(ps, profile.id) ==>
            && r.0 == profile.(id := r.0.id)
            && !HasId(ps, r.0.id) && qs == ps + [r.0]
            && (ps == [] ==> r.0.id == 1)
            && (ps != [] ==> r.0.id == MaxId(ps) + 1)
            && forall j :: 0 <= j < |ps| ==> ps[j].id < r.0.id)
  {
    var ps := GetAllProfiles(slot);
    SaveThenFind(ps, profile);
    var (saved, qs) := SaveWithFreshId(ps, profile);
    (saved, Stored(qs))
  }

  /** `deleteProfile`: keeps exactly the profiles with a different id. */
  function DeleteProfile(slot: Slot, id: int): (r: Slot)
    ensures r.Stored?
    ensures !HasId(GetAllProfiles(r), id)
    ensures GetAllProfiles(r) == RemoveId(GetAllProfiles(slot), id)
  {
    Stored(RemoveId(GetAllProfiles(slot), id))
  }

  /** Deleting a profile that was just created restores the list. */
  lemma CreateThenDelete(slot: Slot, profile: Profile)
    requires !HasId(GetAllProfiles(slot), profile.id)
    ensures var (saved, s) := SaveProfile(slot, profile);
      GetAllProfiles(DeleteProfile(s, saved.id)) == GetAllProfiles(slot)
  {
    SaveThenRemove(GetAllProfiles(slot), profile);
  }

  /** `updateAllProfiles`: `None` stands for a value that is not an array,
      which is refused (the entry is left alone and the result is false). */
  function UpdateAllProfiles(slot: Slot, profiles: Option<seq<Profile>>): (r: (bool, Slot))
    ensures r.0 <==> profiles.Some?
    ensures !r.0 ==> r.1 == slot
    ensures r.0 ==> GetAllProfiles(r.1) == profiles.value
  {
    match profiles
    case None => (false, slot)
    case Some(ps) => (true, Stored(ps))
  }
}
