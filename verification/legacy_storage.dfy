/** The older storage service (`services/StorageService.js`): the same
    `localStorage` entry, but no merge with the login accounts, no id
    assignment and no error handling, so an entry that does not parse makes
    every reading operation throw. */
module LegacyStorage {
  import opened Wrappers
  import opened Profiles

  /** The error `JSON.parse` throws on an entry it cannot read. */
  datatype ParseError = ParseError

  /** `initializeStorage`: writes the bundled initial data only when the entry
      is missing; any existing entry, readable or not, is left alone. */
  function InitializeStorage(slot: Slot, initialData: seq<Profile>): (r: Slot)
    ensures slot.Absent? ==> r == Stored(initialData)
    ensures !slot.Absent? ==> r == slot
    ensures !r.Absent?
  {
    if slot.Absent? then Stored(initialData) else slot
  }

  /** Initialising twice is the same as initialising once. */
  lemma InitializeIdempotent(slot: Slot, first: seq<Profile>, second: seq<Profile>)
    ensures InitializeStorage(InitializeStorage(slot, first), second) == InitializeStorage(slot, first)
  {
  }

  /** `getAllProfiles`: the stored list, the empty list for a missing entry,
      and the parse error for an unreadable one. */
  function GetAllProfiles(slot: Slot): (r: Result<seq<Profile>, ParseError>)
    ensures slot.Absent? ==> r == Success([])
    ensures slot.Stored? ==> r == Success(slot.profiles)
    ensures r.Failure? <==> slot.Unreadable?
  {
    match slot
    case Absent => Success([])
    case Stored(ps) => Success(ps)
    case Unreadable => Failure(ParseError)
  }

  /** Replaces the first profile with the same id, or appends the profile as
      it is: unlike the newer service no id is assigned. */
  function Upsert(ps: seq<Profile>, profile: Profile): (r: seq<Profile>)
    ensures HasId(ps, profile.id) ==>
      var i := FindIndex(ps, profile.id).value;
      && |r| == |ps|
      && r[i] == profile
      && (forall j :: 0 <= j < |ps| && j != i ==> r[j] == ps[j])
    ensures !HasId(ps, profile.id) ==> r == ps + [profile]
  {
    match FindIndex(ps, profile.id)
    case Some(i) => ps[i := profile]
    case None => ps + [profile]
  }

  /** Saving twice is the same as saving once: after the first save the
      profile's id is present, so the second one overwrites in place. */
  lemma UpsertIdempotent(ps: seq<Profile>, profile: Profile)
    ensures Upsert(Upsert(ps, profile), profile) == Upsert(ps, profile)
  {
    var qs := Upsert(ps, profile);
    if !HasId(ps, profile.id) {
      assert qs[|ps|] == profile;
      var i := FindIndex(qs, profile.id).value;
      assert i == |ps|;
    }
  }

  /** `saveProfile`: on an unreadable entry it throws and writes nothing. */
  function SaveProfile(slot: Slot, profile: Profile): (r: Result<Slot, ParseError>)
    ensures r.Failure? <==> slot.Unreadable?
    ensures r.Success? ==> r.value == Stored(Upsert(GetAllProfiles(slot).value, profile))
  {
    match GetAllProfiles(slot)
    case Failure(e) => Failure(e)
    case Success(ps) => Success(Stored(Upsert(ps, profile)))
  }

  /** `deleteProfile`: keeps exactly the profiles with a different id; on an
      unreadable entry it throws and writes nothing. */
  function DeleteProfile(slot: Slot, id: int): (r: Result<Slot, ParseError>)
    ensures r.Failure? <==> slot.Unreadable?
    ensures r.Success? ==> r.value == Stored(RemoveId(GetAllProfiles(slot).value, id))
  {
    match GetAllProfiles(slot)
    case Failure(e) => Failure(e)
    case Success(ps) => Success(Stored(RemoveId(ps, id)))
  }

  /** Saving a profile with a new id and deleting that id restores the list. */
  lemma SaveNewThenDelete(slot: Slot, profile: Profile)
    requires slot.Stored? && !HasId(slot.profiles, profile.id)
    ensures var saved := SaveProfile(slot, profile).value;
      DeleteProfile(saved, profile.id) == Success(slot)
  {
    var ps := slot.profiles;
    assert Upsert(ps, profile) == ps + [profile];
    RemoveIdSplits(ps, [profile], profile.id);
    assert RemoveId([profile], profile.id) == [];
    assert RemoveId(ps + [profile], profile.id) == ps + [];
    assert ps + [] == ps;
  }
}
