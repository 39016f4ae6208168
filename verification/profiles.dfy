/** The profile record shared by the stores, the storage services, the matcher
    and the map view, together with the list operations every storage variant
    performs on it: lookup by id, update-or-append, delete-by-id, and the merge
    of loaded profiles with the hard-coded login accounts. */
module Profiles {
  import opened Wrappers
  import opened Strings
  import Seqs

  /** A place on the map: a company, a project or a meetup table. Empty
      strings stand for missing (falsy) text fields; `coordinates` is `None`
      when the field is missing or not an array. */
  datatype Place = Place(
    name: string,
    description: string,
    address: string,
    location: string,
    coordinates: Option<seq<real>>)

  /** The `iconCategories` object; a field is `None` when it is missing (and,
      for the list-valued ones, when it is not an array). */
  datatype IconCategories = IconCategories(
    firma: Option<Place>,
    projekt: Option<seq<Place>>,
    tisch: Option<seq<Place>>)

  const NoIcons := IconCategories(None, None, None)

  /** A user profile. Optional list fields are `None` when missing; optional
      text fields are the empty string when missing. */
  datatype Profile = Profile(
    id: int,
    name: string,
    email: string,
    password: Option<string>,
    role: Option<string>,
    bio: string,
    skills: Option<seq<string>>,
    interests: Option<seq<string>>,
    goals: string,
    dreammallGoals: string,
    collaborationPreferences: string,
    valueOrientation: string,
    icons: IconCategories,
    companies: Option<seq<Place>>,
    ownProjects: Option<seq<Place>>,
    contributedProjects: Option<seq<Place>>)

  /** A login account with valid credentials. */
  datatype AuthUser = AuthUser(id: int, email: string, password: string)

  /** The accounts both the profile service and the user store hard-code. */
  const AuthUsers: seq<AuthUser> := [AuthUser(2, "test@example.com", "test123")]

  /** The id of the test user, who the user store always makes an admin. */
  const AdminId := 2

  /** A profile with only the given identity fields set. */
  function Minimal(id: int, name: string, email: string, bio: string): Profile
  {
    Profile(id, name, email, None, None, bio, None, None, "", "", "", "",
            NoIcons, None, None, None)
  }

  // ---------------------------------------------------------------------------
  // Lookup
  // ---------------------------------------------------------------------------

  /** `profiles.findIndex(p => p.id === id)`. */
  function FindIndex(ps: seq<Profile>, id: int): (r: Option<nat>)
    ensures r.Some? ==> r.value < |ps| && ps[r.value].id == id
    ensures r.Some? ==> forall j :: 0 <= j < r.value ==> ps[j].id != id
    ensures r.None? ==> forall j :: 0 <= j < |ps| ==> ps[j].id != id
  {
    if ps == [] then None
    else if ps[0].id == id then Some(0)
    else match FindIndex(ps[1..], id)
      case None => None
      case Some(k) => Some(k + 1)
  }

  predicate HasId(ps: seq<Profile>, id: int)
  {
    FindIndex(ps, id).Some?
  }

  /** `Math.max(...profiles.map(p => p.id))`. */
  function MaxId(ps: seq<Profile>): (m: int)
    requires ps != []
    ensures forall j :: 0 <= j < |ps| ==> ps[j].id <= m
    ensures exists j :: 0 <= j < |ps| && ps[j].id == m
  {
    if |ps| == 1 then ps[0].id
    else
      var m := MaxId(ps[1..]);
      assert forall j :: 1 <= j < |ps| ==> ps[j] == ps[1..][j - 1];
      if ps[0].id >= m then ps[0].id else m
  }

  /** The id a new profile receives: one more than the largest id, or 1 for
      an empty list. */
  function NextId(ps: seq<Profile>): (n: int)
    ensures !HasId(ps, n)
    ensures ps == [] ==> n == 1
    ensures ps != [] ==> n == MaxId(ps) + 1
    ensures forall j :: 0 <= j < |ps| ==> ps[j].id < n
  {
    if |ps| > 0 then MaxId(ps) + 1 else 1
  }

  // ---------------------------------------------------------------------------
  // Update-or-append and delete
  // ---------------------------------------------------------------------------

  /** The id-assigning save shared by the profile service and the user store:
      a profile whose id is already present replaces the FIRST profile with
      that id, in place; any other profile gets a fresh id and is appended.
      Returns the saved profile and the new list. */
  function SaveWithFreshId(ps: seq<Profile>, profile: Profile): (r: (Profile, seq<Profile>))
    ensures HasId(ps, profile.id) ==>
      var i := FindIndex(ps, profile.id).value;
      && r.0 == profile
      && |r.1| == |ps|
      && r.1[i] == profile
      && (forall j :: 0 <= j < |ps| && j != i ==> r.1[j] == ps[j])
    ensures !HasId(ps, profile.id) ==>
      && r.0 == profile.(id := r.0.id)
      && !HasId(ps, r.0.id)
      && (ps == [] ==> r.0.id == 1)
      && (ps != [] ==> r.0.id == MaxId(ps) + 1)
      && (forall j :: 0 <= j < |ps| ==> ps[j].id < r.0.id)
      && r.1 == ps + [r.0]
  {
    match FindIndex(ps, profile.id)
    case Some(i) => (profile, ps[i := profile])
    case None =>
      var saved := profile.(id := NextId(ps));
      (saved, ps + [saved])
  }

  /** `profiles.filter(p => p.id !== id)`. */
  function RemoveId(ps: seq<Profile>, id: int): (r: seq<Profile>)
    ensures !HasId(r, id)
    ensures forall j :: 0 <= j < |ps| && ps[j].id != id ==> ps[j] in r
    ensures forall j :: 0 <= j < |r| ==> r[j] in ps
    ensures forall p :: multiset(r)[p] == if p.id != id then multiset(ps)[p] else 0
  {
    var r := Seqs.Filter(ps, (p: Profile) => p.id != id);
    forall p ensures multiset(r)[p] == if p.id != id then multiset(ps)[p] else 0 {
      Seqs.FilterMultiset(ps, (p: Profile) => p.id != id, p);
    }
    r
  }

  /** Deleting removes exactly the profiles carrying the id: it keeps the
      others in their order, and it is the identity when the id is absent. */
  lemma {:induction false} RemoveIdSplits(a: seq<Profile>, b: seq<Profile>, id: int)
    ensures RemoveId(a + b, id) == RemoveId(a, id) + RemoveId(b, id)
    ensures !HasId(a, id) ==> RemoveId(a, id) == a
  {
    Seqs.FilterAppend(a, b, (p: Profile) => p.id != id);
    if !HasId(a, id) {
      Seqs.FilterKeepsAll(a, (p: Profile) => p.id != id);
    }
  }

  /** A save is visible to the next lookup: the first profile carrying the
      saved id is the saved profile, and the list grows by at most one. */
  lemma SaveThenFind(ps: seq<Profile>, profile: Profile)
    ensures var (saved, qs) := SaveWithFreshId(ps, profile);
      && HasId(qs, saved.id)
      && qs[FindIndex(qs, saved.id).value] == saved
      && |ps| <= |qs| <= |ps| + 1
  {
    var (saved, qs) := SaveWithFreshId(ps, profile);
    if !HasId(ps, profile.id) {
      assert qs[..|ps|] == ps;
      assert qs[|ps|].id == saved.id;
    }
  }

  /** Deleting a freshly created profile undoes its creation. */
  lemma SaveThenRemove(ps: seq<Profile>, profile: Profile)
    requires !HasId(ps, profile.id)
    ensures var (saved, qs) := SaveWithFreshId(ps, profile);
      RemoveId(qs, saved.id) == ps
  {
    var (saved, qs) := SaveWithFreshId(ps, profile);
    RemoveIdSplits(ps, [saved], saved.id);
    assert RemoveId([saved], saved.id) == [];
  }

  // ---------------------------------------------------------------------------
  // Merging loaded profiles with the login accounts
  // ---------------------------------------------------------------------------

  /** Which of the two merges runs: the profile service only copies the
      password, the user store also forces the test user's role to admin. */
  datatype MergeFlavor = ServiceMerge | StoreMerge

  /** `AUTH_USERS.find(auth => auth.id === id)`. */
  function FindAuth(auth: seq<AuthUser>, id: int): (r: Option<AuthUser>)
    ensures r.Some? ==> r.value in auth && r.value.id == id
    ensures r.None? ==> forall k :: 0 <= k < |auth| ==> auth[k].id != id
  {
    if auth == [] then None
    else if auth[0].id == id then Some(auth[0])
    else FindAuth(auth[1..], id)
  }

  /** The merge step applied to one loaded profile. */
  function MergeOne(u: Profile, auth: seq<AuthUser>, flavor: MergeFlavor): Profile
  {
    match FindAuth(auth, u.id)
    case None => u
    case Some(a) =>
      if flavor == StoreMerge && u.id == AdminId
      then u.(password := Some(a.password), role := Some("admin"))
      else u.(password := Some(a.password))
  }

  /** The profile created for a login account missing from the loaded data. */
  function AccountProfile(a: AuthUser, flavor: MergeFlavor, bio: string): Profile
  {
    Minimal(a.id, Before(a.email, '@'), a.email, bio).(
      password := Some(a.password),
      role := (if flavor == StoreMerge then Some(if a.id == AdminId then "admin" else "user") else None),
      skills := Some([]),
      interests := Some([]))
  }

  const AutoBio := "Automatically created user"
  const FallbackBio := "Fallback user profile"

  /** Appends a profile for every pending account whose id is not yet in the
      list (checked against the growing list, as `forEach`/`push` does). */
  function AppendMissing(ps: seq<Profile>, pending: seq<AuthUser>, flavor: MergeFlavor): (r: seq<Profile>)
    ensures |ps| <= |r| <= |ps| + |pending|
    ensures r[..|ps|] == ps
    decreases |pending|
  {
    if pending == [] then ps
    else
      var a := pending[0];
      var next := if HasId(ps, a.id) then ps else ps + [AccountProfile(a, flavor, AutoBio)];
      var r := AppendMissing(next, pending[1..], flavor);
      assert r[..|ps|] == r[..|next|][..|ps|];
      r
  }

  /** A list keeps the ids of any list it extends. */
  lemma HasIdExtends(ps: seq<Profile>, r: seq<Profile>, id: int)
    requires |ps| <= |r| && r[..|ps|] == ps
    requires HasId(ps, id)
    ensures HasId(r, id)
  {
    var i := FindIndex(ps, id).value;
    assert r[i] == r[..|ps|][i];
  }

  /** After `AppendMissing` every pending account has a profile. */
  lemma {:induction false} AppendMissingCovers(ps: seq<Profile>, pending: seq<AuthUser>, flavor: MergeFlavor)
    ensures var r := AppendMissing(ps, pending, flavor);
      forall k :: 0 <= k < |pending| ==> HasId(r, pending[k].id)
    decreases |pending|
  {
    if pending != [] {
      var a := pending[0];
      var next := if HasId(ps, a.id) then ps else ps + [AccountProfile(a, flavor, AutoBio)];
      var r := AppendMissing(next, pending[1..], flavor);
      AppendMissingCovers(next, pending[1..], flavor);
      assert HasId(next, a.id) by {
        if !HasId(ps, a.id) { assert next[|ps|].id == a.id; }
      }
      HasIdExtends(next, r, a.id);
      forall k | 0 <= k < |pending| ensures HasId(r, pending[k].id) {
        if k > 0 { assert pending[k] == pending[1..][k - 1]; }
      }
    }
  }

  /** Every entry of `r` past the length of `ps` is the account profile of a
      pending account whose id `ps` lacks. */
  ghost predicate AppendedFrom(ps: seq<Profile>, r: seq<Profile>, pending: seq<AuthUser>, flavor: MergeFlavor)
  {
    forall j :: |ps| <= j < |r| ==>
      exists k :: 0 <= k < |pending| && r[j] == AccountProfile(pending[k], flavor, AutoBio)
                  && !HasId(ps, pending[k].id)
  }

  /** Every profile `AppendMissing` appends is the account profile of an
      account that was absent from the list it started with. */
  lemma {:induction false} AppendMissingAppendsAccounts(ps: seq<Profile>, pending: seq<AuthUser>, flavor: MergeFlavor)
    ensures AppendedFrom(ps, AppendMissing(ps, pending, flavor), pending, flavor)
    decreases |pending|
  {
    if pending != [] {
      var a := pending[0];
      var next := if HasId(ps, a.id) then ps else ps + [AccountProfile(a, flavor, AutoBio)];
      var r := AppendMissing(next, pending[1..], flavor);
      assert r == AppendMissing(ps, pending, flavor);
      AppendMissingAppendsAccounts(next, pending[1..], flavor);
      assert AppendedFrom(next, r, pending[1..], flavor);
      forall j | |ps| <= j < |r|
        ensures exists k :: 0 <= k < |pending| && r[j] == AccountProfile(pending[k], flavor, AutoBio)
                            && !HasId(ps, pending[k].id)
      {
        if j < |next| {
          assert r[j] == r[..|next|][j];
          assert r[j] == AccountProfile(pending[0], flavor, AutoBio) && !HasId(ps, pending[0].id);
        } else {
          var k :| 0 <= k < |pending[1..]| && r[j] == AccountProfile(pending[1..][k], flavor, AutoBio)
                   && !HasId(next, pending[1..][k].id);
          assert pending[1..][k] == pending[k + 1];
          if HasId(ps, pending[k + 1].id) {
            HasIdExtends(ps, next, pending[k + 1].id);
          }
        }
      }
    }
  }

  /** `AppendMissing` appends nothing when every pending account is present. */
  lemma {:induction false} AppendMissingNothingMissing(ps: seq<Profile>, pending: seq<AuthUser>, flavor: MergeFlavor)
    requires forall k :: 0 <= k < |pending| ==> HasId(ps, pending[k].id)
    ensures AppendMissing(ps, pending, flavor) == ps
    decreases |pending|
  {
    if pending != [] {
      forall k | 0 <= k < |pending[1..]| ensures HasId(ps, pending[1..][k].id) {
        assert pending[1..][k] == pending[k + 1];
      }
      AppendMissingNothingMissing(ps, pending[1..], flavor);
    }
  }

  /** The whole merge: every loaded profile is kept in place (with the
      account's password, and for the user store the admin role), and the
      missing accounts are appended. */
  function Merge(data: seq<Profile>, auth: seq<AuthUser>, flavor: MergeFlavor): (r: seq<Profile>)
  {
    var merged := seq(|data|, i requires 0 <= i < |data| => MergeOne(data[i], auth, flavor));
    AppendMissing(merged, auth, flavor)
  }

  /** Merging never changes an id, so the merged prefix has the same ids as
      the loaded data. */
  lemma MergedIds(data: seq<Profile>, auth: seq<AuthUser>, flavor: MergeFlavor, id: int)
    ensures HasId(seq(|data|, i requires 0 <= i < |data| => MergeOne(data[i], auth, flavor)), id)
            <==> HasId(data, id)
  {
    var merged := seq(|data|, i requires 0 <= i < |data| => MergeOne(data[i], auth, flavor));
    assert forall i :: 0 <= i < |data| ==> merged[i].id == data[i].id;
    if HasId(data, id) {
      var i := FindIndex(data, id).value;
      assert merged[i].id == id;
    }
    if HasId(merged, id) {
      var i := FindIndex(merged, id).value;
      assert data[i].id == id;
    }
  }

  /** The merge keeps every loaded profile at its position, transformed by
      `MergeOne`, and only appends after them. */
  lemma MergePrefix(data: seq<Profile>, auth: seq<AuthUser>, flavor: MergeFlavor)
    ensures var r := Merge(data, auth, flavor);
      && |data| <= |r| <= |data| + |auth|
      && forall i :: 0 <= i < |data| ==> r[i] == MergeOne(data[i], auth, flavor)
  {
    var merged := seq(|data|, i requires 0 <= i < |data| => MergeOne(data[i], auth, flavor));
    var r := Merge(data, auth, flavor);
    assert r[..|data|] == merged;
    assert forall i :: 0 <= i < |data| ==> r[i] == r[..|data|][i];
  }

  /** Everything the merge appends is the account profile of an account whose
      id the loaded data lacked; and it appends nothing when all accounts are
      present. */
  lemma MergeTail(data: seq<Profile>, auth: seq<AuthUser>, flavor: MergeFlavor)
    ensures var r := Merge(data, auth, flavor);
      && (forall k :: 0 <= k < |auth| ==> HasId(r, auth[k].id))
      && (forall j :: |data| <= j < |r| ==>
            exists k :: 0 <= k < |auth| && r[j] == AccountProfile(auth[k], flavor, AutoBio)
                        && !HasId(data, auth[k].id))
      && ((forall k :: 0 <= k < |auth| ==> HasId(data, auth[k].id)) ==> |r| == |data|)
  {
    var merged := seq(|data|, i requires 0 <= i < |data| => MergeOne(data[i], auth, flavor));
    AppendMissingCovers(merged, auth, flavor);
    AppendMissingAppendsAccounts(merged, auth, flavor);
    if forall k :: 0 <= k < |auth| ==> HasId(data, auth[k].id) {
      forall k | 0 <= k < |auth| ensures HasId(merged, auth[k].id) {
        MergedIds(data, auth, flavor, auth[k].id);
      }
      AppendMissingNothingMissing(merged, auth, flavor);
    }
    forall id ensures HasId(merged, id) <==> HasId(data, id) {
      MergedIds(data, auth, flavor, id);
    }
  }

  /** What the profile service's merge promises: loaded profiles keep their
      position and every field but the password, which an account with the
      same id overwrites; the others pass through untouched; no role is set;
      every account id ends up present, the missing ones appended with the
      e-mail prefix as name and empty skill and interest lists. */
  lemma MergeServiceProperties(data: seq<Profile>)
    ensures var r := Merge(data, AuthUsers, ServiceMerge);
      && |data| <= |r| <= |data| + |AuthUsers|
      && (forall i :: 0 <= i < |data| && FindAuth(AuthUsers, data[i].id).None? ==> r[i] == data[i])
      && (forall i :: 0 <= i < |data| && FindAuth(AuthUsers, data[i].id).Some? ==>
            r[i] == data[i].(password := Some(FindAuth(AuthUsers, data[i].id).value.password)))
      && (forall k :: 0 <= k < |AuthUsers| ==> HasId(r, AuthUsers[k].id))
      && (forall j :: |data| <= j < |r| ==>
            && r[j].name == Before(r[j].email, '@')
            && r[j].role.None?
            && r[j].skills == Some([]) && r[j].interests == Some([])
            && !HasId(data, r[j].id))
      && (HasId(data, AdminId) ==> |r| == |data|)
  {
    MergePrefix(data, AuthUsers, ServiceMerge);
    MergeTail(data, AuthUsers, ServiceMerge);
  }

  /** What the user store's merge promises: the test user (id 2) gets the
      account password and the admin role; other loaded profiles pass through
      unchanged; the missing account is appended with the e-mail prefix as name
      and the admin role. */
  lemma MergeStoreProperties(data: seq<Profile>)
    ensures var r := Merge(data, AuthUsers, StoreMerge);
      && |data| <= |r| <= |data| + 1
      && (forall i :: 0 <= i < |data| && data[i].id != AdminId ==> r[i] == data[i])
      && (forall i :: 0 <= i < |data| && data[i].id == AdminId ==>
            r[i] == data[i].(password := Some("test123"), role := Some("admin")))
      && HasId(r, AdminId)
      && (forall j :: |data| <= j < |r| ==>
            r[j] == AccountProfile(AuthUsers[0], StoreMerge, AutoBio) && !HasId(data, AdminId))
      && (HasId(data, AdminId) <==> |r| == |data|)
  {
    MergePrefix(data, AuthUsers, StoreMerge);
    MergeTail(data, AuthUsers, StoreMerge);
    var r := Merge(data, AuthUsers, StoreMerge);
    assert HasId(r, AuthUsers[0].id);
  }

  /** `createFallbackProfiles`: one profile per account, in order. */
  function FallbackProfiles(auth: seq<AuthUser>, flavor: MergeFlavor): (r: seq<Profile>)
    ensures |r| == |auth|
    ensures forall k :: 0 <= k < |auth| ==>
      && r[k].id == auth[k].id
      && r[k].email == auth[k].email
      && r[k].password == Some(auth[k].password)
      && r[k].name == Before(auth[k].email, '@')
      && r[k].bio == FallbackBio
  {
    seq(|auth|, k requires 0 <= k < |auth| => AccountProfile(auth[k], flavor, FallbackBio))
  }

  // ---------------------------------------------------------------------------
  // Loading: the stored entry, the fetched data, the hard-coded data
  // ---------------------------------------------------------------------------

  /** The `localStorage` entry holding the profile list: missing, a parsable
      list, or text that `JSON.parse` rejects. */
  datatype Slot = Absent | Stored(profiles: seq<Profile>) | Unreadable

  /** What the `data.json` fetch loop ends with: no path answered (the
      hard-coded data is used instead), an array was loaded, or a value that is
      not an array was loaded (the merge's `map` then throws). */
  datatype DataSource = NotFound | Loaded(data: seq<Profile>) | NotAnArray

  /** `getHardcodedUserData`: three profiles with ids 2, 3 and 4. The user
      store's copy also carries the test user's password and every user's
      role. The `home` entry of `iconCategories` is not part of the record. */
  function HardcodedData(flavor: MergeFlavor): (r: seq<Profile>)
    ensures |r| == 3 && r[0].id == AdminId && r[1].id == 3 && r[2].id == 4
  {
    [HardcodedTestUser(flavor), HardcodedAnna(flavor), HardcodedJan(flavor)]
  }

  // The bios and goals of the hard-coded profiles.
  const TestUserBio: string := "Ein erfahrener Software-Entwickler mit Schwerpunkt auf nachhaltigen Technologien."
  const TestUserGoals: string := "Teams bei der digitalen Transformation unterst\U{00FC}tzen."
  const AnnaBio: string := "UX/UI Designerin mit Fokus auf benutzerfreundliche Interfaces."
  const AnnaGoals: string := "Benutzerfreundliche Interfaces gestalten."
  const JanBio: string := "Backend-Entwickler mit Erfahrung in Cloud-Infrastruktur."
  const JanGoals: string := "Skalierbare Systemarchitekturen entwickeln."

  function HardcodedTestUser(flavor: MergeFlavor): (r: Profile)
    ensures r.id == AdminId
  {
    var store := flavor == StoreMerge;
    Profile(2, "Test User", "test@example.com",
            if store then Some("test123") else None,
            if store then Some("admin") else None,
            TestUserBio,
            Some(["Projektmanagement", "Agile Methoden", "Vue.js"]),
            Some(["Digitalisierung", "Innovation", "Nachhaltigkeit"]),
            TestUserGoals,
            "", "", "", NoIcons, None, None, None)
  }

  function HardcodedAnna(flavor: MergeFlavor): (r: Profile)
    ensures r.id == 3
  {
    Profile(3, "Anna Schmidt", "anna@example.com", None,
            if flavor == StoreMerge then Some("user") else None,
            AnnaBio,
            Some(["UI Design", "UX Research", "Figma"]),
            Some(["Design Thinking", "Nutzerzentriertes Design"]),
            AnnaGoals,
            "", "", "", NoIcons, None, None, None)
  }

  function HardcodedJan(flavor: MergeFlavor): (r: Profile)
    ensures r.id == 4
  {
    Profile(4, "Jan M\U{00FC}ller", "jan@example.com", None,
            if flavor == StoreMerge then Some("user") else None,
            JanBio,
            Some(["Node.js", "Python", "AWS"]),
            Some(["Cloud Computing", "DevOps"]),
            JanGoals,
            "", "", "", NoIcons, None, None, None)
  }

  /** `loadAndMergeDataJson`: merge whatever was loaded (or the hard-coded
      data) with the login accounts; a non-array falls back to one minimal
      profile per account. Whatever happens, every account has a profile. */
  function LoadAndMerge(source: DataSource, flavor: MergeFlavor): (r: seq<Profile>)
    ensures forall k :: 0 <= k < |AuthUsers| ==> HasId(r, AuthUsers[k].id)
    ensures r != []
    ensures source.NotAnArray? ==> r == FallbackProfiles(AuthUsers, flavor)
    ensures source.Loaded? ==>
      && |source.data| <= |r| <= |source.data| + |AuthUsers|
      && forall i :: 0 <= i < |source.data| ==> r[i] == MergeOne(source.data[i], AuthUsers, flavor)
    ensures source.NotFound? ==> |r| == 3 && r[0].id == AdminId && r[0].password == Some("test123")
  {
    match source
    case NotAnArray =>
      var r := FallbackProfiles(AuthUsers, flavor);
      assert r[0].id == AuthUsers[0].id;
      r
    case Loaded(data) =>
      MergePrefix(data, AuthUsers, flavor);
      MergeTail(data, AuthUsers, flavor);
      Merge(data, AuthUsers, flavor)
    case NotFound =>
      var data := HardcodedData(flavor);
      MergePrefix(data, AuthUsers, flavor);
      MergeTail(data, AuthUsers, flavor);
      assert HasId(data, AdminId) by { assert data[0].id == AdminId; }
      Merge(data, AuthUsers, flavor)
  }

  /** After the user store's load, every profile carrying the test user's id
      has the test user's password and the admin role. */
  lemma StoreLoadMakesAdmin(source: DataSource)
    ensures var r := LoadAndMerge(source, StoreMerge);
      forall i :: 0 <= i < |r| && r[i].id == AdminId ==>
        r[i].role == Some("admin") && r[i].password == Some("test123")
  {
    var r := LoadAndMerge(source, StoreMerge);
    match source
    case NotAnArray =>
    case Loaded(data) =>
      MergeStoreProperties(data);
    case NotFound =>
      MergeStoreProperties(HardcodedData(StoreMerge));
  }
}
