/**
 * The profile page: three profile fields kept per user in `localStorage`
 * under `profile_<email>`, loaded on mount and written back on save.
 */
module ProfilePage {
  import opened Wrappers
  import opened Storage

  const DefaultName: string := "Student Name"

  /** The stored profile of a user, when one was saved. */
  function SavedProfile(entries: map<string, Value>, email: string): (r: Option<ProfileData>)
    ensures ProfileKey(email) !in entries ==> r == None
  {
    var key := ProfileKey(email);
    if key in entries && entries[key].Profile? then Some(entries[key].profile) else None
  }

  /**
   * The fields after the mount effect: with no saved profile they stay as
   * they are; otherwise each comes from the saved record, an empty name
   * falling back to the default.
   */
  function Loaded(entries: map<string, Value>, email: string, current: ProfileData): (r: ProfileData)
    ensures SavedProfile(entries, email).None? ==> r == current
    ensures SavedProfile(entries, email).Some? ==>
      var saved := SavedProfile(entries, email).value;
      && r.phone == saved.phone && r.bio == saved.bio
      && r.name == (if saved.name == "" then DefaultName else saved.name)
  {
    match SavedProfile(entries, email)
    case None => current
    case Some(saved) => ProfileData(if saved.name != "" then saved.name else DefaultName, saved.phone, saved.bio)
  }

  /** Saving then loading gives back the saved fields, with an empty name read as the default. */
  lemma SaveThenLoad(entries: map<string, Value>, email: string, saved: ProfileData, current: ProfileData)
    ensures Loaded(entries[ProfileKey(email) := Profile(saved)], email, current)
         == ProfileData(if saved.name == "" then DefaultName else saved.name, saved.phone, saved.bio)
  {
  }

  /** Saving one user's profile changes no other user's load. */
  lemma SaveKeepsOthers(entries: map<string, Value>, email: string, other: string, saved: ProfileData, current: ProfileData)
    requires other != email
    ensures Loaded(entries[ProfileKey(email) := Profile(saved)], other, current) == Loaded(entries, other, current)
  {
    if ProfileKey(other) == ProfileKey(email) {
      ProfileKeyInjective(other, email);
    }
  }

  /** A saved profile with a name survives save-load unchanged, so a second save stores the same record. */
  lemma SaveLoadSave(entries: map<string, Value>, email: string, saved: ProfileData, current: ProfileData)
    requires saved.name != ""
    ensures var e1 := entries[ProfileKey(email) := Profile(saved)];
      e1[ProfileKey(email) := Profile(Loaded(e1, email, current))] == e1
  {
    SaveThenLoad(entries, email, saved, current);
  }

  /** The page's state for one user. */
  class ProfileForm {
    const userEmail: string
    var isEditing: bool
    var name: string
    var phone: string
    var bio: string

    /** The three fields as one record. */
    function Fields(): ProfileData
      reads this
    {
      ProfileData(name, phone, bio)
    }

    /** First render: not editing, the default name, empty phone and bio. */
    constructor (userEmail: string)
      ensures this.userEmail == userEmail && !isEditing
      ensures name == DefaultName && phone == "" && bio == ""
    {
      this.userEmail := userEmail;
      isEditing := false;
      name := DefaultName;
      phone := "";
      bio := "";
    }

    /** The mount effect: reads `profile_<email>` and fills the fields from it. */
    method LoadProfile(store: LocalStorage)
      modifies this
      ensures Fields() == Loaded(store.entries, userEmail, old(Fields()))
      ensures isEditing == old(isEditing)
    {
      var saved := store.GetItem(ProfileKey(userEmail));
      if saved.Some? && saved.value.Profile? {
        var data := saved.value.profile;
        name := if data.name != "" then data.name else DefaultName;
        phone := data.phone;
        bio := data.bio;
      }
    }

    /** The edit button. */
    method StartEditing()
      modifies this
      ensures isEditing && Fields() == old(Fields())
    {
      isEditing := true;
    }

    /** Typing into the form while editing. */
    method EditFields(name: string, phone: string, bio: string)
      modifies this
      ensures Fields() == ProfileData(name, phone, bio) && isEditing == old(isEditing)
    {
      this.name := name;
      this.phone := phone;
      this.bio := bio;
    }

    /** `handleSaveProfile`: the whole record is written under this user's key, and editing ends. */
    method SaveProfile(store: LocalStorage)
      modifies this, store
      ensures store.entries == old(store.entries)[ProfileKey(userEmail) := Profile(Fields())]
      ensures SavedProfile(store.entries, userEmail) == Some(Fields())
      ensures !isEditing && Fields() == old(Fields())
    {
      store.SetItem(ProfileKey(userEmail), Profile(ProfileData(name, phone, bio)));
      isEditing := false;
    }

    /** The cancel button: editing ends; neither the store nor the typed fields change. */
    method CancelEditing()
      modifies this
      ensures !isEditing && Fields() == old(Fields())
    {
      isEditing := false;
    }
  }
}
