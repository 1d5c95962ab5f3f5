/**
 * The browser's `localStorage`: a durable string-keyed store shared by every
 * front-end component. The source writes JSON text under each key and parses
 * it back; here each entry holds the value itself, so serialisation is an
 * exact round trip by construction.
 */
module Storage {
  import opened Wrappers
  import Text

  /** One registered account of the mock back end: `{email, password, username}`. */
  datatype MockUser = MockUser(email: string, password: string, username: string)

  /** The profile extension saved by the profile page: `{name, phone, bio}`. */
  datatype ProfileData = ProfileData(name: string, phone: string, bio: string)

  /** What one key holds: a plain string, the JSON user registry, or a JSON profile. */
  datatype Value =
    | Text(text: string)
    | UserList(users: seq<MockUser>)
    | Profile(profile: ProfileData)

  /** Key of the mock user registry. */
  const MockUsersKey: string := "mock_users"
  /** Key of the mock back end's current-user email. */
  const MockCurrentUserKey: string := "mock_current_user"
  /** Key under which the login page stores the bearer token. */
  const AccessTokenKey: string := "access_token"
  /** Key from which the dashboard reads the bearer token. */
  const GatorTokenKey: string := "gator_token"

  const ProfilePrefix: string := "profile_"

  /** Key of one user's profile: `profile_${userEmail}`. */
  function ProfileKey(email: string): (k: string)
    ensures Text.StartsWith(k, ProfilePrefix)
  {
    ProfilePrefix + email
  }

  /** Profile keys of different users differ, so each user's profile is independent. */
  lemma ProfileKeyInjective(a: string, b: string)
    requires ProfileKey(a) == ProfileKey(b)
    ensures a == b
  {
    assert a == ProfileKey(a)[|ProfilePrefix|..] == ProfileKey(b)[|ProfilePrefix|..] == b;
  }

  /** The four fixed keys are pairwise distinct and none of them is a profile key. */
  lemma FixedKeysDistinct(email: string)
    ensures MockUsersKey != MockCurrentUserKey && AccessTokenKey != GatorTokenKey
    ensures MockUsersKey != AccessTokenKey && MockUsersKey != GatorTokenKey
    ensures MockCurrentUserKey != AccessTokenKey && MockCurrentUserKey != GatorTokenKey
    ensures ProfileKey(email) !in {MockUsersKey, MockCurrentUserKey, AccessTokenKey, GatorTokenKey}
  {
    // every profile key starts with 'p'; no fixed key does
    assert ProfileKey(email)[0] == 'p';
    assert MockUsersKey[0] == 'm' && MockCurrentUserKey[0] == 'm';
    assert AccessTokenKey[0] == 'a' && GatorTokenKey[0] == 'g';
  }

  /** The browser store. */
  class LocalStorage {
    var entries: map<string, Value>

    /** A fresh browser profile: nothing stored. */
    constructor ()
      ensures entries == map[]
    {
      entries := map[];
    }

    /** `localStorage.getItem(key)`: the value, or null when the key is absent. */
    function GetItem(key: string): (r: Option<Value>)
      reads this
      ensures r.Some? <==> key in entries
      ensures r.Some? ==> r.value == entries[key]
    {
      if key in entries then Some(entries[key]) else None
    }

    /** `localStorage.setItem(key, value)`: overwrites one key, leaves the others. */
    method SetItem(key: string, value: Value)
      modifies this
      ensures entries == old(entries)[key := value]
    {
      entries := entries[key := value];
    }

    /** `localStorage.removeItem(key)`: removes one key if present, leaves the others. */
    method RemoveItem(key: string)
      modifies this
      ensures entries == old(entries) - {key}
    {
      entries := entries - {key};
    }
  }
}
