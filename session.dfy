/** `SessionManager`: the signed-in user's details kept in the app's shared
    preferences file, read back with a default for every missing key. */
module Session {
  import opened Strings

  /** A value stored in the preferences file. */
  datatype Pref = BoolPref(b: bool) | IntPref(i: int) | StringPref(s: string)

  /** The keys of the file; only the session manager uses it. */
  datatype Key = IsLoggedInKey | UserIdKey | UserRoleKey | UserNameKey | UserEmailKey | UserPhoneKey

  /** The name each key is stored under. */
  function KeyName(k: Key): string {
    match k
    case IsLoggedInKey => "isLoggedIn"
    case UserIdKey => "userId"
    case UserRoleKey => "userRole"
    case UserNameKey => "userName"
    case UserEmailKey => "userEmail"
    case UserPhoneKey => "userPhone"
  }

  /** Distinct keys are stored under distinct names. */
  lemma KeyNamesDistinct(k1: Key, k2: Key)
    requires k1 != k2
    ensures KeyName(k1) != KeyName(k2)
  {
    var n1, n2 := KeyName(k1), KeyName(k2);
    if |n1| == |n2| {
      assert n1[4] != n2[4];
    }
  }

  /** The contents of the preferences file. */
  type Prefs = map<Key, Pref>

  // ---------------------------------------------------------------- getters

  /** `getBoolean(key, fallback)`. */
  function GetBoolean(prefs: Prefs, key: Key, fallback: bool): bool {
    if key in prefs && prefs[key].BoolPref? then prefs[key].b else fallback
  }

  /** `getInt(key, fallback)`. */
  function GetInt(prefs: Prefs, key: Key, fallback: int): int {
    if key in prefs && prefs[key].IntPref? then prefs[key].i else fallback
  }

  /** `getString(key, fallback)`. */
  function GetString(prefs: Prefs, key: Key, fallback: string): string {
    if key in prefs && prefs[key].StringPref? then prefs[key].s else fallback
  }

  /** `isLoggedIn`: false unless a true flag is stored. */
  function IsLoggedIn(prefs: Prefs): (b: bool)
    ensures b <==> IsLoggedInKey in prefs && prefs[IsLoggedInKey] == BoolPref(true)
  {
    GetBoolean(prefs, IsLoggedInKey, false)
  }

  /** `getUserId`: -1 when no id is stored. */
  function UserId(prefs: Prefs): (id: int)
    ensures UserIdKey in prefs && prefs[UserIdKey].IntPref? ==> id == prefs[UserIdKey].i
    ensures UserIdKey !in prefs ==> id == -1
  {
    GetInt(prefs, UserIdKey, -1)
  }

  /** `getUserRole`: "User" when no role is stored. */
  function UserRole(prefs: Prefs): (role: string)
    ensures UserRoleKey in prefs && prefs[UserRoleKey].StringPref? ==> role == prefs[UserRoleKey].s
    ensures UserRoleKey !in prefs ==> role == "User"
  {
    GetString(prefs, UserRoleKey, "User")
  }

  /** `getUserName`: empty when no name is stored. */
  function UserName(prefs: Prefs): (name: string)
    ensures UserNameKey in prefs && prefs[UserNameKey].StringPref? ==> name == prefs[UserNameKey].s
    ensures UserNameKey !in prefs ==> name == ""
  {
    GetString(prefs, UserNameKey, "")
  }

  /** `getUserEmail`: empty when no email is stored. */
  function UserEmail(prefs: Prefs): (email: string)
    ensures UserEmailKey in prefs && prefs[UserEmailKey].StringPref? ==> email == prefs[UserEmailKey].s
    ensures UserEmailKey !in prefs ==> email == ""
  {
    GetString(prefs, UserEmailKey, "")
  }

  /** `getUserPhone`: empty when no phone is stored. */
  function UserPhone(prefs: Prefs): (phone: string)
    ensures UserPhoneKey in prefs && prefs[UserPhoneKey].StringPref? ==> phone == prefs[UserPhoneKey].s
    ensures UserPhoneKey !in prefs ==> phone == ""
  {
    GetString(prefs, UserPhoneKey, "")
  }

  /** What the getters read. */
  datatype SessionView = SessionView(
    loggedIn: bool, userId: int, role: string, name: string, email: string, phone: string)

  /** What the getters read from an empty file. */
  const SIGNED_OUT: SessionView := SessionView(false, -1, "User", "", "", "")

  /** Everything the getters read; an empty file reads as signed out. */
  function View(prefs: Prefs): (v: SessionView)
    ensures prefs == map[] ==> v == SIGNED_OUT
    ensures !v.loggedIn <==> IsLoggedInKey !in prefs || prefs[IsLoggedInKey] != BoolPref(true)
  {
    SessionView(IsLoggedIn(prefs), UserId(prefs), UserRole(prefs), UserName(prefs), UserEmail(prefs), UserPhone(prefs))
  }

  // ---------------------------------------------------------------- edits

  /** `Editor.putString`: storing null removes the key. */
  function PutString(prefs: Prefs, key: Key, value: Option<string>): (r: Prefs)
    ensures value.Some? ==> key in r && r[key] == StringPref(value.value)
    ensures value.None? ==> key !in r
    ensures forall k :: k != key ==> (k in r <==> k in prefs) && (k in r ==> r[k] == prefs[k])
  {
    if value.Some? then prefs[key := StringPref(value.value)] else prefs - {key}
  }

  /** A null phone is stored as the empty string. */
  function PhoneOrEmpty(phone: Option<string>): string {
    if phone.Some? then phone.value else ""
  }

  /** The file after `createLoginSession`. */
  function LoginPrefs(prefs: Prefs, id: int, name: Option<string>, email: Option<string>, role: Option<string>,
                      phone: Option<string>): (r: Prefs)
    ensures View(r) == SessionView(true, id, role.GetOr("User"), name.GetOr(""), email.GetOr(""), PhoneOrEmpty(phone))
  {
    var p1 := prefs[IsLoggedInKey := BoolPref(true)][UserIdKey := IntPref(id)];
    var p2 := PutString(PutString(p1, UserNameKey, name), UserEmailKey, email);
    PutString(PutString(p2, UserRoleKey, role), UserPhoneKey, Some(PhoneOrEmpty(phone)))
  }

  /** The file after `updateSession`. */
  function UpdatedPrefs(prefs: Prefs, name: Option<string>, email: Option<string>, phone: Option<string>): (r: Prefs)
    ensures View(r) == View(prefs).(name := name.GetOr(""), email := email.GetOr(""), phone := PhoneOrEmpty(phone))
    ensures forall k :: k != UserNameKey && k != UserEmailKey && k != UserPhoneKey ==>
      (k in r <==> k in prefs) && (k in r ==> r[k] == prefs[k])
  {
    PutString(PutString(PutString(prefs, UserNameKey, name), UserEmailKey, email), UserPhoneKey,
      Some(PhoneOrEmpty(phone)))
  }

  /** Updating the details keeps the user signed in as the same user and role. */
  lemma UpdateKeepsIdentity(prefs: Prefs, name: Option<string>, email: Option<string>, phone: Option<string>)
    ensures IsLoggedIn(UpdatedPrefs(prefs, name, email, phone)) == IsLoggedIn(prefs)
    ensures UserId(UpdatedPrefs(prefs, name, email, phone)) == UserId(prefs)
    ensures UserRole(UpdatedPrefs(prefs, name, email, phone)) == UserRole(prefs)
  {
    var r := UpdatedPrefs(prefs, name, email, phone);
    assert View(r).loggedIn == View(prefs).loggedIn;
  }

  class SessionManager {
    /** The shared preferences file the manager reads and writes. */
    var prefs: Prefs

    /** A manager over the file as it is stored. */
    constructor (stored: Prefs)
      ensures prefs == stored
    {
      prefs := stored;
    }

    /** `createLoginSession`. */
    method CreateLoginSession(id: int, name: Option<string>, email: Option<string>, role: Option<string>,
                              phone: Option<string>)
      modifies this
      ensures prefs == LoginPrefs(old(prefs), id, name, email, role, phone)
      ensures View(prefs) == SessionView(true, id, role.GetOr("User"), name.GetOr(""), email.GetOr(""), PhoneOrEmpty(phone))
    {
      prefs := LoginPrefs(prefs, id, name, email, role, phone);
    }

    /** `updateSession`: only the name, email and phone change. */
    method UpdateSession(name: Option<string>, email: Option<string>, phone: Option<string>)
      modifies this
      ensures prefs == UpdatedPrefs(old(prefs), name, email, phone)
      ensures View(prefs) == View(old(prefs)).(name := name.GetOr(""), email := email.GetOr(""), phone := PhoneOrEmpty(phone))
    {
      prefs := UpdatedPrefs(prefs, name, email, phone);
    }

    /** `logoutUser`: the editor clears every key. */
    method LogoutUser()
      modifies this
      ensures prefs == map[]
      ensures View(prefs) == SIGNED_OUT
    {
      prefs := map[];
    }
  }
}
