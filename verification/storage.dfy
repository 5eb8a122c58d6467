/**
 `StorageUtil`: a fixed-key view over the browser's persisted key/value
 store.  The store is a map from key to value; a getter answers `None` for
 an absent key, like `localStorage.getItem` answering null.
 */
module Storage {

  import opened Wrappers

  type Store = map<string, string>

  const DeviceIdKey: string := "X-Device-ID"
  const AccessTokenKey: string := "accessToken"
  const RefreshTokenKey: string := "refreshToken"
  const UserIdKey: string := "userId"

  /** The keys `clearAuthData` removes. */
  const AuthKeys: set<string> := {AccessTokenKey, RefreshTokenKey, UserIdKey}

  /** Every key the utility knows. */
  const AllKeys: set<string> := AuthKeys + {DeviceIdKey}

  /** `localStorage.getItem(key)`. */
  function GetItem(store: Store, key: string): Option<string>
  {
    if key in store then Some(store[key]) else None
  }

  /** `localStorage.setItem(key, value)`: last write wins. */
  function SetItem(store: Store, key: string, value: string): (r: Store)
    ensures GetItem(r, key) == Some(value)
    ensures forall k :: k != key ==> GetItem(r, k) == GetItem(store, k)
  {
    store[key := value]
  }

  /** `localStorage.removeItem(key)`; removing an absent key changes nothing. */
  function RemoveItem(store: Store, key: string): (r: Store)
    ensures GetItem(r, key) == None
    ensures forall k :: k != key ==> GetItem(r, k) == GetItem(store, k)
  {
    store - {key}
  }

  function GetDeviceId(store: Store): Option<string>
  {
    GetItem(store, DeviceIdKey)
  }

  function SetDeviceId(store: Store, id: string): (r: Store)
    ensures GetDeviceId(r) == Some(id)
    ensures GetAccessToken(r) == GetAccessToken(store)
    ensures GetRefreshToken(r) == GetRefreshToken(store)
    ensures GetUserId(r) == GetUserId(store)
  {
    SetItem(store, DeviceIdKey, id)
  }

  function GetAccessToken(store: Store): Option<string>
  {
    GetItem(store, AccessTokenKey)
  }

  function SetAccessToken(store: Store, token: string): (r: Store)
    ensures GetAccessToken(r) == Some(token)
    ensures GetDeviceId(r) == GetDeviceId(store)
    ensures GetRefreshToken(r) == GetRefreshToken(store)
    ensures GetUserId(r) == GetUserId(store)
  {
    SetItem(store, AccessTokenKey, token)
  }

  function RemoveAccessToken(store: Store): (r: Store)
    ensures GetAccessToken(r) == None
    ensures GetDeviceId(r) == GetDeviceId(store)
    ensures GetRefreshToken(r) == GetRefreshToken(store)
    ensures GetUserId(r) == GetUserId(store)
  {
    RemoveItem(store, AccessTokenKey)
  }

  function GetRefreshToken(store: Store): Option<string>
  {
    GetItem(store, RefreshTokenKey)
  }

  function SetRefreshToken(store: Store, token: string): (r: Store)
    ensures GetRefreshToken(r) == Some(token)
    ensures GetDeviceId(r) == GetDeviceId(store)
    ensures GetAccessToken(r) == GetAccessToken(store)
    ensures GetUserId(r) == GetUserId(store)
  {
    SetItem(store, RefreshTokenKey, token)
  }

  function RemoveRefreshToken(store: Store): (r: Store)
    ensures GetRefreshToken(r) == None
    ensures GetDeviceId(r) == GetDeviceId(store)
    ensures GetAccessToken(r) == GetAccessToken(store)
    ensures GetUserId(r) == GetUserId(store)
  {
    RemoveItem(store, RefreshTokenKey)
  }

  function GetUserId(store: Store): Option<string>
  {
    GetItem(store, UserIdKey)
  }

  function SetUserId(store: Store, id: string): (r: Store)
    ensures GetUserId(r) == Some(id)
    ensures GetDeviceId(r) == GetDeviceId(store)
    ensures GetAccessToken(r) == GetAccessToken(store)
    ensures GetRefreshToken(r) == GetRefreshToken(store)
  {
    SetItem(store, UserIdKey, id)
  }

  function RemoveUserId(store: Store): (r: Store)
    ensures GetUserId(r) == None
    ensures GetDeviceId(r) == GetDeviceId(store)
    ensures GetAccessToken(r) == GetAccessToken(store)
    ensures GetRefreshToken(r) == GetRefreshToken(store)
  {
    RemoveItem(store, UserIdKey)
  }

  /**
   Removes the three authentication entries one after another; the device id
   and every key the utility does not own survive.
   */
  function ClearAuthData(store: Store): (r: Store)
    ensures r == store - AuthKeys
    ensures GetAccessToken(r) == None && GetRefreshToken(r) == None && GetUserId(r) == None
    ensures GetDeviceId(r) == GetDeviceId(store)
  {
    RemoveItem(RemoveItem(RemoveItem(store, AccessTokenKey), RefreshTokenKey), UserIdKey)
  }

  /** Removes all four entries, the device id last. */
  function ClearAll(store: Store): (r: Store)
    ensures r == store - AllKeys
    ensures GetAccessToken(r) == None && GetRefreshToken(r) == None
    ensures GetUserId(r) == None && GetDeviceId(r) == None
  {
    RemoveItem(RemoveItem(RemoveItem(RemoveItem(store, AccessTokenKey), RefreshTokenKey), UserIdKey), DeviceIdKey)
  }

  /** The four keys are pairwise distinct, so the fields never alias. */
  lemma KeysDistinct()
    ensures |AllKeys| == 4
  {
  }

  /** Clearing everything twice is clearing it once. */
  lemma ClearAllIdempotent(store: Store)
    ensures ClearAll(ClearAll(store)) == ClearAll(store)
  {
  }

  /** `clearAll` subsumes `clearAuthData`. */
  lemma ClearAllAfterClearAuthData(store: Store)
    ensures ClearAll(ClearAuthData(store)) == ClearAll(store)
  {
  }

}
