/** The peer registry: the addresses of Target1 and Target2 and the
    auto-connect flag, kept in the "ble_storage" namespace of the non-volatile
    store and cached in memory. */
module Registry {

  /** A value held under one key of the store. */
  datatype Value = Str(s: string) | Flag(b: bool)

  /** The contents of the "ble_storage" namespace. */
  type Store = map<string, Value>

  const Target1Key: string := "target1_mac"
  const Target2Key: string := "target2_mac"
  const AutoConnectKey: string := "auto_connect"

  /** The factory address of Target1. */
  const DefaultTarget1: string := "B4:52:A9:B0:0F:BB"
  /** The all-zero address that stands for "no device stored". */
  const Unset: string := "00:00:00:00:00:00"

  /** getString(key, default): the string stored under `key`, or `default`
      when the key is absent or holds no string. */
  function GetString(store: Store, key: string, default: string): (s: string)
    ensures key in store && store[key].Str? ==> s == store[key].s
    ensures key !in store ==> s == default
  {
    if key in store && store[key].Str? then store[key].s else default
  }

  /** getBool(key, default), in the same way. */
  function GetBool(store: Store, key: string, default: bool): (b: bool)
    ensures key in store && store[key].Flag? ==> b == store[key].b
    ensures key !in store ==> b == default
  {
    if key in store && store[key].Flag? then store[key].b else default
  }

  /** A string written under a key reads back; the other keys read as before. */
  lemma StringReadAfterWrite(store: Store, key: string, v: string, other: string, default: string)
    ensures GetString(store[key := Str(v)], key, default) == v
    ensures other != key ==> GetString(store[key := Str(v)], other, default) == GetString(store, other, default)
  {
  }

  /** A flag written under a key reads back; the string keys read as before. */
  lemma FlagReadAfterWrite(store: Store, key: string, v: bool, other: string, default: string)
    ensures GetBool(store[key := Flag(v)], key, !v) == v
    ensures other != key ==> GetString(store[key := Flag(v)], other, default) == GetString(store, other, default)
  {
  }

  class Registry {
    var store: Store
    var storedTarget1MAC: string
    var storedTarget2MAC: string
    var autoConnectEnabled: bool

    /** The cached addresses are those the store reports. */
    ghost predicate MacsLoaded()
      reads this
    {
      && storedTarget1MAC == GetString(store, Target1Key, DefaultTarget1)
      && storedTarget2MAC == GetString(store, Target2Key, Unset)
    }

    /** The cached flag is the one the store reports. */
    ghost predicate FlagLoaded()
      reads this
    {
      autoConnectEnabled == GetBool(store, AutoConnectKey, true)
    }

    /** Power-on: the store keeps what earlier runs saved; the cache holds the
        initial values of the globals. */
    constructor (store: Store)
      ensures this.store == store
      ensures storedTarget1MAC == "" && storedTarget2MAC == "" && autoConnectEnabled
    {
      this.store := store;
      storedTarget1MAC := "";
      storedTarget2MAC := "";
      autoConnectEnabled := true;
    }

    method LoadStoredMACs()
      modifies this`storedTarget1MAC, this`storedTarget2MAC
      ensures MacsLoaded()
      ensures Target1Key !in store ==> storedTarget1MAC == DefaultTarget1
      ensures Target2Key !in store ==> storedTarget2MAC == Unset
    {
      storedTarget1MAC := GetString(store, Target1Key, DefaultTarget1);
      storedTarget2MAC := GetString(store, Target2Key, Unset);
    }

    method SaveTarget1MAC(mac: string)
      modifies this`store, this`storedTarget1MAC
      ensures store == old(store)[Target1Key := Str(mac)]
      ensures storedTarget1MAC == mac
      ensures GetString(store, Target1Key, DefaultTarget1) == mac
      ensures old(MacsLoaded()) ==> MacsLoaded()
      ensures old(FlagLoaded()) ==> FlagLoaded()
    {
      store := store[Target1Key := Str(mac)];
      storedTarget1MAC := mac;
    }

    method SaveTarget2MAC(mac: string)
      modifies this`store, this`storedTarget2MAC
      ensures store == old(store)[Target2Key := Str(mac)]
      ensures storedTarget2MAC == mac
      ensures GetString(store, Target2Key, Unset) == mac
      ensures old(MacsLoaded()) ==> MacsLoaded()
      ensures old(FlagLoaded()) ==> FlagLoaded()
    {
      store := store[Target2Key := Str(mac)];
      storedTarget2MAC := mac;
    }

    method LoadAutoConnectState()
      modifies this`autoConnectEnabled
      ensures FlagLoaded()
      ensures AutoConnectKey !in store ==> autoConnectEnabled
    {
      autoConnectEnabled := GetBool(store, AutoConnectKey, true);
    }

    method SaveAutoConnectState(enabled: bool)
      modifies this`store, this`autoConnectEnabled
      ensures store == old(store)[AutoConnectKey := Flag(enabled)]
      ensures autoConnectEnabled == enabled
      ensures FlagLoaded()
      ensures old(MacsLoaded()) ==> MacsLoaded()
    {
      store := store[AutoConnectKey := Flag(enabled)];
      autoConnectEnabled := enabled;
    }
  }
}
