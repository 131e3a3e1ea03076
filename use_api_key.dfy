/** The credential store hook: a one-slot cache `apiKey` over the browser's
    local storage, modelled as a string-to-string map that outlives any one
    hook, plus the application's rule for when the key dialog is shown. */
module UseApiKey {
  import opened Js
  import ApiKeyModal

  const StorageKey := "gemini_api_key"

  /** `localStorage`: the entries persisted by the browser. */
  class LocalStorage {
    var entries: map<string, string>

    constructor (entries: map<string, string>)
      ensures this.entries == entries
    {
      this.entries := entries;
    }

    /** `getItem`: `None` (`null`) for a missing entry. */
    method GetItem(name: string) returns (value: Option<string>)
      ensures value == if name in entries then Some(entries[name]) else None
    {
      value := if name in entries then Some(entries[name]) else None;
    }

    method SetItem(name: string, value: string)
      modifies this
      ensures entries == old(entries)[name := value]
    {
      entries := entries[name := value];
    }

    method RemoveItem(name: string)
      modifies this
      ensures entries == old(entries) - {name}
    {
      entries := entries - {name};
    }
  }

  /** The key a fresh load finds in the given entries: the stored value when
      it is truthy, that is present and not empty. */
  function LoadedKey(entries: map<string, string>): (r: Option<string>)
    ensures r.Some? <==> StorageKey in entries && entries[StorageKey] != ""
    ensures r.Some? ==> r.value == entries[StorageKey]
  {
    if StorageKey in entries && entries[StorageKey] != "" then Some(entries[StorageKey]) else None
  }

  /** The application shows the key dialog instead of the views while the
      key is missing or empty. */
  predicate NeedsKeyEntry(apiKey: Option<string>)
  {
    !Truthy(apiKey)
  }

  /** Saving what the dialog hands on and loading again opens the views:
      the dialog never hands on a key a later load would ignore. */
  lemma DialogKeySurvivesReload(typed: string, entries: map<string, string>)
    requires ApiKeyModal.SubmittedKey(typed).Some?
    ensures var k := ApiKeyModal.SubmittedKey(typed).value;
      LoadedKey(entries[StorageKey := k]) == Some(k) && !NeedsKeyEntry(Some(k))
  {
  }

  class ApiKeyHook {
    var apiKey: Option<string>
    const storage: LocalStorage

    /** The hook's first render: `apiKey` starts as `null`. */
    constructor (storage: LocalStorage)
      ensures apiKey.None? && this.storage == storage
    {
      apiKey := None;
      this.storage := storage;
    }

    /** The mount effect: adopts the stored key when it is truthy and
      otherwise leaves `apiKey` as it was; storage is only read. */
    method Load()
      modifies this
      ensures apiKey == if LoadedKey(storage.entries).Some? then LoadedKey(storage.entries) else old(apiKey)
    {
      var storedKey := storage.GetItem(StorageKey);
      if Truthy(storedKey) {
        apiKey := storedKey;
      }
    }

    /** `saveApiKey`: writes the entry and the cache; no other entry moves. */
    method Save(key: string)
      modifies this, storage
      ensures storage.entries == old(storage.entries)[StorageKey := key]
      ensures apiKey == Some(key)
    {
      storage.SetItem(StorageKey, key);
      apiKey := Some(key);
    }

    /** `clearApiKey`: removes the entry and empties the cache; no other entry
      moves, so clearing twice is the same as clearing once. */
    method Clear()
      modifies this, storage
      ensures storage.entries == old(storage.entries) - {StorageKey}
      ensures StorageKey !in storage.entries && apiKey.None?
    {
      storage.RemoveItem(StorageKey);
      apiKey := None;
    }
  }

  /** A key saved by one hook is what a later hook over the same storage
      loads, provided it is not empty; an empty one is ignored on load. */
  method ReloadAfterSave(entries: map<string, string>, key: string) returns (loaded: Option<string>)
    ensures key != "" ==> loaded == Some(key)
    ensures key == "" ==> loaded.None?
  {
    var storage := new LocalStorage(entries);
    var first := new ApiKeyHook(storage);
    first.Save(key);
    var second := new ApiKeyHook(storage);
    second.Load();
    loaded := second.apiKey;
  }

  /** A cleared key is gone for every later hook over the same storage. */
  method ReloadAfterClear(entries: map<string, string>) returns (loaded: Option<string>)
    ensures loaded.None?
  {
    var storage := new LocalStorage(entries);
    var first := new ApiKeyHook(storage);
    first.Load();
    first.Clear();
    first.Clear();
    var second := new ApiKeyHook(storage);
    second.Load();
    loaded := second.apiKey;
  }
}
