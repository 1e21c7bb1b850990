/** The profile directory of `app.py` as a map from key to the profile
    stored in the file `<key>.json`: a key is the file name without its
    `.json` suffix, which differs from pathlib's stem only for the file
    `.json` of the empty key (see `FileStem`). Saving writes under the profile's name with
    spaces turned into underscores; the list shown to the user turns
    underscores back into spaces, and selecting a listed name turns spaces
    into underscores again before loading. */
module ProfileStore {
  import opened Common
  import opened Text
  import Schema

  type Store = map<string, Schema.ProfileData>

  /** `name.replace(' ', '_')`: the key a profile is saved under. */
  function KeyOf(name: string): (k: string)
    ensures |k| == |name|
    ensures forall i :: 0 <= i < |k| ==> k[i] != ' '
    ensures forall i :: 0 <= i < |k| ==> (k[i] == '_' <==> name[i] == ' ' || name[i] == '_')
    ensures forall i :: 0 <= i < |k| && name[i] != ' ' ==> k[i] == name[i]
  {
    ReplaceChar(name, ' ', '_')
  }

  /** `stem.replace('_', ' ')`: the name shown for a file's stem. */
  function DisplayOf(stem: string): (d: string)
    ensures |d| == |stem|
    ensures forall i :: 0 <= i < |d| ==> d[i] != '_'
    ensures forall i :: 0 <= i < |d| ==> (d[i] == ' ' <==> stem[i] == ' ' || stem[i] == '_')
    ensures forall i :: 0 <= i < |d| && stem[i] != '_' ==> d[i] == stem[i]
  {
    ReplaceChar(stem, '_', ' ')
  }

  /** The stem pathlib reports for the file `<k>.json`. A leading dot does
      not start a suffix, so the file `.json` written for an empty key has
      the stem `.json`; every other key is its file's stem. */
  function FileStem(k: string): (stem: string)
    ensures k != "" ==> stem == k
    ensures k == "" ==> stem == ".json"
  {
    if k == "" then ".json" else k
  }

  /** The name `get_available_profiles` shows for the file with key `k`. */
  function ListedName(k: string): (n: string)
    ensures k != "" ==> n == DisplayOf(k)
    ensures k == "" ==> n == ".json"
  {
    DisplayOf(FileStem(k))
  }

  /** Spaces and underscores are interchangeable in a name. */
  predicate SameUpToBlanks(a: string, b: string) {
    |a| == |b| && forall i :: 0 <= i < |a| ==> a[i] == b[i] || ((a[i] == ' ' || a[i] == '_') && (b[i] == ' ' || b[i] == '_'))
  }

  /** Two names are saved to the same file exactly when they differ only in
      spaces versus underscores. */
  lemma KeyCollision(a: string, b: string)
    ensures KeyOf(a) == KeyOf(b) <==> SameUpToBlanks(a, b)
  {
    if SameUpToBlanks(a, b) {
      assert forall i :: 0 <= i < |a| ==> KeyOf(a)[i] == KeyOf(b)[i];
    }
    if KeyOf(a) == KeyOf(b) {
      forall i | 0 <= i < |a| ensures a[i] == b[i] || ((a[i] == ' ' || a[i] == '_') && (b[i] == ' ' || b[i] == '_')) {
        assert KeyOf(a)[i] == KeyOf(b)[i];
      }
    }
  }

  /** Showing a key with underscores as spaces and mapping the shown name
      back recovers the key exactly when the key has no space; a key
      written by `Save` never has one. */
  lemma DisplayRoundTrip(key: string, name: string)
    ensures KeyOf(DisplayOf(key)) == key <==> forall i :: 0 <= i < |key| ==> key[i] != ' '
    ensures KeyOf(DisplayOf(KeyOf(name))) == KeyOf(name)
  {
    if forall i :: 0 <= i < |key| ==> key[i] != ' ' {
      assert forall i :: 0 <= i < |key| ==> KeyOf(DisplayOf(key))[i] == key[i];
    }
    var k := KeyOf(name);
    assert forall i :: 0 <= i < |k| ==> KeyOf(DisplayOf(k))[i] == k[i];
  }

  /** `save_profile`: writes the profile under its key, replacing any
      profile already stored there; every other file is untouched. */
  function Save(store: Store, p: Schema.ProfileData): (s: Store)
    ensures s.Keys == store.Keys + {KeyOf(p.name)}
    ensures s[KeyOf(p.name)] == p
    ensures forall k :: k in store && k != KeyOf(p.name) ==> s[k] == store[k]
  {
    store[KeyOf(p.name) := p]
  }

  /** `load_profile`: reads the file `<key>.json`, `None` when it does not
      exist. */
  function Load(store: Store, key: string): (r: Option<Schema.ProfileData>)
    ensures r.None? <==> key !in store
    ensures r.Some? ==> r.value == store[key]
  {
    if key in store then Some(store[key]) else None
  }

  /** `delete_profile`: reports whether the file `<key>.json` existed and
      removes it if so. */
  function Delete(store: Store, key: string): (r: (bool, Store))
    ensures r.0 <==> key in store
    ensures r.1.Keys == store.Keys - {key}
    ensures forall k :: k in r.1 ==> r.1[k] == store[k]
    ensures !r.0 ==> r.1 == store
  {
    if key in store then (true, store - {key}) else (false, store)
  }

  /** The profile selected under a listed name, as the resume and profile
      tabs load it: the profile stored under the name's key, if any. */
  function Select(store: Store, displayName: string): (r: Option<Schema.ProfileData>)
    ensures r.Some? <==> KeyOf(displayName) in store
    ensures r.Some? ==> r.value == store[KeyOf(displayName)]
  {
    Load(store, KeyOf(displayName))
  }

  /** Saving and then loading under the profile's key gives the profile
      back, as does selecting the name it is listed under when the name is
      not empty. A profile with an empty name is listed as `.json`, and
      selecting that loads the file `.json.json` instead. */
  lemma SaveThenLoad(store: Store, p: Schema.ProfileData)
    ensures Load(Save(store, p), KeyOf(p.name)) == Some(p)
    ensures p.name != "" ==> Select(Save(store, p), ListedName(KeyOf(p.name))) == Some(p)
    ensures p.name == "" ==> Select(Save(store, p), ListedName(KeyOf(p.name))) == Load(store, ".json")
  {
    DisplayRoundTrip(KeyOf(p.name), p.name);
    if p.name == "" {
      assert KeyOf(".json") == ".json";
    }
  }

  /** A later save of a colliding name replaces the earlier profile. */
  lemma SaveOverwrites(store: Store, p1: Schema.ProfileData, p2: Schema.ProfileData)
    requires SameUpToBlanks(p1.name, p2.name)
    ensures Save(Save(store, p1), p2) == Save(store, p2)
  {
    KeyCollision(p1.name, p2.name);
  }

  /** Deleting what was just saved under a fresh key restores the store. */
  lemma SaveThenDelete(store: Store, p: Schema.ProfileData)
    requires KeyOf(p.name) !in store
    ensures Delete(Save(store, p), KeyOf(p.name)) == (true, store)
  {
    assert Save(store, p) - {KeyOf(p.name)} == store;
  }

  /** Every file holds the profile whose name gives its key. */
  ghost predicate WellKeyed(store: Store) {
    forall k :: k in store ==> k == KeyOf(store[k].name)
  }

  /** Save and delete keep the store well keyed, and in a well-keyed store
      the name listed for every file other than `.json` selects the profile
      of that file. */
  lemma WellKeyedPreserved(store: Store, p: Schema.ProfileData, key: string)
    requires WellKeyed(store)
    ensures WellKeyed(Save(store, p))
    ensures WellKeyed(Delete(store, key).1)
    ensures forall k :: k in store && k != "" ==> Select(store, ListedName(k)) == Some(store[k])
  {
    forall k | k in store && k != "" ensures Select(store, ListedName(k)) == Some(store[k]) {
      DisplayRoundTrip(k, store[k].name);
    }
  }

  /** `get_available_profiles`: the files are visited once each, as `keys`,
      and `names[i]` is the pathlib stem of the file of key `keys[i]` with
      underscores shown as spaces. The directory's iteration order is not modelled: the files
      are visited in an arbitrary order. */
  method ListProfiles(store: Store) returns (keys: seq<string>, names: seq<string>)
    ensures |keys| == |names| == |store|
    ensures forall i, j :: 0 <= i < j < |keys| ==> keys[i] != keys[j]
    ensures forall k :: k in store <==> k in keys
    ensures forall i :: 0 <= i < |keys| ==> names[i] == ListedName(keys[i])
  {
    keys := [];
    var rest := store.Keys;
    ghost var seen: set<string> := {};
    while rest != {}
      invariant rest !! seen && rest + seen == store.Keys
      invariant forall k :: k in keys <==> k in seen
      invariant |keys| == |seen|
      invariant forall i, j :: 0 <= i < j < |keys| ==> keys[i] != keys[j]
      decreases |rest|
    {
      var k :| k in rest;
      keys := keys + [k];
      rest := rest - {k};
      seen := seen + {k};
    }
    assert seen == store.Keys;
    names := seq(|keys|, i requires 0 <= i < |keys| => ListedName(keys[i]));
  }
}
