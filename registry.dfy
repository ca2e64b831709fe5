/** The per-user JSON registries: brands (name to location), profile
    tags (category to list of tags) and score weights (key to value).
    Every registry is seeded from a bundled default on first use, and
    every mutation rewrites its whole file. */
module Registry {
  import opened Storage

  const BrandsFile := "yerbas.json"
  const ProfilesFile := "profiles.json"
  const WeightsFile := "weights.json"

  /** The user-scoped location of a registry file inside the per-user data
      directory (the directory itself is an input to the model). */
  function UserFile(dataDir: Path, filename: string): (p: Path)
    ensures |p| == |dataDir| + 1 + |filename|
    ensures p[..|dataDir|] == dataDir && p[|dataDir|] == '/' && p[|dataDir| + 1..] == filename
  {
    dataDir + "/" + filename
  }

  /** The three registries never share a file. */
  lemma UserFilesDistinct(dataDir: Path)
    ensures UserFile(dataDir, BrandsFile) != UserFile(dataDir, ProfilesFile)
    ensures UserFile(dataDir, BrandsFile) != UserFile(dataDir, WeightsFile)
    ensures UserFile(dataDir, ProfilesFile) != UserFile(dataDir, WeightsFile)
  {
  }

  /** The state of the disk after seeding `filename`: unchanged when the
      user file exists or the bundled default is missing, otherwise the
      user file now holds the default. */
  function Seeded(files: map<Path, Document>, defaults: map<string, Document>,
                  dataDir: Path, filename: string): (r: map<Path, Document>)
    ensures UserFile(dataDir, filename) in r <==>
              UserFile(dataDir, filename) in files || filename in defaults
    ensures UserFile(dataDir, filename) in files ==> r == files
    ensures UserFile(dataDir, filename) !in files && filename in defaults ==>
              r[UserFile(dataDir, filename)] == defaults[filename]
    ensures forall p :: p in files ==> p in r && r[p] == files[p]
    ensures forall p :: p in r && p != UserFile(dataDir, filename) ==> p in files
  {
    var userPath := UserFile(dataDir, filename);
    if userPath in files || filename !in defaults then files
    else files[userPath := defaults[filename]]
  }

  /** ensure_user_copy: creates the user file from the bundled default only
      when it is absent, and returns its path, which then exists. */
  method EnsureUserCopy(fs: FileSystem, defaults: map<string, Document>,
                        dataDir: Path, filename: string)
    returns (r: Result<Path>)
    modifies fs
    ensures fs.files == Seeded(old(fs.files), defaults, dataDir, filename)
    ensures r.Ok? <==> UserFile(dataDir, filename) in old(fs.files) || filename in defaults
    ensures r.Ok? ==> r.value == UserFile(dataDir, filename) && r.value in fs.files
    ensures r.Err? ==> r.error == FileNotFound(filename)
  {
    var userPath := UserFile(dataDir, filename);
    if userPath !in fs.files {
      if filename !in defaults {
        return Err(FileNotFound(filename));
      }
      fs.Write(userPath, defaults[filename]);
    }
    return Ok(userPath);
  }

  /** _load: the file's contents, or FileNotFoundError when it is missing. */
  function Load(files: map<Path, Document>, path: Path): (r: Result<Document>)
    ensures r.Ok? <==> path in files
    ensures r.Ok? ==> r.value == files[path]
    ensures r.Err? ==> r.error == FileNotFound(path)
  {
    if path in files then Ok(files[path]) else Err(FileNotFound(path))
  }

  /** Loading right after seeding never fails when seeding succeeded, and it
      yields the user's file when there was one, else the bundled default. */
  lemma LoadAfterSeed(files: map<Path, Document>, defaults: map<string, Document>,
                      dataDir: Path, filename: string)
    requires UserFile(dataDir, filename) in files || filename in defaults
    ensures Load(Seeded(files, defaults, dataDir, filename), UserFile(dataDir, filename)).Ok?
    ensures Load(Seeded(files, defaults, dataDir, filename), UserFile(dataDir, filename)).value ==
              if UserFile(dataDir, filename) in files then files[UserFile(dataDir, filename)]
              else defaults[filename]
  {
  }

  // ---------------------------------------------------------------------
  // Profile lists

  /** The position of the first occurrence of `x` in `s`. */
  function FirstIndex(s: seq<Json>, x: Json): (i: nat)
    requires x in s
    ensures i < |s| && s[i] == x
    ensures x !in s[..i]
  {
    if s[0] == x then 0
    else
      var j := FirstIndex(s[1..], x);
      assert s[..j + 1] == [s[0]] + s[1..][..j];
      1 + j
  }

  /** list.remove(x): `s` without its first occurrence of `x`; all other
      elements, including later occurrences of `x`, keep their order. */
  function RemoveFirst(s: seq<Json>, x: Json): (r: seq<Json>)
    requires x in s
    ensures |r| == |s| - 1
    ensures r[..FirstIndex(s, x)] == s[..FirstIndex(s, x)]
    ensures r[FirstIndex(s, x)..] == s[FirstIndex(s, x) + 1..]
    ensures multiset(r) == multiset(s) - multiset{x}
  {
    var i := FirstIndex(s, x);
    assert s == s[..i] + [x] + s[i + 1..];
    s[..i] + s[i + 1..]
  }

  /** Appending a fresh tag and then removing it restores the list. */
  lemma {:induction false} RemoveFirstAfterAppend(s: seq<Json>, x: Json)
    requires x !in s
    ensures RemoveFirst(s + [x], x) == s
  {
    assert (s + [x])[..|s|] == s;
  }

  /** Duplicates are not prevented: appending a tag that is already present
      and then removing it takes out the EARLIER copy, not the new one. */
  lemma {:induction false} RemoveFirstAfterAppendDuplicate(s: seq<Json>, x: Json)
    requires x in s
    ensures RemoveFirst(s + [x], x) == RemoveFirst(s, x) + [x]
  {
    var i := FirstIndex(s + [x], x);
    var j := FirstIndex(s, x);
    assert (s + [x])[j] == x;
    assert (s + [x])[..i] == s[..j];
    assert (s + [x])[i + 1..] == s[j + 1..] + [x];
  }

  /** add_profile on the profile map: appends `tag` to the list of an
      existing category; KeyError for an unknown category, AttributeError
      when the stored value is not a list. */
  function AddedProfile(profiles: Document, name: string, tag: string): (r: Result<Document>)
    ensures name !in profiles ==> r == Err(KeyError(name))
    ensures name in profiles && !profiles[name].JArr? ==> r == Err(AttributeError)
    ensures r.Ok? <==> name in profiles && profiles[name].JArr?
    ensures r.Ok? ==> r.value.Keys == profiles.Keys
    ensures r.Ok? ==> r.value[name] == JArr(profiles[name].items + [JStr(tag)])
    ensures r.Ok? ==> forall k :: k in profiles && k != name ==> r.value[k] == profiles[k]
  {
    if name !in profiles then Err(KeyError(name))
    else match profiles[name]
      case JArr(tags) => Ok(profiles[name := JArr(tags + [JStr(tag)])])
      case _ => Err(AttributeError)
  }

  /** Adding a tag raises its number of occurrences by exactly one, whether
      or not it was present already. */
  lemma AddedProfileCount(profiles: Document, name: string, tag: string)
    requires AddedProfile(profiles, name, tag).Ok?
    ensures multiset(AddedProfile(profiles, name, tag).value[name].items)[JStr(tag)] ==
              multiset(profiles[name].items)[JStr(tag)] + 1
  {
  }

  /** remove_profile on the profile map: removes the first occurrence of
      `tag` from an existing category; KeyError for an unknown category,
      AttributeError when the value is not a list, ValueError when the tag
      is not in the list. */
  function RemovedProfile(profiles: Document, name: string, tag: string): (r: Result<Document>)
    ensures name !in profiles ==> r == Err(KeyError(name))
    ensures name in profiles && !profiles[name].JArr? ==> r == Err(AttributeError)
    ensures name in profiles && profiles[name].JArr? && JStr(tag) !in profiles[name].items ==>
              r == Err(ValueError)
    ensures r.Ok? <==> name in profiles && profiles[name].JArr? && JStr(tag) in profiles[name].items
    ensures r.Ok? ==> r.value.Keys == profiles.Keys
    ensures r.Ok? ==> r.value[name] == JArr(RemoveFirst(profiles[name].items, JStr(tag)))
    ensures r.Ok? ==> forall k :: k in profiles && k != name ==> r.value[k] == profiles[k]
  {
    if name !in profiles then Err(KeyError(name))
    else match profiles[name]
      case JArr(tags) =>
        if JStr(tag) in tags then Ok(profiles[name := JArr(RemoveFirst(tags, JStr(tag)))])
        else Err(ValueError)
      case _ => Err(AttributeError)
  }

  /** Adding a tag that was not yet in a category and then removing it
      gives back the original profile map. */
  lemma AddThenRemoveProfile(profiles: Document, name: string, tag: string)
    requires AddedProfile(profiles, name, tag).Ok?
    requires JStr(tag) !in profiles[name].items
    ensures RemovedProfile(AddedProfile(profiles, name, tag).value, name, tag) == Ok(profiles)
  {
    var items := profiles[name].items;
    var added := profiles[name := JArr(items + [JStr(tag)])];
    assert AddedProfile(profiles, name, tag).value == added;
    RemoveFirstAfterAppend(items, JStr(tag));
    assert JStr(tag) in items + [JStr(tag)];
    assert added[name := JArr(items)] == profiles;
  }

  // ---------------------------------------------------------------------
  // The registries

  class BrandRegistry {
    const fs: FileSystem
    const path: Path
    var brands: Document

    /** The persisted file holds exactly the in-memory map. */
    ghost predicate Persisted()
      reads this, fs
    {
      path in fs.files && fs.files[path] == brands
    }

    constructor Of(fs: FileSystem, path: Path, brands: Document)
      ensures this.fs == fs && this.path == path && this.brands == brands
    {
      this.fs := fs;
      this.path := path;
      this.brands := brands;
    }

    /** __init__: seeds the user file, then loads it. */
    static method Open(fs: FileSystem, defaults: map<string, Document>, dataDir: Path)
      returns (r: Result<BrandRegistry>)
      modifies fs
      ensures fs.files == Seeded(old(fs.files), defaults, dataDir, BrandsFile)
      ensures r.Ok? <==> UserFile(dataDir, BrandsFile) in old(fs.files) || BrandsFile in defaults
      ensures r.Err? ==> r.error == FileNotFound(BrandsFile)
      ensures r.Ok? ==> fresh(r.value) && r.value.fs == fs && r.value.Persisted()
      ensures r.Ok? ==> r.value.path == UserFile(dataDir, BrandsFile)
      ensures r.Ok? && UserFile(dataDir, BrandsFile) in old(fs.files) ==>
                r.value.brands == old(fs.files)[UserFile(dataDir, BrandsFile)]
      ensures r.Ok? && UserFile(dataDir, BrandsFile) !in old(fs.files) ==>
                r.value.brands == defaults[BrandsFile]
    {
      var p := EnsureUserCopy(fs, defaults, dataDir, BrandsFile);
      if p.Err? {
        return Err(p.error);
      }
      var loaded := Load(fs.files, p.value);
      assert loaded.Ok?;  // the file was just ensured to exist
      var reg := new BrandRegistry.Of(fs, p.value, loaded.value);
      return Ok(reg);
    }

    /** save: rewrites the whole file with the in-memory map. */
    method Save()
      modifies fs
      ensures fs.files == old(fs.files)[path := brands]
      ensures Persisted()
    {
      fs.Write(path, brands);
    }

    /** add_brand: inserts or overwrites one entry, then saves. */
    method AddBrand(name: string, location: string)
      modifies this, fs
      ensures brands == old(brands)[name := JStr(location)]
      ensures fs.files == old(fs.files)[path := brands]
      ensures Persisted()
    {
      brands := brands[name := JStr(location)];
      Save();
    }

    /** get_location: the stored location, or None; nothing changes. */
    method GetLocation(name: string) returns (loc: Json)
      ensures loc == Get(brands, name)
    {
      loc := Get(brands, name);
    }

    /** list_brands: the brand names. */
    method ListBrands() returns (names: set<string>)
      ensures forall n :: n in names <==> n in brands
    {
      names := brands.Keys;
    }
  }

  class ProfileRegistry {
    const fs: FileSystem
    const path: Path
    var profiles: Document

    /** The persisted file holds exactly the in-memory map. */
    ghost predicate Persisted()
      reads this, fs
    {
      path in fs.files && fs.files[path] == profiles
    }

    constructor Of(fs: FileSystem, path: Path, profiles: Document)
      ensures this.fs == fs && this.path == path && this.profiles == profiles
    {
      this.fs := fs;
      this.path := path;
      this.profiles := profiles;
    }

    /** __init__: seeds the user file, then loads it. */
    static method Open(fs: FileSystem, defaults: map<string, Document>, dataDir: Path)
      returns (r: Result<ProfileRegistry>)
      modifies fs
      ensures fs.files == Seeded(old(fs.files), defaults, dataDir, ProfilesFile)
      ensures r.Ok? <==> UserFile(dataDir, ProfilesFile) in old(fs.files) || ProfilesFile in defaults
      ensures r.Err? ==> r.error == FileNotFound(ProfilesFile)
      ensures r.Ok? ==> fresh(r.value) && r.value.fs == fs && r.value.Persisted()
      ensures r.Ok? ==> r.value.path == UserFile(dataDir, ProfilesFile)
      ensures r.Ok? && UserFile(dataDir, ProfilesFile) in old(fs.files) ==>
                r.value.profiles == old(fs.files)[UserFile(dataDir, ProfilesFile)]
      ensures r.Ok? && UserFile(dataDir, ProfilesFile) !in old(fs.files) ==>
                r.value.profiles == defaults[ProfilesFile]
    {
      var p := EnsureUserCopy(fs, defaults, dataDir, ProfilesFile);
      if p.Err? {
        return Err(p.error);
      }
      var loaded := Load(fs.files, p.value);
      assert loaded.Ok?;  // the file was just ensured to exist
      var reg := new ProfileRegistry.Of(fs, p.value, loaded.value);
      return Ok(reg);
    }

    /** save: rewrites the whole file with the in-memory map. */
    method Save()
      modifies fs
      ensures fs.files == old(fs.files)[path := profiles]
      ensures Persisted()
    {
      fs.Write(path, profiles);
    }

    /** add_profile: appends a tag to an existing category and saves; on
        failure neither the map nor the disk changes. */
    method AddProfile(name: string, tag: string) returns (r: Outcome)
      modifies this, fs
      ensures var want := AddedProfile(old(profiles), name, tag);
        if want.Ok? then r == Pass && profiles == want.value && fs.files == old(fs.files)[path := profiles]
        else r == Fail(want.error) && profiles == old(profiles) && fs.files == old(fs.files)
      ensures r.Pass? ==> Persisted()
    {
      if name !in profiles {
        return Fail(KeyError(name));
      }
      var tags := profiles[name];
      if !tags.JArr? {
        return Fail(AttributeError);
      }
      profiles := profiles[name := JArr(tags.items + [JStr(tag)])];
      Save();
      return Pass;
    }

    /** remove_profile: removes the first occurrence of a tag from an
        existing category and saves; on failure nothing changes. */
    method RemoveProfile(name: string, tag: string) returns (r: Outcome)
      modifies this, fs
      ensures var want := RemovedProfile(old(profiles), name, tag);
        if want.Ok? then r == Pass && profiles == want.value && fs.files == old(fs.files)[path := profiles]
        else r == Fail(want.error) && profiles == old(profiles) && fs.files == old(fs.files)
      ensures r.Pass? ==> Persisted()
    {
      if name in profiles {
        var tags := profiles[name];
        if !tags.JArr? {
          return Fail(AttributeError);
        }
        if JStr(tag) !in tags.items {
          return Fail(ValueError);
        }
        var i := FirstIndex(tags.items, JStr(tag));
        profiles := profiles[name := JArr(tags.items[..i] + tags.items[i + 1..])];
        Save();
        return Pass;
      } else {
        return Fail(KeyError(name));
      }
    }

    /** get_profile: the stored tag list, or None; nothing changes. */
    method GetProfile(name: string) returns (tags: Json)
      ensures tags == Get(profiles, name)
    {
      tags := Get(profiles, name);
    }

    /** list_profiles: the category names. */
    method ListProfiles() returns (names: set<string>)
      ensures forall n :: n in names <==> n in profiles
    {
      names := profiles.Keys;
    }
  }

  class WeightRegistry {
    const fs: FileSystem
    const path: Path
    var weights: Document

    /** The persisted file holds exactly the in-memory map. */
    ghost predicate Persisted()
      reads this, fs
    {
      path in fs.files && fs.files[path] == weights
    }

    constructor Of(fs: FileSystem, path: Path, weights: Document)
      ensures this.fs == fs && this.path == path && this.weights == weights
    {
      this.fs := fs;
      this.path := path;
      this.weights := weights;
    }

    /** __init__: seeds the user file, then loads it. */
    static method Open(fs: FileSystem, defaults: map<string, Document>, dataDir: Path)
      returns (r: Result<WeightRegistry>)
      modifies fs
      ensures fs.files == Seeded(old(fs.files), defaults, dataDir, WeightsFile)
      ensures r.Ok? <==> UserFile(dataDir, WeightsFile) in old(fs.files) || WeightsFile in defaults
      ensures r.Err? ==> r.error == FileNotFound(WeightsFile)
      ensures r.Ok? ==> fresh(r.value) && r.value.fs == fs && r.value.Persisted()
      ensures r.Ok? ==> r.value.path == UserFile(dataDir, WeightsFile)
      ensures r.Ok? && UserFile(dataDir, WeightsFile) in old(fs.files) ==>
                r.value.weights == old(fs.files)[UserFile(dataDir, WeightsFile)]
      ensures r.Ok? && UserFile(dataDir, WeightsFile) !in old(fs.files) ==>
                r.value.weights == defaults[WeightsFile]
    {
      var p := EnsureUserCopy(fs, defaults, dataDir, WeightsFile);
      if p.Err? {
        return Err(p.error);
      }
      var loaded := Load(fs.files, p.value);
      assert loaded.Ok?;  // the file was just ensured to exist
      var reg := new WeightRegistry.Of(fs, p.value, loaded.value);
      return Ok(reg);
    }

    /** save: rewrites the whole file with the in-memory map. */
    method Save()
      modifies fs
      ensures fs.files == old(fs.files)[path := weights]
      ensures Persisted()
    {
      fs.Write(path, weights);
    }

    /** add_weight: overwrites a single key, with no check on the value or
        on the other weights, then saves. */
    method AddWeight(name: string, value: Json)
      modifies this, fs
      ensures weights == old(weights)[name := value]
      ensures fs.files == old(fs.files)[path := weights]
      ensures Persisted()
    {
      weights := weights[name := value];
      Save();
    }

    /** get_weight: the stored value, or None; nothing changes. */
    method GetWeight(name: string) returns (value: Json)
      ensures value == Get(weights, name)
    {
      value := Get(weights, name);
    }
  }
}
