/** The older standalone brand registry: a name-to-location map kept in a
    JSON file given by path. Unlike the registry in module Registry, a
    missing file is not an error: it loads as an empty map. */
module Brands {
  import opened Storage

  /** The path used when none is given. */
  const DefaultPath: Path := "yerbas.json"

  /** _load: the file's contents when the file exists, else the empty map. */
  function LoadOrEmpty(files: map<Path, Document>, path: Path): (d: Document)
    ensures path in files ==> d == files[path]
    ensures path !in files ==> d == map[]
  {
    if path in files then files[path] else map[]
  }

  class BrandRegistry {
    const fs: FileSystem
    const path: Path
    var brands: Document

    /** The persisted file holds exactly the in-memory map. */
    ghost predicate Persisted()
      reads this, fs
    {
      path in fs.files && fs.files[path] == brands
    }

    /** __init__: loads the file at `path`; never fails and writes nothing. */
    constructor (fs: FileSystem, path: Path)
      ensures this.fs == fs && this.path == path
      ensures brands == LoadOrEmpty(fs.files, path)
      ensures path in fs.files ==> Persisted()
    {
      this.fs := fs;
      this.path := path;
      this.brands := LoadOrEmpty(fs.files, path);
    }

    /** BrandRegistry() with no argument: loads the default path. */
    static method OpenDefault(fs: FileSystem) returns (reg: BrandRegistry)
      ensures fresh(reg) && reg.fs == fs && reg.path == DefaultPath
      ensures reg.brands == LoadOrEmpty(fs.files, DefaultPath)
    {
      reg := new BrandRegistry(fs, DefaultPath);
    }

    /** save: rewrites the whole file with the in-memory map. */
    method Save()
      modifies fs
      ensures fs.files == old(fs.files)[path := brands]
      ensures Persisted()
    {
      fs.Write(path, brands);
    }

    /** add_brand: inserts or overwrites one entry, then saves. */
    method AddBrand(name: string, location: string)
      modifies this, fs
      ensures brands == old(brands)[name := JStr(location)]
      ensures forall n :: n in old(brands) && n != name ==> n in brands && brands[n] == old(brands)[n]
      ensures fs.files == old(fs.files)[path := brands]
      ensures Persisted()
    {
      brands := brands[name := JStr(location)];
      Save();
    }

    /** get_location: the stored location, or None; nothing changes. */
    method GetLocation(name: string) returns (loc: Json)
      ensures loc == Get(brands, name)
    {
      loc := Get(brands, name);
    }
  }

  /** A brand just added is found with the location it was given. */
  method AddThenGetLocation(reg: BrandRegistry, name: string, location: string)
    returns (loc: Json)
    modifies reg, reg.fs
    ensures loc == JStr(location)
    ensures reg.Persisted()
  {
    reg.AddBrand(name, location);
    loc := reg.GetLocation(name);
  }

  /** Adding the same brand twice leaves the registry and its file exactly
      as adding it once does. */
  method AddBrandTwice(reg: BrandRegistry, name: string, location: string)
    modifies reg, reg.fs
    ensures reg.brands == old(reg.brands)[name := JStr(location)]
    ensures reg.fs.files == old(reg.fs.files)[reg.path := reg.brands]
  {
    reg.AddBrand(name, location);
    reg.AddBrand(name, location);
  }

  /** Loading the file just saved gives back the in-memory map. */
  lemma LoadAfterSave(files: map<Path, Document>, path: Path, brands: Document)
    ensures LoadOrEmpty(files[path := brands], path) == brands
  {
  }
}
