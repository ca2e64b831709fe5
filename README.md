# Yerba mate logger: registries and tasting record

A Dafny model of the core of a personal yerba-mate tasting journal.

- **Registries** (`registry.py`, module `Registry`). Three JSON-backed
  stores live in the per-user data directory:
  - brands map a name to a location;
  - profiles map a category to a list of tags;
  - weights map a key to a value.

  On first use, each store's user file is seeded from a bundled default
  (`ensure_user_copy`). After that, every mutation changes the in-memory
  dict and then rewrites the whole file.
- **Standalone brand registry** (`brands.py`, module `Brands`). An older
  brand store whose file path is a parameter. A missing file loads as an
  empty map instead of raising.
- **Tasting record** (`mate.py`, module `Mate`). A record of ranks and
  notes. `process()` stores a weighted overall score on the record and
  returns a one-row table:
  - the table has 12 fixed columns;
  - missing values are replaced by 0.

Module `Storage` holds what these rely on:
- the Python exceptions that the code raises;
- parsed JSON values;
- the disk, as a `FileSystem` object that maps each path to the JSON
  object stored there.

Foreign calls are modelled as follows:
- `user_data_dir` becomes a `dataDir` parameter.
- The bundled package data becomes a `defaults` map from file name to
  document.
- `json.dump`/`json.load` pairs are the identity on parsed values.

Python's `dict.get` returns `None` both for an absent key and for a key
stored with JSON `null`. The model's `Get` returns `JNull` in both cases,
as the source does.

## Model

| member | source | states |
|---|---|---|
| Storage.Get | src/yerba_logger/registry.py:45-46 | `dict.get` returns the stored value for a present key. The result is None exactly when the key is absent or holds null. |
| Storage.FileSystem.Write | src/yerba_logger/registry.py:37-39 | Writing a file replaces that one path's content. Every other file is unchanged. |
| Registry.UserFile | src/yerba_logger/registry.py:11-12 | The user path is the data directory, a `/` separator, then the file name. Both parts can be recovered from it. |
| Registry.UserFilesDistinct | src/yerba_logger/registry.py:28 | The brand, profile and weight files have pairwise different user paths, so the registries never overwrite each other's file. |
| Registry.Seeded | src/yerba_logger/registry.py:17-24 | Seeding leaves the disk unchanged when the user file exists. Otherwise the user file gets the bundled default. No other file changes. |
| Registry.EnsureUserCopy | src/yerba_logger/registry.py:17-24 | An absent user file is created with exactly the default's content. A present one is left untouched. A missing default raises FileNotFoundError. On success the returned path exists. |
| Registry.Load | src/yerba_logger/registry.py:31-35 | `_load` fails with FileNotFoundError exactly when the file is missing. Otherwise it returns the file's content. |
| Registry.LoadAfterSeed | src/yerba_logger/registry.py:27-35 | After seeding succeeds, loading cannot fail. It yields the user's existing file or, on first run, the bundled default. |
| Registry.BrandRegistry.Open | src/yerba_logger/registry.py:27-35 | Construction seeds and then loads. The in-memory map equals the file's content. The only failure is a missing bundled default. |
| Registry.BrandRegistry.Save | src/yerba_logger/registry.py:37-39 | The brand file becomes the in-memory map. Nothing else on disk changes. |
| Registry.BrandRegistry.AddBrand | src/yerba_logger/registry.py:41-43 | The new map is `old[name := location]`, covering both insert and overwrite. The file then equals the in-memory map. |
| Registry.BrandRegistry.GetLocation | src/yerba_logger/registry.py:45-46 | Returns the stored location, or None. Changes nothing. |
| Registry.BrandRegistry.ListBrands | src/yerba_logger/registry.py:48-49 | Returns exactly the names in the map. |
| Registry.FirstIndex | src/yerba_logger/registry.py:73 | Gives the position of the first occurrence: it holds the element and no earlier position does. |
| Registry.RemoveFirst | src/yerba_logger/registry.py:73 | `list.remove` deletes exactly one copy of the element, the first. The elements before and after it keep their order. |
| Registry.RemoveFirstAfterAppend | src/yerba_logger/registry.py:67-74 | Appending a tag the list lacked and then removing it gives back the list. |
| Registry.RemoveFirstAfterAppendDuplicate | src/yerba_logger/registry.py:67-74 | Duplicates are allowed. Removing a tag that was appended twice takes out the earlier copy and keeps the newly appended one at the end. |
| Registry.AddedProfile | src/yerba_logger/registry.py:67-69 | For an existing list, the result is old list + [tag] and other categories are unchanged. An unknown category raises KeyError. A non-list value raises AttributeError. |
| Registry.AddedProfileCount | src/yerba_logger/registry.py:68 | Adding a tag raises its count by exactly one, even when it is already present. |
| Registry.RemovedProfile | src/yerba_logger/registry.py:71-76 | Removes the first occurrence of the tag from an existing list. Other categories are unchanged. An absent tag raises ValueError, an unknown category KeyError, a non-list value AttributeError. |
| Registry.AddThenRemoveProfile | src/yerba_logger/registry.py:67-76 | Adding a tag new to its category and then removing it restores the whole profile map. |
| Registry.ProfileRegistry.Open | src/yerba_logger/registry.py:52-61 | Construction seeds and then loads. The in-memory map equals the file's content. |
| Registry.ProfileRegistry.Save | src/yerba_logger/registry.py:63-65 | The profile file becomes the in-memory map. Nothing else on disk changes. |
| Registry.ProfileRegistry.AddProfile | src/yerba_logger/registry.py:67-69 | On success the state is `AddedProfile(old)` and the file equals the state. On KeyError or AttributeError nothing changes, in memory or on disk. |
| Registry.ProfileRegistry.RemoveProfile | src/yerba_logger/registry.py:71-76 | On success the state is `RemovedProfile(old)` and the file equals the state. On KeyError, ValueError or AttributeError nothing is saved or changed. |
| Registry.ProfileRegistry.GetProfile | src/yerba_logger/registry.py:78-80 | Returns the stored tag list, or None. Changes nothing. |
| Registry.ProfileRegistry.ListProfiles | src/yerba_logger/registry.py:82-83 | Returns exactly the category names. |
| Registry.WeightRegistry.Open | src/yerba_logger/registry.py:86-94 | Construction seeds and then loads. The in-memory map equals the file's content. |
| Registry.WeightRegistry.Save | src/yerba_logger/registry.py:96-98 | The weight file becomes the in-memory map. Nothing else on disk changes. |
| Registry.WeightRegistry.AddWeight | src/yerba_logger/registry.py:100-102 | Overwrites one key without validating anything. The file then equals the in-memory map. |
| Registry.WeightRegistry.GetWeight | src/yerba_logger/registry.py:104-105 | Returns the stored weight, or None. Changes nothing. |
| Brands.LoadOrEmpty | src/yerba_logger/brands.py:10-14 | Returns the file's content when the file exists, and the empty map when it does not. |
| Brands.LoadAfterSave | src/yerba_logger/brands.py:10-18 | Loading a file just saved returns the saved map. |
| Brands.BrandRegistry.constructor | src/yerba_logger/brands.py:6-8 | Construction never fails and writes nothing. The map is the file's content, or empty. |
| Brands.BrandRegistry.OpenDefault | src/yerba_logger/brands.py:6-8 | With no path given, the registry uses `yerbas.json` and loads it the same way, or starts empty. |
| Brands.BrandRegistry.Save | src/yerba_logger/brands.py:16-18 | The file at the path becomes the in-memory map. Nothing else on disk changes. |
| Brands.BrandRegistry.AddBrand | src/yerba_logger/brands.py:20-22 | The new map is `old[name := location]` and every other entry is unchanged. The file then equals the in-memory map. |
| Brands.BrandRegistry.GetLocation | src/yerba_logger/brands.py:24-25 | Returns the stored location, or None. Changes nothing. |
| Brands.AddThenGetLocation | src/yerba_logger/brands.py:20-25 | After `add_brand(name, loc)`, `get_location(name)` returns `loc`. |
| Brands.AddBrandTwice | src/yerba_logger/brands.py:20-22 | `add_brand` is idempotent: adding the same pair twice leaves the map and the file as one addition does. |
| Mate.OverallScore | src/yerba_logger/mate.py:23 | The score satisfies `10 * score == 2*smell + 3*taste + 5*energy`. |
| Mate.ScoreOfEqualRanks | src/yerba_logger/mate.py:23 | The weights sum to one, so equal ranks give that rank as the score. |
| Mate.ScoreBetweenRanks | src/yerba_logger/mate.py:23 | The score lies between the lowest and the highest rank. |
| Mate.ScoreMonotone | src/yerba_logger/mate.py:23 | Raising a rank never lowers the score. The same raise is worth most on energy and least on smell. |
| Mate.RawRow | src/yerba_logger/mate.py:26-39 | The dictionary has one value per column, 12 in all. |
| Mate.Filled | src/yerba_logger/mate.py:42 | A filled cell is never missing, and a cell that was present is kept. |
| Mate.FillNa | src/yerba_logger/mate.py:42 | Every missing cell becomes 0. Every other cell is left as it was. |
| Mate.ProcessEntry | src/yerba_logger/mate.py:21-44 | A missing smell, taste or energy rank raises TypeError. Otherwise the result satisfies the scaled score equation and is one row under the 12 columns in order, with no missing cell. |
| Mate.ProcessedRow | src/yerba_logger/mate.py:26-42 | Each column holds its field's value. An absent optional field gives 0. The last column holds the score. |
| Mate.Mate.constructor | src/yerba_logger/mate.py:6-18 | A record holds the given fields and has no score yet. |
| Mate.Mate.Process | src/yerba_logger/mate.py:21-44 | On success it stores the score on the record and returns the filled table. On a missing rank it raises, and the record is unchanged. |

## Left out

- JSON text: the indentation, the parsing, and files with invalid JSON. A file is modelled as its parsed JSON object. A file whose top-level value is not a JSON object is not modelled.
- The order of dictionary keys. `ListBrands` and `ListProfiles` return sets, while Python's `keys()` keeps insertion order.
- Directory creation (`mkdir(parents=True)`) and the rest of `appdirs.user_data_dir` and `importlib.resources`. The data directory and the bundled defaults are inputs.
- I/O failures while writing a file, and concurrent writers.
- Mate.OverallScore: uses exact `real` arithmetic, not IEEE floating point. With floats, `0.2*s + 0.3*t + 0.5*e` can differ from the exact value in the last bits.
- Mate.Mate.Process: the table's column dtypes, and values that pandas treats as missing other than None (NaN), are not modelled.
- Mate.Mate.constructor: every field carries its declared type, not an arbitrary Python object. `name` and `location` are plain strings, so a None there, which `fillna` would turn into 0, cannot be written. The dataclass defaults (`= None` for the nine optional fields) have no counterpart: the constructor takes all eleven values.
- Registry.ProfileRegistry.GetProfile, Registry.WeightRegistry.GetWeight, Registry.BrandRegistry.ListBrands, Registry.ProfileRegistry.ListProfiles: return values. The source returns references to its live list, JSON value or key view. A caller that mutates the list returned by `get_profile` changes the registry's state without a save, and a `keys()` view taken earlier shows keys added later. The model cannot express this aliasing.
- Registry.UserFile: plain string concatenation. pathlib's `/` normalisation (`./a` equal to `a`, an absolute name replacing the directory, trailing `/` dropped) is not modelled. The three registry file names are fixed constants, which are unaffected by it.
- The interactive prompts, the command-line commands and plotting (`utils.py`, `cli.py`, `plot.py`) are not part of this model.
- Not implemented by the source and therefore not modelled:
  - four-category scoring with weights read from the weight registry;
  - checking that the weights sum to 1;
  - removing a brand;
  - a date-sorted log file.
