/** The model's view of the outside world that the registries rely on:
    errors raised by the Python runtime, parsed JSON values, and the
    per-user file system holding one JSON object per path. */
module Storage {

  /** The exceptions the modelled code raises. */
  datatype Error =
    | FileNotFound(name: string)  // FileNotFoundError: a file or bundled resource is missing
    | KeyError(key: string)       // lookup of an absent dictionary key
    | ValueError                  // list.remove of an element not in the list
    | AttributeError              // list method called on a JSON value that is not a list
    | TypeError                   // arithmetic with None

  datatype Result<T> = Ok(value: T) | Err(error: Error)

  datatype Outcome = Pass | Fail(error: Error)

  datatype Option<T> = None | Some(value: T)

  /** A parsed JSON value, as json.loads returns it. Python's None and
      JSON null are the same value, so JNull also stands for None. */
  datatype Json =
    | JNull
    | JBool(b: bool)
    | JNum(n: real)
    | JStr(s: string)
    | JArr(items: seq<Json>)
    | JObj(fields: map<string, Json>)

  type Path = string

  /** The top-level JSON object of a registry file, i.e. a Python dict. */
  type Document = map<string, Json>

  /** dict.get(key): the stored value, or None when the key is absent.
      A stored null and an absent key give the same answer. */
  function Get(m: Document, key: string): (v: Json)
    ensures key in m ==> v == m[key]
    ensures v == JNull <==> key !in m || m[key] == JNull
    ensures v != JNull ==> key in m && m[key] == v
  {
    if key in m then m[key] else JNull
  }

  /** The disk: each existing file holds one parsed JSON object. */
  class FileSystem {
    var files: map<Path, Document>

    constructor (files: map<Path, Document>)
      ensures this.files == files
    {
      this.files := files;
    }

    /** open(path, "w") followed by json.dump: the file is replaced whole. */
    method Write(path: Path, doc: Document)
      modifies this
      ensures files == old(files)[path := doc]
    {
      files := files[path := doc];
    }
  }
}
