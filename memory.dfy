/**
 * The JSON-file-backed memory store. The file system is a map from path to
 * stored content; a file holds either a parsed JSON value (serialising and
 * parsing are taken to round-trip) or text that does not parse as JSON.
 */
module Memory {
  import opened Wrappers

  type Path = string

  /** JSON values (numbers restricted to integers). */
  datatype Json =
    | JNull
    | JBool(b: bool)
    | JNum(n: int)
    | JStr(s: string)
    | JArr(items: seq<Json>)
    | JObj(fields: map<string, Json>)

  datatype Content = Parsed(value: Json) | Unparseable

  type Files = map<Path, Content>

  /**
   * Why reading the store fails, as modelled: the file is missing, or it is not
   * valid JSON. Other failures of the read itself (permissions, for one) are not modelled.
   */
  datatype LoadError = FileNotFound | DecodeError

  /** Why appending fails: the read failed, or the stored value has no `append` (it is not a list). */
  datatype SaveError = LoadFailed(cause: LoadError) | NotAList

  const DefaultMemoryFile: Path := "memory.json"

  /** The record stored for one saved entry: `{"entry": entry}`. */
  function EntryRecord(entry: string): Json
  {
    JObj(map["entry" := JStr(entry)])
  }

  /** The records stored for a series of entries, in order. */
  function Records(entries: seq<string>): seq<Json>
  {
    seq(|entries|, i requires 0 <= i < |entries| => EntryRecord(entries[i]))
  }

  /** The records of two series saved one after the other are the records of each, in that order. */
  lemma RecordsAppend(a: seq<string>, b: seq<string>)
    ensures Records(a + b) == Records(a) + Records(b)
  {
  }

  /** The file system after opening the store on `path`: an empty list is written only if no file exists there. */
  function Init(files: Files, path: Path): (r: Files)
    ensures path in files ==> r == files
    ensures Load(r, path) == if path in files then Load(files, path) else Ok(JArr([]))
    ensures SameElsewhere(r, files, path)
  {
    if path in files then files else files[path := Parsed(JArr([]))]
  }

  /** Reading and parsing the file at `path`. */
  function Load(files: Files, path: Path): (r: Result<Json, LoadError>)
    ensures r.Ok? <==> path in files && files[path].Parsed?
    ensures r.Ok? ==> files[path] == Parsed(r.value)
    ensures r == Err(FileNotFound) <==> path !in files
  {
    if path !in files then Err(FileNotFound)
    else match files[path]
      case Parsed(v) => Ok(v)
      case Unparseable => Err(DecodeError)
  }

  /** The stored list at `path`, when `path` holds one. */
  predicate HoldsList(files: Files, path: Path)
  {
    Load(files, path).Ok? && Load(files, path).value.JArr?
  }

  /** Appending one entry: read the list, add the record at its end, rewrite the whole file. */
  function Save(files: Files, path: Path, entry: string): (r: Result<Files, SaveError>)
    ensures r.Ok? <==> HoldsList(files, path)
    ensures Load(files, path).Err? ==> r == Err(LoadFailed(Load(files, path).error))
    ensures Load(files, path).Ok? && !Load(files, path).value.JArr? ==> r == Err(NotAList)
  {
    match Load(files, path)
    case Err(e) => Err(LoadFailed(e))
    case Ok(v) =>
      if v.JArr? then Ok(files[path := Parsed(JArr(v.items + [EntryRecord(entry)]))])
      else Err(NotAList)
  }

  /** Saving each entry of `entries` in turn; the first failure stops the series. */
  function SaveAll(files: Files, path: Path, entries: seq<string>): Result<Files, SaveError>
    decreases |entries|
  {
    if entries == [] then Ok(files)
    else match Save(files, path, entries[0])
      case Err(e) => Err(e)
      case Ok(next) => SaveAll(next, path, entries[1..])
  }

  /**
   * A save grows the stored list by exactly one record, the new entry's, at
   * the end; every earlier record keeps its value and position; no other
   * path changes.
   */
  lemma SaveAppendsOne(files: Files, path: Path, entry: string)
    requires HoldsList(files, path)
    ensures Save(files, path, entry).Ok?
    ensures var before := Load(files, path).value.items;
            var after := Save(files, path, entry).value;
            && Load(after, path) == Ok(JArr(before + [EntryRecord(entry)]))
            && |Load(after, path).value.items| == |before| + 1
            && (forall i :: 0 <= i < |before| ==> Load(after, path).value.items[i] == before[i])
            && Load(after, path).value.items[|before|] == EntryRecord(entry)
  {
  }

  /** A save writes `path` and nothing else: every other path is as it was. */
  lemma SaveTouchesOnlyItsFile(files: Files, path: Path, entry: string, other: Path)
    requires other != path
    ensures Save(files, path, entry).Ok? ==>
      var after := Save(files, path, entry).value;
      (other in after <==> other in files) && (other in files ==> after[other] == files[other])
    ensures Save(files, path, entry).Ok? ==> path in files && path in Save(files, path, entry).value
  {
  }

  /** Opening the store twice is the same as opening it once, and an existing file is never rewritten. */
  lemma InitIdempotent(files: Files, path: Path)
    ensures Init(Init(files, path), path) == Init(files, path)
    ensures Load(Init(files, path), path) == if path in files then Load(files, path) else Ok(JArr([]))
  {
  }

  /** `a` and `b` agree on every path other than `path`. */
  ghost predicate SameElsewhere(a: Files, b: Files, path: Path)
  {
    forall p :: p != path ==> (p in a <==> p in b) && (p in a ==> a[p] == b[p])
  }

  /** Saving `e1 .. en` on a stored list appends their records in call order. */
  lemma {:induction false} SaveAllAppendsInOrder(files: Files, path: Path, entries: seq<string>)
    requires HoldsList(files, path)
    ensures SaveAll(files, path, entries).Ok?
    ensures Load(SaveAll(files, path, entries).value, path)
         == Ok(JArr(Load(files, path).value.items + Records(entries)))
    decreases |entries|
  {
    var items := Load(files, path).value.items;
    if entries == [] {
      assert items + Records(entries) == items;
    } else {
      SaveAppendsOne(files, path, entries[0]);
      var next := Save(files, path, entries[0]).value;
      assert SaveAll(files, path, entries) == SaveAll(next, path, entries[1..]);
      SaveAllAppendsInOrder(next, path, entries[1..]);
      assert Load(next, path).value.items == items + [EntryRecord(entries[0])];
      RecordsAppend([entries[0]], entries[1..]);
      assert [entries[0]] + entries[1..] == entries;
      assert Records([entries[0]]) == [EntryRecord(entries[0])];
      assert items + [EntryRecord(entries[0])] + Records(entries[1..]) == items + Records(entries);
    }
  }

  /** A series of saves leaves every other path as it was. */
  lemma {:induction false} SaveAllTouchesOnlyItsFile(files: Files, path: Path, entries: seq<string>)
    requires SaveAll(files, path, entries).Ok?
    ensures SameElsewhere(SaveAll(files, path, entries).value, files, path)
    decreases |entries|
  {
    if entries != [] {
      var next := Save(files, path, entries[0]).value;
      assert SaveAll(files, path, entries) == SaveAll(next, path, entries[1..]);
      SaveAllTouchesOnlyItsFile(next, path, entries[1..]);
      forall p | p != path
        ensures (p in next <==> p in files) && (p in next ==> next[p] == files[p])
      {
        SaveTouchesOnlyItsFile(files, path, entries[0], p);
      }
    }
  }

  /**
   * From a path with no file, opening the store and saving `e1 .. en` leaves
   * the list `[{entry: e1}, .., {entry: en}]`.
   */
  lemma FreshStoreHoldsEntriesInOrder(files: Files, path: Path, entries: seq<string>)
    requires path !in files
    ensures SaveAll(Init(files, path), path, entries).Ok?
    ensures Load(SaveAll(Init(files, path), path, entries).value, path) == Ok(JArr(Records(entries)))
  {
    SaveAllAppendsInOrder(Init(files, path), path, entries);
    assert [] + Records(entries) == Records(entries);
  }

  /** The file system, shared by every store opened on it. */
  class FileSystem {
    var files: Files

    constructor (files: Files)
      ensures this.files == files
    {
      this.files := files;
    }
  }

  /** A store bound to one file path. */
  class MemoryManager {
    const fs: FileSystem
    const memoryFile: Path

    /** Opens the store on `filePath`, writing an empty list there if no file exists. */
    constructor (fs: FileSystem, filePath: Path)
      modifies fs
      ensures this.fs == fs && memoryFile == filePath
      ensures fs.files == Init(old(fs.files), filePath)
    {
      this.fs := fs;
      memoryFile := filePath;
      new;
      if filePath !in fs.files {
        fs.files := fs.files[filePath := Parsed(JArr([]))];
      }
    }

    /** Opens the store on the default file name. */
    constructor OnDefaultFile(fs: FileSystem)
      modifies fs
      ensures this.fs == fs && memoryFile == DefaultMemoryFile
      ensures fs.files == Init(old(fs.files), DefaultMemoryFile)
    {
      this.fs := fs;
      memoryFile := DefaultMemoryFile;
      new;
      if DefaultMemoryFile !in fs.files {
        fs.files := fs.files[DefaultMemoryFile := Parsed(JArr([]))];
      }
    }

    /** Returns the stored value, reading the file and changing nothing. */
    method LoadMemories() returns (r: Result<Json, LoadError>)
      ensures r == Load(fs.files, memoryFile)
    {
      if memoryFile !in fs.files {
        return Err(FileNotFound);
      }
      match fs.files[memoryFile]
      case Parsed(v) => r := Ok(v);
      case Unparseable => r := Err(DecodeError);
    }

    /**
     * Appends `{"entry": entry}` to the stored list and rewrites the file.
     * When the file is missing, unparseable or not a list, nothing is written.
     */
    method SaveMemory(entry: string) returns (r: Outcome<SaveError>)
      modifies fs
      ensures r.Pass? <==> old(HoldsList(fs.files, memoryFile))
      ensures r.Pass? ==> fs.files == old(Save(fs.files, memoryFile, entry)).value
      ensures r.Pass? ==>
        Load(fs.files, memoryFile) == Ok(JArr(old(Load(fs.files, memoryFile)).value.items + [EntryRecord(entry)]))
      ensures r.Fail? ==> fs.files == old(fs.files) && r.error == old(Save(fs.files, memoryFile, entry)).error
      ensures SameElsewhere(fs.files, old(fs.files), memoryFile)
    {
      var memories := LoadMemories();
      if memories.Err? {
        return Fail(LoadFailed(memories.error));
      }
      if !memories.value.JArr? {
        return Fail(NotAList);
      }
      var items := memories.value.items + [EntryRecord(entry)];
      fs.files := fs.files[memoryFile := Parsed(JArr(items))];
      r := Pass;
    }
  }

  /** Two stores opened one after the other on the same path: the second open leaves the file alone. */
  method OpenTwice(fs: FileSystem, path: Path) returns (m1: MemoryManager, m2: MemoryManager)
    modifies fs
    ensures fs.files == Init(old(fs.files), path)
    ensures m1.memoryFile == path && m2.memoryFile == path
  {
    m1 := new MemoryManager(fs, path);
    ghost var afterFirst := fs.files;
    m2 := new MemoryManager(fs, path);
    InitIdempotent(old(fs.files), path);
    assert fs.files == afterFirst;
  }
}
