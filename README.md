# AOVB Real Estate API — verified model

This project models the two pieces of behaviour in the AOVB real-estate API
repository that are more than deployment plumbing:

- **The registration interpreter** (`interpreta_matricula`, with the status
  handler `home`). It takes the text of a property registration
  ("matrícula") and lowercases it once. It answers with four fields:
  `matricula`, the lowercased text itself, and three set by fixed substring
  tests on it:
  - `titular`: the owner name.
  - `uf`: the state.
  - `riscos`: an ordered list of at most two risk notices.
  
  Module `Matricula` models it as a total function. Python's `in` test on strings
  is `Text.Contains`, proved equal to a reference definition by index.
  Lowercasing is a parameter `lower: string -> string`: the model does not
  define case mapping.
- **The memory store** (`MemoryManager`). It is a JSON list of
  `{"entry": ...}` records kept in one file.
  - Opening the store creates the file with an empty list only when no file
    exists there.
  - Loading returns the parsed value.
  - Saving reads the list, appends one record and rewrites the whole file.
  
  Module `Memory` models the file system as a class holding a map from path
  to content. Content is a parsed JSON value or unparseable text.
  `MemoryManager` is a class whose constructor and `SaveMemory` modify that
  map. The functions `Init`, `Load`, `Save` and `SaveAll` specify those
  operations, and the lemmas about them state the store's promises:
  - opening is idempotent;
  - each save appends exactly one record;
  - earlier records never change;
  - saves in sequence append in call order;
  - nothing but the store's own file is written.

Behaviour worth knowing, proved as stated: the state test is a plain substring
test, so any text whose lowercased form contains a word such as "despesa" or
"espólio" gets `uf == "SP"` (`Matricula.UfSpForAnyWordContainingSp`).

`load_memories` returns whatever JSON value the file holds. A value that is
not a list makes `save_memory` fail at `append` (memory_manager.py:16) before
the file is reopened for writing (`SaveError.NotAList`), so nothing is written.

Files: `text.dfy` (substring containment), `matricula.dfy` (main.py),
`wrappers.dfy` (result types), `memory.dfy` (memory_manager.py).

## Model

| member | source | states |
|---|---|---|
| `Text.ContainsIffOccurs` | main.py:18-24 | the substring test holds exactly when the keyword occurs at some index of the text, both directions |
| `Text.EmptyIsContained` | main.py:18-24 | as with Python's `in`, the empty string is contained in every text |
| `Text.ContainsTransitive` | main.py:19 | a text containing `u` contains everything `u` contains |
| `Matricula.Home` | main.py:9-11 | the status endpoint always answers "AOVB Real Estate Connect API - Online" |
| `Matricula.Riscos` | main.py:20-25 | the mortgage notice is listed iff the text contains "hipoteca"; "Sem averbações recentes" is listed iff it does not contain "averbação"; the list holds only these, at most 2 and no duplicates; with both present the mortgage notice comes first |
| `Matricula.InterpretaMatricula` | main.py:14-26 | total; `matricula` is the lowercased input; `titular` is "João da Silva" iff that text contains "joão", else "Titular não identificado"; `uf` is "SP" iff it contains "são paulo" or "sp", else "UF desconhecida"; `riscos` is the risk list of that same lowercased text |
| `Matricula.ResponseDependsOnlyOnLowered` | main.py:15-26 | two inputs that lowercase alike get equal responses |
| `Matricula.ReinterpretingEchoIsStable` | main.py:15-17 | when lowercasing is idempotent on the input, resubmitting the echoed `matricula` gives the same response |
| `Matricula.UfSpForAnyWordContainingSp` | main.py:19 | any text whose lowercased form contains a word that contains "sp" gets `uf` "SP" |
| `Matricula.DespesaReadsAsSaoPaulo` | main.py:19 | a text whose lowercased form contains "despesa" gets `uf` "SP" |
| `Memory.Init` | memory_manager.py:6-8 | opening on an existing file leaves the file system unchanged; afterwards the path loads as before, or as the empty list if it was missing; no other path changes |
| `Memory.Load` | memory_manager.py:10-12 | loading succeeds iff the file exists and parses, and then returns exactly the stored value; a missing file is `FileNotFound` |
| `Memory.Save` | memory_manager.py:14-18 | saving succeeds iff the file holds a list; a failed load is reported with its cause; a stored non-list is `NotAList` |
| `Memory.SaveAppendsOne` | memory_manager.py:14-18 | a save leaves the previous list followed by `{"entry": e}`: one longer, earlier records unchanged in value and position, the new record last |
| `Memory.SaveTouchesOnlyItsFile` | memory_manager.py:15-18 | a successful save changes no path other than the store's file |
| `Memory.RecordsAppend` | memory_manager.py:14-18 | the records of two series of saves, one after the other, are the records of the first followed by those of the second |
| `Memory.InitIdempotent` | memory_manager.py:6-8 | opening twice equals opening once; after opening, a fresh path loads as the empty list and an existing file loads as before |
| `Memory.SaveAllAppendsInOrder` | memory_manager.py:14-18 | saves of e1..en on a stored list all succeed and append `{"entry": e1}`..`{"entry": en}` in call order |
| `Memory.SaveAllTouchesOnlyItsFile` | memory_manager.py:14-18 | a series of saves leaves every other path as it was |
| `Memory.FreshStoreHoldsEntriesInOrder` | memory_manager.py:4-18 | opening on a missing file and saving e1..en leaves exactly `[{"entry": e1}, .., {"entry": en}]` |
| `Memory.MemoryManager.constructor` | memory_manager.py:4-8 | binds the given path and writes the empty list there only if no file exists |
| `Memory.MemoryManager.OnDefaultFile` | memory_manager.py:4-8 | the same with the default path "memory.json" |
| `Memory.MemoryManager.LoadMemories` | memory_manager.py:10-12 | returns the load result for the store's file and modifies nothing |
| `Memory.MemoryManager.SaveMemory` | memory_manager.py:14-18 | succeeds iff the file holds a list; then the file holds the old list followed by `{"entry": e}` and every other path is unchanged; on failure nothing is written |
| `Memory.OpenTwice` | memory_manager.py:4-8 | two stores opened in turn on one path leave the file system as one opening does |

## Left out

- HTTP routing, request validation and response serialisation (FastAPI and pydantic, `main.py:1-13`). The handlers are modelled as functions of the request text.
- Unicode lowercasing (`str.lower`). It is the parameter `lower`; where idempotence is needed, it is a precondition.
- Text encoding and the JSON text itself: the 2-space indentation, UTF-8 and parsing. A file holds a parsed value, and writing then reading a value is taken to give it back. JSON numbers are integers only; floating point is not modelled.
- `Memory.MemoryManager.SaveMemory`: the entry is a string. Python accepts any value there, and a value that cannot be serialised would fail after the file was truncated. That path is not modelled.
- I/O failures other than a missing or unparseable file. `open(..., 'w')` can raise in the constructor (memory_manager.py:7) and in `save_memory` (memory_manager.py:17), for instance when the parent directory is missing or the file is read-only. `open(..., 'r')` can also raise on read (memory_manager.py:11), for instance `PermissionError` on an unreadable file. In the model every read and every write of the file-system map succeeds, so the constructor always succeeds, a load fails only with `FileNotFound` or `DecodeError`, and `SaveMemory` passes whenever the file holds a list.
- Crash atomicity of the rewrite, and concurrent writers. The model is sequential and each write is a single step.
- Directories and path aliasing. `os.path.exists` is also true for a directory, and two spellings of one path are distinct keys here.
- `drive_connector.py` is a stub that prints and returns `True`, and `codex_rc7_full_setup.py` is an interactive deploy script (prompts, environment variables, HTTP calls, logs). Neither is part of this model.
