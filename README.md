# Manifest updater for `repo.json`

This project models the one rule in the release script `scripts/update_repo_json.py`:
how `main()` updates the distribution manifest `repo.json` after a release.

The script first combines command-line flags with environment variables. It then
stops early in a fixed order. A missing manifest fails. A missing or empty release tag
is a no-op. An empty `apps` list fails. A missing size fails. Otherwise it builds a new
version record and updates four fields of `apps[0]` in place, tracking a `changed`
flag. It then puts the new record at the head of `apps[0].versions`. It prepends the
record when the current head carries a different version, and replaces the head when
the head already carries this release. Finally it writes the manifest back whenever
something changed.

Modules:

- `Wrappers` (`wrappers.dfy`): `Option`, for JSON keys that may be absent and flags
  that may not be given.
- `PyStr` (`pystr.dfy`): the Python string semantics the script relies on. This covers
  the truth value of an optional string, `str.isspace`, `str.strip` and `str.join`.
  The lemma `TrimEndConcat` describes `rstrip` of a concatenation.
  `StripIsSlice`, `JoinAppend` and `AsciiSpaces` characterise `strip`, `join` and the
  whitespace set.
- `RepoJson` (`repo_json.dfy`): the document. `VersionEntry` is a value. `App` and
  `Manifest` are classes, because the script changes the app object in place. The app
  keys and the two entry keys the script reads (`version`, `minOSVersion`) are
  `Option`s because it reads them with `dict.get`. The other entry keys are `Option`s
  because an existing entry may lack them. `None` stands for both an absent key and a
  JSON `null`. Keys the script neither reads nor writes are kept in an opaque
  `others` map, which never holds a modelled key name.
- `UpdateRepoJson` (`update_repo_json.dfy`): the pure steps (`ResolveInputs`,
  `NewDownload`, `Describe`, `NewEntry`, `NextVersions`), the in-place steps
  `UpdateFields` and `UpdateVersions`, combined by `ApplyUpdate` with the `changed` flag, and the whole run `Run`.

The inputs of a run are modelled as follows:

- The parsed flags are an `Args` value.
- The environment is an `Env` value.
- A manifest that does not exist is a null `Manifest?`.
- The clock reading is a timestamp string argument.
- Whether the file is written back is the outcome `Written`.

The outcomes and their exit codes:

- `NoOp`: exit 0.
- `Written`: exit 0.
- `Unchanged`: exit 0. This is the "no changes required" report.
- `Failed(ManifestMissing | NoApps | SizeMissing)`: exit 1.

`Run` proves that `Unchanged` never happens. The history step assigns on every path,
so every run that gets that far writes the file.

The script's own comments describe more than its code does; the model follows the
code:

- The help text of `--size` (line 25) and the comment at line 61 say a missing size
  is probed or taken from the existing value. The code instead fails at lines 63-67.
- The size has no environment fallback (line 36).
- When no URL is given and the app has no non-empty `downloadURL`, the new URL is
  `""` (line 59).
- When the size is missing, line 66 calls `printf`, which is not defined. The run
  therefore ends with an uncaught `NameError` instead of printing its message. The
  exit status is 1 in both cases, and nothing has been written. The model's
  `Failed(SizeMissing)` stands for that exit.

## Model

| member | source | states |
|---|---|---|
| `PyStr.Truthy` | scripts/update_repo_json.py:33-35 | Python's truth value of `None` or a string: false exactly for `None` and `""`, as used by `or` (lines 33-35) and the tests at lines 46, 59, 74 and 95 |
| `PyStr.AsciiSpaces` | scripts/update_repo_json.py:78 | the whitespace set `IsSpace` (that of `str.isspace`, which `strip()` removes) is, on ASCII, exactly tab, LF, VT, FF, CR, the separators 0x1C-0x1F and space |
| `PyStr.TrimStart` | scripts/update_repo_json.py:78 | leading-whitespace removal (`lstrip`): the result is a suffix of the input, everything removed is whitespace, and the result does not start with whitespace |
| `PyStr.TrimEnd` | scripts/update_repo_json.py:78 | trailing-whitespace removal (`rstrip`): the result is a prefix of the input, everything removed is whitespace, and the result does not end with whitespace |
| `PyStr.Strip` | scripts/update_repo_json.py:78 | `strip()` leaves a string that neither starts nor ends with whitespace |
| `PyStr.StripIsSlice` | scripts/update_repo_json.py:78 | `strip()` returns a slice of its input, and every character it cuts off on either side is whitespace |
| `PyStr.TrimEndConcat` | scripts/update_repo_json.py:78 | `rstrip` of `a + b` is `a + rstrip(b)`, unless `b` is all whitespace, in which case it is `rstrip(a)` |
| `PyStr.JoinAppend` | scripts/update_repo_json.py:78 | `sep.join` step by step: `[]` joins to `""`, `[p]` to `p`, and appending a part to a non-empty list appends the separator and that part |
| `PyStr.JoinTwo` | scripts/update_repo_json.py:78 | `sep.join([a, b])` is `a + sep + b` |
| `PyStr.StripAfterFramed` | scripts/update_repo_json.py:78 | stripping `h + sep + n`, with `h` framed by non-whitespace and `sep` all whitespace, keeps `h`, and keeps `sep` followed by `rstrip(n)` exactly when `n` has non-whitespace content |
| `UpdateRepoJson.PreferFlag` | scripts/update_repo_json.py:33-35 | `flag or env`: a non-empty flag wins, otherwise the environment value is taken; the result is truthy exactly when one of the two is |
| `UpdateRepoJson.ResolveInputs` | scripts/update_repo_json.py:33-36 | tag, URL and notes each resolve by `PreferFlag` (flag over environment, an empty flag counting as absent); the size comes from its flag only |
| `UpdateRepoJson.Outcome.ExitCode` | scripts/update_repo_json.py:39-67 | the exit status is 1 exactly for the failures (missing manifest, no apps, missing size) and 0 otherwise |
| `UpdateRepoJson.NewDownload` | scripts/update_repo_json.py:59 | the new URL is the given URL if non-empty, else the app's current URL if non-empty, else `""`; it is empty exactly when neither is non-empty |
| `UpdateRepoJson.Describe` | scripts/update_repo_json.py:73-78 | the description is the header sentence naming the release, then, when the notes have non-whitespace content, a blank line and the notes with only their trailing whitespace removed |
| `UpdateRepoJson.Head` | scripts/update_repo_json.py:81-83 | the previous entry exists exactly when `versions` is present and non-empty, and it is `versions[0]` |
| `UpdateRepoJson.NewEntry` | scripts/update_repo_json.py:85-96 | the new record carries the release, build version `"1"`, the given size, URL, date and description, and no other keys; it has a `minOSVersion` exactly when the previous head had a non-empty one, and then the same value |
| `UpdateRepoJson.NextVersions` | scripts/update_repo_json.py:117-130 | the new record always ends up on top; an absent history becomes `[entry]`; an empty history, or a head with another version, gets one more element with the old history following unchanged; a head with this release is replaced, keeping the length and every later entry |
| `UpdateRepoJson.RerunReplacesHead` | scripts/update_repo_json.py:117-130 | a second run with the same release replaces the entry the first run put on top, so the history length converges |
| `UpdateRepoJson.MinOSVersionPersists` | scripts/update_repo_json.py:81-130 | a non-empty `minOSVersion` on the head is carried to the new head by every later run |
| `UpdateRepoJson.UpdateFields` | scripts/update_repo_json.py:98-115 | the four fields hold the new release, date, URL and size; the history and other keys are untouched; the dirty flag is set exactly when at least one field differed |
| `UpdateRepoJson.UpdateVersions` | scripts/update_repo_json.py:117-130 | the history becomes `NextVersions` of the old one, nothing else changes, and the dirty flag is always set |
| `UpdateRepoJson.ApplyUpdate` | scripts/update_repo_json.py:98-130 | after the in-place step, `version`, `versionDate`, `downloadURL` and `size` hold the new values, `versions` is `NextVersions` of the old history, other keys are untouched, and `changed` is always true |
| `UpdateRepoJson.Run` | scripts/update_repo_json.py:29-139 | early exits in source order (missing manifest before missing tag, then no apps, then missing size), none of which modifies any app; on success the first app holds exactly the new fields and history; other apps are never modified; the "no changes required" outcome is unreachable |

## Left out

- Argument parsing and environment lookup (lines 20-26 and the `os.environ.get` calls): their results are the `Args` and `Env` inputs.
- File-existence test, reading, JSON parsing and writing (lines 38-44 and 132-134): the parsed document is a parameter, absence is null, and writing is the `Written` outcome. A malformed JSON file raises in the source; this is not modelled.
- JSON values of unexpected types (a numeric `version`, a non-list `versions`, a non-object app): every modelled key has the type the manifest format documents.
- Key order of the serialised objects and the output formatting (indentation, non-ASCII characters): maps are unordered here.
- The clock read at line 70: the timestamp is the `now` argument, taken as an opaque string.
- Printed status messages and the `NameError` traceback: only the outcome and its exit status are modelled.
- The unused `urllib` imports and the size probing that the comments mention: the source contains no such code.
- Strings that are not sequences of Unicode scalar values: a Python `str` may hold lone surrogates (from undecodable argument or environment bytes, or a `\ud800` escape in the JSON). On such a value `json.dump(..., ensure_ascii=False)` raises while writing the already-truncated file (lines 133-134). Dafny strings here hold scalar values only, so this failure is not modelled.
