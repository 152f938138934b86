# Nougat checkpoint acquisition and loading, modelled in Dafny

This project models two pieces of the Nougat OCR training repository:

- **Checkpoint acquisition** (`nougat/utils/checkpoint.py`). `get_checkpoint` picks the local model
  directory: the explicit argument, else the `NOUGAT_CHECKPOINT` environment variable, else
  `<hub dir>/nougat`. An existing regular file stands for the directory that holds it. When
  downloading is on and the directory is missing or has fewer than five entries, the directory is
  created with its parents, and a pass fetches the five release artifacts from
  `BASE_URL/MODEL_TAG/<name>`. Each payload is written only if it is longer than 15 bytes. A
  download streams its chunks into a buffer and advances a progress count by the length of each.
- **Checkpoint loading** in the training driver (`train.py`, `CustomCheckpointIO.load_checkpoint`).
  A file checkpoint gets its state dict from the sibling `pytorch_model.bin` if it has none. A
  directory checkpoint always gets the state dict of its own `pytorch_model.bin`. In both cases the
  weight keys are renamed with the `model.` prefix.

Files:

- `wrappers.dfy` (`Wrappers`): `Option` and `Result`.
- `paths.dfy` (`Paths`): paths as pathlib builds them. A path is an absolute flag plus a list of
  components. `Parse` splits a string on `/` and drops empty and `.` components. `Join`, `Parent`
  and `Name` are `/`, `.parent` and `.name`.
- `files.dfy` (`Files`): the filesystem as a finite map from paths to nodes, where a node is a
  file with bytes or a directory. It has `os.listdir` counting, `mkdir(parents=True,
  exist_ok=True)` and `write_bytes`, and each exception these raise is an `Error` value. The class
  `FileSystem` holds the map and updates it in place.
- `checkpoint.dfy` (`Checkpoint`): the constants, the chunk loop, the download pass and
  `get_checkpoint`. Each method is tied to a specification function. `DownloadCheckpoint` is tied
  to `FetchAll`, and `GetCheckpoint` to `Resolution`. The loop of `download_checkpoint` is the
  method `FetchArtifacts`, stated for any list of names, and its body is the method
  `FetchArtifact`, tied to one step `FetchOne` of `FetchAll`. The properties are lemmas about these
  functions.
- `train.dfy` (`Train`): the key renaming as a function on maps, its inverse, and
  `LoadCheckpoint`.

Inputs that the code reads from outside are parameters of the model:

- The environment is a `map<string, string>`.
- `torch.hub.get_dir()` is a string.
- The network is an oracle from URL to `Response`: the body chunks, and whether the transfer
  raises an error after them.
- `torch.load` is an oracle from path to an optional map, where `None` means the load raises.

Notes on the source:

- The code never checks the HTTP status (`raise_for_status` is not called). The body of an error
  response is therefore a payload like any other. A body of 15 bytes or fewer, such as a short "Not
  Found" page, is dropped. A longer one is written as though it were the artifact. The model keeps
  this behaviour: `Response` has no status.
- When `NOUGAT_CHECKPOINT` is set, even to the empty string, it wins over the hub directory.
  `Path("")` is `.`, the current directory.
- `checkpoint_path` is tested for Python truth. `None` and `""` fall through to the environment.
  Every path object is true, even `Path("")`. This is why `PathArg` tells a string from a path
  object.
- `os.listdir` on a target that is a regular file raises. In a consistent filesystem the parent of
  a file is never a file, but the map does not enforce that, so the model returns the error.

## Model

| member | source | states |
|---|---|---|
| `Paths.Parent` | nougat/utils/checkpoint.py:63 | the parent keeps absoluteness, drops exactly the last component, and a root is its own parent |
| `Paths.Join` | nougat/utils/checkpoint.py:52 | `dir / name` is an entry whose parent is `dir` and whose name is `name` |
| `Paths.AncestorsOrSelf` | nougat/utils/checkpoint.py:65 | the set holds the path and only its prefixes of the same kind, which are the directories `mkdir(parents=True)` may create |
| `Paths.SplitSlash` | nougat/utils/checkpoint.py:60 | splitting `a + "/" + b` gives the pieces of `a` followed by `b` |
| `Paths.ParseJoin` | nougat/utils/checkpoint.py:60 | for a non-empty hub dir, `Path(hub + "/nougat")` is the `nougat` entry of `Path(hub)` |
| `Paths.JoinInjective` | nougat/utils/checkpoint.py:52 | different names give different paths in one directory |
| `Files.ListDirCount` | nougat/utils/checkpoint.py:64 | listing succeeds exactly on directories and counts its entries; a missing path or a file raises |
| `Files.AfterMkdir` | nougat/utils/checkpoint.py:65 | on success the path is a directory, and every existing path is kept unchanged; each new path is a directory on the path's ancestor chain whose own parent is a directory; an existing directory leaves everything unchanged; an existing file raises `FileExists`; a `NotADirectory` error names the path itself |
| `Files.MkdirSucceeds` | nougat/utils/checkpoint.py:65 | `mkdir(parents=True, exist_ok=True)` succeeds whenever the root exists as a directory and no path on the ancestor chain is a regular file, creating the missing parents |
| `Files.AfterWrite` | nougat/utils/checkpoint.py:52 | writing succeeds exactly when the path is not a directory and its parent is one; it then sets that one path to the bytes and changes nothing else |
| `Files.FileSystem.Mkdir` | nougat/utils/checkpoint.py:65 | the in-place filesystem becomes `AfterMkdir` of the old one, or is unchanged and the error is returned |
| `Files.FileSystem.WriteBytes` | nougat/utils/checkpoint.py:52 | the in-place filesystem becomes `AfterWrite` of the old one, or is unchanged and the error is returned |
| `Checkpoint.Urls` | nougat/utils/checkpoint.py:48-49 | one URL per name, in order, each `BASE_URL/MODEL_TAG/name` |
| `Checkpoint.ConcatLength` | nougat/utils/checkpoint.py:33-36 | the buffer length equals the sum of the chunk lengths |
| `Checkpoint.DownloadAsBytes` | nougat/utils/checkpoint.py:20-36 | the buffer is the in-order concatenation of the chunks, or the transfer's error; the progress count is the sum of the chunk lengths and equals the payload length |
| `Checkpoint.FetchAllStep` | nougat/utils/checkpoint.py:48-52 | a pass that has not failed takes one more artifact by one more iteration |
| `Checkpoint.FailureSticks` | nougat/utils/checkpoint.py:48-52 | an error ends the pass: later artifacts are neither requested nor written |
| `Checkpoint.FetchAllRequests` | nougat/utils/checkpoint.py:48-50 | the pass requests the artifact URLs in order: all of them on success, and a non-empty prefix of them otherwise |
| `Checkpoint.FetchOneFailure` | nougat/utils/checkpoint.py:49-52 | an iteration that fails requested its URL, left the filesystem alone, and failed either in the download or in writing a payload longer than 15 bytes |
| `Checkpoint.FetchAllFailure` | nougat/utils/checkpoint.py:48-52 | a failed pass stops at the last artifact it requested: the pass over the names before it succeeded, and what those iterations wrote stays on disk; the error is that artifact's download error or the error of writing it |
| `Checkpoint.FetchOneFrame` | nougat/utils/checkpoint.py:51-52 | one iteration changes nothing but its own artifact path and removes nothing |
| `Checkpoint.FetchAllFrame` | nougat/utils/checkpoint.py:48-52 | no path outside the artifact paths of the directory is touched, and no path is removed |
| `Checkpoint.FetchAllWrites` | nougat/utils/checkpoint.py:50-52 | after a successful pass, each artifact path holds exactly its payload when that is longer than 15 bytes, and is as it was before otherwise |
| `Checkpoint.DownloadCheckpoint` | nougat/utils/checkpoint.py:39-52 | the loop leaves the filesystem, the requested URLs and the error exactly as `FetchAll` over the five names says |
| `Checkpoint.FetchArtifacts` | nougat/utils/checkpoint.py:48-52 | the loop over any list of names leaves the filesystem, the requested URLs and the error exactly as `FetchAll` over that list says; the first error ends it |
| `Checkpoint.FetchArtifact` | nougat/utils/checkpoint.py:49-52 | one iteration requests the artifact's URL and leaves the filesystem and the error exactly as `FetchOne` says |
| `Checkpoint.GetCheckpoint` | nougat/utils/checkpoint.py:55-67 | the filesystem, the requested URLs and the returned directory or error are exactly as `Resolution` says |
| `Checkpoint.ResolutionPriority` | nougat/utils/checkpoint.py:58-61 | a true argument wins whatever the environment and hub dir; otherwise `NOUGAT_CHECKPOINT` wins whatever the hub dir; otherwise the result is the `nougat` entry of the hub dir, for a non-empty hub dir |
| `Checkpoint.FileStandsForParent` | nougat/utils/checkpoint.py:62-67 | when the requested path is an existing regular file, its parent is what a successful call returns, and the parent's entry count, not the file, decides whether a pass runs; any other requested path plays both parts itself |
| `Checkpoint.ReturnsTarget` | nougat/utils/checkpoint.py:67 | a successful call returns the resolved target |
| `Checkpoint.DownloadRunsIff` | nougat/utils/checkpoint.py:64 | URLs are requested iff downloading is on and the target is missing or a directory with fewer than 5 entries (and creating it works); with downloading off, or with 5 or more entries, nothing changes, nothing is requested, and the target is returned |
| `Checkpoint.MissingTargetDownloads` | nougat/utils/checkpoint.py:62-66 | with downloading on, a missing target whose root exists and whose ancestor chain holds no regular file is created as a directory and a pass runs: the requests are a non-empty prefix of the artifact URLs in order, and all five when the call succeeds |
| `Checkpoint.ResolutionFrame` | nougat/utils/checkpoint.py:64-66 | a call changes no existing path except the five artifact paths; it adds only those paths and directories on the target's ancestor chain; once a pass has run, the target is a directory |
| `Checkpoint.TargetsCount` | nougat/utils/checkpoint.py:41-52 | distinct artifact names give as many distinct artifact paths |
| `Checkpoint.ArtifactTargets` | nougat/utils/checkpoint.py:41-47 | the five artifact paths are five distinct entries of the target |
| `Checkpoint.ArtifactUrlsInOrder` | nougat/utils/checkpoint.py:41-49 | the requested URLs are those of `config.json`, `pytorch_model.bin`, `special_tokens_map.json`, `tokenizer.json`, `tokenizer_config.json`, in that order |
| `Checkpoint.PassRan` | nougat/utils/checkpoint.py:64-66 | a call that requested anything first created the target as a directory, with `AfterMkdir`, and then ran the pass from there |
| `Checkpoint.FullPassOutcome` | nougat/utils/checkpoint.py:48-66 | a call that ran a pass and succeeded requested all five URLs in order, even when some files were already present; each artifact path holds its payload if longer than 15 bytes and is untouched otherwise |
| `Checkpoint.PopulatedEntries` | nougat/utils/checkpoint.py:51-64 | an empty target that gained the five artifact paths, plus only directories above it, has exactly those five entries |
| `Checkpoint.SecondCallDownloadsNothing` | nougat/utils/checkpoint.py:51-67 | idempotence: from a target without entries, with every payload over 15 bytes, the first call leaves exactly five entries; a second call then requests nothing, changes nothing and returns the same directory |
| `Train.PrefixInjective` | train.py:47-52 | `"model." + a == "model." + b` implies `a == b` |
| `Train.PrefixedKeysCount` | train.py:47-52 | prefixing a set of keys keeps its size |
| `Train.Prefixed` | train.py:47-52 | each key `k` maps to `"model." + k` with the same value; every key of the result starts with `model.` and comes from the input; the number of entries is the same |
| `Train.UnprefixedPrefixed` | train.py:47-52 | stripping the prefix gives back the original state dict |
| `Train.WithStateDict` | train.py:57-59 | only the `state_dict` entry is assigned, to the prefixed map; every other entry is preserved |
| `Train.LoadCheckpoint` | train.py:41-60 | file branch: a checkpoint that has `state_dict` is returned unchanged; otherwise `state_dict` is filled from `parent/pytorch_model.bin`. Directory branch: the checkpoint comes from `path/artifacts.ckpt` and its `state_dict` is replaced by that of `path/pytorch_model.bin`. Each failing load is returned as its error, and a returned checkpoint always has `state_dict` |

## Left out

- The HTTP client itself (`requests.get`, redirects, the `content-length` header). The network is an oracle, and the 65536-byte chunk size is not imposed on its chunks.
- The `tqdm` progress bar is shown only as the progress count. Its `total` and its display are not modelled.
- The `print` calls in `download_checkpoint` and `load_checkpoint` are console output only.
- `os.environ` and `torch.hub.get_dir()` are inputs, not part of the model.
- Filesystem behaviour beyond the path-to-node map is not modelled: symbolic links, permissions, full disks, and the mode of `mkdir`. The map is also not required to be a consistent tree.
- Path aliasing is not modelled: paths are map keys compared as written, so `..` is never resolved (a `mkdir` of `a/../b` creates the key `a/..`), and a relative path and the absolute path it names are different keys. The current working directory is not part of the model.
- Paths: pathlib's special double-slash root `//` is not modelled. Path-like objects other than strings and `Path` are not modelled either.
- The contents of `torch.load`/`torch.save` are not modelled. Tensors are opaque, and a load either yields a map or raises.
- `CustomCheckpointIO.save_checkpoint` and `remove_checkpoint` (train.py:38-39, 62-63) only delegate to `torch.save` and to the framework's base class.
- `GradNormCallback.gradient_norm` (train.py:72-79) is floating-point arithmetic.
- `train`, the trainer configuration, loggers, callbacks, datasets, the distributed strategy, `save_config_file` and the command line (train.py:85-182) are framework orchestration and I/O.
- Concurrent calls racing on the same directory: the code has no coordination, and the model is sequential.
