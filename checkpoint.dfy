/** Checkpoint acquisition (nougat/utils/checkpoint.py): resolve the local
    model directory and, when it is missing or holds fewer than five entries,
    fetch the five release artifacts into it.

    The network is an oracle `net` that gives, for every URL, the body of the
    response as the chunks the transfer streams, and whether the transfer
    broke off after them. The environment is a map from variable names to
    values, and the framework's hub directory is a string. */
module Checkpoint {
  import opened Wrappers
  import opened Paths
  import opened Files

  const BaseUrl: string := "https://github.com/facebookresearch/nougat/releases/download"
  const ModelTag: string := "0.1.0-small"

  /** The artifacts of a release, in the order they are fetched. */
  const ArtifactNames: seq<string> :=
    ["config.json", "pytorch_model.bin", "special_tokens_map.json", "tokenizer.json", "tokenizer_config.json"]

  /** A payload of at most this many bytes is taken for a placeholder and dropped. */
  const SanityLength: nat := 15

  /** A directory with at least this many entries counts as populated. */
  const CompleteCount: nat := 5

  const EnvVar: string := "NOUGAT_CHECKPOINT"
  const HubSubdir: string := "nougat"

  function ArtifactUrl(name: string): string {
    BaseUrl + "/" + ModelTag + "/" + name
  }

  /** The URLs of the given artifact names, in the same order. */
  function Urls(names: seq<string>): (urls: seq<string>)
    ensures |urls| == |names|
    ensures forall i :: 0 <= i < |names| ==> urls[i] == ArtifactUrl(names[i])
  {
    seq(|names|, i requires 0 <= i < |names| => ArtifactUrl(names[i]))
  }

  // ---------------------------------------------------------------------
  // Streaming one artifact (download_as_bytes_with_progress)
  // ---------------------------------------------------------------------

  /** What the transfer of one URL delivers: the body chunks in order, and
      whether an error is raised after the last of them. The HTTP status is
      not part of it: the code never checks it, so an error page is a body
      like any other. */
  datatype Response = Response(chunks: seq<Bytes>, failed: bool)

  type Network = string -> Response

  /** The chunks written one after another. */
  function Concat(chunks: seq<Bytes>): Bytes
    decreases |chunks|
  {
    if chunks == [] then [] else Concat(chunks[..|chunks| - 1]) + chunks[|chunks| - 1]
  }

  /** The sum of the chunk lengths. */
  function TotalLength(chunks: seq<Bytes>): nat
    decreases |chunks|
  {
    if chunks == [] then 0 else TotalLength(chunks[..|chunks| - 1]) + |chunks[|chunks| - 1]|
  }

  /** The progress count and the length of the buffer agree. */
  lemma {:induction false} ConcatLength(chunks: seq<Bytes>)
    ensures |Concat(chunks)| == TotalLength(chunks)
    decreases |chunks|
  {
    if chunks != [] {
      ConcatLength(chunks[..|chunks| - 1]);
    }
  }

  /** The bytes a download of url returns, or the error it raises. */
  function Payload(net: Network, url: string): Result<Bytes, Error> {
    if net(url).failed then Err(ConnectionFailed(url)) else Ok(Concat(net(url).chunks))
  }

  /** Streams the response to url into a buffer, advancing the progress count
      by the length of each chunk. */
  method DownloadAsBytes(net: Network, url: string) returns (payload: Result<Bytes, Error>, progress: nat)
    ensures payload == Payload(net, url)
    ensures progress == TotalLength(net(url).chunks)
    ensures payload.Ok? ==> |payload.value| == progress
  {
    var resp := net(url);
    var bio: Bytes := [];
    progress := 0;
    var i := 0;
    while i < |resp.chunks|
      invariant 0 <= i <= |resp.chunks|
      invariant bio == Concat(resp.chunks[..i])
      invariant progress == TotalLength(resp.chunks[..i])
    {
      var chunk := resp.chunks[i];
      assert resp.chunks[..i + 1][..i] == resp.chunks[..i];
      progress := progress + |chunk|;
      bio := bio + chunk;
      i := i + 1;
    }
    assert resp.chunks[..i] == resp.chunks;
    ConcatLength(resp.chunks);
    if resp.failed {
      payload := Err(ConnectionFailed(url));
    } else {
      payload := Ok(bio);
    }
  }

  // ---------------------------------------------------------------------
  // The fetch-and-populate pass (download_checkpoint)
  // ---------------------------------------------------------------------

  /** The state of a pass: the filesystem, the URLs requested so far, and
      the error that ended the pass, if one did. */
  datatype Pass = Pass(fs: Fs, requested: seq<string>, failure: Option<Error>)

  /** The payload of name is downloaded without error and is long enough to be written. */
  predicate LongPayload(net: Network, name: string) {
    var p := Payload(net, ArtifactUrl(name));
    p.Ok? && |p.value| > SanityLength
  }

  /** Path q is in a and b alike, with the same node. */
  predicate Untouched(a: Fs, b: Fs, q: Path) {
    (q in a <==> q in b) && (q in a ==> a[q] == b[q])
  }

  /** The paths a pass over names may write. */
  function Targets(dir: Path, names: seq<string>): set<Path> {
    set n | n in names :: Join(dir, n)
  }

  /** One iteration: request the artifact, and write it if it is long enough. */
  function FetchOne(prev: Pass, net: Network, dir: Path, name: string): Pass
    requires prev.failure.None?
  {
    var url := ArtifactUrl(name);
    var requested := prev.requested + [url];
    match Payload(net, url)
    case Err(e) => Pass(prev.fs, requested, Some(e))
    case Ok(data) =>
      if |data| > SanityLength then
        match AfterWrite(prev.fs, Join(dir, name), data)
        case Err(e) => Pass(prev.fs, requested, Some(e))
        case Ok(fs1) => Pass(fs1, requested, None)
      else
        Pass(prev.fs, requested, None)
  }

  /** The pass over names, stopping at the first error. */
  function FetchAll(fs: Fs, net: Network, dir: Path, names: seq<string>): Pass
    decreases |names|
  {
    if names == [] then Pass(fs, [], None)
    else
      var prev := FetchAll(fs, net, dir, names[..|names| - 1]);
      if prev.failure.Some? then prev else FetchOne(prev, net, dir, names[|names| - 1])
  }

  /** Extending a pass that has not failed by one name runs one more iteration. */
  lemma FetchAllStep(fs: Fs, net: Network, dir: Path, names: seq<string>, i: nat)
    requires i < |names|
    requires FetchAll(fs, net, dir, names[..i]).failure.None?
    ensures FetchAll(fs, net, dir, names[..i + 1]) == FetchOne(FetchAll(fs, net, dir, names[..i]), net, dir, names[i])
  {
    assert names[..i + 1][..i] == names[..i];
  }

  /** Once the pass has failed, the artifacts after the failing one change nothing. */
  lemma {:induction false} FailureSticks(fs: Fs, net: Network, dir: Path, names: seq<string>, k: nat)
    requires k <= |names|
    requires FetchAll(fs, net, dir, names[..k]).failure.Some?
    ensures FetchAll(fs, net, dir, names) == FetchAll(fs, net, dir, names[..k])
    decreases |names|
  {
    if k < |names| {
      var init := names[..|names| - 1];
      assert init[..k] == names[..k];
      FailureSticks(fs, net, dir, init, k);
    } else {
      assert names[..k] == names;
    }
  }

  /** The pass requests the artifacts' URLs in order: all of them when it
      succeeds, and up to and including the failing one when it does not. */
  lemma {:induction false} FetchAllRequests(fs: Fs, net: Network, dir: Path, names: seq<string>)
    ensures var p := FetchAll(fs, net, dir, names);
      |p.requested| <= |names| && p.requested == Urls(names)[..|p.requested|]
    ensures FetchAll(fs, net, dir, names).failure.None? ==> FetchAll(fs, net, dir, names).requested == Urls(names)
    ensures FetchAll(fs, net, dir, names).failure.Some? ==> FetchAll(fs, net, dir, names).requested != []
    decreases |names|
  {
    if names != [] {
      var init := names[..|names| - 1];
      FetchAllRequests(fs, net, dir, init);
      var prev := FetchAll(fs, net, dir, init);
      var urls := Urls(names);
      assert Urls(init) == urls[..|init|];
      if prev.failure.None? {
        var p := FetchOne(prev, net, dir, names[|names| - 1]);
        assert p.requested == Urls(init) + [urls[|names| - 1]];
        assert urls[..|p.requested|] == urls;
        assert urls == Urls(init) + [urls[|names| - 1]];
      } else {
        assert urls[..|init|][..|prev.requested|] == urls[..|prev.requested|];
      }
    }
  }

  /** One iteration changes nothing but the artifact's own path. */
  lemma FetchOneFrame(prev: Pass, net: Network, dir: Path, name: string)
    requires prev.failure.None?
    ensures var p := FetchOne(prev, net, dir, name);
      forall q :: q != Join(dir, name) ==> Untouched(prev.fs, p.fs, q)
    ensures prev.fs.Keys <= FetchOne(prev, net, dir, name).fs.Keys <= prev.fs.Keys + {Join(dir, name)}
  {
  }

  /** The set of paths a pass may write grows by one path per artifact. */
  lemma TargetsSnoc(dir: Path, names: seq<string>)
    requires names != []
    ensures Targets(dir, names) == Targets(dir, names[..|names| - 1]) + {Join(dir, names[|names| - 1])}
  {
    var init, name := names[..|names| - 1], names[|names| - 1];
    assert names == init + [name];
    forall q | q in Targets(dir, names)
      ensures q in Targets(dir, init) + {Join(dir, name)}
    {
      var n :| n in names && q == Join(dir, n);
      if n != name {
        assert n in init;
      }
    }
  }

  /** after is the failed iteration for name that followed before: it
      requested the artifact's URL, left the filesystem alone, and failed in
      the download or in writing the payload. */
  predicate FailedStep(before: Pass, after: Pass, net: Network, dir: Path, name: string) {
    var url := ArtifactUrl(name);
    before.failure.None? && after.fs == before.fs && after.requested == before.requested + [url] &&
    ((Payload(net, url).Err? && after.failure == Some(Payload(net, url).error)) ||
     (LongPayload(net, name) &&
      AfterWrite(before.fs, Join(dir, name), Payload(net, url).value).Err? &&
      after.failure == Some(AfterWrite(before.fs, Join(dir, name), Payload(net, url).value).error)))
  }

  /** An iteration that fails is a failed step. */
  lemma FetchOneFailure(prev: Pass, net: Network, dir: Path, name: string)
    requires prev.failure.None? && FetchOne(prev, net, dir, name).failure.Some?
    ensures FailedStep(prev, FetchOne(prev, net, dir, name), net, dir, name)
  {
  }

  /** The pass over names failed in the iteration for its last requested
      artifact, which followed a successful pass over the names before it. */
  predicate FailsAtLastRequest(fs: Fs, net: Network, dir: Path, names: seq<string>) {
    var p := FetchAll(fs, net, dir, names);
    var k := |p.requested| - 1;
    0 <= k < |names| && FailedStep(FetchAll(fs, net, dir, names[..k]), p, net, dir, names[k])
  }

  /** A failure inherited from the pass over all names but the last. */
  lemma FailureFromInit(fs: Fs, net: Network, dir: Path, names: seq<string>)
    requires names != []
    requires FetchAll(fs, net, dir, names[..|names| - 1]).failure.Some?
    requires FailsAtLastRequest(fs, net, dir, names[..|names| - 1])
    ensures FailsAtLastRequest(fs, net, dir, names)
  {
    var init := names[..|names| - 1];
    var prev := FetchAll(fs, net, dir, init);
    var k := |prev.requested| - 1;
    var before := FetchAll(fs, net, dir, init[..k]);
    assert FailedStep(before, prev, net, dir, init[k]);
    assert init[..k] == names[..k] && init[k] == names[k];
    assert FetchAll(fs, net, dir, names) == prev;
    assert FetchAll(fs, net, dir, names[..k]) == before;
  }

  /** A failure in the iteration for the last name. */
  lemma FailureAtLast(fs: Fs, net: Network, dir: Path, names: seq<string>)
    requires names != []
    requires FetchAll(fs, net, dir, names[..|names| - 1]).failure.None?
    requires FetchAll(fs, net, dir, names).failure.Some?
    ensures FailsAtLastRequest(fs, net, dir, names)
  {
    var k := |names| - 1;
    var prev := FetchAll(fs, net, dir, names[..k]);
    var p := FetchOne(prev, net, dir, names[k]);
    FetchAllStep(fs, net, dir, names, k);
    assert names[..k + 1] == names;
    FetchAllRequests(fs, net, dir, names[..k]);
    FetchOneFailure(prev, net, dir, names[k]);
    assert |p.requested| - 1 == k;
  }

  /** A pass that fails stops at the last artifact it requested: the pass
      over the names before it succeeded, the files those iterations wrote
      stay as they are, and the error is the download error of that artifact
      or the error of writing it. */
  lemma {:induction false} FetchAllFailure(fs: Fs, net: Network, dir: Path, names: seq<string>)
    requires FetchAll(fs, net, dir, names).failure.Some?
    ensures FailsAtLastRequest(fs, net, dir, names)
    decreases |names|
  {
    assert names != [];
    if FetchAll(fs, net, dir, names[..|names| - 1]).failure.Some? {
      FetchAllFailure(fs, net, dir, names[..|names| - 1]);
      FailureFromInit(fs, net, dir, names);
    } else {
      FailureAtLast(fs, net, dir, names);
    }
    assert FailsAtLastRequest(fs, net, dir, names);
  }

  /** The pass writes nothing but the artifact paths in dir, and never removes a path. */
  lemma {:induction false} FetchAllFrame(fs: Fs, net: Network, dir: Path, names: seq<string>)
    ensures var p := FetchAll(fs, net, dir, names);
      forall q :: q !in Targets(dir, names) ==> Untouched(fs, p.fs, q)
    ensures fs.Keys <= FetchAll(fs, net, dir, names).fs.Keys <= fs.Keys + Targets(dir, names)
    decreases |names|
  {
    if names != [] {
      var init := names[..|names| - 1];
      var name := names[|names| - 1];
      FetchAllFrame(fs, net, dir, init);
      TargetsSnoc(dir, names);
      var prev := FetchAll(fs, net, dir, init);
      if prev.failure.None? {
        FetchOneFrame(prev, net, dir, name);
        var p := FetchOne(prev, net, dir, name);
        forall q | q !in Targets(dir, names)
          ensures Untouched(fs, p.fs, q)
        {
          assert q !in Targets(dir, init) && q != Join(dir, name);
          assert Untouched(fs, prev.fs, q) && Untouched(prev.fs, p.fs, q);
        }
      }
    }
  }

  /** What a successful pass leaves at the path of artifact n: its payload
      when that is longer than the sanity length, and the path as it was in
      fs otherwise. */
  predicate HoldsPayload(fs: Fs, after: Fs, net: Network, dir: Path, n: string) {
    Payload(net, ArtifactUrl(n)).Ok? &&
    if LongPayload(net, n) then
      Join(dir, n) in after && after[Join(dir, n)] == File(Payload(net, ArtifactUrl(n)).value)
    else
      Untouched(fs, after, Join(dir, n))
  }

  /** One more successful iteration keeps what the earlier ones wrote and
      leaves the new artifact's path holding its payload. */
  lemma HoldsPayloadStep(fs: Fs, net: Network, dir: Path, init: seq<string>, prev: Pass, name: string, n: string)
    requires prev == FetchAll(fs, net, dir, init) && prev.failure.None?
    requires FetchOne(prev, net, dir, name).failure.None?
    requires n in init || n == name
    requires forall m :: m in init ==> HoldsPayload(fs, prev.fs, net, dir, m)
    ensures HoldsPayload(fs, FetchOne(prev, net, dir, name).fs, net, dir, n)
  {
    FetchOneFrame(prev, net, dir, name);
    if n != name {
      assert HoldsPayload(fs, prev.fs, net, dir, n);
      if Join(dir, n) == Join(dir, name) {
        JoinInjective(dir, n, name);
      }
    } else if name !in init {
      FetchAllFrame(fs, net, dir, init);
    } else {
      assert HoldsPayload(fs, prev.fs, net, dir, n);
    }
  }

  /** After a pass that succeeds, each artifact path holds exactly the
      downloaded bytes when they are longer than the sanity length, and is
      as it was before otherwise. */
  lemma {:induction false} FetchAllWrites(fs: Fs, net: Network, dir: Path, names: seq<string>)
    requires FetchAll(fs, net, dir, names).failure.None?
    ensures forall n :: n in names ==> HoldsPayload(fs, FetchAll(fs, net, dir, names).fs, net, dir, n)
    decreases |names|
  {
    if names != [] {
      var init, name := names[..|names| - 1], names[|names| - 1];
      var prev := FetchAll(fs, net, dir, init);
      assert prev.failure.None?;
      assert FetchAll(fs, net, dir, names) == FetchOne(prev, net, dir, name);
      FetchAllWrites(fs, net, dir, init);
      forall n | n in names
        ensures HoldsPayload(fs, FetchAll(fs, net, dir, names).fs, net, dir, n)
      {
        assert n in init || n == name by { assert names == init + [name]; }
        HoldsPayloadStep(fs, net, dir, init, prev, name, n);
      }
    }
  }

  /** `download_checkpoint(dir)`: fetch the five artifacts in order and write
      each one longer than the sanity length into dir. An error ends the
      pass and is returned; the files written before it stay. */
  method DownloadCheckpoint(disk: FileSystem, net: Network, dir: Path)
    returns (requested: seq<string>, failure: Option<Error>)
    modifies disk
    ensures FetchAll(old(disk.nodes), net, dir, ArtifactNames) == Pass(disk.nodes, requested, failure)
  {
    var files := ArtifactNames;
    requested, failure := FetchArtifacts(disk, net, dir, files);
  }

  /** One iteration of the loop of `download_checkpoint`: request the
      artifact's URL and write its payload into dir when it is longer than
      the sanity length. */
  method FetchArtifact(disk: FileSystem, net: Network, dir: Path, file: string, before: seq<string>)
    returns (requested: seq<string>, failure: Option<Error>)
    modifies disk
    ensures FetchOne(Pass(old(disk.nodes), before, None), net, dir, file) == Pass(disk.nodes, requested, failure)
  {
    var url := ArtifactUrl(file);
    requested := before + [url];
    var binary, _ := DownloadAsBytes(net, url);
    if binary.Err? {
      failure := Some(binary.error);
    } else if |binary.value| > SanityLength {
      failure := disk.WriteBytes(Join(dir, file), binary.value);
    } else {
      failure := None;
    }
  }

  /** The loop of `download_checkpoint` over its list of artifact names,
      stated for any list: each name is fetched in turn and the first
      error returns. */
  method FetchArtifacts(disk: FileSystem, net: Network, dir: Path, files: seq<string>)
    returns (requested: seq<string>, failure: Option<Error>)
    modifies disk
    ensures FetchAll(old(disk.nodes), net, dir, files) == Pass(disk.nodes, requested, failure)
  {
    ghost var fs0 := disk.nodes;
    requested, failure := [], None;
    var i := 0;
    while i < |files|
      invariant 0 <= i <= |files|
      invariant FetchAll(fs0, net, dir, files[..i]) == Pass(disk.nodes, requested, None)
      invariant failure.None?
    {
      FetchAllStep(fs0, net, dir, files, i);
      requested, failure := FetchArtifact(disk, net, dir, files[i], requested);
      if failure.Some? {
        FailureSticks(fs0, net, dir, files, i + 1);
        return;
      }
      i := i + 1;
    }
    assert files[..i] == files;
  }

  // ---------------------------------------------------------------------
  // Resolving the directory (get_checkpoint)
  // ---------------------------------------------------------------------

  /** The `checkpoint_path` argument: absent, a string, or a path object.
      Python treats None and "" as false and every path object as true. */
  datatype PathArg = NoPath | Text(s: string) | PathObject(p: Path)

  predicate Truthy(arg: PathArg) {
    match arg
    case NoPath => false
    case Text(s) => s != ""
    case PathObject(_) => true
  }

  function AsPath(arg: PathArg): Path
    requires Truthy(arg)
  {
    match arg
    case Text(s) => Parse(s)
    case PathObject(p) => p
  }

  /** The path asked for: the argument, else the environment override, else
      the nougat directory under the hub directory. */
  function RequestedPath(arg: PathArg, env: map<string, string>, hubDir: string): Path {
    if Truthy(arg) then AsPath(arg)
    else if EnvVar in env then Parse(env[EnvVar])
    else Parse(hubDir + "/" + HubSubdir)
  }

  /** An existing regular file stands for the directory that holds it. */
  function Target(fs: Fs, requested: Path): Path {
    if IsFile(fs, requested) then Parent(requested) else requested
  }

  function TargetOf(fs: Fs, arg: PathArg, env: map<string, string>, hubDir: string): Path {
    Target(fs, RequestedPath(arg, env, hubDir))
  }

  /** The download condition, evaluated left to right as Python does: the
      directory is listed only when downloading is on and it exists. */
  function NeedsDownload(fs: Fs, target: Path, download: bool): Result<bool, Error> {
    if !download then Ok(false)
    else if target !in fs then Ok(true)
    else
      match ListDirCount(fs, target)
      case Err(e) => Err(e)
      case Ok(count) => Ok(count < CompleteCount)
  }

  /** The outcome of a call: the filesystem after it, the URLs it requested,
      and the directory it returns or the error it raises. */
  datatype Run = Run(fs: Fs, requested: seq<string>, result: Result<Path, Error>)

  function Resolution(fs: Fs, net: Network, arg: PathArg, env: map<string, string>, hubDir: string, download: bool): Run {
    var target := TargetOf(fs, arg, env, hubDir);
    match NeedsDownload(fs, target, download)
    case Err(e) => Run(fs, [], Err(e))
    case Ok(needed) =>
      if !needed then Run(fs, [], Ok(target))
      else
        match AfterMkdir(fs, target)
        case Err(e) => Run(fs, [], Err(e))
        case Ok(fs1) =>
          var pass := FetchAll(fs1, net, target, ArtifactNames);
          Run(pass.fs, pass.requested, if pass.failure.Some? then Err(pass.failure.value) else Ok(target))
  }

  /** `get_checkpoint(checkpoint_path, download)`. */
  method GetCheckpoint(disk: FileSystem, net: Network, arg: PathArg, env: map<string, string>, hubDir: string, download: bool)
    returns (result: Result<Path, Error>, requested: seq<string>)
    modifies disk
    ensures Resolution(old(disk.nodes), net, arg, env, hubDir, download) == Run(disk.nodes, requested, result)
  {
    ghost var fs0 := disk.nodes;
    var checkpoint := RequestedPath(arg, env, hubDir);
    if checkpoint in disk.nodes && disk.nodes[checkpoint].File? {
      checkpoint := Parent(checkpoint);
    }
    assert checkpoint == TargetOf(fs0, arg, env, hubDir);
    requested := [];
    if download {
      var needed := true;
      if checkpoint in disk.nodes {
        var count := ListDirCount(disk.nodes, checkpoint);
        if count.Err? {
          assert NeedsDownload(fs0, checkpoint, download) == Err(count.error);
          return Err(count.error), [];
        }
        needed := count.value < CompleteCount;
      }
      assert NeedsDownload(fs0, checkpoint, download) == Ok(needed);
      if needed {
        var made := disk.Mkdir(checkpoint);
        if made.Some? {
          return Err(made.value), [];
        }
        assert AfterMkdir(fs0, checkpoint) == Ok(disk.nodes);
        var failure;
        requested, failure := DownloadCheckpoint(disk, net, checkpoint);
        if failure.Some? {
          return Err(failure.value), requested;
        }
      }
    }
    result := Ok(checkpoint);
  }

  // ---------------------------------------------------------------------
  // Properties of get_checkpoint
  // ---------------------------------------------------------------------

  /** The argument wins whenever it is true in Python's sense, whatever the
      environment and hub directory; otherwise the override wins whatever
      the hub directory; otherwise the result is the nougat entry of the hub
      directory. */
  lemma ResolutionPriority(arg: PathArg, env: map<string, string>, hubDir: string, env': map<string, string>, hubDir': string)
    ensures Truthy(arg) ==> RequestedPath(arg, env, hubDir) == RequestedPath(arg, env', hubDir') == AsPath(arg)
    ensures !Truthy(arg) && EnvVar in env ==>
      RequestedPath(arg, env, hubDir) == RequestedPath(NoPath, env, hubDir') == Parse(env[EnvVar])
    ensures !Truthy(arg) && EnvVar !in env && hubDir != "" ==>
      RequestedPath(arg, env, hubDir) == Join(Parse(hubDir), HubSubdir)
  {
    if !Truthy(arg) && EnvVar !in env && hubDir != "" {
      ParseJoin(hubDir, HubSubdir);
    }
  }

  /** A requested path that is an existing regular file is replaced by its
      parent: the parent's entries, not the file, decide whether a pass runs,
      and the parent is what a successful call returns. Any other requested
      path plays both parts itself. */
  lemma FileStandsForParent(fs: Fs, net: Network, arg: PathArg, env: map<string, string>, hubDir: string, download: bool)
    ensures var p, r := RequestedPath(arg, env, hubDir), Resolution(fs, net, arg, env, hubDir, download);
      var d := if IsFile(fs, p) then Parent(p) else p;
      (r.result.Ok? ==> r.result.value == d) &&
      (r.requested != [] <==>
        download && (d !in fs || (IsDir(fs, d) && |Entries(fs, d)| < CompleteCount)) && AfterMkdir(fs, d).Ok?)
  {
    ReturnsTarget(fs, net, arg, env, hubDir, download);
    DownloadRunsIff(fs, net, arg, env, hubDir, download);
  }

  /** A call that succeeds returns the resolved target. */
  lemma ReturnsTarget(fs: Fs, net: Network, arg: PathArg, env: map<string, string>, hubDir: string, download: bool)
    ensures var r := Resolution(fs, net, arg, env, hubDir, download);
      r.result.Ok? ==> r.result.value == TargetOf(fs, arg, env, hubDir)
  {
  }

  /** The pass runs exactly when downloading is on and the target is missing
      or a directory with fewer than five entries (and creating it works);
      a running pass always requests something. */
  lemma DownloadRunsIff(fs: Fs, net: Network, arg: PathArg, env: map<string, string>, hubDir: string, download: bool)
    ensures var t := TargetOf(fs, arg, env, hubDir);
      Resolution(fs, net, arg, env, hubDir, download).requested != [] <==>
        download && (t !in fs || (IsDir(fs, t) && |Entries(fs, t)| < CompleteCount)) && AfterMkdir(fs, t).Ok?
    ensures var t := TargetOf(fs, arg, env, hubDir);
      !download || (IsDir(fs, t) && |Entries(fs, t)| >= CompleteCount) ==>
        Resolution(fs, net, arg, env, hubDir, download) == Run(fs, [], Ok(t))
  {
    var t := TargetOf(fs, arg, env, hubDir);
    if NeedsDownload(fs, t, download) == Ok(true) && AfterMkdir(fs, t).Ok? {
      FetchAllRequests(AfterMkdir(fs, t).value, net, t, ArtifactNames);
    }
  }

  /** A missing target is created and fetched into whenever downloading is on,
      its root exists and no regular file stands on the chain of directories
      above it: the target becomes a directory, the artifact URLs are
      requested in order, and all five of them when the call succeeds. */
  lemma MissingTargetDownloads(fs: Fs, net: Network, arg: PathArg, env: map<string, string>, hubDir: string)
    ensures var t, r := TargetOf(fs, arg, env, hubDir), Resolution(fs, net, arg, env, hubDir, true);
      t !in fs && IsDir(fs, Path(t.absolute, [])) && (forall q :: q in AncestorsOrSelf(t) ==> !IsFile(fs, q)) ==>
        r.requested != [] && IsDir(r.fs, t) &&
        |r.requested| <= |ArtifactNames| && r.requested == Urls(ArtifactNames)[..|r.requested|] &&
        (r.result.Ok? ==> r.requested == Urls(ArtifactNames))
  {
    var t, r := TargetOf(fs, arg, env, hubDir), Resolution(fs, net, arg, env, hubDir, true);
    MkdirSucceeds(fs, t);
    DownloadRunsIff(fs, net, arg, env, hubDir, true);
    ResolutionFrame(fs, net, arg, env, hubDir, true);
    if r.requested != [] {
      PassRan(fs, net, arg, env, hubDir, true);
      FetchAllRequests(AfterMkdir(fs, t).value, net, t, ArtifactNames);
    }
  }

  /** The pass never touches a path other than the five artifact paths in
      the target, except to create the target and its missing parents as
      directories; once it has run, the target is a directory. */
  lemma ResolutionFrame(fs: Fs, net: Network, arg: PathArg, env: map<string, string>, hubDir: string, download: bool)
    ensures var t, r := TargetOf(fs, arg, env, hubDir), Resolution(fs, net, arg, env, hubDir, download);
      forall q :: q in fs && q !in Targets(t, ArtifactNames) ==> q in r.fs && r.fs[q] == fs[q]
    ensures var t, r := TargetOf(fs, arg, env, hubDir), Resolution(fs, net, arg, env, hubDir, download);
      forall q :: q in r.fs && q !in fs ==>
        q in Targets(t, ArtifactNames) || (r.fs[q] == Dir && q in AncestorsOrSelf(t))
    ensures var t, r := TargetOf(fs, arg, env, hubDir), Resolution(fs, net, arg, env, hubDir, download);
      r.requested != [] ==> IsDir(r.fs, t)
  {
    var t := TargetOf(fs, arg, env, hubDir);
    if NeedsDownload(fs, t, download) == Ok(true) && AfterMkdir(fs, t).Ok? {
      var fs1 := AfterMkdir(fs, t).value;
      FetchAllFrame(fs1, net, t, ArtifactNames);
      assert t !in Targets(t, ArtifactNames);
    }
  }

  /** Distinct names give as many artifact paths as there are names. */
  lemma {:induction false} TargetsCount(t: Path, names: seq<string>)
    requires forall i, j :: 0 <= i < j < |names| ==> names[i] != names[j]
    ensures |Targets(t, names)| == |names|
    decreases |names|
  {
    if names != [] {
      var init, name := names[..|names| - 1], names[|names| - 1];
      TargetsSnoc(t, names);
      TargetsCount(t, init);
    }
  }

  /** The five artifact paths of a directory are five different entries of it. */
  lemma ArtifactTargets(t: Path)
    ensures |Targets(t, ArtifactNames)| == CompleteCount
    ensures forall q :: q in Targets(t, ArtifactNames) ==> IsChild(t, q)
  {
    var names := ArtifactNames;
    assert |names[0]| == 11 && |names[1]| == 17 && |names[2]| == 23 && |names[3]| == 14 && |names[4]| == 21;
    TargetsCount(t, names);
  }

  /** The five artifact URLs, in the order they are requested. */
  lemma ArtifactUrlsInOrder()
    ensures Urls(ArtifactNames) == [
      ArtifactUrl("config.json"), ArtifactUrl("pytorch_model.bin"), ArtifactUrl("special_tokens_map.json"),
      ArtifactUrl("tokenizer.json"), ArtifactUrl("tokenizer_config.json")]
  {
    var u := Urls(ArtifactNames);
    assert u == [u[0], u[1], u[2], u[3], u[4]];
  }

  /** A call that requested anything ran the pass over the created target. */
  lemma PassRan(fs: Fs, net: Network, arg: PathArg, env: map<string, string>, hubDir: string, download: bool)
    requires Resolution(fs, net, arg, env, hubDir, download).requested != []
    ensures var t := TargetOf(fs, arg, env, hubDir);
      NeedsDownload(fs, t, download) == Ok(true) && AfterMkdir(fs, t).Ok? &&
      var pass := FetchAll(AfterMkdir(fs, t).value, net, t, ArtifactNames);
      Resolution(fs, net, arg, env, hubDir, download) ==
        Run(pass.fs, pass.requested, if pass.failure.Some? then Err(pass.failure.value) else Ok(t))
  {
  }

  /** A call that ran a pass and succeeded requested the five artifact URLs
      in order and left each artifact path holding its downloaded bytes when
      they were long enough, and as it was before otherwise. */
  lemma FullPassOutcome(fs: Fs, net: Network, arg: PathArg, env: map<string, string>, hubDir: string, download: bool)
    requires var r := Resolution(fs, net, arg, env, hubDir, download); r.requested != [] && r.result.Ok?
    ensures Resolution(fs, net, arg, env, hubDir, download).requested == Urls(ArtifactNames)
    ensures var t, r := TargetOf(fs, arg, env, hubDir), Resolution(fs, net, arg, env, hubDir, download);
      forall n :: n in ArtifactNames ==>
        if LongPayload(net, n) then
          Join(t, n) in r.fs && r.fs[Join(t, n)] == File(Payload(net, ArtifactUrl(n)).value)
        else
          Untouched(fs, r.fs, Join(t, n))
  {
    var t := TargetOf(fs, arg, env, hubDir);
    PassRan(fs, net, arg, env, hubDir, download);
    var fs1 := AfterMkdir(fs, t).value;
    var pass := FetchAll(fs1, net, t, ArtifactNames);
    assert pass.failure.None?;
    FetchAllRequests(fs1, net, t, ArtifactNames);
    FetchAllWrites(fs1, net, t, ArtifactNames);
    forall n | n in ArtifactNames
      ensures Untouched(fs, fs1, Join(t, n))
    {
      assert |Join(t, n).parts| > |t.parts|;
    }
  }

  /** A target that had no entries and gained the five artifact paths, and
      otherwise only directories above it, has exactly those five entries. */
  lemma PopulatedEntries(fs: Fs, fs2: Fs, t: Path)
    requires Entries(fs, t) == {}
    requires forall q :: q in fs2 && q !in fs ==> q in Targets(t, ArtifactNames) || q in AncestorsOrSelf(t)
    requires forall q :: q in Targets(t, ArtifactNames) ==> q in fs2
    ensures Entries(fs2, t) == Targets(t, ArtifactNames)
  {
    ArtifactTargets(t);
    forall q | q in Entries(fs2, t)
      ensures q in Targets(t, ArtifactNames)
    {
      assert q !in fs by { assert q !in Entries(fs, t); }
      assert |q.parts| == |t.parts| + 1;
    }
  }

  /** Idempotence: a call on a target without entries, with every artifact
      downloading to more than the sanity length, leaves the target with
      exactly the five artifacts, and a second call then downloads nothing,
      changes nothing and returns the same directory. */
  lemma SecondCallDownloadsNothing(fs: Fs, net: Network, arg: PathArg, env: map<string, string>, hubDir: string)
    requires Entries(fs, TargetOf(fs, arg, env, hubDir)) == {}
    requires forall n :: n in ArtifactNames ==> LongPayload(net, n)
    requires Resolution(fs, net, arg, env, hubDir, true).result.Ok?
    ensures var r := Resolution(fs, net, arg, env, hubDir, true);
      Entries(r.fs, r.result.value) == Targets(r.result.value, ArtifactNames) &&
      |Entries(r.fs, r.result.value)| == CompleteCount
    ensures var r := Resolution(fs, net, arg, env, hubDir, true);
      Resolution(r.fs, net, arg, env, hubDir, true) == Run(r.fs, [], r.result)
  {
    var t := TargetOf(fs, arg, env, hubDir);
    var p := RequestedPath(arg, env, hubDir);
    var r := Resolution(fs, net, arg, env, hubDir, true);
    var fs2 := r.fs;
    ReturnsTarget(fs, net, arg, env, hubDir, true);
    assert r.result == Ok(t);
    DownloadRunsIff(fs, net, arg, env, hubDir, true);
    assert r.requested != [] by {
      assert IsFile(fs, t) ==> ListDirCount(fs, t).Err?;
    }
    ResolutionFrame(fs, net, arg, env, hubDir, true);
    FullPassOutcome(fs, net, arg, env, hubDir, true);
    ArtifactTargets(t);
    forall q | q in Targets(t, ArtifactNames)
      ensures q in fs2
    {
      var n :| n in ArtifactNames && q == Join(t, n);
      assert LongPayload(net, n);
    }
    PopulatedEntries(fs, fs2, t);
    // The second call resolves to the same target.
    if IsFile(fs, p) {
      if p in Targets(t, ArtifactNames) {
        var n :| n in ArtifactNames && p == Join(t, n);
        assert LongPayload(net, n);
      }
      assert IsFile(fs2, p);
    } else {
      assert IsDir(fs2, p);
    }
    assert TargetOf(fs2, arg, env, hubDir) == t;
    DownloadRunsIff(fs2, net, arg, env, hubDir, true);
  }
}
