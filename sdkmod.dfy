/** The SDK modifier: it asks the local cache service where the requested SDK
    image is unpacked and, when it is there and is an SDK, bind-mounts it into
    the container and prepends its directories to `PATH` and `LD_LIBRARY_PATH`.
    The cache service is an oracle: a reply per request, and a log of the
    requests sent, in order. */
module SdkMod {
  import opened Wrappers
  import Specs
  import Image

  const VisibleSdkEnvvar: string := "COREX_IMAGE"
  const PathEnv: string := "PATH"
  const LdPathEnv: string := "LD_LIBRARY_PATH"
  const DefaultDestination: string := "/usr/local/corex"
  const PathAdded: string := "/usr/local/corex/bin"
  const LdPathAdded: string := "/usr/local/corex/lib64"

  /** The filter sent with every prepare request. */
  const PrepareFilter: seq<string> := ["type=sdk", "vendor=iluvatarcorex"]

  datatype QueryCacheRequest = QueryCacheRequest(imageName: string, callMethod: string)
  datatype QueryCacheResponse = QueryCacheResponse(destination: string, callMethod: string, imageType: string)
  datatype PrepareCacheRequest = PrepareCacheRequest(imageName: string, callMethod: string, filter: seq<string>)
  datatype PrepareCacheResponse = PrepareCacheResponse(status: string, callMethod: string)

  /** A request as the service receives it. */
  datatype Request = Query(query: QueryCacheRequest) | Prepare(prepare: PrepareCacheRequest)

  /** The gRPC client of the cache service, with its replies fixed (an error
      stands for a transport failure or the one-second deadline passing). */
  class SdkServiceClient {
    const queryReply: QueryCacheRequest -> Result<QueryCacheResponse>
    const prepareReply: PrepareCacheRequest -> Result<PrepareCacheResponse>
    var requests: seq<Request>

    constructor (queryReply: QueryCacheRequest -> Result<QueryCacheResponse>,
                 prepareReply: PrepareCacheRequest -> Result<PrepareCacheResponse>)
      ensures this.queryReply == queryReply && this.prepareReply == prepareReply
      ensures requests == []
    {
      this.queryReply, this.prepareReply := queryReply, prepareReply;
      requests := [];
    }

    method QueryCache(req: QueryCacheRequest) returns (r: Result<QueryCacheResponse>)
      modifies this
      ensures r == queryReply(req) && requests == old(requests) + [Query(req)]
    {
      r := queryReply(req);
      requests := requests + [Query(req)];
    }

    method PrepareCache(req: PrepareCacheRequest) returns (r: Result<PrepareCacheResponse>)
      modifies this
      ensures r == prepareReply(req) && requests == old(requests) + [Prepare(req)]
    {
      r := prepareReply(req);
      requests := requests + [Prepare(req)];
    }
  }

  /** The modifier: the client and the SDK selection read from the image. */
  datatype SdkModifier = SdkModifier(client: SdkServiceClient, change: Image.Sdk)

  /** The query for an image: no method. */
  function QueryRequest(imageName: string): (q: QueryCacheRequest)
    ensures q.imageName == imageName && q.callMethod == ""
  {
    QueryCacheRequest(imageName, "")
  }

  /** The prepare request for an image: no method, and the SDK filter. */
  function PrepareRequest(imageName: string): (p: PrepareCacheRequest)
    ensures p.imageName == imageName && p.callMethod == "" && p.filter == PrepareFilter
  {
    PrepareCacheRequest(imageName, "", PrepareFilter)
  }

  /** `sdkModifier.QueryCache`: a transport error gives empty fields and the
      error; otherwise the reply's destination, method and type, unchanged. */
  method QueryCache(s: SdkModifier, imageName: string)
    returns (destination: string, callMethod: string, imageType: string, err: Option<string>)
    modifies s.client
    ensures var reply := s.client.queryReply(QueryRequest(imageName));
      && (reply.Err? ==> destination == "" && callMethod == "" && imageType == "" && err == Some(reply.msg))
      && (reply.Ok? ==>
            err.None? && destination == reply.value.destination
            && callMethod == reply.value.callMethod && imageType == reply.value.imageType)
    ensures s.client.requests == old(s.client.requests) + [Query(QueryRequest(imageName))]
  {
    var resp := s.client.QueryCache(QueryRequest(imageName));
    if resp.Err? {
      return "", "", "", Some(resp.msg);
    }
    return resp.value.destination, resp.value.callMethod, resp.value.imageType, None;
  }

  /** Whether a prepare status means the image still has to be pulled. */
  predicate NeedPull(status: string)
  {
    status != "ok"
  }

  /** `sdkModifier.PrepareCache`: on a reply, "need pull" exactly when the
      status is not `ok`, with the reply's method; on an error, no pull, no
      method and the error. */
  method PrepareCache(s: SdkModifier, imageName: string) returns (needPull: bool, callMethod: string, err: Option<string>)
    modifies s.client
    ensures var reply := s.client.prepareReply(PrepareRequest(imageName));
      && (reply.Err? ==> !needPull && callMethod == "" && err == Some(reply.msg))
      && (reply.Ok? ==> err.None? && callMethod == reply.value.callMethod && (needPull <==> reply.value.status != "ok"))
    ensures s.client.requests == old(s.client.requests) + [Prepare(PrepareRequest(imageName))]
  {
    var resp := s.client.PrepareCache(PrepareRequest(imageName));
    if resp.Err? {
      return false, "", Some(resp.msg);
    }
    return NeedPull(resp.value.status), resp.value.callMethod, None;
  }

  /** The value `PATH` gets: the SDK's binaries first, then the requested path;
      the colon is written even when that path is empty. */
  function PathValue(path: string): (v: string)
    ensures |v| == |PathAdded| + 1 + |path|
    ensures v[..|PathAdded| + 1] == PathAdded + ":" && v[|PathAdded| + 1..] == path
  {
    PathAdded + ":" + path
  }

  /** The value `LD_LIBRARY_PATH` gets: the SDK's libraries, followed by `:`
      and the requested path only when that path is non-empty. */
  function LdPathValue(ldpath: string): (v: string)
    ensures ldpath == "" ==> v == LdPathAdded
    ensures ldpath != "" ==> |v| == |LdPathAdded| + 1 + |ldpath|
    ensures ldpath != "" ==> v[..|LdPathAdded| + 1] == LdPathAdded + ":" && v[|LdPathAdded| + 1..] == ldpath
  {
    if ldpath == "" then LdPathAdded else LdPathAdded + ":" + ldpath
  }

  function PathEntry(path: string): string
  {
    PathEnv + "=" + PathValue(path)
  }

  function LdPathEntry(ldpath: string): string
  {
    LdPathEnv + "=" + LdPathValue(ldpath)
  }

  /** The bind mount of the unpacked SDK. */
  function SdkMount(destination: string): (m: Specs.Mount)
    ensures m.destination == DefaultDestination && m.source == destination && m.mountType == "linux"
    ensures m.options == ["ro", "nosuid", "nodev", "bind"]
  {
    Specs.Mount(DefaultDestination, "linux", destination, ["ro", "nosuid", "nodev", "bind"])
  }

  /** How `Modify` ends, given the service's replies. */
  datatype Outcome =
    | NoSdk                          // no SDK requested: nothing to do
    | QueryFailed(msg: string)       // the query did not get through
    | PrepareFailed(msg: string)     // not cached, and the prepare request did not get through
    | NotCached(imageName: string)   // not cached; a pull was requested
    | WrongType(imageType: string)   // cached, but not an SDK image
    | Mounted(destination: string)   // cached SDK at this directory

  /** The outcome of `Modify` for the SDK name `name`. */
  function ModifyOutcome(c: SdkServiceClient, name: string): (o: Outcome)
    ensures o.Mounted? ==> o.destination != ""
  {
    if name == "" then NoSdk
    else
      var q := c.queryReply(QueryRequest(name));
      if q.Err? then QueryFailed(q.msg)
      else if q.value.destination == "" then
        var p := c.prepareReply(PrepareRequest(name));
        if p.Err? then PrepareFailed(p.msg) else NotCached(name)
      else if q.value.imageType != "sdk" then WrongType(q.value.imageType)
      else Mounted(q.value.destination)
  }

  /** The requests `Modify` sends for the SDK name `name`. */
  function ModifyRequests(c: SdkServiceClient, name: string): seq<Request>
  {
    if name == "" then []
    else
      var q := c.queryReply(QueryRequest(name));
      if q.Ok? && q.value.destination == "" then [Query(QueryRequest(name)), Prepare(PrepareRequest(name))]
      else [Query(QueryRequest(name))]
  }

  /** The modifier fails closed: it mounts exactly when the query succeeds with
      a non-empty destination of type `sdk`, asks for a pull exactly when the
      destination is empty, and never asks for a pull more than once. */
  lemma OutcomeCases(c: SdkServiceClient, name: string)
    ensures var q := c.queryReply(QueryRequest(name));
      ModifyOutcome(c, name).Mounted? <==>
        name != "" && q.Ok? && q.value.destination != "" && q.value.imageType == "sdk"
    ensures ModifyOutcome(c, name).NoSdk? <==> ModifyRequests(c, name) == []
    ensures var q := c.queryReply(QueryRequest(name));
      Prepare(PrepareRequest(name)) in ModifyRequests(c, name) <==> name != "" && q.Ok? && q.value.destination == ""
    ensures |ModifyRequests(c, name)| <= 2
  {
  }

  /** `sdkModifier.Modify`: on a mounted outcome one mount and two environment
      entries are appended; on every other outcome the spec is unchanged; only
      `NoSdk` and `Mounted` return no error. A missing process section on the
      mounting path would be a nil dereference, so the caller must supply one. */
  method Modify(s: SdkModifier, spec: Specs.Spec) returns (err: Option<string>)
    requires ModifyOutcome(s.client, s.change.name).Mounted? ==> spec.process.Some?
    modifies spec, s.client
    ensures var o := ModifyOutcome(s.client, s.change.name);
      && (err.None? <==> o.NoSdk? || o.Mounted?)
      && (o.Mounted? ==>
            spec.mounts == old(spec.mounts) + [SdkMount(o.destination)]
            && spec.process == Some(Specs.Process(old(spec.process).value.env
                 + [PathEntry(s.change.path), LdPathEntry(s.change.ldpath)])))
      && (!o.Mounted? ==> spec.mounts == old(spec.mounts) && spec.process == old(spec.process))
    ensures spec.linux == old(spec.linux)
    ensures s.client.requests == old(s.client.requests) + ModifyRequests(s.client, s.change.name)
  {
    var pathVal := PathEntry(s.change.path);
    var ldpathVal := LdPathEntry(s.change.ldpath);
    var image := s.change.name;
    if image == "" {
      return None;
    }
    var destination, _, imageType, e := QueryCache(s, image);
    if e.Some? {
      return e;
    }
    if destination == "" {
      var _, _, pe := PrepareCache(s, image);
      if pe.Some? {
        return pe;
      }
      return Some("Cache not exists, call prepare to pull image " + image);
    }
    if imageType != "sdk" {
      return Some("Image type is not sdk, real type:" + imageType + "\n");
    }
    spec.mounts := spec.mounts + [SdkMount(destination)];
    var env := spec.process.value.env;
    env := env + [pathVal];
    env := env + [ldpathVal];
    assert env == old(spec.process).value.env + [pathVal, ldpathVal];
    spec.process := Some(Specs.Process(env));
    err := None;
  }

  /** Read back as the container's environment map, the two appended entries
      set `PATH` and `LD_LIBRARY_PATH` to the SDK values, whatever the image
      had, and leave every other variable alone. */
  lemma SdkEnvironment(env: seq<string>, path: string, ldpath: string)
    requires Image.ParseEnv(env).Ok?
    ensures Image.ParseEnv(env + [PathEntry(path), LdPathEntry(ldpath)])
         == Ok(Image.ParseEnv(env).value[PathEnv := PathValue(path)][LdPathEnv := LdPathValue(ldpath)])
  {
    assert '=' !in PathEnv && '=' !in LdPathEnv;
    var m := Image.ParseEnv(env).value;
    var env1 := env + [PathEntry(path)];
    Image.AppendedEntryWins(env, PathEnv, PathValue(path));
    assert Image.ParseEnv(env1) == Ok(m[PathEnv := PathValue(path)]);
    Image.AppendedEntryWins(env1, LdPathEnv, LdPathValue(ldpath));
    assert env1 + [LdPathEntry(ldpath)] == env + [PathEntry(path), LdPathEntry(ldpath)];
  }

  /** `NewSdkModifier`: no modifier when the client cannot be built for
      `unix://` and the configured socket path (`dial` says whether it can);
      otherwise a fresh client with no requests sent, and the SDK selection read
      from `COREX_IMAGE`, `PATH` and `LD_LIBRARY_PATH`. */
  method NewSdkModifier(img: Image.CUDA, dial: string -> bool,
                        queryReply: QueryCacheRequest -> Result<QueryCacheResponse>,
                        prepareReply: PrepareCacheRequest -> Result<PrepareCacheResponse>)
    returns (m: Option<SdkModifier>)
    requires img.cfg != null
    ensures m.None? <==> !dial("unix://" + img.cfg.sdkSocketPath)
    ensures m.Some? ==>
              fresh(m.value.client) && m.value.client.requests == []
              && m.value.client.queryReply == queryReply && m.value.client.prepareReply == prepareReply
              && m.value.change == Image.SdkFromEnvvars(img, VisibleSdkEnvvar, PathEnv, LdPathEnv)
  {
    var connectPath := "unix://" + img.cfg.sdkSocketPath;
    if !dial(connectPath) {
      return None;
    }
    var client := new SdkServiceClient(queryReply, prepareReply);
    var change := Image.SdkFromEnvvars(img, VisibleSdkEnvvar, PathEnv, LdPathEnv);
    return Some(SdkModifier(client, change));
  }
}
