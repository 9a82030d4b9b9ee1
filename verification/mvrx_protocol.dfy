/**
 * MVR-xchange glue between the network client/server and the host scene:
 * the callbacks that turn a decoded message into host effects, the download
 * path of a requested commit, and the life cycle of the process-wide client
 * and server handles (`_instance`).
 *
 * Calls into the host (`createMVR_Commits`, `updateMVR_Client`,
 * `createMVR_Client`, `fetched_mvr_downloaded_file`, `mvrx_enabled = False`)
 * are returned as a list of `Effect`s, and calls into the unseen network
 * modules as a list of `NetAction`s. Whether the unseen client/server
 * constructor succeeds is a boolean parameter.
 */
module MvrxProtocol {
  import opened Wrappers
  import opened Json
  import Text

  const StationKey := "StationUUID"
  const CommitsKey := "Commits"
  const FileKey := "FileUUID"
  const ProviderKey := "Provider"
  const StationNameKey := "StationName"
  const DownloadedKey := "file_downloaded"

  /** One call into the host scene, in the order the callback makes them. */
  datatype Effect =
    | CreateCommits(commits: Value, station: Value)
      // client side: updateMVR_Client(provider, station_uuid)
    | UpdatePeer(provider: Value, station: Value)
      // server side: createMVR_Client(station_name, station_uuid, None, ip, port, provider)
    | CreatePeer(stationName: Value, station: Value, ip: string, port: int, provider: Value)
    | FileDownloaded(path: Value)
    | DisableMvrx

  /** The network address of the connection a server message arrived on. */
  datatype Address = Address(ip: string, port: int)

  function Flag(b: bool): nat {
    if b then 1 else 0
  }

  /** A refused join: `Type == "MVR_JOIN_RET"` and `OK is False`. A missing
      `OK` reads as the empty string and so is never a refusal; neither is
      any value other than the JSON boolean false. */
  predicate IsJoinRejection(data: Message) {
    Get(data, "Type", Str("")) == Str("MVR_JOIN_RET") && Get(data, "OK", Str("")) == Bool(false)
  }

  /** Declarative description of which client effects a message justifies. */
  predicate ClientEffectJustified(data: Message, e: Effect) {
    StationKey in data &&
    match e
    case CreateCommits(commits, station) =>
      station == data[StationKey] &&
      ((CommitsKey in data && commits == data[CommitsKey]) || (FileKey in data && commits == Arr([Obj(data)])))
    case UpdatePeer(provider, station) =>
      ProviderKey in data && provider == data[ProviderKey] && station == data[StationKey]
    case FileDownloaded(path) =>
      DownloadedKey in data && path == data[DownloadedKey]
    case DisableMvrx =>
      IsJoinRejection(data)
    case CreatePeer(_, _, _, _, _) =>
      false
  }

  /** `DMX_MVR_X_Client.callback`. */
  function ClientCallback(data: Message): (r: seq<Effect>)
    ensures StationKey !in data ==> r == []
    ensures forall e :: e in r ==> ClientEffectJustified(data, e)
    ensures StationKey in data ==>
      && (CommitsKey in data ==> CreateCommits(data[CommitsKey], data[StationKey]) in r)
      && (FileKey in data ==> CreateCommits(Arr([Obj(data)]), data[StationKey]) in r)
      && (ProviderKey in data ==> UpdatePeer(data[ProviderKey], data[StationKey]) in r)
      && (DownloadedKey in data ==> FileDownloaded(data[DownloadedKey]) in r)
      && |r| == Flag(CommitsKey in data) + Flag(FileKey in data) + Flag(ProviderKey in data)
                + Flag(DownloadedKey in data) + Flag(IsJoinRejection(data))
    ensures DisableMvrx in r <==> StationKey in data && IsJoinRejection(data)
  {
    if StationKey !in data then []
    else
      var uuid := data[StationKey];
      (if CommitsKey in data then [CreateCommits(data[CommitsKey], uuid)] else [])
      + (if FileKey in data then [CreateCommits(Arr([Obj(data)]), uuid)] else [])
      + (if ProviderKey in data then [UpdatePeer(data[ProviderKey], uuid)] else [])
      + (if DownloadedKey in data then [FileDownloaded(data[DownloadedKey])] else [])
      + (if IsJoinRejection(data) then [DisableMvrx] else [])
  }

  /** Declarative description of which server effects a message justifies. */
  predicate ServerEffectJustified(data: Message, from: Address, e: Effect) {
    StationKey in data &&
    match e
    case CreateCommits(commits, station) =>
      station == data[StationKey] &&
      ((CommitsKey in data && commits == data[CommitsKey]) || (FileKey in data && commits == Arr([Obj(data)])))
    case CreatePeer(name, station, ip, port, provider) =>
      && ProviderKey in data && provider == data[ProviderKey] && station == data[StationKey]
      && name == Get(data, StationNameKey, Str(""))
      && ip == from.ip && port == from.port
    case FileDownloaded(path) =>
      DownloadedKey in data && path == data[DownloadedKey]
    case UpdatePeer(_, _) =>
      false
    case DisableMvrx =>
      false
  }

  /** `DMX_MVR_X_Server.callback`; `from` is the connection's `addr`. */
  function ServerCallback(data: Message, from: Address): (r: seq<Effect>)
    ensures StationKey !in data ==> r == []
    ensures forall e :: e in r ==> ServerEffectJustified(data, from, e)
    ensures StationKey in data ==>
      && (CommitsKey in data ==> CreateCommits(data[CommitsKey], data[StationKey]) in r)
      && (FileKey in data ==> CreateCommits(Arr([Obj(data)]), data[StationKey]) in r)
      && (ProviderKey in data ==>
            CreatePeer(Get(data, StationNameKey, Str("")), data[StationKey], from.ip, from.port, data[ProviderKey]) in r)
      && (DownloadedKey in data ==> FileDownloaded(data[DownloadedKey]) in r)
      && |r| == Flag(CommitsKey in data) + Flag(FileKey in data) + Flag(ProviderKey in data)
                + Flag(DownloadedKey in data)
    ensures DisableMvrx !in r
  {
    if StationKey !in data then []
    else
      var uuid := data[StationKey];
      var name := if StationNameKey in data then data[StationNameKey] else Str("");
      (if CommitsKey in data then [CreateCommits(data[CommitsKey], uuid)] else [])
      + (if FileKey in data then [CreateCommits(Arr([Obj(data)]), uuid)] else [])
      + (if ProviderKey in data then [CreatePeer(name, uuid, from.ip, from.port, data[ProviderKey])] else [])
      + (if DownloadedKey in data then [FileDownloaded(data[DownloadedKey])] else [])
  }

  /** When both "Commits" and "FileUUID" are present, both commit batches are
      created, the "Commits" one first, each tagged with the sender's station. */
  lemma BothCommitSourcesFire(data: Message, from: Address)
    requires StationKey in data && CommitsKey in data && FileKey in data
    ensures ClientCallback(data)[0] == CreateCommits(data[CommitsKey], data[StationKey])
    ensures ClientCallback(data)[1] == CreateCommits(Arr([Obj(data)]), data[StationKey])
    ensures ServerCallback(data, from)[0] == CreateCommits(data[CommitsKey], data[StationKey])
    ensures ServerCallback(data, from)[1] == CreateCommits(Arr([Obj(data)]), data[StationKey])
  {
  }

  /** The position of an effect's kind in the callbacks' fixed order: commits,
      then the peer, then the downloaded file, then the refusal. */
  function EffectRank(e: Effect): nat {
    match e
    case CreateCommits(_, _) => 0
    case UpdatePeer(_, _) => 1
    case CreatePeer(_, _, _, _, _) => 1
    case FileDownloaded(_) => 2
    case DisableMvrx => 3
  }

  /** The effects of a list come in the callbacks' fixed order. */
  predicate InCallbackOrder(r: seq<Effect>) {
    forall i, j :: 0 <= i < j < |r| ==> EffectRank(r[i]) <= EffectRank(r[j])
  }

  /** Concatenating a list whose effects all rank at most `k` with one whose
      effects all rank above `k` keeps the order. */
  lemma OrderedConcat(a: seq<Effect>, b: seq<Effect>, k: nat)
    requires InCallbackOrder(a) && InCallbackOrder(b)
    requires forall i :: 0 <= i < |a| ==> EffectRank(a[i]) <= k
    requires forall i :: 0 <= i < |b| ==> EffectRank(b[i]) > k
    ensures InCallbackOrder(a + b)
  {
    var r := a + b;
    forall i, j | 0 <= i < j < |r|
      ensures EffectRank(r[i]) <= EffectRank(r[j])
    {
      if j < |a| {
        assert r[i] == a[i] && r[j] == a[j];
      } else if i >= |a| {
        assert r[i] == b[i - |a|] && r[j] == b[j - |a|];
      } else {
        assert r[i] == a[i] && r[j] == b[j - |a|];
      }
    }
  }

  /** Four lists whose effects rank 0, 1, 2 and 3 respectively, in that order. */
  lemma RankedParts(a: seq<Effect>, b: seq<Effect>, c: seq<Effect>, d: seq<Effect>)
    requires forall i :: 0 <= i < |a| ==> EffectRank(a[i]) == 0
    requires forall i :: 0 <= i < |b| ==> EffectRank(b[i]) == 1
    requires forall i :: 0 <= i < |c| ==> EffectRank(c[i]) == 2
    requires forall i :: 0 <= i < |d| ==> EffectRank(d[i]) == 3
    ensures InCallbackOrder(a + b + c + d)
  {
    OrderedConcat(a, b, 0);
    OrderedConcat(a + b, c, 1);
    OrderedConcat(a + b + c, d, 2);
  }

  /** The client callback makes its host calls in the source's order: commits,
      the peer update, the downloaded file, and last the refusal. */
  lemma ClientCallbackInOrder(data: Message)
    ensures InCallbackOrder(ClientCallback(data))
  {
    if StationKey in data {
      var uuid := data[StationKey];
      var commits := (if CommitsKey in data then [CreateCommits(data[CommitsKey], uuid)] else [])
        + (if FileKey in data then [CreateCommits(Arr([Obj(data)]), uuid)] else []);
      var peer := if ProviderKey in data then [UpdatePeer(data[ProviderKey], uuid)] else [];
      var file := if DownloadedKey in data then [FileDownloaded(data[DownloadedKey])] else [];
      var refusal := if IsJoinRejection(data) then [DisableMvrx] else [];
      RankedParts(commits, peer, file, refusal);
      assert ClientCallback(data) == commits + peer + file + refusal;
    }
  }

  /** The server callback makes its host calls in the source's order: commits,
      the new peer, then the downloaded file. */
  lemma ServerCallbackInOrder(data: Message, from: Address)
    ensures InCallbackOrder(ServerCallback(data, from))
  {
    if StationKey in data {
      var uuid := data[StationKey];
      var name := if StationNameKey in data then data[StationNameKey] else Str("");
      var commits := (if CommitsKey in data then [CreateCommits(data[CommitsKey], uuid)] else [])
        + (if FileKey in data then [CreateCommits(Arr([Obj(data)]), uuid)] else []);
      var peer := if ProviderKey in data then [CreatePeer(name, uuid, from.ip, from.port, data[ProviderKey])] else [];
      var file := if DownloadedKey in data then [FileDownloaded(data[DownloadedKey])] else [];
      RankedParts(commits, peer, file, []);
      assert ServerCallback(data, from) == commits + peer + file + [];
    }
  }

  /** A join refusal without a station identifier is dropped like any other
      message without one. */
  lemma RejectionNeedsStation(data: Message)
    requires IsJoinRejection(data) && StationKey !in data
    ensures DisableMvrx !in ClientCallback(data)
    ensures ClientCallback(data) == []
  {
  }

  /** Only the JSON boolean false refuses; a missing "OK" never does. */
  lemma MissingOkNeverDisables(data: Message)
    requires "OK" !in data
    ensures DisableMvrx !in ClientCallback(data)
  {
  }

  // ---------------------------------------------------------------------
  // Download path
  // ---------------------------------------------------------------------

  /** `os.path.join(ADDON_PATH, "assets", "mvrs", f"{commit_uuid}.mvr")`: the
      downloaded file lands in `assets/mvrs/<commit_uuid>.mvr` under the add-on
      directory, unless the commit identifier is itself an absolute path, in
      which case `os.path.join` discards everything before it. */
  function DownloadPath(addonDir: string, commitUuid: string): (path: string)
    ensures !Text.StartsWith(commitUuid, "/") ==> Text.EndsWith(path, "assets/mvrs/" + commitUuid + ".mvr")
    ensures Text.StartsWith(commitUuid, "/") ==> path == commitUuid + ".mvr"
  {
    var file := commitUuid + ".mvr";
    var assets := Text.PathJoin(addonDir, "assets");
    assert !Text.StartsWith("assets", "/") by {
      assert "assets"[..1] == "a";
    }
    MvrNameStartsLikeUuid(commitUuid);
    RelativeDownloadPath(assets, file);
    assert "assets/mvrs/" + file == "assets/mvrs/" + commitUuid + ".mvr";
    Text.PathJoin(Text.PathJoin(assets, "mvrs"), file)
  }

  /** `os.path.join(x, "mvrs")` for an `x` ending in "assets". */
  lemma JoinMvrs(assets: string)
    requires Text.EndsWith(assets, "assets")
    ensures Text.PathJoin(assets, "mvrs") == assets + "/mvrs"
  {
    assert assets[|assets| - 6..] == "assets";
    assert assets[|assets| - 1..] == "s";
    assert !Text.EndsWith(assets, "/");
    assert !Text.StartsWith("mvrs", "/") by {
      assert "mvrs"[..1] == "m";
    }
  }

  /** Appending ".mvr" does not change whether a name starts with '/'. */
  lemma MvrNameStartsLikeUuid(commitUuid: string)
    ensures Text.StartsWith(commitUuid + ".mvr", "/") <==> Text.StartsWith(commitUuid, "/")
  {
    if |commitUuid| > 0 {
      assert (commitUuid + ".mvr")[..1] == commitUuid[..1];
    } else {
      assert (commitUuid + ".mvr")[..1] == ".";
    }
  }

  /** Joining "mvrs" and a relative file name onto a directory ending in "assets". */
  lemma RelativeDownloadPath(assets: string, file: string)
    requires Text.EndsWith(assets, "assets")
    ensures !Text.StartsWith(file, "/") ==>
      Text.EndsWith(Text.PathJoin(Text.PathJoin(assets, "mvrs"), file), "assets/mvrs/" + file)
  {
    if !Text.StartsWith(file, "/") {
      JoinMvrs(assets);
      var mvrs := assets + "/mvrs";
      assert !Text.EndsWith(mvrs, "/") by {
        assert mvrs[|mvrs| - 1..] == "s";
      }
      assert Text.PathJoin(mvrs, file) == mvrs + "/" + file;
      assert mvrs + "/" + file == assets + ("/mvrs/" + file);
      Text.EndsWithExtend(assets, "assets", "/mvrs/" + file);
      assert "assets" + ("/mvrs/" + file) == "assets/mvrs/" + file;
    }
  }

  // ---------------------------------------------------------------------
  // Client handle life cycle
  // ---------------------------------------------------------------------

  /** The peer chosen by the user (`selected_client`). */
  datatype Peer = Peer(ip: string, port: int)

  /** An `mvrx_client.client(ip, port, timeout=0, callback, application_uuid)`.
      `serial` numbers the client objects built through the handle, so that a
      rebuilt client is never confused with the one it replaces. */
  datatype Connection = Connection(ip: string, port: int, appUuid: string, serial: nat)

  /** `made` counts the client objects built so far; it is the serial of the
      next one. */
  datatype ClientInstance = ClientInstance(appUuid: string, selected: Peer, client: Option<Connection>, made: nat)

  /** `DMX_MVR_X_Client._instance`. */
  type ClientHandle = Option<ClientInstance>

  /** Calls made into the unseen client and server objects. */
  datatype NetAction =
    | Start(conn: Connection)
    | JoinMvr(conn: Connection)
    | LeaveMvr(conn: Connection)
    | Stop(conn: Connection)
    | RequestFile(conn: Connection, commitUuid: string, path: string)
    | ServerStart(appUuid: string)
    | ServerStop(appUuid: string)
    | ServerFileRequest(commitUuid: string, path: string)

  /** The handle after an operation, the calls it made, and whether an
      exception escaped to the caller. */
  datatype Step<H> = Step(handle: H, actions: seq<NetAction>, raised: bool)

  /** The client object the next `connect` builds for an instance. */
  function NextConnection(inst: ClientInstance): Connection {
    Connection(inst.selected.ip, inst.selected.port, inst.appUuid, inst.made)
  }

  /** The instance after a successful `connect`. */
  function Reconnected(inst: ClientInstance): ClientInstance {
    inst.(client := Some(NextConnection(inst)), made := inst.made + 1)
  }

  /** Every client the handle holds was built before the next one. */
  predicate Numbered(h: ClientHandle) {
    h.Some? && h.value.client.Some? ==> h.value.client.value.serial < h.value.made
  }

  /** `DMX_MVR_X_Client.connect`: builds a client for the selected peer and
      starts it; when the constructor fails (`reachable` false) the exception
      is swallowed and the previous client, if any, is kept. */
  function Connect(h: ClientHandle, reachable: bool): (s: Step<ClientHandle>)
    ensures !s.raised
    ensures h.None? ==> s == Step(h, [], false)
    ensures h.Some? ==> s.handle.Some? && s.handle.value.selected == h.value.selected
                        && s.handle.value.appUuid == h.value.appUuid
    ensures h.Some? && reachable ==>
      var c := Connection(h.value.selected.ip, h.value.selected.port, h.value.appUuid, h.value.made);
      s.handle.value.client == Some(c) && s.handle.value.made == h.value.made + 1 && s.actions == [Start(c)]
    ensures h.Some? && !reachable ==> s.handle == h && s.actions == []
    ensures Numbered(h) ==> Numbered(s.handle)
  {
    match h
    case None => Step(h, [], false)
    case Some(inst) =>
      if !reachable then Step(h, [], false)
      else Step(Some(Reconnected(inst)), [Start(NextConnection(inst))], false)
  }

  /** A successful `connect` replaces the client object: the new one is never
      the one the instance held before. */
  lemma ConnectReplacesClient(h: ClientHandle)
    requires HasClient(h) && Numbered(h)
    ensures Connect(h, true).handle.value.client.value != h.value.client.value
  {
  }

  /** `DMX_MVR_X_Client.join`: always installs a fresh instance for `peer`
      (an earlier instance's client is dropped without being stopped); if the
      connection cannot be built, `None.join_mvr()` raises. */
  function Join(h: ClientHandle, peer: Peer, appUuid: string, reachable: bool): (s: Step<ClientHandle>)
    ensures s.handle.Some? && s.handle.value.selected == peer && s.handle.value.appUuid == appUuid
    ensures s.raised <==> !reachable
    ensures reachable ==>
      var c := Connection(peer.ip, peer.port, appUuid, if h.Some? then h.value.made else 0);
      s.handle.value.client == Some(c) && s.actions == [Start(c), JoinMvr(c)]
    ensures !reachable ==> s.handle.value.client.None? && s.actions == []
    ensures Numbered(s.handle)
  {
    var created := Some(ClientInstance(appUuid, peer, None, if h.Some? then h.value.made else 0));
    var connected := Connect(created, reachable);
    match connected.handle.value.client
    case None => Step(connected.handle, connected.actions, true)
    case Some(c) => Step(connected.handle, connected.actions + [JoinMvr(c)], false)
  }

  /** True when the handle holds an instance with a live client object. */
  predicate HasClient(h: ClientHandle) {
    h.Some? && h.value.client.Some?
  }

  /** `DMX_MVR_X_Client.re_join`: reconnects and joins again; does nothing
      without an instance or without a client. */
  function ReJoin(h: ClientHandle, reachable: bool): (s: Step<ClientHandle>)
    ensures !HasClient(h) ==> s == Step(h, [], false)
    ensures HasClient(h) && reachable ==>
      var c := Connection(h.value.selected.ip, h.value.selected.port, h.value.appUuid, h.value.made);
      && s.handle == Some(h.value.(client := Some(c), made := h.value.made + 1))
      && s.actions == [Start(c), JoinMvr(c)] && !s.raised
    ensures HasClient(h) && !reachable ==>
      s == Step(h, [JoinMvr(h.value.client.value)], false)
  {
    if !HasClient(h) then Step(h, [], false)
    else
      var connected := Connect(h, reachable);
      Step(connected.handle, connected.actions + [JoinMvr(connected.handle.value.client.value)], false)
  }

  /** `DMX_MVR_X_Client.request_file`: reconnects and asks the client to fetch
      the commit's file into `DownloadPath`; does nothing without an instance
      or without a client. */
  function ClientRequestFile(h: ClientHandle, commitUuid: string, addonDir: string, reachable: bool)
    : (s: Step<ClientHandle>)
    ensures !HasClient(h) ==> s == Step(h, [], false)
    ensures HasClient(h) && reachable ==>
      var c := Connection(h.value.selected.ip, h.value.selected.port, h.value.appUuid, h.value.made);
      && s.handle == Some(h.value.(client := Some(c), made := h.value.made + 1))
      && s.actions == [Start(c), RequestFile(c, commitUuid, DownloadPath(addonDir, commitUuid))] && !s.raised
    ensures HasClient(h) && !reachable ==>
      s == Step(h, [RequestFile(h.value.client.value, commitUuid, DownloadPath(addonDir, commitUuid))], false)
  {
    if !HasClient(h) then Step(h, [], false)
    else
      var connected := Connect(h, reachable);
      var c := connected.handle.value.client.value;
      Step(connected.handle, connected.actions + [RequestFile(c, commitUuid, DownloadPath(addonDir, commitUuid))], false)
  }

  /** `DMX_MVR_X_Client.disable`: stops the client if there is one and drops
      the instance. */
  function ClientDisable(h: ClientHandle): (s: Step<ClientHandle>)
    ensures s.handle.None? && !s.raised
    ensures !HasClient(h) ==> s.actions == []
    ensures HasClient(h) ==> s.actions == [Stop(h.value.client.value)]
  {
    match h
    case None => Step(None, [], false)
    case Some(inst) =>
      match inst.client
      case None => Step(None, [], false)
      case Some(c) => Step(None, [Stop(c)], false)
  }

  /** `DMX_MVR_X_Client.leave`: reconnects, sends LEAVE on the current client,
      stops it after the grace period, and drops the instance. */
  function ClientLeave(h: ClientHandle, reachable: bool): (s: Step<ClientHandle>)
    ensures s.handle.None? && !s.raised
    ensures !HasClient(h) ==> s.actions == []
    ensures HasClient(h) && reachable ==>
      var c := Connection(h.value.selected.ip, h.value.selected.port, h.value.appUuid, h.value.made);
      s.actions == [Start(c), LeaveMvr(c), Stop(c)]
    ensures HasClient(h) && !reachable ==>
      s.actions == [LeaveMvr(h.value.client.value), Stop(h.value.client.value)]
  {
    if !HasClient(h) then Step(None, [], false)
    else
      var connected := Connect(h, reachable);
      var c := connected.handle.value.client.value;
      Step(None, connected.actions + [LeaveMvr(c), Stop(c)], false)
  }

  /** When the peer is reachable, `leave` stops only the client its own
      `connect` built: the client the instance held before is never stopped. */
  lemma LeaveLeaksOldClient(h: ClientHandle)
    requires HasClient(h) && Numbered(h)
    ensures Stop(h.value.client.value) !in ClientLeave(h, true).actions
    ensures LeaveMvr(h.value.client.value) !in ClientLeave(h, true).actions
  {
  }

  /** `re_join` and `request_file` reconnect first, and the client they build
      keeps the handle's numbering intact. */
  lemma ReconnectKeepsNumbered(h: ClientHandle, commitUuid: string, addonDir: string, reachable: bool)
    requires Numbered(h)
    ensures Numbered(ReJoin(h, reachable).handle)
    ensures Numbered(ClientRequestFile(h, commitUuid, addonDir, reachable).handle)
  {
  }

  /** When the peer is reachable, `re_join` sends JOIN on the client its own
      `connect` built; the client held before gets neither JOIN nor a stop. */
  lemma ReJoinLeaksOldClient(h: ClientHandle)
    requires HasClient(h) && Numbered(h)
    ensures Stop(h.value.client.value) !in ReJoin(h, true).actions
    ensures JoinMvr(h.value.client.value) !in ReJoin(h, true).actions
  {
  }

  /** Likewise `request_file` asks the newly built client for the file, and
      the client held before is neither asked nor stopped. */
  lemma RequestFileLeaksOldClient(h: ClientHandle, commitUuid: string, addonDir: string)
    requires HasClient(h) && Numbered(h)
    ensures var held := h.value.client.value;
      && Stop(held) !in ClientRequestFile(h, commitUuid, addonDir, true).actions
      && RequestFile(held, commitUuid, DownloadPath(addonDir, commitUuid))
         !in ClientRequestFile(h, commitUuid, addonDir, true).actions
  {
    var c := NextConnection(h.value);
    assert ClientRequestFile(h, commitUuid, addonDir, true).actions
      == [Start(c), RequestFile(c, commitUuid, DownloadPath(addonDir, commitUuid))];
    OtherClientUntouched(h.value.client.value, c, commitUuid, DownloadPath(addonDir, commitUuid));
  }

  /** A start and a request on client `c` involve no other client. */
  lemma OtherClientUntouched(held: Connection, c: Connection, commitUuid: string, path: string)
    requires held.serial != c.serial
    ensures Stop(held) !in [Start(c), RequestFile(c, commitUuid, path)]
    ensures RequestFile(held, commitUuid, path) !in [Start(c), RequestFile(c, commitUuid, path)]
  {
  }

  /** Unlike `leave`, `disable` after a successful join stops the very client
      the join started, and ends without an instance. */
  lemma JoinThenDisable(h: ClientHandle, peer: Peer, appUuid: string)
    ensures ClientDisable(Join(h, peer, appUuid, true).handle).handle.None?
    ensures var c := Connection(peer.ip, peer.port, appUuid, if h.Some? then h.value.made else 0);
      Join(h, peer, appUuid, true).actions + ClientDisable(Join(h, peer, appUuid, true).handle).actions
      == [Start(c), JoinMvr(c), Stop(c)]
  {
  }

  /** A join followed by a leave always ends without an instance, whether or
      not the peer could be reached; when the peer answers both times, the
      client built by the join is started and never stopped. */
  lemma JoinThenLeaveEndsDisconnected(h: ClientHandle, peer: Peer, appUuid: string, r1: bool, r2: bool)
    ensures ClientLeave(Join(h, peer, appUuid, r1).handle, r2).handle.None?
    ensures r1 ==>
      var n := if h.Some? then h.value.made else 0;
      var c1 := Connection(peer.ip, peer.port, appUuid, n);
      var c2 := Connection(peer.ip, peer.port, appUuid, n + 1);
      Join(h, peer, appUuid, r1).actions + ClientLeave(Join(h, peer, appUuid, r1).handle, r2).actions
      == [Start(c1), JoinMvr(c1)]
         + (if r2 then [Start(c2), LeaveMvr(c2), Stop(c2)] else [LeaveMvr(c1), Stop(c1)])
  {
  }

  // ---------------------------------------------------------------------
  // Server handle life cycle
  // ---------------------------------------------------------------------

  /** `server` records whether `mvrx_server.server(...)` was built. */
  datatype ServerInstance = ServerInstance(appUuid: string, server: bool)

  /** `DMX_MVR_X_Server._instance`. */
  type ServerHandle = Option<ServerInstance>

  /** `DMX_MVR_X_Server.enable`: returns at once when an instance exists;
      otherwise installs one and starts its server. If the server cannot be
      built, the instance stays installed without a server. */
  function ServerEnable(h: ServerHandle, appUuid: string, creatable: bool): (s: Step<ServerHandle>)
    ensures s.handle.Some? && !s.raised
    ensures h.Some? ==> s == Step(h, [], false)
    ensures h.None? ==> s.handle.value.appUuid == appUuid && s.handle.value.server == creatable
    ensures h.None? ==> s.actions == (if creatable then [ServerStart(appUuid)] else [])
  {
    if h.Some? then Step(h, [], false)
    else if creatable then Step(Some(ServerInstance(appUuid, true)), [ServerStart(appUuid)], false)
    else Step(Some(ServerInstance(appUuid, false)), [], false)
  }

  /** Enabling twice is the same as enabling once. */
  lemma ServerEnableIdempotent(h: ServerHandle, a1: string, c1: bool, a2: string, c2: bool)
    ensures ServerEnable(ServerEnable(h, a1, c1).handle, a2, c2).handle == ServerEnable(h, a1, c1).handle
    ensures ServerEnable(ServerEnable(h, a1, c1).handle, a2, c2).actions == []
  {
  }

  /** `DMX_MVR_X_Server.disable`. */
  function ServerDisable(h: ServerHandle): (s: Step<ServerHandle>)
    ensures s.handle.None? && !s.raised
    ensures s.actions == (if h.Some? && h.value.server then [ServerStop(h.value.appUuid)] else [])
  {
    match h
    case None => Step(None, [], false)
    case Some(inst) => Step(None, if inst.server then [ServerStop(inst.appUuid)] else [], false)
  }

  /** Disabling undoes enabling: the instance is gone again, and the server is
      stopped exactly when enabling had built and started it. */
  lemma ServerEnableThenDisable(appUuid: string, creatable: bool)
    ensures ServerDisable(ServerEnable(None, appUuid, creatable).handle)
      == Step(None, if creatable then [ServerStop(appUuid)] else [], false)
    ensures ServerEnable(None, appUuid, creatable).actions + ServerDisable(ServerEnable(None, appUuid, creatable).handle).actions
      == if creatable then [ServerStart(appUuid), ServerStop(appUuid)] else []
  {
  }

  /** `DMX_MVR_X_Server.request_file` as written: the guard reads an attribute
      that no instance has, so with an instance installed the call raises
      before any request is made. */
  function ServerRequestFileAsWritten(h: ServerHandle): (s: Step<ServerHandle>)
    ensures s.handle == h && s.actions == []
    ensures s.raised <==> h.Some?
  {
    if h.Some? then Step(h, [], true) else Step(h, [], false)
  }

  /** With a running server the as-written request never reaches the server. */
  lemma ServerRequestFileNeverRequests(appUuid: string)
    ensures var h := ServerEnable(None, appUuid, true).handle;
      ServerRequestFileAsWritten(h).raised && ServerRequestFileAsWritten(h).actions == []
  {
  }

  /** Server-side file request as evidently intended: guard on the server
      object and ask it for the file at the same path as the client does. */
  function ServerRequestFile(h: ServerHandle, commitUuid: string, addonDir: string): (s: Step<ServerHandle>)
    ensures s.handle == h && !s.raised
    ensures h.Some? && h.value.server <==> |s.actions| == 1
    ensures |s.actions| == 1 ==> s.actions[0] == ServerFileRequest(commitUuid, DownloadPath(addonDir, commitUuid))
  {
    if h.Some? && h.value.server then
      Step(h, [ServerFileRequest(commitUuid, DownloadPath(addonDir, commitUuid))], false)
    else Step(h, [], false)
  }
}
