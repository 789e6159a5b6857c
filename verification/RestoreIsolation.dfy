/** The guard of the isolated restore drill (validate_compose_config of
    scripts/recovery/p6_isolated_restore_drill.py) and what an empty list of problems rules out. */
module RestoreIsolation {
  datatype NetworkKey = Isolated | Egress | OtherNetwork(name: string)

  datatype VolumeKey = Scratch | Assets | PgData | OtherVolume(name: string)

  datatype ServiceName = Fetch | Named(name: string)

  /** `scoped` and `marked` say that the name is the project's own, or carries a production marker. */
  datatype Network = Network(external: bool, internal: bool, scoped: bool, marked: bool)

  datatype Volume = Volume(external: bool, scoped: bool)

  datatype Mode = NoMode | ModeNone | OtherMode(text: string)

  datatype Mount = VolumeMount(volume: VolumeKey) | BindMount(source: string, socket: bool, readOnly: bool) | OtherMount

  datatype Service = Service(ports: bool, privileged: bool, pinned: bool, hostShared: bool, mode: Mode,
    networks: set<NetworkKey>, mounts: seq<Mount>)

  datatype Config = Config(nameOk: bool, networks: map<NetworkKey, Network>,
                           volumes: map<VolumeKey, Volume>, services: map<ServiceName, Service>)

  datatype Problem =
    | BadName
    | UnexpectedNetwork(key: NetworkKey) | ExternalNetwork(key: NetworkKey) | UnscopedNetwork(key: NetworkKey)
    | MarkedNetwork(key: NetworkKey)
    | IsolatedNotInternal
    | UnexpectedVolume(volume: VolumeKey) | ExternalVolume(volume: VolumeKey) | UnscopedVolume(volume: VolumeKey)
    | Publishes(service: ServiceName) | Privileged(service: ServiceName) | Pinned(service: ServiceName)
    | SharesHost(service: ServiceName)
    | UsesMode(service: ServiceName) | JoinsForeign(service: ServiceName) | ReachesOut(service: ServiceName)
    | Bridges(service: ServiceName)
    | BadMount(service: ServiceName, index: nat)

  predicate Allowed(key: NetworkKey) { !key.OtherNetwork? }

  predicate MountOk(m: Mount, binds: set<string>) {
    match m
    case VolumeMount(source) => !source.OtherVolume?
    case BindMount(source, socket, readOnly) => !socket && source in binds && readOnly
    case OtherMount => false
  }

  function BindsOf(binds: map<ServiceName, set<string>>, name: ServiceName): set<string> {
    if name in binds then binds[name] else {}
  }

  // ----- every violation there is -----

  predicate NetworkProblem(key: NetworkKey, n: Network, p: Problem) {
    match p
    case UnexpectedNetwork(k) => k == key && !Allowed(key)
    case ExternalNetwork(k) => k == key && Allowed(key) && n.external
    case UnscopedNetwork(k) => k == key && Allowed(key) && !n.scoped
    case MarkedNetwork(k) => k == key && Allowed(key) && n.marked
    case _ => false
  }

  predicate VolumeProblem(key: VolumeKey, v: Volume, p: Problem) {
    match p
    case UnexpectedVolume(k) => k == key && key.OtherVolume?
    case ExternalVolume(k) => k == key && v.external
    case UnscopedVolume(k) => k == key && !v.scoped
    case _ => false
  }

  predicate ServiceProblem(name: ServiceName, s: Service, binds: set<string>, p: Problem) {
    match p
    case Publishes(k) => k == name && s.ports
    case Privileged(k) => k == name && s.privileged
    case Pinned(k) => k == name && s.pinned
    case SharesHost(k) => k == name && s.hostShared
    case UsesMode(k) => k == name && s.mode.OtherMode?
    case JoinsForeign(k) => k == name && exists key | key in s.networks :: !Allowed(key)
    case ReachesOut(k) => k == name && Egress in s.networks && name != Fetch
    case Bridges(k) => k == name && name == Fetch && Isolated in s.networks
    case BadMount(k, i) => k == name && i < |s.mounts| && !MountOk(s.mounts[i], binds)
    case _ => false
  }

  predicate IsolatedInternal(c: Config) { Isolated in c.networks && c.networks[Isolated].internal }

  predicate Violation(c: Config, binds: map<ServiceName, set<string>>, p: Problem) {
    || (p == BadName && !c.nameOk)
    || (p == IsolatedNotInternal && !IsolatedInternal(c))
    || (exists key | key in c.networks :: NetworkProblem(key, c.networks[key], p))
    || (exists key | key in c.volumes :: VolumeProblem(key, c.volumes[key], p))
    || (exists name | name in c.services :: ServiceProblem(name, c.services[name], BindsOf(binds, name), p))
  }

  /** validate_compose_config returns exactly the violations. */
  method ValidateComposeConfig(c: Config, binds: map<ServiceName, set<string>>) returns (problems: set<Problem>)
    ensures forall p :: p in problems <==> Violation(c, binds, p)
  {
    hide NetworkProblem, VolumeProblem, ServiceProblem;
    problems := {};
    if !c.nameOk { problems := problems + {BadName}; }
    var networks := NetworkProblems(c.networks);
    problems := problems + networks;
    if !IsolatedInternal(c) { problems := problems + {IsolatedNotInternal}; }
    var volumes := VolumeProblems(c.volumes);
    problems := problems + volumes;
    var services := ServiceProblems(c.services, binds);
    problems := problems + services;
  }

  method NetworkProblems(networks: map<NetworkKey, Network>) returns (problems: set<Problem>)
    ensures forall p :: p in problems <==> exists key | key in networks :: NetworkProblem(key, networks[key], p)
  {
    problems := {};
    var left := networks.Keys;
    while left != {}
      invariant left <= networks.Keys
      invariant forall p ::
        p in problems <==> exists key | key in networks && key !in left :: NetworkProblem(key, networks[key], p)
      decreases |left|
    {
      var key :| key in left;
      var one := OneNetwork(key, networks[key]);
      left := left - {key};
      hide NetworkProblem;
      problems := problems + one;
    }
  }

  method OneNetwork(key: NetworkKey, n: Network) returns (problems: set<Problem>)
    ensures forall p :: p in problems <==> NetworkProblem(key, n, p)
  {
    problems := {};
    if !Allowed(key) {
      return {UnexpectedNetwork(key)};
    }
    if n.external { problems := problems + {ExternalNetwork(key)}; }
    if !n.scoped { problems := problems + {UnscopedNetwork(key)}; }
    if n.marked { problems := problems + {MarkedNetwork(key)}; }
  }

  method VolumeProblems(volumes: map<VolumeKey, Volume>) returns (problems: set<Problem>)
    ensures forall p :: p in problems <==> exists key | key in volumes :: VolumeProblem(key, volumes[key], p)
  {
    problems := {};
    var left := volumes.Keys;
    while left != {}
      invariant left <= volumes.Keys
      invariant forall p ::
        p in problems <==> exists key | key in volumes && key !in left :: VolumeProblem(key, volumes[key], p)
      decreases |left|
    {
      var key :| key in left;
      var one := OneVolume(key, volumes[key]);
      left := left - {key};
      hide VolumeProblem;
      problems := problems + one;
    }
  }

  method OneVolume(key: VolumeKey, v: Volume) returns (problems: set<Problem>)
    ensures forall p :: p in problems <==> VolumeProblem(key, v, p)
  {
    problems := {};
    if key.OtherVolume? { problems := problems + {UnexpectedVolume(key)}; }
    if v.external { problems := problems + {ExternalVolume(key)}; }
    if !v.scoped { problems := problems + {UnscopedVolume(key)}; }
  }

  method ServiceProblems(services: map<ServiceName, Service>, binds: map<ServiceName, set<string>>)
      returns (problems: set<Problem>)
    ensures forall p ::
      p in problems <==> exists name | name in services :: ServiceProblem(name, services[name], BindsOf(binds, name), p)
  {
    problems := {};
    var left := services.Keys;
    while left != {}
      invariant left <= services.Keys
      invariant forall p :: p in problems <==>
        exists name | name in services && name !in left :: ServiceProblem(name, services[name], BindsOf(binds, name), p)
      decreases |left|
    {
      var name :| name in left;
      var one := OneService(name, services[name], BindsOf(binds, name));
      left := left - {name};
      hide ServiceProblem;
      problems := problems + one;
    }
  }

  /** The checks on the service's own settings. */
  method OwnProblems(name: ServiceName, s: Service) returns (problems: set<Problem>)
    ensures forall p :: p in problems <==>
      (p.Publishes? || p.Privileged? || p.Pinned? || p.SharesHost? || p.UsesMode?) && ServiceProblem(name, s, {}, p)
  {
    problems := {};
    if s.ports { problems := problems + {Publishes(name)}; }
    if s.privileged { problems := problems + {Privileged(name)}; }
    if s.pinned { problems := problems + {Pinned(name)}; }
    if s.hostShared { problems := problems + {SharesHost(name)}; }
    if s.mode.OtherMode? { problems := problems + {UsesMode(name)}; }
  }

  method OneService(name: ServiceName, s: Service, binds: set<string>) returns (problems: set<Problem>)
    ensures forall p :: p in problems <==> ServiceProblem(name, s, binds, p)
  {
    problems := OwnProblems(name, s);
    if exists key | key in s.networks :: !Allowed(key) { problems := problems + {JoinsForeign(name)}; }
    if Egress in s.networks && name != Fetch { problems := problems + {ReachesOut(name)}; }
    if name == Fetch && Isolated in s.networks { problems := problems + {Bridges(name)}; }
    var mounts := MountProblems(name, s.mounts, binds);
    problems := problems + mounts;
  }

  method MountProblems(name: ServiceName, mounts: seq<Mount>, binds: set<string>) returns (problems: set<Problem>)
    ensures forall p ::
      p in problems <==> p.BadMount? && p.service == name && p.index < |mounts| && !MountOk(mounts[p.index], binds)
  {
    hide MountOk;
    problems := {};
    var i := 0;
    while i < |mounts|
      invariant 0 <= i <= |mounts|
      invariant forall p ::
        p in problems <==> p.BadMount? && p.service == name && p.index < i && !MountOk(mounts[p.index], binds)
    {
      if !MountOk(mounts[i], binds) { problems := problems + {BadMount(name, i)}; }
      i := i + 1;
    }
  }

  // ----- an empty report -----

  predicate HarmlessNetwork(key: NetworkKey, n: Network) {
    (key == Isolated || key == Egress) && !n.external && n.scoped && !n.marked
  }

  predicate HarmlessVolume(key: VolumeKey, v: Volume) {
    (key == Scratch || key == Assets || key == PgData) && !v.external && v.scoped
  }

  /** One of the project's volumes, or an allowed path that is not the socket, read-only. */
  predicate HarmlessMount(m: Mount, binds: set<string>) {
    || m == VolumeMount(Scratch) || m == VolumeMount(Assets) || m == VolumeMount(PgData)
    || (m.BindMount? && m == BindMount(m.source, false, true) && m.source in binds)
  }

  predicate HarmlessService(name: ServiceName, s: Service, binds: set<string>) {
    && !s.ports && !s.privileged && !s.pinned && !s.hostShared && (s.mode == NoMode || s.mode == ModeNone)
    && (forall key | key in s.networks :: if name == Fetch then key == Egress else key == Isolated)
    && (forall i | 0 <= i < |s.mounts| :: HarmlessMount(s.mounts[i], binds))
  }

  predicate Harmless(c: Config, binds: map<ServiceName, set<string>>) {
    && c.nameOk && Isolated in c.networks && c.networks[Isolated].internal
    && (forall key | key in c.networks :: HarmlessNetwork(key, c.networks[key]))
    && (forall key | key in c.volumes :: HarmlessVolume(key, c.volumes[key]))
    && (forall name | name in c.services ::
          HarmlessService(name, c.services[name], if name in binds then binds[name] else {}))
  }

  lemma HarmlessNetworkIff(key: NetworkKey, n: Network)
    ensures HarmlessNetwork(key, n) <==> forall p :: !NetworkProblem(key, n, p)
  {
    if forall p :: !NetworkProblem(key, n, p) {
      assert !NetworkProblem(key, n, UnexpectedNetwork(key)) && !NetworkProblem(key, n, ExternalNetwork(key));
      assert !NetworkProblem(key, n, UnscopedNetwork(key)) && !NetworkProblem(key, n, MarkedNetwork(key));
    }
  }

  lemma HarmlessVolumeIff(key: VolumeKey, v: Volume)
    ensures HarmlessVolume(key, v) <==> forall p :: !VolumeProblem(key, v, p)
  {
    if forall p :: !VolumeProblem(key, v, p) {
      assert !VolumeProblem(key, v, UnexpectedVolume(key)) && !VolumeProblem(key, v, ExternalVolume(key));
      assert !VolumeProblem(key, v, UnscopedVolume(key));
    }
  }

  lemma HarmlessMountIff(m: Mount, binds: set<string>)
    ensures HarmlessMount(m, binds) <==> MountOk(m, binds)
  {
  }

  /** Each check on a service by itself. */
  predicate NothingWrong(name: ServiceName, s: Service, binds: set<string>) {
    && !s.ports && !s.privileged && !s.pinned && !s.hostShared && !s.mode.OtherMode?
    && (forall key | key in s.networks :: Allowed(key))
    && (Egress in s.networks ==> name == Fetch) && (Isolated in s.networks ==> name != Fetch)
    && (forall i | 0 <= i < |s.mounts| :: MountOk(s.mounts[i], binds))
  }

  lemma WrongIsReported(name: ServiceName, s: Service, binds: set<string>)
    requires forall p :: !ServiceProblem(name, s, binds, p)
    ensures NothingWrong(name, s, binds)
  {
    hide MountOk, Allowed;
    assert !ServiceProblem(name, s, binds, Publishes(name)) && !ServiceProblem(name, s, binds, Privileged(name));
    assert !ServiceProblem(name, s, binds, Pinned(name)) && !ServiceProblem(name, s, binds, SharesHost(name));
    assert !ServiceProblem(name, s, binds, UsesMode(name)) && !ServiceProblem(name, s, binds, JoinsForeign(name));
    assert !ServiceProblem(name, s, binds, ReachesOut(name)) && !ServiceProblem(name, s, binds, Bridges(name));
    forall i | 0 <= i < |s.mounts| ensures MountOk(s.mounts[i], binds) {
      assert !ServiceProblem(name, s, binds, BadMount(name, i));
      hide ServiceProblem;
    }
  }

  lemma ReportedIsWrong(name: ServiceName, s: Service, binds: set<string>, p: Problem)
    requires NothingWrong(name, s, binds)
    ensures !ServiceProblem(name, s, binds, p)
  {
    hide MountOk, Allowed;
  }

  lemma HarmlessServiceIff(name: ServiceName, s: Service, binds: set<string>)
    ensures HarmlessService(name, s, binds) <==> forall p :: !ServiceProblem(name, s, binds, p)
  {
    if forall p :: !ServiceProblem(name, s, binds, p) { WrongIsReported(name, s, binds); }
    if NothingWrong(name, s, binds) {
      forall p ensures !ServiceProblem(name, s, binds, p) { ReportedIsWrong(name, s, binds, p); }
    }
    hide ServiceProblem;
    forall m ensures HarmlessMount(m, binds) <==> MountOk(m, binds) { HarmlessMountIff(m, binds); }
    hide HarmlessMount, MountOk;
  }

  /** Nothing is reported exactly for harmless configurations. */
  lemma EmptyReportIff(c: Config, binds: map<ServiceName, set<string>>)
    ensures (forall p :: !Violation(c, binds, p)) <==> Harmless(c, binds)
  {
    forall key | key in c.networks
      ensures HarmlessNetwork(key, c.networks[key]) <==> forall p :: !NetworkProblem(key, c.networks[key], p)
    {
      HarmlessNetworkIff(key, c.networks[key]);
    }
    forall key | key in c.volumes
      ensures HarmlessVolume(key, c.volumes[key]) <==> forall p :: !VolumeProblem(key, c.volumes[key], p)
    {
      HarmlessVolumeIff(key, c.volumes[key]);
    }
    forall name | name in c.services
      ensures HarmlessService(name, c.services[name], BindsOf(binds, name)) <==>
        forall p :: !ServiceProblem(name, c.services[name], BindsOf(binds, name), p)
    {
      HarmlessServiceIff(name, c.services[name], BindsOf(binds, name));
    }
    hide HarmlessNetwork, HarmlessVolume, HarmlessService, NetworkProblem, VolumeProblem, ServiceProblem;
    if forall p :: !Violation(c, binds, p) {
      assert !Violation(c, binds, BadName) && !Violation(c, binds, IsolatedNotInternal);
      forall key, p | key in c.networks ensures !NetworkProblem(key, c.networks[key], p) {
        assert !Violation(c, binds, p);
      }
      forall key, p | key in c.volumes ensures !VolumeProblem(key, c.volumes[key], p) {
        assert !Violation(c, binds, p);
      }
      forall name, p | name in c.services ensures !ServiceProblem(name, c.services[name], BindsOf(binds, name), p) {
        assert !Violation(c, binds, p);
      }
    }
  }

  // ----- no way out -----

  /** The networks a service is attached to when it runs. */
  function Attached(c: Config, name: ServiceName): set<NetworkKey>
    requires name in c.services
  {
    if c.services[name].mode == ModeNone then {} else c.services[name].networks
  }

  /** A network through which packets leave the host: not declared here, external or not internal. */
  predicate Outward(c: Config, key: NetworkKey) {
    key !in c.networks || c.networks[key].external || !c.networks[key].internal
  }

  /** The service can reach the outside or be reached from it directly: over an outward network, the
      host's own network or a published port. */
  predicate Exposed(c: Config, name: ServiceName)
    requires name in c.services
  {
    var s := c.services[name];
    || s.ports || s.mode.OtherMode? || s.hostShared || s.privileged
    || exists key | key in Attached(c, name) :: Outward(c, key)
  }

  predicate Linked(c: Config, a: ServiceName, b: ServiceName)
    requires a in c.services && b in c.services
  {
    exists key | key in Attached(c, a) :: key in Attached(c, b)
  }

  /** A chain of services, each sharing a network with the next. */
  predicate Path(c: Config, p: seq<ServiceName>) {
    && (forall i | 0 <= i < |p| :: p[i] in c.services)
    && (forall i | 0 <= i < |p| - 1 :: Linked(c, p[i], p[i + 1]))
  }

  /** Everything on a chain that starts on the isolated network stays on it. */
  lemma {:induction false} StaysIsolated(c: Config, binds: map<ServiceName, set<string>>, p: seq<ServiceName>, i: nat)
    requires Harmless(c, binds) && Path(c, p) && i < |p| && Isolated in Attached(c, p[0])
    ensures Attached(c, p[i]) == {Isolated}
  {
    if i == 0 {
      OnlyIsolated(c, binds, p[0]);
    } else {
      StaysIsolated(c, binds, p, i - 1);
      assert Linked(c, p[i - 1], p[i - 1 + 1]);
      OnlyIsolated(c, binds, p[i]);
    }
  }

  lemma OnlyIsolated(c: Config, binds: map<ServiceName, set<string>>, name: ServiceName)
    requires Harmless(c, binds) && name in c.services && Isolated in Attached(c, name)
    ensures Attached(c, name) == {Isolated}
  {
    assert HarmlessService(name, c.services[name], if name in binds then binds[name] else {});
  }

  /** With no problem reported, no chain of services from the isolated network leads to a service
      that can reach the outside or be reached from it. */
  lemma NoWayOut(c: Config, binds: map<ServiceName, set<string>>, p: seq<ServiceName>)
    requires forall q :: !Violation(c, binds, q)
    requires p != [] && Path(c, p) && Isolated in Attached(c, p[0])
    ensures !Exposed(c, p[|p| - 1])
  {
    hide Violation;
    EmptyReportIff(c, binds);
    StaysIsolated(c, binds, p, |p| - 1);
    var last := p[|p| - 1];
    assert HarmlessService(last, c.services[last], if last in binds then binds[last] else {});
    assert HarmlessNetwork(Isolated, c.networks[Isolated]);
    assert forall key | key in Attached(c, last) :: key == Isolated;
  }
}
