/** What an empty report of the socket check means. */
module SocketIsolation {
  import opened Basics
  import opened ComposeFile
  import opened HostPaths
  import opened SocketAccess

  /** Names for the volumes whose own name only a deploy knows. */
  type Naming = string -> string

  /** The Docker volume that `key` becomes in a deployment. */
  function Deployed(volumes: seq<Entry>, project: string, naming: Naming, key: string): string {
    match DockerVolumeOf(volumes, key)
    case Named(name) => name
    case Scoped(k) => project + "_" + k
    case Unresolved => naming(key)
  }

  /** Whether a path the file gives is unresolved or may give a socket away. */
  ghost predicate PathReaches(raw: Yaml) {
    raw.Str? && (UNSET in Resolved(raw.text) || MayGive(Resolved(raw.text)))
  }

  /** Whether a volume is backed by such a path, or by something outside the file. */
  ghost predicate Backed(volume: Yaml) {
    IsExternal(volume) || PathReaches(DeviceOf(volume))
  }

  /** Whether mounting `key` mounts a backed volume: some key that is the same Docker
      volume in this deployment is backed. */
  ghost predicate VolumeReaches(volumes: seq<Entry>, project: string, naming: Naming, key: string) {
    exists other :: BackedBy(volumes, project, naming, key, other)
  }

  ghost predicate BackedBy(volumes: seq<Entry>, project: string, naming: Naming, key: string, other: string) {
    && (other == key || Has(volumes, other)) && Backed(Lookup(volumes, other))
    && Deployed(volumes, project, naming, key) == Deployed(volumes, project, naming, other)
  }

  /** Whether a mount may reach a socket. One that cannot be read may. */
  ghost predicate EntryReaches(volumes: seq<Entry>, project: string, naming: Naming, entry: Yaml) {
    match MountOf(entry)
    case HostPath(path) => MayGive(path)
    case Volume(key) => VolumeReaches(volumes, project, naming, key)
    case Nothing => false
    case Refused(_) => true
  }

  /** Whether service `s` may reach a socket by itself. */
  ghost predicate OwnAccess(c: Compose, project: string, naming: Naming, s: string) {
    || s == PROXY
    || exists e :: e in c.services && e.key == s && ServiceAccess(c, project, naming, e)
  }

  ghost predicate ServiceAccess(c: Compose, project: string, naming: Naming, e: Entry) {
    UsesApi(e) || exists i :: 0 <= i < |MountsOf(e)| && EntryReaches(c.volumes, project, naming, MountsOf(e)[i])
  }

  /** Whether `s` may reach a socket, by itself or through a chain of `volumes_from`. */
  ghost predicate Access(c: Compose, project: string, naming: Naming, s: string) {
    exists names :: AccessBy(c, project, naming, s, names)
  }

  ghost predicate AccessBy(c: Compose, project: string, naming: Naming, s: string, names: seq<string>) {
    IsChain(InheritsOf(c.services), names) && names[0] == s && OwnAccess(c, project, naming, names[|names| - 1])
  }

  // ----- volumes ------------------------------------------------------------

  /** Two keys that no deployment-time name is involved in can be one Docker volume
      exactly when some project, with a name, makes them so. */
  lemma SharedIsExact(a: DockerVolume, b: DockerVolume)
    requires !a.Unresolved? && !b.Unresolved? && (a.Scoped? && b.Scoped? ==> a.key != b.key)
    ensures Shared(a, b) != Never <==> exists project :: project != "" && NameIn(a, project) == NameIn(b, project)
  {
    if a.Named? && b.Named? {
      assert NameIn(a, "x") == a.name && NameIn(b, "x") == b.name;
    } else if a.Named? && b.Scoped? {
      CollidesIff(a.name, b.key);
    } else if a.Scoped? && b.Named? {
      CollidesIff(b.name, a.key);
    } else {
      forall project ensures NameIn(a, project) != NameIn(b, project) {
        assert NameIn(a, project)[|project| + 1..] == a.key && NameIn(b, project)[|project| + 1..] == b.key;
      }
    }
  }

  function NameIn(v: DockerVolume, project: string): string
    requires !v.Unresolved?
  {
    match v
    case Named(name) => name
    case Scoped(key) => project + "_" + key
  }

  lemma CollidesIff(name: string, key: string)
    ensures |name| > |key| + 1 && EndsWith(name, "_" + key) <==>
            exists project :: project != "" && NameIn(Named(name), project) == NameIn(Scoped(key), project)
  {
    if |name| > |key| + 1 && EndsWith(name, "_" + key) {
      SplitsAt(name, name[..|name| - |key| - 1], key);
      assert NameIn(Named(name), name[..|name| - |key| - 1]) == NameIn(Scoped(key), name[..|name| - |key| - 1]);
    }
    forall project | project != "" && NameIn(Named(name), project) == NameIn(Scoped(key), project)
      ensures |name| > |key| + 1 && EndsWith(name, "_" + key)
    {
      JoinedEnds(name, project, key);
    }
  }

  lemma SplitsAt(name: string, project: string, key: string)
    requires |name| > |key| + 1 && EndsWith(name, "_" + key) && project == name[..|name| - |key| - 1]
    ensures name == project + "_" + key && project != ""
  {
    assert name == project + ("_" + key);
    assert project + "_" + key == project + ("_" + key);
  }

  lemma JoinedEnds(name: string, project: string, key: string)
    requires name == project + "_" + key && project != ""
    ensures |name| > |key| + 1 && EndsWith(name, "_" + key)
  {
    assert name == project + ("_" + key);
  }

  lemma SharedWhenDeployed(volumes: seq<Entry>, project: string, naming: Naming, key: string, other: string)
    requires project != "" && key != other
    requires Deployed(volumes, project, naming, key) == Deployed(volumes, project, naming, other)
    ensures Shared(DockerVolumeOf(volumes, key), DockerVolumeOf(volumes, other)) != Never
  {
    var a, b := DockerVolumeOf(volumes, key), DockerVolumeOf(volumes, other);
    if !a.Unresolved? && !b.Unresolved? {
      SharedIsExact(a, b);
      assert NameIn(a, project) == NameIn(b, project);
    }
  }

  lemma PathReachesIsFound(raw: Yaml)
    requires PathReaches(raw)
    ensures HostSource(raw).Some?
  {
    if UNSET !in Resolved(raw.text) {
      HostPathIsExact(Resolved(raw.text));
    }
  }

  lemma BackedIsFound(volumes: seq<Entry>, key: string)
    requires Backed(Lookup(volumes, key))
    ensures OwnVolumeViolation(volumes, key).Some?
  {
    if !IsExternal(Lookup(volumes, key)) {
      PathReachesIsFound(DeviceOf(Lookup(volumes, key)));
    }
  }

  lemma {:induction false} ClashIsFound(volumes: seq<Entry>, key: string, part: seq<Entry>, other: string)
    requires Has(part, other) && Clashes(volumes, key, other)
    ensures FirstClash(volumes, key, part).Some?
  {
    if !Clashes(volumes, key, part[0].key) {
      var e :| e in part && e.key == other;
      assert e in part[1..];
      ClashIsFound(volumes, key, part[1..], other);
    }
  }

  /** Whatever the project is called, mounting a key the check passes mounts no volume
      that is backed, under this key or another. */
  lemma VolumeReachesIsFound(volumes: seq<Entry>, project: string, naming: Naming, key: string)
    requires project != "" && VolumeReaches(volumes, project, naming, key)
    ensures NamedVolume(volumes, key).Some?
  {
    var other :| BackedBy(volumes, project, naming, key, other);
    BackedIsFound(volumes, other);
    if other != key {
      SharedWhenDeployed(volumes, project, naming, key, other);
      ClashIsFound(volumes, key, volumes, other);
    }
  }

  lemma EntryReachesIsFound(volumes: seq<Entry>, project: string, naming: Naming, entry: Yaml)
    requires project != "" && EntryReaches(volumes, project, naming, entry)
    ensures MountReason(volumes, entry).Some?
  {
    match MountOf(entry)
    case HostPath(path) => HostPathIsExact(path);
    case Volume(key) => VolumeReachesIsFound(volumes, project, naming, key);
    case _ =>
  }

  // ----- what the verdict on a mount means ----------------------------------

  /** Whether a path the file gives is one the check must not pass. */
  ghost predicate SourceSuspect(raw: Yaml) {
    !raw.Str? || UNSET in Resolved(raw.text) || MayGive(Resolved(raw.text)) || Doubtful(Resolved(raw.text))
  }

  /** Whether a volume's own definition is. */
  ghost predicate VolumeSuspect(volume: Yaml) {
    IsExternal(volume) || (DeviceOf(volume) != Undefined && SourceSuspect(DeviceOf(volume)))
  }

  /** Whether, in this deployment, mounting `key` mounts the volume of a suspect key. */
  ghost predicate MountsSuspect(volumes: seq<Entry>, project: string, naming: Naming, key: string, other: string) {
    && project != "" && (other == key || Has(volumes, other)) && VolumeSuspect(Lookup(volumes, other))
    && Deployed(volumes, project, naming, key) == Deployed(volumes, project, naming, other)
  }

  ghost predicate MountSuspect(volumes: seq<Entry>, entry: Yaml) {
    match MountOf(entry)
    case HostPath(path) => MayGive(path) || Doubtful(path)
    case Volume(key) => exists project, naming, other :: MountsSuspect(volumes, project, naming, key, other)
    case Nothing => false
    case Refused(_) => true
  }

  lemma OwnVerdictIsExact(volumes: seq<Entry>, key: string)
    ensures OwnVolumeViolation(volumes, key).Some? <==> VolumeSuspect(Lookup(volumes, key))
  {
    var device := DeviceOf(Lookup(volumes, key));
    if device.Str? {
      HostPathIsExact(Resolved(device.text));
    }
  }

  /** Two keys that may be one volume are, in some deployment. */
  lemma SomeDeployment(volumes: seq<Entry>, key: string, other: string) returns (project: string, naming: Naming)
    requires key != other && Shared(DockerVolumeOf(volumes, key), DockerVolumeOf(volumes, other)) != Never
    ensures project != "" && Deployed(volumes, project, naming, key) == Deployed(volumes, project, naming, other)
  {
    var a, b := DockerVolumeOf(volumes, key), DockerVolumeOf(volumes, other);
    project, naming := "p", (_ => "");
    if a.Unresolved? && !b.Unresolved? {
      var name := NameIn(b, project);
      naming := _ => name;
    } else if b.Unresolved? && !a.Unresolved? {
      var name := NameIn(a, project);
      naming := _ => name;
    } else if !a.Unresolved? && !b.Unresolved? {
      SharedIsExact(a, b);
      project :| project != "" && NameIn(a, project) == NameIn(b, project);
    }
  }

  lemma {:induction false} FirstClashClashes(volumes: seq<Entry>, key: string, part: seq<Entry>) returns (other: string)
    requires FirstClash(volumes, key, part).Some?
    ensures Has(part, other) && Clashes(volumes, key, other)
  {
    if Clashes(volumes, key, part[0].key) {
      other := part[0].key;
      assert part[0] in part;
    } else {
      other := FirstClashClashes(volumes, key, part[1..]);
      var e :| e in part[1..] && e.key == other;
      assert e in part;
    }
  }

  lemma VolumeVerdictIsExact(volumes: seq<Entry>, key: string)
    ensures NamedVolume(volumes, key).Some? <==>
            exists project, naming, other :: MountsSuspect(volumes, project, naming, key, other)
  {
    OwnVerdictIsExact(volumes, key);
    if OwnVolumeViolation(volumes, key).Some? {
      assert MountsSuspect(volumes, "p", _ => "", key, key);
    } else if NamedVolume(volumes, key).Some? {
      var other := FirstClashClashes(volumes, key, volumes);
      OwnVerdictIsExact(volumes, other);
      var project, naming := SomeDeployment(volumes, key, other);
      assert MountsSuspect(volumes, project, naming, key, other);
    }
    if project, naming, other :| MountsSuspect(volumes, project, naming, key, other) {
      OwnVerdictIsExact(volumes, other);
      if other != key {
        SharedWhenDeployed(volumes, project, naming, key, other);
        ClashIsFound(volumes, key, volumes, other);
      }
    }
  }

  /** The verdict on a mount is exact: there is one exactly when the mount cannot be read,
      when its path may give a socket away or is doubtful, or when in some deployment its
      volume is one with such a path or from outside, under its own key or another. */
  lemma MountVerdictIsExact(volumes: seq<Entry>, entry: Yaml)
    ensures MountReason(volumes, entry).Some? <==> MountSuspect(volumes, entry)
  {
    match MountOf(entry)
    case HostPath(path) => HostPathIsExact(path);
    case Volume(key) => VolumeVerdictIsExact(volumes, key);
    case _ =>
  }

  // ----- services -----------------------------------------------------------

  lemma {:induction false} BadMount(volumes: seq<Entry>, mounts: seq<Yaml>, i: nat)
    requires i < |mounts| && MountReason(volumes, mounts[i]).Some?
    ensures HasBadMount(volumes, mounts)
    ensures forall name | name != PROXY :: MountReport(volumes, name, mounts) != []
  {
    if i < |mounts| - 1 {
      BadMount(volumes, mounts[..|mounts| - 1], i);
    }
  }

  lemma {:induction false} InHolders(volumes: seq<Entry>, services: seq<Entry>, e: Entry)
    requires e in services && HasBadMount(volumes, MountsOf(e))
    ensures e.key in Holders(volumes, services)
  {
    InFrontOrLast(services, e);
    if e in services[..|services| - 1] {
      InHolders(volumes, services[..|services| - 1], e);
    }
  }

  lemma {:induction false} ProxyHolds(volumes: seq<Entry>, services: seq<Entry>)
    ensures PROXY in Holders(volumes, services)
  {
    if services != [] {
      ProxyHolds(volumes, services[..|services| - 1]);
    }
  }

  lemma {:induction false} NothingReported(volumes: seq<Entry>, services: seq<Entry>, e: Entry)
    requires e in services && ServicesReport(volumes, services) == []
    ensures ServiceReport(volumes, e) == []
  {
    InFrontOrLast(services, e);
    if e != services[|services| - 1] {
      NothingReported(volumes, services[..|services| - 1], e);
    }
  }

  lemma {:induction false} NoFileReported(definitions: seq<Entry>, e: Entry)
    requires e in definitions && FilesReport(definitions) == []
    ensures FileOf(e.value) == None
  {
    InFrontOrLast(definitions, e);
    if e != definitions[|definitions| - 1] {
      NoFileReported(definitions[..|definitions| - 1], e);
    }
  }

  /** Own access of any service but the proxy is reported or makes it a holder. */
  lemma OwnAccessIsFound(c: Compose, project: string, naming: Naming, s: string)
    requires project != "" && OwnAccess(c, project, naming, s) && Direct(c) == []
    ensures s == PROXY && s in Holders(c.volumes, c.services)
  {
    ProxyHolds(c.volumes, c.services);
    if s != PROXY {
      var e :| e in c.services && e.key == s && ServiceAccess(c, project, naming, e);
      NothingReported(c.volumes, c.services, e);
      assert !UsesApi(e);
      var i :| 0 <= i < |MountsOf(e)| && EntryReaches(c.volumes, project, naming, MountsOf(e)[i]);
      EntryReachesIsFound(c.volumes, project, naming, MountsOf(e)[i]);
      BadMount(c.volumes, MountsOf(e), i);
    }
  }

  /** When the check reports nothing, then in every deployment, whatever its project
      and the volume names the file leaves open, no service but the proxy may reach a
      socket: not by a mount of its own, not by a volume that is another key's, and not
      through any chain of `volumes_from`. */
  lemma OnlyProxyHasAccess(c: Compose, project: string, naming: Naming, s: string)
    requires project != "" && Accepted(c)
    ensures Access(c, project, naming, s) ==> s == PROXY
  {
    assert !MustInherit(c, s);
    if Access(c, project, naming, s) && s != PROXY {
      var names :| AccessBy(c, project, naming, s, names);
      OwnAccessIsFound(c, project, naming, names[|names| - 1]);
      if |names| > 1 {
        assert ReachesBy(InheritsOf(c.services), Holders(c.volumes, c.services), s, names);
      }
    }
  }

  /** ... and no secret or config is read from a path that may give a socket away. */
  lemma NoFileReaches(c: Compose, e: Entry)
    requires Accepted(c) && (e in c.secrets || e in c.configs)
    ensures !PathReaches(Field(e.value, "file"))
  {
    if e in c.secrets {
      NoFileReported(c.secrets, e);
    } else {
      NoFileReported(c.configs, e);
    }
    if PathReaches(Field(e.value, "file")) {
      PathReachesIsFound(Field(e.value, "file"));
    }
  }
}
