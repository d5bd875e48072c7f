/** pkg/ebpf/manager.go: loading the tcpconnect object, attaching its probe,
    and releasing what was acquired.

    The library and kernel calls are replaced by their outcomes: a `LoadEnv`
    says which object files load (and what they declare), whether creating the
    collection succeeds and which kernel symbols accept a kprobe. The kernel's
    side is a `Kernel` object that hands out resources (a loaded collection, a
    kprobe link), tracks which are live, and logs every acquisition and
    release in order. */
module BpfManager {
  import opened Wrappers
  import TcpConnect

  datatype Config = Config(objectPath: string, programName: string, mapName: string, kprobeSymbol: string)

  /** The default configuration names exactly what the object file declares:
      the program `on_tcp_connect`, the map `counts`, and the symbol of its
      `kprobe/tcp_connect` section. */
  function DefaultConfig(): (c: Config)
    ensures c.objectPath == "/bpf/tcpconnect.bpf.o"
    ensures c.programName == TcpConnect.ProgramName
    ensures c.mapName == TcpConnect.MapName
    ensures "kprobe/" + c.kprobeSymbol == TcpConnect.Section
  {
    Config("/bpf/tcpconnect.bpf.o", "on_tcp_connect", "counts", "tcp_connect")
  }

  // ---------------------------------------------------------------------------
  // Environment and kernel
  // ---------------------------------------------------------------------------

  /** The programs and maps a compiled object file declares. */
  datatype ObjectFile = ObjectFile(programs: set<string>, maps: set<string>)

  /** Outcomes of the calls NewManager makes: `LoadCollectionSpec` succeeds
      exactly for the paths in `objects`; `NewCollection` succeeds when
      `collectionOk`; `link.Kprobe` succeeds exactly for the symbols in
      `attachable`. */
  datatype LoadEnv = LoadEnv(objects: map<string, ObjectFile>, collectionOk: bool, attachable: set<string>)

  datatype ManagerError =
    | LoadSpec
    | NewCollection
    | ProgramNotFound(program: string)
    | LinkKprobe
    | MapNotFound(mapName: string)

  datatype Kind = CollectionKind | LinkKind

  datatype Resource = Resource(kind: Kind, id: nat)

  datatype Event = Acquired(r: Resource) | Released(r: Resource)

  /** A map handle; it lives inside the collection that owns it. */
  datatype MapRef = MapRef(owner: Resource, name: string)

  class Kernel {
    var live: set<Resource>
    var log: seq<Event>
    var nextId: nat

    /** Every live resource was handed out earlier. */
    ghost predicate Valid()
      reads this
    {
      forall r :: r in live ==> r.id < nextId
    }

    constructor ()
      ensures Valid() && live == {} && log == [] && nextId == 0
    {
      live := {};
      log := [];
      nextId := 0;
    }

    /** Hands out a new resource of the given kind. */
    method Acquire(kind: Kind) returns (r: Resource)
      requires Valid()
      modifies this
      ensures Valid()
      ensures r == Resource(kind, old(nextId)) && r !in old(live)
      ensures live == old(live) + {r} && log == old(log) + [Acquired(r)]
      ensures nextId == old(nextId) + 1
    {
      r := Resource(kind, nextId);
      live := live + {r};
      log := log + [Acquired(r)];
      nextId := nextId + 1;
    }

    /** Releases `r`; a release of something no longer live is still logged,
        which is how a double close shows. */
    method Release(r: Resource)
      requires Valid()
      modifies this
      ensures Valid()
      ensures live == old(live) - {r} && log == old(log) + [Released(r)]
      ensures nextId == old(nextId)
    {
      live := live - {r};
      log := log + [Released(r)];
    }
  }

  // ---------------------------------------------------------------------------
  // NewManager
  // ---------------------------------------------------------------------------

  /** The step at which NewManager stops, if any: spec load, collection
      creation, program lookup, kprobe attach, map lookup, in that order. */
  function OpenError(cfg: Config, env: LoadEnv): (e: Option<ManagerError>)
    ensures e.None? <==>
              && cfg.objectPath in env.objects
              && env.collectionOk
              && cfg.programName in env.objects[cfg.objectPath].programs
              && cfg.kprobeSymbol in env.attachable
              && cfg.mapName in env.objects[cfg.objectPath].maps
    // The first step that fails names the error: load spec, new collection,
    // program lookup, kprobe attach, map lookup.
    ensures e == Some(LoadSpec) <==> cfg.objectPath !in env.objects
    ensures e == Some(NewCollection) <==> cfg.objectPath in env.objects && !env.collectionOk
    ensures e == Some(ProgramNotFound(cfg.programName)) <==>
              && cfg.objectPath in env.objects && env.collectionOk
              && cfg.programName !in env.objects[cfg.objectPath].programs
    ensures e == Some(LinkKprobe) <==>
              && cfg.objectPath in env.objects && env.collectionOk
              && cfg.programName in env.objects[cfg.objectPath].programs
              && cfg.kprobeSymbol !in env.attachable
    ensures e == Some(MapNotFound(cfg.mapName)) <==>
              && cfg.objectPath in env.objects && env.collectionOk
              && cfg.programName in env.objects[cfg.objectPath].programs
              && cfg.kprobeSymbol in env.attachable
              && cfg.mapName !in env.objects[cfg.objectPath].maps
    ensures e.Some? && e.value.ProgramNotFound? ==> e.value.program == cfg.programName
    ensures e.Some? && e.value.MapNotFound? ==> e.value.mapName == cfg.mapName
  {
    if cfg.objectPath !in env.objects then Some(LoadSpec)
    else if !env.collectionOk then Some(NewCollection)
    else if cfg.programName !in env.objects[cfg.objectPath].programs then Some(ProgramNotFound(cfg.programName))
    else if cfg.kprobeSymbol !in env.attachable then Some(LinkKprobe)
    else if cfg.mapName !in env.objects[cfg.objectPath].maps then Some(MapNotFound(cfg.mapName))
    else None
  }

  class Manager {
    var collection: Option<Resource>
    var kprobeLink: Option<Resource>
    var countsMap: Option<MapRef>

    /** A manager NewManager returns: all three handles set, the map inside
        the collection. */
    ghost predicate Valid()
      reads this
    {
      && collection.Some? && collection.value.kind == CollectionKind
      && kprobeLink.Some? && kprobeLink.value.kind == LinkKind
      && countsMap.Some? && countsMap.value.owner == collection.value
    }

    constructor (collection: Option<Resource>, kprobeLink: Option<Resource>, countsMap: Option<MapRef>)
      ensures this.collection == collection && this.kprobeLink == kprobeLink && this.countsMap == countsMap
    {
      this.collection := collection;
      this.kprobeLink := kprobeLink;
      this.countsMap := countsMap;
    }

    /** On a manager from NewManager, the map handle of the held collection. */
    function GetCountsMap(): (m: Option<MapRef>)
      reads this
      ensures Valid() ==> m.Some? && m.value.owner == collection.value
    {
      countsMap
    }

    /** Close: release the link (if set), then the collection (if set);
        return the link's close error and ignore the collection's. The fields
        are left as they are. */
    method Close(k: Kernel, linkCloseErr: Option<string>) returns (err: Option<string>)
      requires k.Valid()
      modifies k
      ensures k.Valid() && k.nextId == old(k.nextId)
      ensures err == if kprobeLink.Some? then linkCloseErr else None
      ensures k.log == old(k.log) + ReleaseLog(kprobeLink, collection)
      ensures k.live == old(k.live) - AsSet(kprobeLink) - AsSet(collection)
    {
      err := None;
      if kprobeLink.Some? {
        k.Release(kprobeLink.value);
        if linkCloseErr.Some? {
          err := linkCloseErr;
        }
      }
      if collection.Some? {
        k.Release(collection.value);
      }
    }
  }

  function AsSet(o: Option<Resource>): set<Resource> {
    if o.Some? then {o.value} else {}
  }

  /** The releases Close performs: the link's before the collection's. */
  function ReleaseLog(link: Option<Resource>, coll: Option<Resource>): (log: seq<Event>)
    ensures |log| == |AsSet(link)| + |AsSet(coll)|
    ensures link.Some? ==> log[0] == Released(link.value)
    ensures coll.Some? ==> log[|log| - 1] == Released(coll.value)
  {
    (if link.Some? then [Released(link.value)] else []) + (if coll.Some? then [Released(coll.value)] else [])
  }

  /** NewManager: acquire the collection and the link in order; every early
      exit releases exactly what was acquired so far, the link before the
      collection, so a failed open leaves the set of live resources as it was. */
  method NewManager(cfg: Config, env: LoadEnv, k: Kernel) returns (r: Result<Manager, ManagerError>)
    requires k.Valid()
    modifies k
    ensures k.Valid()
    ensures r.Failure? <==> OpenError(cfg, env).Some?
    ensures r.Failure? ==> r.error == OpenError(cfg, env).value && k.live == old(k.live)
    ensures r.Failure? && (r.error.LoadSpec? || r.error.NewCollection?) ==>
              k.log == old(k.log)
    ensures r.Failure? && (r.error.ProgramNotFound? || r.error.LinkKprobe?) ==>
              var c := Resource(CollectionKind, old(k.nextId));
              k.log == old(k.log) + [Acquired(c), Released(c)]
    ensures r.Failure? && r.error.MapNotFound? ==>
              var c := Resource(CollectionKind, old(k.nextId));
              var l := Resource(LinkKind, old(k.nextId) + 1);
              k.log == old(k.log) + [Acquired(c), Acquired(l), Released(l), Released(c)]
    ensures r.Success? ==>
              var c := Resource(CollectionKind, old(k.nextId));
              var l := Resource(LinkKind, old(k.nextId) + 1);
              && fresh(r.value) && r.value.Valid()
              && r.value.collection == Some(c) && r.value.kprobeLink == Some(l)
              && r.value.GetCountsMap() == Some(MapRef(c, cfg.mapName))
              && k.live == old(k.live) + {c, l}
              && k.log == old(k.log) + [Acquired(c), Acquired(l)]
  {
    if cfg.objectPath !in env.objects {
      return Failure(LoadSpec);
    }
    var spec := env.objects[cfg.objectPath];
    if !env.collectionOk {
      return Failure(NewCollection);
    }
    var coll := k.Acquire(CollectionKind);
    if cfg.programName !in spec.programs {
      k.Release(coll);
      return Failure(ProgramNotFound(cfg.programName));
    }
    if cfg.kprobeSymbol !in env.attachable {
      k.Release(coll);
      return Failure(LinkKprobe);
    }
    var l := k.Acquire(LinkKind);
    if cfg.mapName !in spec.maps {
      k.Release(l);
      k.Release(coll);
      return Failure(MapNotFound(cfg.mapName));
    }
    var m := new Manager(Some(coll), Some(l), Some(MapRef(coll, cfg.mapName)));
    return Success(m);
  }

  /** Close does not clear its fields, so closing twice releases the link and
      the collection a second time, and the second call again returns the
      link's close error. */
  method CloseTwice(m: Manager, k: Kernel, firstErr: Option<string>, secondErr: Option<string>)
    returns (err1: Option<string>, err2: Option<string>)
    requires m.Valid() && k.Valid()
    modifies k
    ensures err1 == firstErr && err2 == secondErr
    ensures k.log == old(k.log) + [Released(m.kprobeLink.value), Released(m.collection.value),
                                   Released(m.kprobeLink.value), Released(m.collection.value)]
  {
    err1 := m.Close(k, firstErr);
    err2 := m.Close(k, secondErr);
  }
}
