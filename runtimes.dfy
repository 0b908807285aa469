/** The registry of running zenoh runtimes kept by the backend, and the port
    allocator that gives each started runtime its remote-API port. */
module Runtimes {
  import opened Prelude
  import opened TsConfig

  /** zenoh's `ZenohId`; its value is never inspected here. */
  type ZenohId(==)

  /** The first port `allocate_port` tries */
  const FIRST_PORT: U16 := 10000

  /** What the registry keeps of a `RuntimeProcess`: the configuration it
      was started with and its port. */
  datatype RuntimeProcess = RuntimeProcess(sandboxConfig: ZenohConfigJson, allocatedPort: U16)

  datatype RuntimeError = NotFound(zid: ZenohId)

  /** How the I/O part of `zenoh_runtime_start` turns out:
      - `ConversionFailed`: the configuration did not convert to zenoh's
        `Config`, before any port was taken;
      - `FailedAfterAllocation`: one of the later steps (configuration edits,
        socket, spawn, handshake) failed;
      - `Started`: the runtime answered with its id. */
  datatype StartOutcome =
    | ConversionFailed(message: string)
    | FailedAfterAllocation(message: string)
    | Started(zid: ZenohId)

  /** Some port from 10000 up is still free; otherwise the `u16` counter of
      `allocate_port` would overflow. */
  ghost predicate HasFreePort(tracker: set<U16>) {
    exists p: U16 :: FIRST_PORT <= p && p !in tracker
  }

  /** `p` is the lowest port from 10000 up that `tracker` does not hold. */
  ghost predicate LowestFree(tracker: set<U16>, p: U16) {
    && FIRST_PORT <= p && p !in tracker
    && forall q: U16 :: FIRST_PORT <= q < p ==> q in tracker
  }

  /** The scan of `allocate_port`: the lowest port from 10000 up that is not
      tracked. */
  method FirstFreePort(tracker: set<U16>) returns (port: U16)
    requires HasFreePort(tracker)
    ensures FIRST_PORT <= port && port !in tracker
    ensures forall q: U16 :: FIRST_PORT <= q < port ==> q in tracker
  {
    ghost var free: U16 :| FIRST_PORT <= free && free !in tracker;
    port := FIRST_PORT;
    while port in tracker
      invariant FIRST_PORT <= port <= free
      invariant forall q: U16 :: FIRST_PORT <= q < port ==> q in tracker
      decreases free - port
    {
      port := port + 1;
    }
  }

  /** `create_zenoh_config`: turn the edit into a configuration, serialize it
      and validate the result; the edit itself is handed back unchanged. */
  function CreateZenohConfig(edit: ZenohConfigEdit, serde: Serde): (r: Result<(ZenohConfigEdit, ZenohConfigJson), string>)
    ensures r.Ok? <==>
      && ToConfig(edit, serde).Ok?
      && serde.toValue(ToConfig(edit, serde).value).Ok?
      && serde.fromValue(serde.toValue(ToConfig(edit, serde).value).value).Ok?
    ensures r.Ok? ==> r.value.0 == edit
    ensures r.Ok? ==> AsJson(r.value.1) == serde.toValue(ToConfig(edit, serde).value).value
  {
    match ToConfig(edit, serde)
    case Err(e) => Err(e)
    case Ok(config) =>
      match serde.toValue(config)
      case Err(e) => Err("Failed to serialize config: " + e)
      case Ok(json) =>
        match FromJson(json, serde)
        case Err(e) => Err(e)
        case Ok(validated) => Ok((edit, validated))
  }

  /** The default edit validates to the serialized default configuration
      when zenoh accepts that. */
  lemma CreateDefaultConfig(serde: Serde)
    requires serde.toValue(serde.defaultConfig).Ok?
    requires serde.fromValue(serde.toValue(serde.defaultConfig).value).Ok?
    ensures CreateZenohConfig(DefaultEdit(), serde)
      == Ok((DefaultEdit(), ZenohConfigJson(serde.toValue(serde.defaultConfig).value)))
  {
    DefaultEditGivesDefaultConfig(serde);
  }

  /** `ZenohRuntimes`: the running runtimes by id, and the set of ports
      handed out. */
  class ZenohRuntimes {
    var runtimes: map<ZenohId, RuntimeProcess>
    var portTracker: set<U16>

    /** The ports of the registered runtimes. */
    ghost function AllocatedPorts(): set<U16>
      reads this
    {
      set zid | zid in runtimes :: runtimes[zid].allocatedPort
    }

    /** Every registered runtime holds a tracked port of its own. The tracker
        may hold more: the ports of starts that failed after allocating. */
    ghost predicate Valid()
      reads this
    {
      && (forall zid :: zid in runtimes ==> runtimes[zid].allocatedPort in portTracker)
      && (forall a, b :: a in runtimes && b in runtimes && a != b ==>
            runtimes[a].allocatedPort != runtimes[b].allocatedPort)
    }

    /** `ZenohRuntimes::new`, without the directories it creates. */
    constructor ()
      ensures Valid()
      ensures runtimes == map[] && portTracker == {}
    {
      runtimes := map[];
      portTracker := {};
    }

    /** `ZenohRuntimes::allocate_port`: reserve and return the lowest
        untracked port from 10000 up. */
    method AllocatePort() returns (port: U16)
      requires Valid()
      requires HasFreePort(portTracker)
      modifies this`portTracker
      ensures Valid()
      ensures FIRST_PORT <= port && port !in old(portTracker)
      ensures forall q: U16 :: FIRST_PORT <= q < port ==> q in old(portTracker)
      ensures portTracker == old(portTracker) + {port}
    {
      port := FirstFreePort(portTracker);
      portTracker := portTracker + {port};
    }

    /** `ZenohRuntimes::release_port`: untrack `port`, and only it; a port
        that is not tracked leaves the tracker as it was. */
    method ReleasePort(port: U16)
      requires Valid()
      modifies this`portTracker
      ensures portTracker == old(portTracker) - {port}
      ensures port !in old(portTracker) ==> portTracker == old(portTracker)
      ensures port !in AllocatedPorts() ==> Valid()
    {
      portTracker := portTracker - {port};
    }

    /** The registry side of `zenoh_runtime_start`: allocate a port, then
        either fail, keeping the port reserved, or register the runtime
        under its id with that port. */
    method Start(config: ZenohConfigJson, outcome: StartOutcome) returns (r: Result<(ZenohId, U16), string>)
      requires Valid()
      requires !outcome.ConversionFailed? ==> HasFreePort(portTracker)
      modifies this
      ensures Valid()
      ensures outcome.ConversionFailed? ==>
        r == Err(outcome.message) && runtimes == old(runtimes) && portTracker == old(portTracker)
      ensures outcome.FailedAfterAllocation? ==>
        && r == Err(outcome.message)
        && runtimes == old(runtimes)
        && exists p: U16 :: LowestFree(old(portTracker), p) && portTracker == old(portTracker) + {p}
      ensures outcome.Started? ==>
        && r.Ok? && r.value.0 == outcome.zid
        && LowestFree(old(portTracker), r.value.1)
        && portTracker == old(portTracker) + {r.value.1}
        && runtimes == old(runtimes)[outcome.zid := RuntimeProcess(config, r.value.1)]
    {
      if outcome.ConversionFailed? {
        return Err(outcome.message);
      }
      var port := AllocatePort();
      if outcome.FailedAfterAllocation? {
        assert LowestFree(old(portTracker), port);
        return Err(outcome.message);
      }
      runtimes := runtimes[outcome.zid := RuntimeProcess(config, port)];
      r := Ok((outcome.zid, port));
    }

    /** The registry side of `zenoh_runtime_stop`: an unknown id is an error
        that changes nothing; a known one is removed and its port released. */
    method Stop(zid: ZenohId) returns (r: Result<(), RuntimeError>)
      requires Valid()
      modifies this
      ensures Valid()
      ensures zid !in old(runtimes) ==>
        r == Err(NotFound(zid)) && runtimes == old(runtimes) && portTracker == old(portTracker)
      ensures zid in old(runtimes) ==>
        && r == Ok(())
        && runtimes == old(runtimes) - {zid}
        && portTracker == old(portTracker) - {old(runtimes)[zid].allocatedPort}
    {
      if zid !in runtimes {
        return Err(NotFound(zid));
      }
      var process := runtimes[zid];
      runtimes := runtimes - {zid};
      ReleasePort(process.allocatedPort);
      r := Ok(());
    }

    /** `zenoh_runtime_list`: every registered id, once each. */
    method List() returns (ids: seq<ZenohId>)
      ensures forall zid :: zid in ids <==> zid in runtimes
      ensures |ids| == |runtimes|
    {
      var rest := runtimes.Keys;
      ids := [];
      while rest != {}
        invariant rest <= runtimes.Keys
        invariant forall zid :: zid in ids <==> zid in runtimes && zid !in rest
        invariant |ids| + |rest| == |runtimes|
        decreases |rest|
      {
        var zid :| zid in rest;
        ids := ids + [zid];
        rest := rest - {zid};
      }
    }

    /** `zenoh_runtime_config`: the configuration a registered runtime was
        started with, as it was given. */
    method RuntimeConfig(zid: ZenohId) returns (r: Result<ZenohConfigJson, RuntimeError>)
      ensures r.Ok? <==> zid in runtimes
      ensures r.Err? ==> r.error == NotFound(zid)
      ensures r.Ok? ==> r.value == runtimes[zid].sandboxConfig
    {
      if zid !in runtimes {
        return Err(NotFound(zid));
      }
      r := Ok(runtimes[zid].sandboxConfig);
    }
  }

  /** Starting and then stopping a runtime gives its port back, and the
      configuration it was started with is what the lookup returns while it
      runs. */
  method StartStopCycle(registry: ZenohRuntimes, config: ZenohConfigJson, zid: ZenohId)
    requires registry.Valid() && HasFreePort(registry.portTracker)
    modifies registry
    ensures registry.Valid()
    ensures registry.portTracker == old(registry.portTracker)
    ensures registry.runtimes == old(registry.runtimes) - {zid}
  {
    var started := registry.Start(config, Started(zid));
    var looked := registry.RuntimeConfig(zid);
    assert looked == Ok(config);
    var stopped := registry.Stop(zid);
    assert stopped == Ok(());
  }
}
