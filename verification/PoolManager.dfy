/** apps/api/internal/adapter/manager.go: the manager of connection pools, one step per section under its mutex. */
module PoolManager {
  import opened Prelude
  import opened Sql

  // limits are the byte and connection limits as compareConfig sees them, after their defaults were filled in.
  datatype Config = Config(connectionID: string, revision: int, secretVersion: int, engine: Engine, host: string, port: int,
    user: string, password: string, database: string, tls: string, limits: seq<int>)

  datatype Pool = Pool(generation: nat, cfg: Config)

  datatype Failure = PoolClosed | StaleConfig | ConfigConflict | CreationFailed | Cancelled

  // What a mutex section lets its caller do next: return, wait on a channel, or create a pool (having stored a channel
  // of its own in creating, or not).
  datatype Move =
    | Return(result: Result<Pool, Failure>)
    | Wait(channel: nat)
    | Create(own: Option<nat>)

  // The fields under the mutex.
  datatype Snapshot = Snapshot(pools: map<string, Pool>, revs: map<string, int>, cfgs: map<string, Config>,
    creating: map<string, nat>, closed: bool)

  function NormalTls(t: string): string { if t == "" then "require" else t }

  function Normal(c: Config): Config { c.(tls := NormalTls(c.tls)) }

  function Sanitized(c: Config): Config { c.(password := "") }

  // compareConfig: everything but the revision and the password.
  predicate Same(c: Config, o: Config)
  {
    c.(revision := 0, password := "", tls := NormalTls(c.tls)) == o.(revision := 0, password := "", tls := NormalTls(o.tls))
  }

  const NO_CONFIG := Config("", 0, 0, PostgreSQL, "", 0, "", "", "", "", [])

  function RevOf(m: Snapshot, cid: string): int { if cid in m.revs then m.revs[cid] else 0 }

  function CfgOf(m: Snapshot, cid: string): Config { if cid in m.cfgs then m.cfgs[cid] else NO_CONFIG }

  // An installed pool that is not closed; a pool is closed only after it was replaced or the manager was closed.
  function Live(m: Snapshot, cid: string): Option<Pool>
  {
    if cid in m.pools then Some(m.pools[cid]) else None
  }

  // ---- The sections as transitions ----

  function BeginStep(m: Snapshot, cfg: Config, unused: nat): (Snapshot, Move)
  {
    var cid := cfg.connectionID;
    if m.closed then (m, Return(Err(PoolClosed)))
    else if cfg.revision < RevOf(m, cid) then (m, Return(Err(StaleConfig)))
    else if cfg.revision == RevOf(m, cid) && Live(m, cid).Some? then
      (m, Return(if Same(cfg, CfgOf(m, cid)) then Ok(Live(m, cid).value) else Err(ConfigConflict)))
    else if cid in m.creating then (m, Wait(m.creating[cid]))
    else (m.(creating := m.creating[cid := unused]), Create(Some(unused)))
  }

  function AwakenStep(m: Snapshot, cfg: Config): Move
  {
    var cid := cfg.connectionID;
    if m.closed then Return(Err(PoolClosed))
    else if cfg.revision < RevOf(m, cid) then Return(Err(StaleConfig))
    else if cfg.revision > RevOf(m, cid) then Create(None)
    else if Live(m, cid).Some? && Same(cfg, CfgOf(m, cid)) then Return(Ok(Live(m, cid).value))
    else Return(Err(ConfigConflict))
  }

  // The channel stored for the connection, whoever stored it, is removed; it is the one to be closed.
  function UnlatchStep(m: Snapshot, cid: string): (Snapshot, Option<nat>)
  {
    if cid in m.creating then (m.(creating := m.creating - {cid}), Some(m.creating[cid])) else (m, None)
  }

  // After the channel is closed: the new pool is installed in place of the old one (true), or refused.
  function InstallStep(m: Snapshot, cfg: Config, made: Pool): (Snapshot, Result<Pool, Failure>, bool)
  {
    var cid := cfg.connectionID;
    if m.closed then (m, Err(PoolClosed), false)
    else if cfg.revision < RevOf(m, cid) then (m, Err(StaleConfig), false)
    else if cfg.revision == RevOf(m, cid) && Live(m, cid).Some? then
      (m, if Same(cfg, CfgOf(m, cid)) then Ok(Live(m, cid).value) else Err(ConfigConflict), false)
    else
      (m.(pools := m.pools[cid := made], revs := m.revs[cid := cfg.revision], cfgs := m.cfgs[cid := Sanitized(cfg)]), Ok(made), true)
  }

  class Manager {
    var pools: map<string, Pool>
    var currentRevs: map<string, int>
    var currentCfgs: map<string, Config>
    var creating: map<string, nat>
    var closed: bool

    function State(): Snapshot
      reads this
    {
      Snapshot(pools, currentRevs, currentCfgs, creating, closed)
    }

    constructor ()
      ensures State() == Snapshot(map[], map[], map[], map[], false)
    {
      pools, currentRevs, currentCfgs, creating, closed := map[], map[], map[], map[], false;
    }

    // Get up to the wait or the creation.
    method Begin(cfg: Config, unused: nat) returns (move: Move)
      modifies this`creating
      ensures (State(), move) == BeginStep(old(State()), Normal(cfg), unused)
    {
      if closed {
        return Return(Err(PoolClosed));
      }
      var c := cfg.(tls := NormalTls(cfg.tls));
      var cid := c.connectionID;
      var rev := if cid in currentRevs then currentRevs[cid] else 0;
      if c.revision < rev {
        return Return(Err(StaleConfig));
      }
      if c.revision == rev {
        if cid in pools {
          if Same(c, if cid in currentCfgs then currentCfgs[cid] else NO_CONFIG) {
            return Return(Ok(pools[cid]));
          }
          return Return(Err(ConfigConflict));
        }
      }
      if cid in creating {
        return Wait(creating[cid]);
      }
      creating := creating[cid := unused];
      return Create(Some(unused));
    }

    // Get after its wait; cfg is normal by then.
    method Awaken(cfg: Config) returns (move: Move)
      ensures move == AwakenStep(State(), cfg)
    {
      if closed {
        return Return(Err(PoolClosed));
      }
      var cid := cfg.connectionID;
      var rev := if cid in currentRevs then currentRevs[cid] else 0;
      if cfg.revision < rev {
        return Return(Err(StaleConfig));
      }
      if cfg.revision > rev {
        return Create(None);
      }
      if cid in pools {
        if Same(cfg, if cid in currentCfgs then currentCfgs[cid] else NO_CONFIG) {
          return Return(Ok(pools[cid]));
        }
      }
      return Return(Err(ConfigConflict));
    }

    method Unlatch(cid: string) returns (channel: Option<nat>)
      modifies this`creating
      ensures (State(), channel) == UnlatchStep(old(State()), cid)
    {
      channel := None;
      if cid in creating {
        channel := Some(creating[cid]);
        creating := creating - {cid};
      }
    }

    // Get after a successful creation; a pool that is not kept is closed at once, the one it replaced drains.
    method Install(cfg: Config, made: Pool)
        returns (r: Result<Pool, Failure>, channel: Option<nat>, replaced: Option<Pool>, keep: bool)
      modifies this
      ensures channel == UnlatchStep(old(State()), cfg.connectionID).1
      ensures (State(), r, keep) == InstallStep(UnlatchStep(old(State()), cfg.connectionID).0, cfg, made)
      ensures replaced == if keep then Live(old(State()), cfg.connectionID) else None
    {
      channel := Unlatch(cfg.connectionID);
      replaced, keep := None, false;
      if closed {
        return Err(PoolClosed), channel, None, false;
      }
      var cid := cfg.connectionID;
      var rev := if cid in currentRevs then currentRevs[cid] else 0;
      if cfg.revision < rev {
        return Err(StaleConfig), channel, None, false;
      }
      if cfg.revision == rev {
        if cid in pools {
          if Same(cfg, if cid in currentCfgs then currentCfgs[cid] else NO_CONFIG) {
            return Ok(pools[cid]), channel, None, false;
          }
          return Err(ConfigConflict), channel, None, false;
        }
      }
      if cid in pools {
        replaced := Some(pools[cid]);
      }
      pools, currentRevs, currentCfgs := pools[cid := made], currentRevs[cid := cfg.revision], currentCfgs[cid := Sanitized(cfg)];
      return Ok(made), channel, replaced, true;
    }

    method Close() returns (entries: set<Pool>)
      modifies this`closed
      ensures State() == old(State()).(closed := true)
      ensures entries == if old(closed) then {} else old(pools).Values
    {
      if closed {
        return {};
      }
      closed := true;
      entries := pools.Values;
    }
  }
}
