/** The profile runtime cache: its lock regions over real runtime objects. */
module ProfileRuntimes {
  import opened Prelude

  type Mesh = nat

  // ----- what a reload keeps -----

  /** Still listed, with the fingerprint recorded when it was cached. */
  predicate Unchanged(id: string, fps: map<string, string>, listing: map<string, string>) {
    id in listing && id in fps && fps[id] == listing[id]
  }

  function Retained<R>(runtimes: map<string, R>, fps: map<string, string>,
      listing: map<string, string>): map<string, R>
  {
    map id | id in runtimes && Unchanged(id, fps, listing) :: runtimes[id]
  }

  function RetainedFps<R>(runtimes: map<string, R>, fps: map<string, string>,
      listing: map<string, string>): map<string, string>
  {
    map id | id in fps && (id in runtimes ==> Unchanged(id, fps, listing)) :: fps[id]
  }

  class ProfileRuntime {
    const fingerprint: string
    var mesh: Option<Mesh>

    constructor (fingerprint: string)
      ensures this.fingerprint == fingerprint && mesh == None
    {
      this.fingerprint := fingerprint;
      mesh := None;
    }

    method SetMesh(m: Mesh)
      modifies this
      ensures mesh == Some(m)
    {
      mesh := Some(m);
    }
  }

  class ProfileRuntimeManager {
    var runtimes: map<string, ProfileRuntime>
    var fingerprints: map<string, string>
    var mesh: Option<Mesh>

    constructor ()
      ensures runtimes == map[] && fingerprints == map[] && mesh == None
    {
      runtimes, fingerprints, mesh := map[], map[], None;
    }

    /** The locked end of `runtime_for_profile`: an existing entry wins over the runtime just built. */
    method Publish(id: string, built: ProfileRuntime) returns (r: ProfileRuntime)
      modifies this`runtimes, this`fingerprints, built
      ensures id in old(runtimes) ==>
                r == old(runtimes)[id] && runtimes == old(runtimes) && fingerprints == old(fingerprints)
                    && unchanged(built)
      ensures id !in old(runtimes) ==>
                && r == built && runtimes == old(runtimes)[id := built]
                && fingerprints == old(fingerprints)[id := built.fingerprint]
                && built.mesh == if mesh.Some? then mesh else old(built.mesh)
    {
      if id in runtimes {
        return runtimes[id];
      }
      if mesh.Some? {
        built.SetMesh(mesh.value);
      }
      fingerprints := fingerprints[id := built.fingerprint];
      runtimes := runtimes[id := built];
      return built;
    }

    /** The `retain` of `reload_profiles`; entries are visited in any order. */
    method Reload(listing: map<string, string>)
      modifies this`runtimes, this`fingerprints
      ensures runtimes == Retained(old(runtimes), old(fingerprints), listing)
      ensures fingerprints == RetainedFps(old(runtimes), old(fingerprints), listing)
    {
      ghost var was, fps := runtimes, fingerprints;
      var left := runtimes.Keys;
      while left != {}
        invariant left <= was.Keys
        invariant RetainedSoFar(was, fps, listing, left, runtimes, fingerprints)
        decreases |left|
      {
        var id :| id in left;
        if id !in listing || id !in fingerprints || fingerprints[id] != listing[id] {
          fingerprints := fingerprints - {id};
          runtimes := runtimes - {id};
        }
        left := left - {id};
      }
      AllRetained(was, fps, listing, runtimes, fingerprints);
    }

    method SetMeshHandle(m: Mesh)
      modifies this`mesh
      ensures mesh == Some(m)
    {
      mesh := Some(m);
    }

    /** The locked part of `set_mesh`; runtimes are visited in any order. */
    method SetAll(m: Mesh)
      modifies runtimes.Values
      ensures forall id :: id in runtimes ==> runtimes[id].mesh == Some(m)
    {
      var left := runtimes.Keys;
      while left != {}
        invariant left <= runtimes.Keys
        invariant forall id :: id in runtimes && id !in left ==> runtimes[id].mesh == Some(m)
        decreases |left|
      {
        var id :| id in left;
        runtimes[id].SetMesh(m);
        left := left - {id};
      }
    }

    /** `shutdown` empties the cache; the recorded fingerprints stay. */
    method Shutdown() returns (taken: map<string, ProfileRuntime>)
      modifies this`runtimes
      ensures taken == old(runtimes) && runtimes == map[]
    {
      taken := runtimes;
      runtimes := map[];
    }
  }

  /** A reload with the entries in `left` still to be visited. */
  ghost predicate RetainedSoFar<R>(was: map<string, R>, fps: map<string, string>, listing: map<string, string>,
      left: set<string>, runtimes: map<string, R>, fingerprints: map<string, string>)
  {
    && (forall id :: id in runtimes <==> id in was && (id in left || Unchanged(id, fps, listing)))
    && (forall id :: id in runtimes ==> runtimes[id] == was[id])
    && (forall id :: id in fingerprints <==> id in fps && (id in was && id !in left ==> Unchanged(id, fps, listing)))
    && (forall id :: id in fingerprints ==> fingerprints[id] == fps[id])
  }

  lemma AllRetained<R>(was: map<string, R>, fps: map<string, string>, listing: map<string, string>,
                       runtimes: map<string, R>, fingerprints: map<string, string>)
    requires RetainedSoFar(was, fps, listing, {}, runtimes, fingerprints)
    ensures runtimes == Retained(was, fps, listing) && fingerprints == RetainedFps(was, fps, listing)
  {
  }
}
