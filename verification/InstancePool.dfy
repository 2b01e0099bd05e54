/** The pool of strategy instances: started and stopped to follow the configurations. */
module InstancePool {
  datatype Config = Config(id: int, version: int)

  // Instances are numbered in the order in which they are created.
  datatype Running = Running(version: int, instance: nat)

  predicate DistinctIds(configs: seq<Config>) {
    forall i, j :: 0 <= i < j < |configs| ==> configs[i].id != configs[j].id
  }

  function Ids(configs: seq<Config>): set<int> {
    set c | c in configs :: c.id
  }

  predicate Configured(configs: seq<Config>, id: int) {
    id in Ids(configs)
  }

  /** An id is configured exactly when it is the id of a configuration. */
  lemma ConfiguredExactly(configs: seq<Config>)
    ensures forall id :: Configured(configs, id) <==> exists i :: 0 <= i < |configs| && configs[i].id == id
  {
    forall id ensures Configured(configs, id) <==> exists i :: 0 <= i < |configs| && configs[i].id == id {
      if Configured(configs, id) {
        var c :| c in configs && c.id == id;
      }
    }
  }

  class Pool {
    var instances: map<int, Running>
    var attempts: nat                 // calls of create so far
    var created: nat                  // instances that came out of them
    ghost var destroyed: seq<nat>     // instances destroy was called for

    // Every instance ever created either runs, under one id, or was destroyed once.
    ghost predicate Accounted()
      reads this
    {
      && (forall a :: a in instances ==> instances[a].instance < created && instances[a].instance !in destroyed)
      && (forall a, b :: a in instances && b in instances && a != b ==> instances[a].instance != instances[b].instance)
      && (forall i, j :: 0 <= i < j < |destroyed| ==> destroyed[i] != destroyed[j])
      && (forall i :: 0 <= i < |destroyed| ==> destroyed[i] < created)
      && (forall n :: 0 <= n < created && n !in destroyed ==> exists a :: a in instances && instances[a].instance == n)
    }

    constructor ()
      ensures Accounted() && instances == map[] && created == 0
    {
      instances, attempts, created, destroyed := map[], 0, 0, [];
    }

    // create says which calls of create succeed.
    method StartOne(create: nat -> bool, cfg: Config)
      requires Accounted() && cfg.id !in instances
      modifies this
      ensures Accounted() && destroyed == old(destroyed) && attempts == old(attempts) + 1
      ensures if create(old(attempts))
              then created == old(created) + 1
                   && instances == old(instances)[cfg.id := Running(cfg.version, old(created))]
              else created == old(created) && instances == old(instances)
    {
      if create(attempts) {
        ghost var before := instances;
        instances := instances[cfg.id := Running(cfg.version, created)];
        created := created + 1;
        forall n | 0 <= n < created && n !in destroyed
          ensures exists a :: a in instances && instances[a].instance == n
        {
          if n == created - 1 {
            assert instances[cfg.id].instance == n;
          } else {
            var a :| a in before && before[a].instance == n;
            assert instances[a] == before[a];
          }
        }
      }
      attempts := attempts + 1;
    }

    method StopOne(id: int)
      requires Accounted() && id in instances
      modifies this`instances, this`destroyed
      ensures Accounted() && instances == old(instances) - {id}
      ensures destroyed == old(destroyed) + [old(instances)[id].instance]
    {
      ghost var before := instances;
      destroyed := destroyed + [instances[id].instance];
      instances := instances - {id};
      forall n | 0 <= n < created && n !in destroyed
        ensures exists a :: a in instances && instances[a].instance == n
      {
        assert n !in old(destroyed);
        var a :| a in before && before[a].instance == n;
        assert a != id && a in instances;
      }
    }

    // Running, under each configured id, at the configured version, and nothing else.
    ghost predicate InStep(configs: seq<Config>)
      reads this
    {
      && (forall i :: 0 <= i < |configs| ==>
            configs[i].id in instances && instances[configs[i].id].version == configs[i].version)
      && (forall a :: a in instances ==> Configured(configs, a))
    }

    // What the first n configurations have been brought to.
    ghost predicate Followed(configs: seq<Config>, n: nat, before: map<int, Running>)
      requires n <= |configs|
      reads this
    {
      && (forall i :: 0 <= i < n && configs[i].id in instances ==> instances[configs[i].id].version == configs[i].version)
      && (forall i :: n <= i < |configs| ==> Same(instances, before, configs[i].id))
      && (forall i :: 0 <= i < n && configs[i].id in before && before[configs[i].id].version == configs[i].version ==>
            Same(instances, before, configs[i].id))
      && (forall a :: a in instances ==> Configured(configs, a))
    }

    method StopUnconfigured(configs: seq<Config>, ids: seq<int>) returns (stopped: seq<int>)
      requires Accounted() && Lists(ids, instances)
      modifies this`instances, this`destroyed
      ensures Accounted()
      ensures forall a :: a in instances <==> a in old(instances) && Configured(configs, a)
      ensures forall a :: a in instances ==> instances[a] == old(instances)[a]
      ensures forall k :: 0 <= k < |stopped| ==> stopped[k] in old(instances) && !Configured(configs, stopped[k])
      ensures forall a :: a in old(instances) && !Configured(configs, a) ==> a in stopped
      ensures (forall a :: a in old(instances) ==> Configured(configs, a)) ==> stopped == []
      ensures stopped == [] ==> instances == old(instances) && destroyed == old(destroyed)
    {
      hide Accounted, Configured;
      stopped := [];
      var i := 0;
      while i < |ids|
        invariant 0 <= i <= |ids| && Accounted()
        invariant forall k :: i <= k < |ids| ==> ids[k] in instances
        invariant forall k :: 0 <= k < i ==> (ids[k] in instances <==> Configured(configs, ids[k]))
        invariant forall k :: 0 <= k < i && !Configured(configs, ids[k]) ==> ids[k] in stopped
        invariant forall a :: a in instances ==> a in old(instances) && instances[a] == old(instances)[a]
        invariant forall k :: 0 <= k < |stopped| ==> stopped[k] in old(instances) && !Configured(configs, stopped[k])
        invariant (forall a :: a in old(instances) ==> Configured(configs, a)) ==> stopped == []
        invariant stopped == [] ==> instances == old(instances) && destroyed == old(destroyed)
      {
        if !Configured(configs, ids[i]) {
          StopOne(ids[i]);
          stopped := stopped + [ids[i]];
        }
        i := i + 1;
      }
    }

    lemma NothingFollowedYet(configs: seq<Config>, before: map<int, Running>)
      requires forall a :: a in instances <==> a in before && Configured(configs, a)
      requires forall a :: a in instances ==> instances[a] == before[a]
      ensures Followed(configs, 0, before)
    {
      assert forall i :: 0 <= i < |configs| ==> Configured(configs, configs[i].id);
    }

    /** Bring one configured id to its configured version. */
    method FollowOne(create: nat -> bool, configs: seq<Config>, i: nat, ghost before: map<int, Running>)
      returns (change: Change)
      requires Accounted() && DistinctIds(configs) && i < |configs| && Followed(configs, i, before)
      modifies this
      ensures Accounted() && Followed(configs, i + 1, before)
      ensures change == ChangeFor(before, configs[i])
      ensures change == Kept ==> instances == old(instances) && destroyed == old(destroyed)
      ensures attempts == old(attempts) + if change == Kept then 0 else 1
      ensures forall a :: a in old(instances) && a != configs[i].id ==> a in instances
      ensures create(old(attempts)) || change == Kept ==> configs[i].id in instances
    {
      hide Accounted;
      var cfg := configs[i];
      assert Same(instances, before, cfg.id);
      assert forall k :: 0 <= k < |configs| && k != i ==> configs[k].id != cfg.id;
      assert Configured(configs, cfg.id);
      if cfg.id !in instances {
        StartOne(create, cfg);
        change := Started;
      } else if instances[cfg.id].version != cfg.version {
        StopOne(cfg.id);
        StartOne(create, cfg);
        change := Restarted;
      } else {
        change := Kept;
      }
    }

    /** Follow the configurations: stop what is not configured, start what does not run and
        restart what runs at another version. */
    method Reload(create: nat -> bool, configs: seq<Config>, ids: seq<int>)
      returns (stopped: seq<int>, started: seq<int>, reloaded: seq<int>)
      requires Accounted() && DistinctIds(configs) && Lists(ids, instances)
      modifies this
      ensures Accounted() && Followed(configs, |configs|, old(instances))
      ensures (forall n :: n >= old(attempts) ==> create(n)) ==> InStep(configs)
      ensures forall k :: 0 <= k < |stopped| ==> stopped[k] in old(instances) && !Configured(configs, stopped[k])
      ensures forall a :: a in old(instances) && !Configured(configs, a) ==> a in stopped
      ensures (forall a :: a in old(instances) ==> Configured(configs, a)) ==> stopped == []
      ensures started == Changed(configs, old(instances), Started)
      ensures reloaded == Changed(configs, old(instances), Restarted)
      ensures forall i :: 0 <= i < |configs| ==>
        && (configs[i].id in started <==> configs[i].id !in old(instances))
        && (configs[i].id in reloaded <==>
              configs[i].id in old(instances) && old(instances)[configs[i].id].version != configs[i].version)
      ensures forall id :: id in started || id in reloaded ==> Configured(configs, id)
      ensures stopped == [] && started == [] && reloaded == [] ==>
        instances == old(instances) && attempts == old(attempts) && destroyed == old(destroyed)
    {
      hide Accounted, Followed, InStep, Configured, ChangeFor;
      stopped := StopUnconfigured(configs, ids);
      NothingFollowedYet(configs, old(instances));
      started, reloaded := [], [];
      var i := 0;
      ghost var stopOnly, gone := instances, destroyed;
      while i < |configs|
        invariant 0 <= i <= |configs| && attempts >= old(attempts)
        invariant Accounted() && Followed(configs, i, old(instances))
        invariant (forall n :: n >= old(attempts) ==> create(n)) ==>
          forall k :: 0 <= k < i ==> configs[k].id in instances
        invariant started == Changed(configs[..i], old(instances), Started)
        invariant reloaded == Changed(configs[..i], old(instances), Restarted)
        invariant started == [] && reloaded == [] ==>
          instances == stopOnly && attempts == old(attempts) && destroyed == gone
      {
        assert configs[..i + 1][..i] == configs[..i];
        var change := FollowOne(create, configs, i, old(instances));
        if change == Started {
          started := started + [configs[i].id];
        } else if change == Restarted {
          reloaded := reloaded + [configs[i].id];
        }
        i := i + 1;
      }
      assert configs[..i] == configs;
      StartedExactly(configs, old(instances));
      RestartedExactly(configs, old(instances));
      if forall k :: 0 <= k < |configs| ==> configs[k].id in instances {
        AllFollowed(configs, old(instances));
      }
    }

    lemma AllFollowed(configs: seq<Config>, before: map<int, Running>)
      requires Followed(configs, |configs|, before)
      requires forall k :: 0 <= k < |configs| ==> configs[k].id in instances
      ensures InStep(configs)
    {
    }

    /** A reload of a pool that is in step with the configurations changes nothing. */
    method ReloadInStep(create: nat -> bool, configs: seq<Config>, ids: seq<int>)
      returns (stopped: seq<int>, started: seq<int>, reloaded: seq<int>)
      requires Accounted() && DistinctIds(configs) && Lists(ids, instances) && InStep(configs)
      modifies this
      ensures stopped == [] && started == [] && reloaded == []
      ensures instances == old(instances) && attempts == old(attempts) && destroyed == old(destroyed)
    {
      NothingToChange(configs, instances, Started);
      NothingToChange(configs, instances, Restarted);
      stopped, started, reloaded := Reload(create, configs, ids);
    }

    /** The first start, of a pool in which nothing runs. */
    method Start(create: nat -> bool, configs: seq<Config>)
      requires Accounted() && DistinctIds(configs) && instances == map[]
      modifies this
      ensures Accounted() && Followed(configs, |configs|, map[])
      ensures (forall n :: n >= old(attempts) ==> create(n)) ==> InStep(configs)
    {
      hide Accounted;
      var i := 0;
      while i < |configs|
        invariant 0 <= i <= |configs| && attempts >= old(attempts)
        invariant Accounted() && Followed(configs, i, map[])
        invariant (forall n :: n >= old(attempts) ==> create(n)) ==>
          forall k :: 0 <= k < i ==> configs[k].id in instances
      {
        var cfg := configs[i];
        assert Same(instances, map[], cfg.id);
        assert Configured(configs, cfg.id);
        StartOne(create, cfg);
        i := i + 1;
      }
    }

    /** Shutdown: afterwards every instance ever created has been destroyed, once. */
    method StopAll(ids: seq<int>)
      requires Accounted() && Lists(ids, instances)
      modifies this`instances, this`destroyed
      ensures Accounted() && instances == map[]
      ensures forall n :: 0 <= n < created ==> n in destroyed
    {
      hide Accounted;
      var i := 0;
      while i < |ids|
        invariant 0 <= i <= |ids| && Accounted()
        invariant forall k :: 0 <= k < |ids| ==> (ids[k] in instances <==> i <= k)
        invariant forall a :: a in instances ==> a in old(instances)
      {
        StopOne(ids[i]);
        i := i + 1;
      }
      assert forall a :: a !in instances;
      assert instances == map[];
      NothingLeftRunning();
    }

    lemma NothingLeftRunning()
      requires Accounted() && instances == map[]
      ensures forall n :: 0 <= n < created ==> n in destroyed
    {
    }
  }

  // The keys of a dictionary in the order in which it lists them.
  predicate Lists(keys: seq<int>, m: map<int, Running>) {
    && (forall i :: 0 <= i < |keys| ==> keys[i] in m)
    && (forall a :: a in m ==> a in keys)
    && (forall i, j :: 0 <= i < j < |keys| ==> keys[i] != keys[j])
  }

  datatype Change = Kept | Started | Restarted

  function ChangeFor(before: map<int, Running>, cfg: Config): Change {
    if cfg.id !in before then Started
    else if before[cfg.id].version != cfg.version then Restarted
    else Kept
  }

  // The ids with this change, in configuration order.
  function Changed(configs: seq<Config>, before: map<int, Running>, change: Change): seq<int> {
    if configs == [] then []
    else
      var last := configs[|configs| - 1];
      Changed(configs[..|configs| - 1], before, change) +
      if ChangeFor(before, last) == change then [last.id] else []
  }

  lemma {:induction false} ChangedExactly(configs: seq<Config>, before: map<int, Running>, change: Change, id: int)
    ensures id in Changed(configs, before, change) <==>
            exists i :: 0 <= i < |configs| && configs[i].id == id && ChangeFor(before, configs[i]) == change
  {
    if configs != [] {
      ChangedExactly(configs[..|configs| - 1], before, change, id);
      assert configs == configs[..|configs| - 1] + [configs[|configs| - 1]];
    }
  }

  /** A configured id is listed as started exactly when it did not run before. */
  lemma StartedExactly(configs: seq<Config>, before: map<int, Running>)
    requires DistinctIds(configs)
    ensures forall i :: 0 <= i < |configs| ==> (configs[i].id in Changed(configs, before, Started) <==> configs[i].id !in before)
    ensures forall id :: id in Changed(configs, before, Started) ==> Configured(configs, id)
  {
    forall id ensures id in Changed(configs, before, Started) <==>
                      exists i :: 0 <= i < |configs| && configs[i].id == id && id !in before
    {
      ChangedExactly(configs, before, Started, id);
      assert forall i :: 0 <= i < |configs| ==> (ChangeFor(before, configs[i]) == Started <==> configs[i].id !in before);
    }
  }

  /** It is listed as reloaded exactly when it ran at another version. */
  lemma RestartedExactly(configs: seq<Config>, before: map<int, Running>)
    requires DistinctIds(configs)
    ensures forall i :: 0 <= i < |configs| ==>
      (configs[i].id in Changed(configs, before, Restarted) <==>
         configs[i].id in before && before[configs[i].id].version != configs[i].version)
    ensures forall id :: id in Changed(configs, before, Restarted) ==> Configured(configs, id)
  {
    forall i | 0 <= i < |configs|
      ensures configs[i].id in Changed(configs, before, Restarted) <==> ChangeFor(before, configs[i]) == Restarted
    {
      ChangedExactly(configs, before, Restarted, configs[i].id);
    }
    forall id | id in Changed(configs, before, Restarted) ensures Configured(configs, id) {
      ChangedExactly(configs, before, Restarted, id);
    }
  }

  lemma {:induction false} NothingToChange(configs: seq<Config>, before: map<int, Running>, change: Change)
    requires change != Kept
    requires forall i :: 0 <= i < |configs| ==> configs[i].id in before && before[configs[i].id].version == configs[i].version
    ensures Changed(configs, before, change) == []
  {
    if configs != [] {
      NothingToChange(configs[..|configs| - 1], before, change);
    }
  }

  predicate Same(a: map<int, Running>, b: map<int, Running>, id: int) {
    (id in a <==> id in b) && (id in a && id in b ==> a[id] == b[id])
  }
}
