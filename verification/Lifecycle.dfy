/** Starting and stopping the core and its modules, with arbitrary failures of the modules. Modules are
    kept in a Go map, so they are started and stopped in any order. */
module Lifecycle {

  import opened Wrappers

  // ---- what happened to the modules ----

  datatype Event = Started(name: string, ok: bool) | Stopped(name: string, ok: bool)

  /** Whether the calls so far leave the module running, as far as the registry can tell. A Stop that
      fails leaves it as it was. */
  function LiveAfter(log: seq<Event>, name: string): bool {
    if log == [] then false
    else
      var last, before := log[|log| - 1], LiveAfter(log[..|log| - 1], name);
      match last
      case Started(n, ok) => if n == name then ok else before
      case Stopped(n, ok) => if n == name && ok then false else before
  }

  lemma LiveAfterOne(log: seq<Event>, e: Event, name: string)
    ensures LiveAfter(log + [e], name) ==
      match e
      case Started(n, ok) => if n == name then ok else LiveAfter(log, name)
      case Stopped(n, ok) => if n == name && ok then false else LiveAfter(log, name)
  {
    assert (log + [e])[..|log|] == log;
  }

  /** Stop was only ever called on a live module. */
  predicate StopsOnlyLive(log: seq<Event>) {
    forall k :: 0 <= k < |log| && log[k].Stopped? ==> LiveAfter(log[..k], log[k].name)
  }

  lemma StopsOnlyLiveOne(log: seq<Event>, e: Event)
    requires StopsOnlyLive(log) && (e.Stopped? ==> LiveAfter(log, e.name))
    ensures StopsOnlyLive(log + [e])
  {
    forall k | 0 <= k < |log + [e]| && (log + [e])[k].Stopped?
      ensures LiveAfter((log + [e])[..k], (log + [e])[k].name)
    {
      assert (log + [e])[..k] == log[..k];
      if k == |log| {
        assert log[..k] == log;
      }
    }
  }

  /** A module is stopped successfully at most as often as it is started: between two successful stops
      there is a successful start. */
  lemma {:induction false} NoDoubleStop(log: seq<Event>, name: string, i: nat, j: nat)
    requires StopsOnlyLive(log) && i < j < |log|
    requires log[i] == Stopped(name, true) && log[j].Stopped? && log[j].name == name
    ensures exists k :: i < k < j && log[k] == Started(name, true)
  {
    assert LiveAfter(log[..j], name);
    assert log[..i + 1] == log[..i] + [log[i]];
    LiveAfterOne(log[..i], log[i], name);
    StartedBetween(log, name, i + 1, j);
  }

  lemma {:induction false} StartedBetween(log: seq<Event>, name: string, from: nat, to: nat)
    requires from <= to <= |log| && !LiveAfter(log[..from], name) && LiveAfter(log[..to], name)
    ensures exists k :: from <= k < to && log[k] == Started(name, true)
  {
    if from < to {
      assert log[..to] == log[..to - 1] + [log[to - 1]];
      LiveAfterOne(log[..to - 1], log[to - 1], name);
      if log[to - 1] != Started(name, true) {
        StartedBetween(log, name, from, to - 1);
      }
    }
  }

  // ---- the registry ----

  class ModuleRegistry {
    var alive: map<string, bool>   // ServiceAlive of every registered module
    ghost var log: seq<Event>

    ghost predicate Valid()
      reads this
    {
      && StopsOnlyLive(log)
      && forall name :: name in alive ==> alive[name] == LiveAfter(log, name)
    }

    constructor (names: set<string>)
      ensures Valid() && alive.Keys == names && log == []
    {
      alive := map name | name in names :: false;
      log := [];
    }

    /** Starts one module; `ok` is how its Start turns out within the time allowed. */
    method StartModuleService(name: string, ok: bool)
      requires Valid() && name in alive
      modifies this
      ensures Valid() && alive == old(alive)[name := ok]
    {
      forall n {
        LiveAfterOne(log, Started(name, ok), n);
      }
      StopsOnlyLiveOne(log, Started(name, ok));
      log := log + [Started(name, ok)];
      alive := alive[name := ok];
    }

    /** Stops one live module. */
    method StopModuleService(name: string, ok: bool)
      requires Valid() && name in alive && alive[name]
      modifies this
      ensures Valid() && alive == old(alive)[name := !ok]
    {
      forall n {
        LiveAfterOne(log, Stopped(name, ok), n);
      }
      StopsOnlyLiveOne(log, Stopped(name, ok));
      log := log + [Stopped(name, ok)];
      alive := alive[name := !ok];
    }

    /** Starts all modules in some order, up to the first failure. */
    method StartModuleServices(starts: string -> bool) returns (failed: Option<string>)
      requires Valid()
      modifies this
      ensures Valid() && alive.Keys == old(alive).Keys
      ensures failed.None? <==> forall name :: name in alive ==> starts(name)
      ensures failed.None? ==> forall name :: name in alive ==> alive[name]
      ensures failed.Some? ==> failed.value in alive && !starts(failed.value) && !alive[failed.value]
      ensures forall name :: name in alive && alive[name] ==> starts(name) || old(alive)[name]
    {
      var names := alive.Keys;
      while names != {}
        invariant Valid() && alive.Keys == old(alive).Keys && names <= alive.Keys
        invariant forall name :: name in alive && name !in names ==> starts(name) && alive[name]
        invariant forall name :: name in names ==> alive[name] == old(alive)[name]
        decreases |names|
      {
        var name :| name in names;
        names := names - {name};
        StartModuleService(name, starts(name));
        if !starts(name) {
          return Some(name);
        }
      }
      return None;
    }

    /** Stops every live module in some order, whatever fails: exactly those whose Stop fails stay live. */
    method StopModuleServices(stops: string -> bool) returns (ok: bool)
      requires Valid()
      modifies this
      ensures Valid() && alive.Keys == old(alive).Keys
      ensures forall name :: name in alive ==> (alive[name] <==> old(alive)[name] && !stops(name))
      ensures ok <==> forall name :: name in alive ==> !alive[name]
    {
      var names := alive.Keys;
      ok := true;
      while names != {}
        invariant Valid() && alive.Keys == old(alive).Keys && names <= alive.Keys
        invariant forall name :: name in alive && name !in names ==> (alive[name] <==> old(alive)[name] && !stops(name))
        invariant forall name :: name in names ==> alive[name] == old(alive)[name]
        invariant ok <==> forall name :: name in alive && name !in names ==> !alive[name]
        decreases |names|
      {
        var name :| name in names;
        names := names - {name};
        if alive[name] {
          StopModuleService(name, stops(name));
          ok := ok && stops(name);
        }
      }
    }
  }

  // ---- the core ----

  datatype Phase = Initializing | Running | Closed

  /** The core's own client: it exists once the core is configured, and Close shuts it down. */
  datatype CoreClient = NoClient | Open | Shut

  datatype CoreError = ErrCoreRunning | ErrCoreStopped | StartFailed(name: string) | StopFailed

  /** How a call on the core ends; Panicked takes the process down. */
  datatype Ending = Done | Failed(error: CoreError) | Panicked

  class CoreService {
    const registry: ModuleRegistry
    var state: Phase
    var coreClient: CoreClient
    var connected: set<string>    // the modules that have their channels
    var stopClosed: bool
    var relays: nat               // how often the relay goroutines have been launched
    ghost var closings: nat
    ghost var failedCloses: nat   // closes that shut the present client down and then failed

    ghost predicate Valid()
      reads this, registry
    {
      && registry.Valid()
      && connected <= registry.alive.Keys
      && (stopClosed <==> state == Closed)
      && closings == (if stopClosed then 1 else 0)
      && (state == Closed ==> forall name :: name in registry.alive ==> !registry.alive[name])
      && (state == Running ==> relays >= 1)
      && (state != Closed ==> (coreClient.Shut? <==> failedCloses > 0))
    }

    constructor (registry: ModuleRegistry)
      requires registry.Valid()
      ensures Valid() && this.registry == registry && state == Initializing && relays == 0
      ensures coreClient == NoClient && failedCloses == 0 && connected == {}
    {
      this.registry, connected := registry, {};
      state, coreClient, stopClosed, relays, closings, failedCloses := Initializing, NoClient, false, 0, 0, 0;
    }

    /** Configuring succeeds exactly when every module takes its flags and connects, and none has its
        channels already: a core with modules can be configured once. A module that refuses its flags
        leaves the core as it was; after any later failure it has a new client all the same. */
    method Configure(takes: string -> bool, connects: string -> bool) returns (ok: bool)
      requires Valid()
      modifies this`coreClient, this`failedCloses, this`connected
      ensures Valid()
      ensures ok <==> forall name :: name in registry.alive ==> takes(name) && connects(name) && name !in old(connected)
      ensures ok ==> connected == registry.alive.Keys
      ensures if forall name :: name in registry.alive ==> takes(name)
              then coreClient == Open && failedCloses == 0 && old(connected) <= connected
              else coreClient == old(coreClient) && failedCloses == old(failedCloses) && connected == old(connected)
    {
      var taken := TakeFlags(takes);
      if !taken {
        return false;
      }
      coreClient, failedCloses := Open, 0;
      ok := ConnectModules(connects);
    }

    /** Every module reads its flags, up to the first that refuses them. */
    method TakeFlags(takes: string -> bool) returns (ok: bool)
      ensures ok <==> forall name :: name in registry.alive ==> takes(name)
    {
      var names := registry.alive.Keys;
      while names != {}
        invariant names <= registry.alive.Keys
        invariant forall name :: name in registry.alive && name !in names ==> takes(name)
        decreases |names|
      {
        var name :| name in names;
        if !takes(name) {
          return false;
        }
        names := names - {name};
      }
      return true;
    }

    /** Every module gets its channels and connects, up to the first that has them or fails. */
    method ConnectModules(connects: string -> bool) returns (ok: bool)
      requires connected <= registry.alive.Keys
      modifies this`connected
      ensures old(connected) <= connected <= registry.alive.Keys
      ensures ok <==> forall name :: name in registry.alive ==> connects(name) && name !in old(connected)
      ensures ok ==> connected == registry.alive.Keys
    {
      var names := registry.alive.Keys;
      while names != {}
        invariant names <= registry.alive.Keys
        invariant connected == old(connected) + (registry.alive.Keys - names)
        invariant forall name :: name in registry.alive && name !in names ==> connects(name) && name !in old(connected)
        decreases |names|
      {
        var name :| name in names;
        if name in connected || !connects(name) {
          return false;
        }
        connected := connected + {name};
        names := names - {name};
      }
      return true;
    }

    /** Closing a closed channel panics: the precondition rules it out. */
    method CloseStop()
      requires !stopClosed
      modifies this`stopClosed, this`closings
      ensures stopClosed && closings == old(closings) + 1
    {
      stopClosed := true;
      closings := closings + 1;
    }

    /** `Client.Close`: a client that is shut has closed both channels of the select, so that sending,
        which panics, and receiving are both ready; `sends` is which one the select picks. */
    method CloseClient(sends: bool) returns (panics: bool)
      requires coreClient != NoClient
      modifies this`coreClient
      ensures panics <==> old(coreClient) == Shut && sends
      ensures coreClient == Shut
    {
      if coreClient == Shut && sends {
        return true;
      }
      coreClient := Shut;
      return false;
    }

    /** After a failed start every module that had been started is stopped again, unless its Stop fails
        too; the core can be started again, but its relays are then launched a second time. */
    method Start(starts: string -> bool, stops: string -> bool) returns (e: Ending)
      requires Valid()
      modifies this, registry
      ensures Valid() && coreClient == old(coreClient) && failedCloses == old(failedCloses) && !e.Panicked?
      ensures old(state) == Running ==> e == Failed(ErrCoreRunning)
      ensures old(state) == Closed ==> e == Failed(ErrCoreStopped)
      ensures old(state) != Initializing ==>
        state == old(state) && registry.alive == old(registry.alive) && registry.log == old(registry.log) && relays == old(relays)
      ensures old(state) == Initializing ==>
        && registry.alive.Keys == old(registry.alive).Keys
        && relays == old(relays) + 1 && !stopClosed
        && (e.Done? <==> state == Running)
        && (e.Done? <==> forall name :: name in registry.alive ==> starts(name))
        && (e.Done? ==> forall name :: name in registry.alive ==> registry.alive[name])
        && (!e.Done? ==> state == Initializing && forall name :: name in registry.alive && registry.alive[name] ==> !stops(name))
    {
      match state {
        case Running => return Failed(ErrCoreRunning);
        case Closed => return Failed(ErrCoreStopped);
        case Initializing =>
      }
      relays := relays + 1;
      var failed := registry.StartModuleServices(starts);
      if failed.Some? {
        var stopped := registry.StopModuleServices(stops);
        return Failed(StartFailed(failed.value));
      }
      state := Running;
      return Done;
    }

    /** Closes exactly when every live module stops. The client is shut down first, whatever happens
        then: closing again after a failure can panic, and it can do so exactly when an earlier close of
        the present client has failed. */
    method Close(stops: string -> bool, sends: bool) returns (e: Ending)
      requires Valid()
      modifies this, registry
      ensures Valid() && relays == old(relays)
      ensures old(state) == Closed ==>
        e == Failed(ErrCoreStopped) && state == Closed && registry.alive == old(registry.alive) && registry.log == old(registry.log)
      ensures e.Panicked? <==> old(state) != Closed && old(failedCloses) > 0 && sends
      ensures e.Panicked? ==> unchanged(registry) && state == old(state) && failedCloses == old(failedCloses)
      ensures old(state) != Closed && !e.Panicked? ==>
        && registry.alive.Keys == old(registry.alive).Keys
        && (forall name :: name in registry.alive ==> (registry.alive[name] <==> old(registry.alive)[name] && !stops(name)))
        && (e.Done? <==> forall name :: name in registry.alive ==> old(registry.alive)[name] ==> stops(name))
        && state == (if e.Done? then Closed else old(state))
        && (!e.Done? ==> e == Failed(StopFailed) && failedCloses == old(failedCloses) + if old(coreClient) == NoClient then 0 else 1)
    {
      if state == Closed {
        return Failed(ErrCoreStopped);
      }
      if coreClient != NoClient {
        var panics := CloseClient(sends);
        if panics {
          return Panicked;
        }
      }
      var stopped := registry.StopModuleServices(stops);
      if !stopped {
        failedCloses := failedCloses + if coreClient == NoClient then 0 else 1;
        return Failed(StopFailed);
      }
      CloseStop();
      state := Closed;
      return Done;
    }
  }

  // ---- runs ----

  /** One call on the core, with how the modules and the select behave during it. */
  datatype Op =
    | ConfigureOp(takes: string -> bool, connects: string -> bool)
    | StartOp(starts: string -> bool, stops: string -> bool)
    | CloseOp(stops: string -> bool, sends: bool)

  /** Any run of calls: the stop channel is closed at most once, and exactly when the state is closed;
      closed is final and leaves no live module; Stop is only called on live modules; the relays have
      been launched once for each start that got past the state check. A run that ends in a panic has
      had a close that failed after shutting the client down. */
  method Run(core: CoreService, ops: seq<Op>) returns (attempts: nat, panicked: bool)
    requires core.Valid() && core.state == Initializing && core.relays == 0
    modifies core, core.registry
    ensures core.closings <= 1 && (core.closings == 1 <==> core.state == Closed)
    ensures core.state == Closed ==> forall name :: name in core.registry.alive ==> !core.registry.alive[name]
    ensures StopsOnlyLive(core.registry.log)
    ensures core.relays == attempts <= |ops|
    ensures panicked ==> core.state != Closed && core.failedCloses > 0
  {
    attempts, panicked := 0, false;
    for i := 0 to |ops|
      invariant core.Valid() && core.relays == attempts <= i && !panicked
    {
      ghost var wasClosed := core.state == Closed;
      match ops[i] {
        case ConfigureOp(takes, connects) =>
          var configured := core.Configure(takes, connects);
        case StartOp(starts, stops) =>
          if core.state == Initializing {
            attempts := attempts + 1;
          }
          var e := core.Start(starts, stops);
        case CloseOp(stops, sends) =>
          var e := core.Close(stops, sends);
          if e.Panicked? {
            panicked := true;
            return;
          }
      }
      assert wasClosed ==> core.state == Closed;
    }
  }

  /** The shortest way to the panic: one module that does not stop, and two closes. */
  method CloseTwice(name: string) returns (second: Ending)
    ensures second == Panicked
  {
    var registry := new ModuleRegistry({name});
    var core := new CoreService(registry);
    var configured := core.Configure(_ => true, _ => true);
    assert name in registry.alive;
    var started := core.Start(_ => true, _ => true);
    assert registry.alive[name];
    var first := core.Close(_ => false, false);
    assert first == Failed(StopFailed);
    second := core.Close(_ => false, true);
  }
}
