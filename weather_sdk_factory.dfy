/** `WeatherSdkFactory`: the registry of SDK instances, one per API key.

    The factory's static map becomes the fields of one `WeatherSdkFactory`
    object. An instance is known by an identity `id` handed out from a
    counter (two instances are the same object exactly when their ids are
    equal) together with the parameters it was created with; `shutDown`
    records the ids of the instances whose `shutdown` has been called. */
module SdkRegistry {
  import opened Outcomes
  import opened SdkErrors
  import opened JavaStrings

  /** `UpdateMode`. */
  datatype UpdateMode = Polling | OnDemand

  /** A `WeatherSdk` instance: its identity, and the key, mode and polling
      interval it was created with. */
  datatype SdkInstance = SdkInstance(id: nat, apiKey: string, mode: UpdateMode, pollingIntervalSeconds: int)

  /** The factory's state: the instance registered under each key, the next
      identity to hand out, and the instances shut down so far. */
  datatype Registry = Registry(instances: map<string, SdkInstance>, nextId: nat, shutDown: set<nat>)

  /** Every registered key is non-blank and names an instance created for
      it; registered instances are distinct, already handed out and still
      running; only instances already handed out were shut down. */
  ghost predicate WellFormed(r: Registry) {
    && (forall k :: k in r.instances ==>
          && !IsBlank(k)
          && r.instances[k].apiKey == k
          && r.instances[k].id < r.nextId
          && r.instances[k].id !in r.shutDown)
    && (forall k1, k2 :: k1 in r.instances && k2 in r.instances && k1 != k2 ==>
          r.instances[k1].id != r.instances[k2].id)
    && (forall id :: id in r.shutDown ==> id < r.nextId)
  }

  /** The message of the exception for a null or blank key. */
  const BLANK_KEY_MESSAGE: string := "API key cannot be null or empty."

  /** The message of the exception for a key with no instance to remove. */
  const NO_INSTANCE_MESSAGE: string := "No instance found for the given API key."

  /** The key check of `getInstance` and `removeInstance`. */
  function ValidateApiKey(apiKey: Option<string>): (r: Outcome<Failure>)
    ensures r.Pass? <==> !IsNullOrBlank(apiKey)
    ensures r.Fail? ==> r.error.Is(InvalidApiKey)
  {
    if IsNullOrBlank(apiKey) then Fail(SdkError(InvalidApiKey, BLANK_KEY_MESSAGE)) else Pass
  }

  /** `needsUpdate`: the instance was created with another mode or interval. */
  predicate NeedsUpdate(existing: SdkInstance, mode: UpdateMode, pollingIntervalSeconds: int) {
    existing.mode != mode || existing.pollingIntervalSeconds != pollingIntervalSeconds
  }

  /** `createNewInstance`: a new instance with the next identity, put under
      the key. */
  function Create(r: Registry, apiKey: string, mode: UpdateMode, pollingIntervalSeconds: int): (Registry, SdkInstance) {
    var instance := SdkInstance(r.nextId, apiKey, mode, pollingIntervalSeconds);
    (Registry(r.instances[apiKey := instance], r.nextId + 1, r.shutDown), instance)
  }

  /** `removeInstance`: the key's instance leaves the map and is shut down;
      a blank key or a key with no instance is refused. */
  function Remove(r: Registry, apiKey: Option<string>): (res: Result<Registry, Failure>)
    ensures res.Success? <==> !IsNullOrBlank(apiKey) && apiKey.value in r.instances
    ensures res.Failure? ==> res.error.Is(InvalidApiKey)
  {
    match ValidateApiKey(apiKey)
    case Fail(e) => Failure(e)
    case Pass =>
      var key := apiKey.value;
      if key in r.instances then
        Success(Registry(r.instances - {key}, r.nextId, r.shutDown + {r.instances[key].id}))
      else
        Failure(SdkError(InvalidApiKey, NO_INSTANCE_MESSAGE))
  }

  /** `getInstance`: the new registry and the instance returned, or the
      exception. */
  function Get(r: Registry, apiKey: Option<string>, mode: UpdateMode, pollingIntervalSeconds: int): (res: Result<(Registry, SdkInstance), Failure>)
    ensures res.Success? <==> !IsNullOrBlank(apiKey)
    ensures res.Failure? ==> res.error.Is(InvalidApiKey)
  {
    match ValidateApiKey(apiKey)
    case Fail(e) => Failure(e)
    case Pass =>
      var key := apiKey.value;
      if key in r.instances && !NeedsUpdate(r.instances[key], mode, pollingIntervalSeconds) then
        Success((r, r.instances[key]))
      else if key in r.instances then
        var removed := Remove(r, apiKey).value;
        Success(Create(removed, key, mode, pollingIntervalSeconds))
      else
        Success(Create(r, key, mode, pollingIntervalSeconds))
  }

  // ---------------------------------------------------------------------
  // Properties of the registry

  /** Both operations refuse a null or blank key and change nothing. */
  lemma RejectsBlankKey(r: Registry, apiKey: Option<string>, mode: UpdateMode, pollingIntervalSeconds: int)
    requires IsNullOrBlank(apiKey)
    ensures Get(r, apiKey, mode, pollingIntervalSeconds) == Failure(SdkError(InvalidApiKey, BLANK_KEY_MESSAGE))
    ensures Remove(r, apiKey) == Failure(SdkError(InvalidApiKey, BLANK_KEY_MESSAGE))
  {
  }

  /** Asking again with the same mode and interval returns the registered
      instance and changes nothing. */
  lemma GetReturnsExisting(r: Registry, key: string, mode: UpdateMode, pollingIntervalSeconds: int)
    requires !IsBlank(key) && key in r.instances && !NeedsUpdate(r.instances[key], mode, pollingIntervalSeconds)
    ensures Get(r, Some(key), mode, pollingIntervalSeconds) == Success((r, r.instances[key]))
  {
  }

  /** Asking with another mode or interval shuts the registered instance
      down and registers a distinct new instance with the new parameters;
      the other keys keep their instances. */
  lemma GetReplaces(r: Registry, key: string, mode: UpdateMode, pollingIntervalSeconds: int)
    requires WellFormed(r) && !IsBlank(key) && key in r.instances
    requires NeedsUpdate(r.instances[key], mode, pollingIntervalSeconds)
    ensures var (next, instance) := Get(r, Some(key), mode, pollingIntervalSeconds).value;
      && instance.id != r.instances[key].id
      && instance == SdkInstance(instance.id, key, mode, pollingIntervalSeconds)
      && next.instances == r.instances[key := instance]
      && next.shutDown == r.shutDown + {r.instances[key].id}
      && WellFormed(next)
  {
    var previous := r.instances[key];
    var removed := Registry(r.instances - {key}, r.nextId, r.shutDown + {previous.id});
    assert Remove(r, Some(key)) == Success(removed);
    var instance := SdkInstance(r.nextId, key, mode, pollingIntervalSeconds);
    assert removed.instances[key := instance] == r.instances[key := instance];
    FreshIdIsNew(r);
    ReplaceKeepsWellFormed(r, key, instance);
  }

  /** `needsUpdate` decides reuse: for a registered key, `getInstance`
      hands back the registered instance and leaves the registry as it was
      exactly when neither the mode nor the interval changed. */
  lemma NeedsUpdateDecidesReuse(r: Registry, key: string, mode: UpdateMode, pollingIntervalSeconds: int)
    requires WellFormed(r) && !IsBlank(key) && key in r.instances
    ensures var (next, instance) := Get(r, Some(key), mode, pollingIntervalSeconds).value;
      (instance == r.instances[key] && next == r)
        <==> r.instances[key].mode == mode && r.instances[key].pollingIntervalSeconds == pollingIntervalSeconds
  {
    if NeedsUpdate(r.instances[key], mode, pollingIntervalSeconds) {
      GetReplaces(r, key, mode, pollingIntervalSeconds);
    } else {
      GetReturnsExisting(r, key, mode, pollingIntervalSeconds);
    }
  }

  /** Putting an instance with the next identity in place of a registered
      one, which is shut down, keeps the registry well-formed. */
  lemma ReplaceKeepsWellFormed(r: Registry, key: string, instance: SdkInstance)
    requires WellFormed(r) && key in r.instances && instance.id == r.nextId && instance.apiKey == key
    ensures WellFormed(Registry(r.instances[key := instance], r.nextId + 1, r.shutDown + {r.instances[key].id}))
  {
    var next := Registry(r.instances[key := instance], r.nextId + 1, r.shutDown + {r.instances[key].id});
    forall k | k in next.instances ensures next.instances[k].id !in next.shutDown {
      if k != key {
        assert r.instances[k].id != r.instances[key].id;
      }
    }
  }

  /** Asking under a key with no instance registers a new instance, distinct
      from every registered one, and leaves the other keys as they were. */
  lemma GetCreates(r: Registry, key: string, mode: UpdateMode, pollingIntervalSeconds: int)
    requires WellFormed(r) && !IsBlank(key) && key !in r.instances
    ensures var (next, instance) := Get(r, Some(key), mode, pollingIntervalSeconds).value;
      && (forall k :: k in r.instances ==> instance.id != r.instances[k].id)
      && instance == SdkInstance(instance.id, key, mode, pollingIntervalSeconds)
      && next.instances == r.instances[key := instance]
      && next.shutDown == r.shutDown
      && WellFormed(next)
  {
    FreshIdIsNew(r);
  }

  /** Removing a registered key deletes only that key and shuts its
      instance down; removing a key with no instance is refused. */
  lemma RemoveDeletesOnlyKey(r: Registry, key: string)
    requires WellFormed(r) && !IsBlank(key)
    ensures key in r.instances ==>
      && Remove(r, Some(key)) == Success(Registry(r.instances - {key}, r.nextId, r.shutDown + {r.instances[key].id}))
      && WellFormed(Remove(r, Some(key)).value)
    ensures key !in r.instances ==>
      Remove(r, Some(key)) == Failure(SdkError(InvalidApiKey, NO_INSTANCE_MESSAGE))
  {
    if key in r.instances {
      var next := Remove(r, Some(key)).value;
      forall k | k in next.instances ensures next.instances[k].id !in next.shutDown {
        assert r.instances[k].id != r.instances[key].id;
      }
    }
  }

  /** After a removal, asking under the same key yields a new instance,
      whatever the parameters. */
  lemma RemoveThenGetIsNew(r: Registry, key: string, mode: UpdateMode, pollingIntervalSeconds: int)
    requires WellFormed(r) && !IsBlank(key) && key in r.instances
    ensures var removed := Remove(r, Some(key)).value;
            var (_, instance) := Get(removed, Some(key), mode, pollingIntervalSeconds).value;
      instance.id != r.instances[key].id && instance.id !in removed.shutDown
  {
    RemoveDeletesOnlyKey(r, key);
    var removed := Remove(r, Some(key)).value;
    GetCreates(removed, key, mode, pollingIntervalSeconds);
  }

  /** A second call with the same arguments returns the same instance and
      changes nothing further. */
  lemma GetIdempotent(r: Registry, key: string, mode: UpdateMode, pollingIntervalSeconds: int)
    requires WellFormed(r) && !IsBlank(key)
    ensures var (next, instance) := Get(r, Some(key), mode, pollingIntervalSeconds).value;
      Get(next, Some(key), mode, pollingIntervalSeconds) == Success((next, instance))
  {
    var (next, instance) := Get(r, Some(key), mode, pollingIntervalSeconds).value;
    if key in r.instances && NeedsUpdate(r.instances[key], mode, pollingIntervalSeconds) {
      GetReplaces(r, key, mode, pollingIntervalSeconds);
    } else if key !in r.instances {
      GetCreates(r, key, mode, pollingIntervalSeconds);
    }
    GetReturnsExisting(next, key, mode, pollingIntervalSeconds);
  }

  /** The identity about to be handed out belongs to no registered instance
      and to no instance shut down so far. */
  lemma FreshIdIsNew(r: Registry)
    requires WellFormed(r)
    ensures forall k :: k in r.instances ==> r.instances[k].id != r.nextId
    ensures r.nextId !in r.shutDown
  {
  }

  /** `WeatherSdkFactory`: the registry as fields updated in place. */
  class WeatherSdkFactory {
    var instances: map<string, SdkInstance>
    var nextId: nat
    var shutDown: set<nat>

    function State(): Registry
      reads this
    {
      Registry(instances, nextId, shutDown)
    }

    ghost predicate Valid()
      reads this
    {
      WellFormed(State())
    }

    /** The class is loaded with an empty map. */
    constructor ()
      ensures Valid() && State() == Registry(map[], 0, {})
    {
      instances, nextId, shutDown := map[], 0, {};
    }

    /** `getInstance`. */
    method GetInstance(apiKey: Option<string>, mode: UpdateMode, pollingIntervalSeconds: int)
        returns (r: Result<SdkInstance, Failure>)
      requires Valid()
      modifies this
      ensures Valid()
      ensures match Get(old(State()), apiKey, mode, pollingIntervalSeconds)
              case Success((next, instance)) => r == Success(instance) && State() == next
              case Failure(e) => r == Failure(e) && State() == old(State())
    {
      var valid := ValidateApiKey(apiKey);
      if valid.Fail? {
        return Failure(valid.error);
      }
      var key := apiKey.value;
      if key in instances {
        var existingInstance := instances[key];
        if NeedsUpdate(existingInstance, mode, pollingIntervalSeconds) {
          GetReplaces(State(), key, mode, pollingIntervalSeconds);
          var removed := RemoveInstance(apiKey);
          assert removed.Pass?;
        } else {
          return Success(existingInstance);
        }
      } else {
        GetCreates(State(), key, mode, pollingIntervalSeconds);
      }
      var instance := CreateNewInstance(key, mode, pollingIntervalSeconds);
      r := Success(instance);
    }

    /** `createNewInstance`. */
    method CreateNewInstance(apiKey: string, mode: UpdateMode, pollingIntervalSeconds: int)
        returns (instance: SdkInstance)
      modifies this
      ensures (State(), instance) == Create(old(State()), apiKey, mode, pollingIntervalSeconds)
    {
      instance := SdkInstance(nextId, apiKey, mode, pollingIntervalSeconds);
      instances := instances[apiKey := instance];
      nextId := nextId + 1;
    }

    /** `removeInstance`. */
    method RemoveInstance(apiKey: Option<string>) returns (r: Outcome<Failure>)
      requires Valid()
      modifies this
      ensures Valid()
      ensures match Remove(old(State()), apiKey)
              case Success(next) => r == Pass && State() == next
              case Failure(e) => r == Fail(e) && State() == old(State())
    {
      var valid := ValidateApiKey(apiKey);
      if valid.Fail? {
        return valid;
      }
      var key := apiKey.value;
      RemoveDeletesOnlyKey(State(), key);
      if key in instances {
        var instance := instances[key];
        instances := instances - {key};
        shutDown := shutDown + {instance.id};
        r := Pass;
      } else {
        r := Fail(SdkError(InvalidApiKey, NO_INSTANCE_MESSAGE));
      }
    }
  }
}
