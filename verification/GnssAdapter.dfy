/** The tracking part of the GNSS adapter, with its loops over the sessions. Every request
    is proved to be a step of TrackingSessions.dfy. The order in which a loop visits the
    sessions is left open. */
module GnssAdapter {
  import opened Wrappers
  import opened TrackingSessions

  /** The engine interface. The engine decides whether it accepts a call; a call that it
      refuses leaves it as it was. */
  class LocApi {
    var engine: Option<LocationOptions>

    constructor ()
      ensures engine == None
    {
      engine := None;
    }

    method StartFix(options: LocationOptions) returns (ok: bool)
      modifies this
      ensures engine == if ok then Some(options) else old(engine)
    {
      ok := *;
      if ok {
        engine := Some(options);
      }
    }

    method StopFix() returns (ok: bool)
      modifies this
      ensures engine == if ok then None else old(engine)
    {
      ok := *;
      if ok {
        engine := None;
      }
    }
  }

  /** Which callbacks a client has registered. */
  datatype LocationCallbacks = LocationCallbacks(tracking: bool, measurements: bool, response: bool)

  datatype Response = Response(client: int, err: LocationError, sessionId: nat)

  class GnssAdapter {
    const mLocApi: LocApi
    var mTrackingSessions: Sessions
    var mClientData: map<int, LocationCallbacks>
    var responses: seq<Response>

    ghost function Abs(): State
      reads this, mLocApi
    {
      State(mTrackingSessions, mLocApi.engine)
    }

    constructor (locApi: LocApi)
      requires locApi.engine == None
      ensures mLocApi == locApi && Abs() == State(map[], None) && mClientData == map[] && responses == []
    {
      mLocApi := locApi;
      mTrackingSessions, mClientData, responses := map[], map[], [];
    }

    predicate HasTrackingCallback(client: int)
      reads this
    {
      client in mClientData && mClientData[client].tracking
    }

    predicate HasMeasurementsCallback(client: int)
      reads this
    {
      client in mClientData && mClientData[client].measurements
    }

    method ReportResponse(client: int, err: LocationError, sessionId: nat)
      modifies this`responses
      ensures responses == old(responses) +
                if client in mClientData && mClientData[client].response then [Response(client, err, sessionId)] else []
    {
      if client in mClientData && mClientData[client].response {
        responses := responses + [Response(client, err, sessionId)];
      }
    }

    method StartTracking(options: LocationOptions) returns (err: LocationError)
      modifies mLocApi
      ensures err == Success || err == GeneralFailure
      ensures mLocApi.engine == if err == Success then Some(options) else old(mLocApi.engine)
    {
      var ok := mLocApi.StartFix(options);
      err := if ok then Success else GeneralFailure;
    }

    method StopTracking() returns (err: LocationError)
      modifies mLocApi
      ensures err == Success || err == GeneralFailure
      ensures mLocApi.engine == if err == Success then None else old(mLocApi.engine)
    {
      var ok := mLocApi.StopFix();
      err := if ok then Success else GeneralFailure;
    }

    /** The options with the smallest interval among the sessions other than the excluded
        one; a size of zero means that none has been seen. */
    method SmallestIntervalOptions(excluded: Option<SessionKey>) returns (smallest: LocationOptions)
      requires forall k :: k in mTrackingSessions ==> mTrackingSessions[k].size != 0
      ensures Smallest(mTrackingSessions - (if excluded.Some? then {excluded.value} else {}), smallest)
    {
      smallest := LocationOptions(0, 0, 0);
      ghost var others := mTrackingSessions - (if excluded.Some? then {excluded.value} else {});
      var rest := mTrackingSessions.Keys;
      while rest != {}
        invariant rest <= mTrackingSessions.Keys
        invariant smallest.size == 0 <==> others.Keys <= rest
        invariant smallest.size != 0 ==>
                    && (exists k :: k in others && others[k] == smallest)
                    && (forall k :: k in others && k !in rest ==> smallest.minInterval <= others[k].minInterval)
      {
        var it :| it in rest;
        var options := mTrackingSessions[it];
        if excluded != Some(it) && (smallest.size == 0 || options.minInterval < smallest.minInterval) {
          smallest := options;
          assert it in others && others[it] == smallest;
        }
        rest := rest - {it};
      }
      if others != map[] {
        var k :| k in others;
        assert k !in rest;
      }
    }

    method StartTrackingMultiplex(options: LocationOptions) returns (err: LocationError, ghost ask: Ask)
      requires forall k :: k in mTrackingSessions ==> mTrackingSessions[k].size != 0
      modifies mLocApi
      ensures StartAsks(mTrackingSessions, options, ask)
      ensures Asked(old(mLocApi.engine), ask, mLocApi.engine, err)
    {
      err, ask := Success, NoCall;
      if mTrackingSessions == map[] {
        ask := StartWith(options);
        err := StartTracking(options);
      } else {
        var smallest := SmallestIntervalOptions(None);
        assert mTrackingSessions - {} == mTrackingSessions;
        SmallestIsBar(mTrackingSessions, smallest, options.minInterval);
        if options.minInterval < smallest.minInterval {
          ask := StartWith(options);
          err := StartTracking(options);
        }
      }
    }

    method UpdateTrackingMultiplex(key: SessionKey, options: LocationOptions) returns (err: LocationError, ghost ask: Ask)
      requires forall k :: k in mTrackingSessions ==> mTrackingSessions[k].size != 0
      requires key in mTrackingSessions
      modifies mLocApi
      ensures UpdateAsks(mTrackingSessions, key, options, ask)
      ensures Asked(old(mLocApi.engine), ask, mLocApi.engine, err)
    {
      err, ask := Success, NoCall;
      ghost var others := mTrackingSessions - {key};
      OnlySession(mTrackingSessions, key);
      if |mTrackingSessions| == 1 {
        ask := StartWith(options);
        err := StartTracking(options);
      } else {
        var smallest := SmallestIntervalOptions(Some(key));
        SmallestIsBar(others, smallest, options.minInterval);
        SmallestIsBar(others, smallest, mTrackingSessions[key].minInterval);
        if options.minInterval < smallest.minInterval {
          ask := StartWith(options);
          err := StartTracking(options);
        } else if mTrackingSessions[key].minInterval < smallest.minInterval {
          ask := StartWith(smallest);
          err := StartTracking(smallest);
        }
      }
    }

    method StopTrackingMultiplex(key: SessionKey) returns (err: LocationError, ghost ask: Ask)
      requires forall k :: k in mTrackingSessions ==> mTrackingSessions[k].size != 0
      requires key in mTrackingSessions
      modifies mLocApi
      ensures StopAsks(mTrackingSessions, key, ask)
      ensures Asked(old(mLocApi.engine), ask, mLocApi.engine, err)
    {
      err, ask := Success, NoCall;
      OnlySession(mTrackingSessions, key);
      if |mTrackingSessions| == 1 {
        ask := StopEngine;
        err := StopTracking();
      } else {
        var smallest := SmallestIntervalOptions(Some(key));
        SmallestIsBar(mTrackingSessions - {key}, smallest, mTrackingSessions[key].minInterval);
        if mTrackingSessions[key].minInterval < smallest.minInterval {
          ask := StartWith(smallest);
          err := StartTracking(smallest);
        }
      }
    }

    /** MsgStartTracking::proc. */
    method ProcStartTracking(client: int, sessionId: nat, options: LocationOptions) returns (ghost response: Option<LocationError>)
      requires InSync(Abs())
      modifies this`mTrackingSessions, this`responses, mLocApi
      ensures Step(old(Abs()), Start(SessionKey(client, sessionId), options, HasTrackingCallback(client) || HasMeasurementsCallback(client)), Abs(), response)
      ensures var registered := client in mClientData && (mClientData[client].tracking || mClientData[client].measurements);
              && (response == Some(CallbackMissing) <==> !registered)
              && (response == Some(InvalidParameter) <==> registered && options.size == 0)
              && (registered && options.size != 0 ==> response == Some(Success) || response == Some(GeneralFailure))
      ensures responses == old(responses) +
                if response.Some? && client in mClientData && mClientData[client].response then [Response(client, response.value, sessionId)] else []
    {
      var err := Success;
      if !HasTrackingCallback(client) && !HasMeasurementsCallback(client) {
        err := CallbackMissing;
      } else if options.size == 0 {
        err := InvalidParameter;
      } else {
        ghost var ask;
        err, ask := StartTrackingMultiplex(options);
        if err == Success {
          mTrackingSessions := mTrackingSessions[SessionKey(client, sessionId) := options];
        }
        assert Answered(old(Abs()), ask, old(mTrackingSessions)[SessionKey(client, sessionId) := options], Abs(), err);
      }
      response := Some(err);
      ReportResponse(client, err, sessionId);
    }

    /** MsgUpdateTracking::proc. */
    method ProcUpdateTracking(client: int, sessionId: nat, options: LocationOptions) returns (ghost response: Option<LocationError>)
      requires InSync(Abs())
      modifies this`mTrackingSessions, this`responses, mLocApi
      ensures Step(old(Abs()), Update(SessionKey(client, sessionId), options), Abs(), response)
      ensures var known := SessionKey(client, sessionId) in old(mTrackingSessions);
              && (response == None <==> !known) && (response == Some(InvalidParameter) <==> known && options.size == 0)
              && (known && options.size != 0 ==> response == Some(Success) || response == Some(GeneralFailure))
      ensures responses == old(responses) +
                if response.Some? && client in mClientData && mClientData[client].response then [Response(client, response.value, sessionId)] else []
    {
      response := None;
      var key := SessionKey(client, sessionId);
      if key in mTrackingSessions {
        var err := Success;
        if options.size == 0 {
          err := InvalidParameter;
        } else {
          ghost var ask;
          err, ask := UpdateTrackingMultiplex(key, options);
          if err == Success {
            mTrackingSessions := mTrackingSessions[key := options];
          }
          assert Answered(old(Abs()), ask, old(mTrackingSessions)[key := options], Abs(), err);
        }
        response := Some(err);
        ReportResponse(client, err, sessionId);
      }
    }

    /** Stops a session there is; it goes unless the engine refuses the call. */
    method StopSession(key: SessionKey) returns (err: LocationError)
      requires InSync(Abs()) && key in mTrackingSessions
      modifies this`mTrackingSessions, mLocApi
      ensures InSync(Abs()) && Step(old(Abs()), Stop(key), Abs(), Some(err)) && Stops(old(Abs()), key, Abs())
      ensures mTrackingSessions.Keys <= old(mTrackingSessions).Keys
      ensures forall k :: k in old(mTrackingSessions) && k != key ==> k in mTrackingSessions
    {
      ghost var ask;
      err, ask := StopTrackingMultiplex(key);
      if err == Success {
        mTrackingSessions := mTrackingSessions - {key};
      }
      assert Answered(old(Abs()), ask, old(mTrackingSessions) - {key}, Abs(), err);
      StepKeepsSync(old(Abs()), Stop(key), Abs(), Some(err));
    }

    /** MsgStopTracking::proc. */
    method ProcStopTracking(client: int, sessionId: nat) returns (ghost response: Option<LocationError>)
      requires InSync(Abs())
      modifies this`mTrackingSessions, this`responses, mLocApi
      ensures Step(old(Abs()), Stop(SessionKey(client, sessionId)), Abs(), response)
      ensures if SessionKey(client, sessionId) !in old(mTrackingSessions) then response == None
              else response == Some(Success) || response == Some(GeneralFailure)
      ensures responses == old(responses) +
                if response.Some? && client in mClientData && mClientData[client].response then [Response(client, response.value, sessionId)] else []
    {
      response := None;
      var key := SessionKey(client, sessionId);
      if key in mTrackingSessions {
        var err := StopSession(key);
        response := Some(err);
        ReportResponse(client, err, sessionId);
      }
    }

    /** Stops the sessions of a client; one whose stop the engine refuses stays. */
    method StopClientSessions(client: int) returns (ghost states: seq<State>, ghost keys: seq<SessionKey>)
      requires InSync(Abs())
      modifies this`mTrackingSessions, mLocApi
      ensures StopsInTurn(states, keys) && states[0] == old(Abs()) && states[|states| - 1] == Abs()
      ensures forall k :: k in keys <==> k in old(mTrackingSessions) && k.client == client
      ensures forall i, j :: 0 <= i < j < |keys| ==> keys[i] != keys[j]
      ensures forall k :: k in old(mTrackingSessions) && k.client != client ==> k in mTrackingSessions
      ensures InSync(Abs())
    {
      hide InSync;
      states, keys := [Abs()], [];
      var rest := mTrackingSessions.Keys;
      while rest != {}
        invariant rest <= mTrackingSessions.Keys <= old(mTrackingSessions).Keys
        invariant StopsInTurn(states, keys) && states[0] == old(Abs()) && states[|states| - 1] == Abs()
        invariant forall k :: k in keys <==> k in old(mTrackingSessions) && k !in rest && k.client == client
        invariant forall i, j :: 0 <= i < j < |keys| ==> keys[i] != keys[j]
        invariant forall k :: k in old(mTrackingSessions) && k.client != client ==> k in mTrackingSessions
        invariant InSync(Abs())
      {
        var it :| it in rest;
        if it.client == client {
          var _ := StopSession(it);
          StopsMore(states, keys, it, Abs());
          states, keys := states + [Abs()], keys + [it];
        }
        rest := rest - {it};
      }
    }

    /** MsgRemoveClient::proc. */
    method ProcRemoveClient(client: int) returns (ghost states: seq<State>, ghost keys: seq<SessionKey>)
      requires InSync(Abs())
      modifies this, mLocApi
      ensures StopsInTurn(states, keys) && states[0] == old(Abs()) && states[|states| - 1] == Abs()
      ensures forall k :: k in keys <==> k in old(mTrackingSessions) && k.client == client
      ensures forall i, j :: 0 <= i < j < |keys| ==> keys[i] != keys[j]
      ensures InSync(Abs()) && mClientData == old(mClientData) - {client} && responses == old(responses)
    {
      states, keys := StopClientSessions(client);
      mClientData := mClientData - {client};
    }

    /** After the engine has come up again it knows of no session. It is started for a
        session with the least interval, if there is one; refused, it stays off. */
    method RestartSessions() returns (accepted: bool)
      requires mLocApi.engine == None
      requires forall k :: k in mTrackingSessions ==> mTrackingSessions[k].size != 0
      modifies mLocApi
      ensures if mTrackingSessions != map[] && accepted then
                mLocApi.engine.Some? && Smallest(mTrackingSessions, mLocApi.engine.value)
              else mLocApi.engine == None
      ensures InSync(Abs()) <==> mTrackingSessions == map[] || accepted
    {
      accepted := false;
      if mTrackingSessions == map[] {
        return;
      }
      var smallest := SmallestIntervalOptions(None);
      assert mTrackingSessions - {} == mTrackingSessions;
      accepted := mLocApi.StartFix(smallest);
    }
  }

  lemma SmallestIsBar(sessions: Sessions, o: LocationOptions, interval: nat)
    requires Smallest(sessions, o) && sessions != map[]
    ensures Below(interval, sessions) <==> interval < o.minInterval
  {
  }

  lemma OnlySession(sessions: Sessions, key: SessionKey)
    requires key in sessions
    ensures |sessions| == 1 <==> sessions - {key} == map[]
  {
    var others := sessions - {key};
    assert sessions.Keys == others.Keys + {key};
    assert |sessions| == |sessions.Keys| && |others| == |others.Keys|;
  }

  ghost predicate Stops(s: State, key: SessionKey, s': State) {
    exists err :: Step(s, Stop(key), s', Some(err))
  }

  /** Each session with one of the keys is asked to stop, one after the other. */
  ghost predicate StopsInTurn(states: seq<State>, keys: seq<SessionKey>) {
    && |states| == |keys| + 1
    && forall i :: 0 <= i < |keys| ==> Stops(states[i], keys[i], states[i + 1])
  }

  lemma StopsMore(states: seq<State>, keys: seq<SessionKey>, key: SessionKey, s: State)
    requires StopsInTurn(states, keys) && Stops(states[|keys|], key, s)
    ensures StopsInTurn(states + [s], keys + [key])
  {
    var states', keys' := states + [s], keys + [key];
    forall i | 0 <= i < |keys'| ensures Stops(states'[i], keys'[i], states'[i + 1]) {
      if i < |keys| { assert states'[i] == states[i] && states'[i + 1] == states[i + 1] && keys'[i] == keys[i]; }
    }
  }
}
