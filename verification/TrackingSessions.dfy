/** Many tracking sessions share one engine. What each request asks of the engine, and
    that in every run the engine tracks at the smallest interval any session wants. The
    adapter that does this is in GnssAdapter.dfy. */
module TrackingSessions {
  import opened Wrappers

  datatype LocationOptions = LocationOptions(size: nat, minInterval: nat, mode: int)
  datatype SessionKey = SessionKey(client: int, id: nat)
  datatype LocationError = Success | GeneralFailure | CallbackMissing | InvalidParameter

  type Sessions = map<SessionKey, LocationOptions>

  /** The sessions, and what the engine runs with, if it runs. */
  datatype State = State(sessions: Sessions, engine: Option<LocationOptions>)

  /** A call to the engine. */
  datatype Ask = NoCall | StartWith(options: LocationOptions) | StopEngine

  predicate Below(interval: nat, sessions: Sessions) {
    forall k :: k in sessions ==> interval < sessions[k].minInterval
  }

  /** The options of a session that has the smallest interval; the size is zero when
      there is no session. */
  ghost predicate Smallest(sessions: Sessions, o: LocationOptions) {
    if sessions == map[] then o.size == 0
    else
      && (exists k :: k in sessions && sessions[k] == o)
      && (forall k :: k in sessions ==> o.minInterval <= sessions[k].minInterval)
  }

  /** A new session takes the engine over if it is the first or wants a smaller interval
      than every other. */
  ghost predicate StartAsks(sessions: Sessions, o: LocationOptions, ask: Ask) {
    ask == if Below(o.minInterval, sessions) then StartWith(o) else NoCall
  }

  /** An updated session takes the engine over likewise; if it loses the lead, the engine
      goes to the best of the others. */
  ghost predicate UpdateAsks(sessions: Sessions, key: SessionKey, o: LocationOptions, ask: Ask)
    requires key in sessions
  {
    var others := sessions - {key};
    if Below(o.minInterval, others) then ask == StartWith(o)
    else if Below(sessions[key].minInterval, others) then ask.StartWith? && Smallest(others, ask.options)
    else ask == NoCall
  }

  ghost predicate StopAsks(sessions: Sessions, key: SessionKey, ask: Ask)
    requires key in sessions
  {
    var others := sessions - {key};
    if others == map[] then ask == StopEngine
    else if Below(sessions[key].minInterval, others) then ask.StartWith? && Smallest(others, ask.options)
    else ask == NoCall
  }

  /** The engine may refuse a call; then nothing changes. Otherwise the sessions do. */
  predicate Asked(engine: Option<LocationOptions>, ask: Ask, engine': Option<LocationOptions>, err: LocationError) {
    if err == Success then
      engine' == match ask case NoCall => engine case StartWith(o) => Some(o) case StopEngine => None
    else err == GeneralFailure && ask != NoCall && engine' == engine
  }

  predicate Answered(s: State, ask: Ask, sessions': Sessions, s': State, err: LocationError) {
    && Asked(s.engine, ask, s'.engine, err)
    && s'.sessions == if err == Success then sessions' else s.sessions
  }

  datatype Op =
    | Start(key: SessionKey, options: LocationOptions, hasCallback: bool)
    | Update(key: SessionKey, options: LocationOptions)
    | Stop(key: SessionKey)

  /** One request. None means that the client gets no response. */
  ghost predicate Step(s: State, op: Op, s': State, response: Option<LocationError>) {
    match op
    case Start(key, o, hasCallback) =>
      if !hasCallback then s' == s && response == Some(CallbackMissing)
      else if o.size == 0 then s' == s && response == Some(InvalidParameter)
      else response.Some? && exists ask :: StartAsks(s.sessions, o, ask) && Answered(s, ask, s.sessions[key := o], s', response.value)
    case Update(key, o) =>
      if key !in s.sessions then s' == s && response == None
      else if o.size == 0 then s' == s && response == Some(InvalidParameter)
      else response.Some? && exists ask :: UpdateAsks(s.sessions, key, o, ask) && Answered(s, ask, s.sessions[key := o], s', response.value)
    case Stop(key) =>
      if key !in s.sessions then s' == s && response == None
      else response.Some? && exists ask :: StopAsks(s.sessions, key, ask) && Answered(s, ask, s.sessions - {key}, s', response.value)
  }

  /** The engine runs if and only if there is a session, at the smallest interval that
      any session wants. */
  ghost predicate InSync(s: State) {
    && (forall k :: k in s.sessions ==> s.sessions[k].size != 0)
    && (s.engine.Some? <==> s.sessions != map[])
    && (s.engine.Some? ==> IsLeast(s.sessions, s.engine.value.minInterval))
  }

  ghost predicate IsLeast(sessions: Sessions, interval: nat) {
    && (exists k :: k in sessions && sessions[k].minInterval == interval)
    && (forall k :: k in sessions ==> interval <= sessions[k].minInterval)
  }

  /** Session ids are generated, so a start brings a new key. */
  predicate Fresh(s: State, op: Op) {
    op.Start? ==> op.key !in s.sessions
  }

  lemma StartSyncs(s: State, key: SessionKey, o: LocationOptions, ask: Ask, s': State, err: LocationError)
    requires InSync(s) && key !in s.sessions && o.size != 0
    requires StartAsks(s.sessions, o, ask) && Answered(s, ask, s.sessions[key := o], s', err)
    ensures InSync(s')
  {
    var sessions' := s.sessions[key := o];
    assert key in sessions';
    assert forall k :: k in s.sessions ==> k in sessions' && sessions'[k] == s.sessions[k];
  }

  lemma UpdateSyncs(s: State, key: SessionKey, o: LocationOptions, ask: Ask, s': State, err: LocationError)
    requires InSync(s) && key in s.sessions && o.size != 0
    requires UpdateAsks(s.sessions, key, o, ask) && Answered(s, ask, s.sessions[key := o], s', err)
    ensures InSync(s')
  {
    var others, sessions' := s.sessions - {key}, s.sessions[key := o];
    assert key in sessions';
    assert forall k :: k in others ==> k in sessions' && sessions'[k] == others[k] && s.sessions[k] == others[k];
    if ask == NoCall {
      // some other session is at or below the old and below or at the new interval
      LeastStays(s.sessions, key, s.engine.value.minInterval);
    }
  }

  lemma StopSyncs(s: State, key: SessionKey, ask: Ask, s': State, err: LocationError)
    requires InSync(s) && key in s.sessions
    requires StopAsks(s.sessions, key, ask) && Answered(s, ask, s.sessions - {key}, s', err)
    ensures InSync(s')
  {
    var others := s.sessions - {key};
    if ask == NoCall {
      LeastStays(s.sessions, key, s.engine.value.minInterval);
    }
  }

  /** If one session does not lead alone, the least interval is that of another. */
  lemma LeastStays(sessions: Sessions, key: SessionKey, interval: nat)
    requires key in sessions && IsLeast(sessions, interval)
    requires !Below(sessions[key].minInterval, sessions - {key})
    ensures IsLeast(sessions - {key}, interval)
  {
    var others := sessions - {key};
    var k :| k in sessions && sessions[k].minInterval == interval;
    var j :| j in others && others[j].minInterval <= sessions[key].minInterval;
    if k == key { assert others[j].minInterval == interval; } else { assert k in others; }
  }

  lemma StepKeepsSync(s: State, op: Op, s': State, response: Option<LocationError>)
    requires InSync(s) && Fresh(s, op) && Step(s, op, s', response)
    ensures InSync(s')
  {
    if s' != s {
      match op {
        case Start(key, o, _) =>
          var ask :| StartAsks(s.sessions, o, ask) && Answered(s, ask, s.sessions[key := o], s', response.value);
          StartSyncs(s, key, o, ask, s', response.value);
        case Update(key, o) =>
          var ask :| UpdateAsks(s.sessions, key, o, ask) && Answered(s, ask, s.sessions[key := o], s', response.value);
          UpdateSyncs(s, key, o, ask, s', response.value);
        case Stop(key) =>
          var ask :| StopAsks(s.sessions, key, ask) && Answered(s, ask, s.sessions - {key}, s', response.value);
          StopSyncs(s, key, ask, s', response.value);
      }
    }
  }

  ghost predicate IsRun(states: seq<State>, ops: seq<Op>, responses: seq<Option<LocationError>>) {
    && |states| == |ops| + 1 && |responses| == |ops|
    && states[0] == State(map[], None)
    && forall i :: 0 <= i < |ops| ==> Fresh(states[i], ops[i]) && Step(states[i], ops[i], states[i + 1], responses[i])
  }

  /** Over every run, whatever the engine refuses. */
  lemma {:induction false} EveryRunIsInSync(states: seq<State>, ops: seq<Op>, responses: seq<Option<LocationError>>, i: nat)
    requires IsRun(states, ops, responses) && i < |states|
    ensures InSync(states[i])
  {
    if i > 0 {
      EveryRunIsInSync(states, ops, responses, i - 1);
      assert Step(states[i - 1], ops[i - 1], states[i - 1 + 1], responses[i - 1]);
      StepKeepsSync(states[i - 1], ops[i - 1], states[i], responses[i - 1]);
    }
  }

  /** A request that is not answered with success changes nothing; one that is changes
      exactly the session it names. */
  lemma RequestsAreAtomic(s: State, op: Op, s': State, response: Option<LocationError>)
    requires Step(s, op, s', response)
    ensures response != Some(Success) ==> s' == s
    ensures response == Some(Success) ==>
              s'.sessions == if op.Stop? then s.sessions - {op.key} else s.sessions[op.key := op.options]
  {
  }

  /** The engine is started at a new interval only for a session that has that interval
      afterwards, and a request that leaves the least interval alone never stops it. */
  lemma EngineServesASession(s: State, op: Op, s': State, response: Option<LocationError>)
    requires InSync(s) && Fresh(s, op) && Step(s, op, s', response)
    ensures s'.engine != s.engine && s'.engine.Some? ==>
              exists k :: k in s'.sessions && s'.sessions[k] == s'.engine.value
    ensures s'.engine.None? <==> s'.sessions == map[]
  {
    StepKeepsSync(s, op, s', response);
    if s'.engine != s.engine && s'.engine.Some? {
      match op {
        case Start(key, o, _) => assert key in s'.sessions && s'.sessions[key] == s'.engine.value;
        case Update(key, o) =>
          assert key in s'.sessions;
          if s'.sessions[key] != s'.engine.value {
            var k :| k in s.sessions - {key} && (s.sessions - {key})[k] == s'.engine.value;
            assert k in s'.sessions && s'.sessions[k] == s'.engine.value;
          }
        case Stop(key) =>
          var k :| k in s.sessions - {key} && (s.sessions - {key})[k] == s'.engine.value;
          assert k in s'.sessions && s'.sessions[k] == s'.engine.value;
      }
    }
  }

  // ---------- what the engine is told ----------

  /** A start that succeeds gives the engine its options if it wants a smaller interval than
      every session there is, and otherwise leaves the engine alone; only a start that wants
      the engine can fail at it. */
  lemma StartOutcome(s: State, key: SessionKey, o: LocationOptions, s': State, response: Option<LocationError>)
    requires o.size != 0 && Step(s, Start(key, o, true), s', response)
    ensures var leads := forall k :: k in s.sessions ==> o.minInterval < s.sessions[k].minInterval;
            && (response == Some(Success) || (response == Some(GeneralFailure) && leads && s' == s))
            && (response == Some(Success) ==>
                  s'.sessions == s.sessions[key := o] && s'.engine == if leads then Some(o) else s.engine)
  {
  }

  /** An update likewise, compared with the other sessions; one that gives up the lead of its
      session hands the engine to a session with the least interval of the others. */
  lemma UpdateOutcome(s: State, key: SessionKey, o: LocationOptions, s': State, response: Option<LocationError>)
    requires key in s.sessions && o.size != 0 && Step(s, Update(key, o), s', response)
    requires forall k :: k in s.sessions ==> s.sessions[k].size != 0
    ensures
      var leads := forall k :: k in s.sessions && k != key ==> o.minInterval < s.sessions[k].minInterval;
      var led := forall k :: k in s.sessions && k != key ==> s.sessions[key].minInterval < s.sessions[k].minInterval;
      && (response == Some(Success) || (response == Some(GeneralFailure) && (leads || led) && s' == s))
      && (response == Some(Success) ==>
            && s'.sessions == s.sessions[key := o]
            && if leads then s'.engine == Some(o)
               else if led then s'.engine.Some? && IsBest(s.sessions, key, s'.engine.value)
               else s'.engine == s.engine)
  {
    var others := s.sessions - {key};
    assert forall k :: k in s.sessions && k != key ==> k in others && others[k] == s.sessions[k];
    if response == Some(Success) {
      var ask :| UpdateAsks(s.sessions, key, o, ask) && Answered(s, ask, s.sessions[key := o], s', Success);
    }
  }

  /** A stop ends the engine with the last session, and hands it on if its session led. */
  lemma StopOutcome(s: State, key: SessionKey, s': State, response: Option<LocationError>)
    requires key in s.sessions && Step(s, Stop(key), s', response)
    requires forall k :: k in s.sessions ==> s.sessions[k].size != 0
    ensures
      var last := forall k :: k in s.sessions ==> k == key;
      var led := forall k :: k in s.sessions && k != key ==> s.sessions[key].minInterval < s.sessions[k].minInterval;
      && (response == Some(Success) || (response == Some(GeneralFailure) && led && s' == s))
      && (response == Some(Success) ==>
            && s'.sessions == s.sessions - {key}
            && if last then s'.engine == None
               else if led then s'.engine.Some? && IsBest(s.sessions, key, s'.engine.value)
               else s'.engine == s.engine)
  {
    var others := s.sessions - {key};
    assert forall k :: k in s.sessions && k != key ==> k in others && others[k] == s.sessions[k];
    assert others == map[] <==> forall k :: k in s.sessions ==> k == key;
    if response == Some(Success) {
      var ask :| StopAsks(s.sessions, key, ask) && Answered(s, ask, others, s', Success);
    }
  }

  /** The options of a session other than this one, none of which has a smaller interval. */
  ghost predicate IsBest(sessions: Sessions, key: SessionKey, o: LocationOptions) {
    && (exists k :: k in sessions && k != key && sessions[k] == o)
    && (forall k :: k in sessions && k != key ==> o.minInterval <= sessions[k].minInterval)
  }

  // ---------- after a refused restart ----------

  /** The request is one that starts or stops the engine: the session it names leads alone
      before or after. */
  predicate Leads(s: State, op: Op) {
    match op
    case Start(_, o, _) => Below(o.minInterval, s.sessions)
    case Update(key, o) =>
      key in s.sessions && (Below(o.minInterval, s.sessions - {key}) || Below(s.sessions[key].minInterval, s.sessions - {key}))
    case Stop(key) => key in s.sessions && Below(s.sessions[key].minInterval, s.sessions - {key})
  }

  /** When the engine has come up again and has refused to restart, there are sessions but
      no fix. A request brings the engine back in step if and only if it leads and succeeds. */
  lemma BackInStepIff(s: State, op: Op, s': State, response: Option<LocationError>)
    requires s.engine == None && s.sessions != map[] && forall k :: k in s.sessions ==> s.sessions[k].size != 0
    requires Fresh(s, op) && Step(s, op, s', response)
    ensures InSync(s') <==> response == Some(Success) && Leads(s, op)
  {
    if response != Some(Success) {
      RequestsAreAtomic(s, op, s', response);
    } else {
      match op {
        case Start(key, o, _) => StartResyncs(s, key, o, s');
        case Update(key, o) => UpdateResyncs(s, key, o, s');
        case Stop(key) => StopResyncs(s, key, s');
      }
    }
  }

  lemma StartResyncs(s: State, key: SessionKey, o: LocationOptions, s': State)
    requires s.engine == None && s.sessions != map[] && forall k :: k in s.sessions ==> s.sessions[k].size != 0
    requires key !in s.sessions && Step(s, Start(key, o, true), s', Some(Success))
    ensures InSync(s') <==> Below(o.minInterval, s.sessions)
  {
    var ask :| StartAsks(s.sessions, o, ask) && Answered(s, ask, s.sessions[key := o], s', Success);
    assert key in s'.sessions;
  }

  lemma UpdateResyncs(s: State, key: SessionKey, o: LocationOptions, s': State)
    requires s.engine == None && forall k :: k in s.sessions ==> s.sessions[k].size != 0
    requires key in s.sessions && o.size != 0 && Step(s, Update(key, o), s', Some(Success))
    ensures InSync(s') <==> Leads(s, Update(key, o))
  {
    var ask :| UpdateAsks(s.sessions, key, o, ask) && Answered(s, ask, s.sessions[key := o], s', Success);
    var others := s.sessions - {key};
    assert key in s'.sessions && s'.sessions[key] == o;
    assert forall k :: k in others ==> k in s'.sessions && s'.sessions[k] == others[k];
  }

  lemma StopResyncs(s: State, key: SessionKey, s': State)
    requires s.engine == None && forall k :: k in s.sessions ==> s.sessions[k].size != 0
    requires key in s.sessions && Step(s, Stop(key), s', Some(Success))
    ensures InSync(s') <==> Leads(s, Stop(key))
  {
    var ask :| StopAsks(s.sessions, key, ask) && Answered(s, ask, s.sessions - {key}, s', Success);
    var others := s.sessions - {key};
    assert forall k :: k in others ==> others[k].size != 0;
  }

  // ---------- whose options the engine has ----------

  ghost predicate HasOptions(sessions: Sessions, o: LocationOptions) {
    exists k :: k in sessions && sessions[k] == o
  }

  /** If the engine runs, then with the options of a session. */
  ghost predicate Served(s: State) {
    s.engine.Some? ==> HasOptions(s.sessions, s.engine.value)
  }

  lemma StartKeepsServed(s: State, key: SessionKey, o: LocationOptions, hasCallback: bool, s': State, response: Option<LocationError>)
    requires InSync(s) && Served(s) && key !in s.sessions && Step(s, Start(key, o, hasCallback), s', response)
    ensures Served(s')
  {
    if s' != s {
      assert key in s'.sessions;
      assert forall k :: k in s.sessions ==> k in s'.sessions && s'.sessions[k] == s.sessions[k];
    }
  }

  lemma OthersKeep(sessions: Sessions, key: SessionKey, o: LocationOptions, x: LocationOptions)
    ensures HasOptions(sessions[key := o], x) <==> o == x || HasOptions(sessions - {key}, x)
  {
    var others, sessions' := sessions - {key}, sessions[key := o];
    if o == x { assert key in sessions' && sessions'[key] == x; }
    if HasOptions(others, x) {
      var k :| k in others && others[k] == x;
      assert k in sessions' && sessions'[k] == x;
    }
    if HasOptions(sessions', x) && o != x {
      var k :| k in sessions' && sessions'[k] == x;
      assert k in others && others[k] == x;
    }
  }

  /** A stop leaves the engine with the options of a session if and only if it was the last
      session, or had the smallest interval alone, or another has the engine's options. */
  lemma StopKeepsServedIff(s: State, key: SessionKey, s': State)
    requires InSync(s) && Served(s) && key in s.sessions && Step(s, Stop(key), s', Some(Success))
    ensures var others := s.sessions - {key};
            Served(s') <==> others == map[] || Below(s.sessions[key].minInterval, others) || HasOptions(others, s.engine.value)
  {
    var others := s.sessions - {key};
    var ask :| StopAsks(s.sessions, key, ask) && Answered(s, ask, others, s', Success);
    if ask.StartWith? { assert Smallest(others, ask.options); }
  }

  /** An update does so if and only if the session leads with its new interval, or led
      alone with its old one, or it or another has the engine's options. */
  lemma UpdateKeepsServedIff(s: State, key: SessionKey, o: LocationOptions, s': State)
    requires InSync(s) && Served(s) && key in s.sessions && o.size != 0 && Step(s, Update(key, o), s', Some(Success))
    ensures var others := s.sessions - {key};
            Served(s') <==>
              || Below(o.minInterval, others) || Below(s.sessions[key].minInterval, others)
              || o == s.engine.value || HasOptions(others, s.engine.value)
  {
    var others := s.sessions - {key};
    var ask :| UpdateAsks(s.sessions, key, o, ask) && Answered(s, ask, s.sessions[key := o], s', Success);
    if s'.engine.Some? { OthersKeep(s.sessions, key, o, s'.engine.value); }
    if ask.StartWith? && !Below(o.minInterval, others) { assert HasOptions(others, ask.options); }
  }

  /** A run from the start in which the condition fails: of two sessions with the same
      interval the one whose mode the engine has is stopped. */
  lemma ModeMayGoStale()
    ensures exists states, ops, responses :: IsRun(states, ops, responses) && !Served(states[|states| - 1])
  {
    var a, b := SessionKey(1, 1), SessionKey(2, 2);
    var x, y := LocationOptions(1, 10, 0), LocationOptions(1, 10, 7);
    var s0 := State(map[], None);
    var s1 := State(map[a := x], Some(x));
    var s2 := State(map[a := x, b := y], Some(x));
    var s3 := State(map[a := x, b := y] - {a}, Some(x));
    assert StartAsks(s0.sessions, x, StartWith(x)) && Answered(s0, StartWith(x), s0.sessions[a := x], s1, Success);
    assert a in s1.sessions && StartAsks(s1.sessions, y, NoCall) && Answered(s1, NoCall, s1.sessions[b := y], s2, Success);
    assert s2.sessions[a] == x && s2.sessions[b] == y;
    assert b in s2.sessions - {a} && (s2.sessions - {a})[b] == y;
    assert StopAsks(s2.sessions, a, NoCall) && Answered(s2, NoCall, s2.sessions - {a}, s3, Success);
    var states := [s0, s1, s2, s3];
    var ops := [Start(a, x, true), Start(b, y, true), Stop(a)];
    var responses := [Some(Success), Some(Success), Some(Success)];
    assert IsRun(states, ops, responses);
  }
}
