/**
 * The history recorder: an enabled flag, global handlers in the order they
 * were added, and scopes that hold the ids of the clients registered to them
 * and their own handlers. Handlers are identified by number; calling a
 * handler's `emit` is recorded in the recorder's `log`, together with whether
 * that handler raised, which never stops the dispatch.
 */
module History {
  import opened Wrappers

  type HandlerId = nat
  /** `id(client)` of a registered client. */
  type ClientId = nat

  /** The source `record` uses when the caller gives none. */
  const DefaultSource := "BOTOCORE"

  /** One call of `handler.emit(event_type, payload, source)` and whether it raised. */
  datatype Emission = Emission(handler: HandlerId, eventType: string, payload: string, source: string, raised: bool)

  /** What a scope holds at a given moment. */
  datatype ScopeState = ScopeState(registeredScopeIds: seq<ClientId>, handlers: seq<HandlerId>)

  /** `HistoryRecorderScope`. */
  class HistoryRecorderScope {
    var registeredScopeIds: seq<ClientId>
    var handlers: seq<HandlerId>

    constructor()
      ensures registeredScopeIds == [] && handlers == []
    {
      registeredScopeIds := [];
      handlers := [];
    }

    function State(): ScopeState
      reads this
    {
      ScopeState(registeredScopeIds, handlers)
    }

    /** `register_client(client)`: its id is appended to the registered ids. */
    method RegisterClient(client: ClientId)
      modifies this
      ensures registeredScopeIds == old(registeredScopeIds) + [client]
      ensures handlers == old(handlers)
    {
      registeredScopeIds := registeredScopeIds + [client];
    }

    /** `add_handler(handler)`. */
    method AddHandler(handler: HandlerId)
      modifies this
      ensures handlers == old(handlers) + [handler]
      ensures registeredScopeIds == old(registeredScopeIds)
    {
      handlers := handlers + [handler];
    }
  }

  /** The states of a list of scopes, in order. */
  function States(scopes: seq<HistoryRecorderScope>): (r: seq<ScopeState>)
    reads set s | s in scopes
    ensures |r| == |scopes|
    ensures forall i :: 0 <= i < |scopes| ==> r[i] == scopes[i].State()
  {
    seq(|scopes|, i reads set s | s in scopes requires 0 <= i < |scopes| => scopes[i].State())
  }

  /** `_get_scopes_for_scope_id` on scope states: those that registered the id, in their order. */
  function ScopesForScopeId(scopes: seq<ScopeState>, scopeId: ClientId): seq<ScopeState>
  {
    if |scopes| == 0 then []
    else
      var rest := ScopesForScopeId(scopes[1..], scopeId);
      if scopeId in scopes[0].registeredScopeIds then [scopes[0]] + rest else rest
  }

  /** The scopes kept are exactly those that registered the id. */
  lemma {:induction false} ScopesForScopeIdMembers(scopes: seq<ScopeState>, scopeId: ClientId)
    ensures forall s :: s in ScopesForScopeId(scopes, scopeId) <==> s in scopes && scopeId in s.registeredScopeIds
  {
    if |scopes| > 0 {
      ScopesForScopeIdMembers(scopes[1..], scopeId);
      assert forall s :: s in scopes <==> s == scopes[0] || s in scopes[1..];
    }
  }

  /** The handlers of the given scopes, scope after scope. */
  function ScopedHandlers(scopes: seq<ScopeState>): seq<HandlerId>
  {
    if |scopes| == 0 then [] else scopes[0].handlers + ScopedHandlers(scopes[1..])
  }

  /**
   * The handlers `record` calls, in the order it calls them: nothing when
   * disabled; otherwise the global handlers, then, when a scope id is given,
   * the handlers of every scope that registered it.
   */
  function Dispatch(enabled: bool, handlers: seq<HandlerId>, scopes: seq<ScopeState>, scopeId: Option<ClientId>)
    : seq<HandlerId>
  {
    if !enabled then []
    else if scopeId.None? then handlers
    else handlers + ScopedHandlers(ScopesForScopeId(scopes, scopeId.value))
  }

  /** The emissions of one `record` call, one per dispatched handler and in the same order. */
  function Emissions(hs: seq<HandlerId>, eventType: string, payload: string, source: string,
                     raises: (HandlerId, string) -> bool): (r: seq<Emission>)
    ensures |r| == |hs|
    ensures forall i :: 0 <= i < |hs| ==>
      r[i] == Emission(hs[i], eventType, payload, source, raises(hs[i], eventType))
  {
    seq(|hs|, i requires 0 <= i < |hs| => Emission(hs[i], eventType, payload, source, raises(hs[i], eventType)))
  }

  /** `HistoryRecorder`. */
  class HistoryRecorder {
    var enabled: bool
    var handlers: seq<HandlerId>
    var scopes: seq<HistoryRecorderScope>
    /** Every `emit` call made so far. */
    var log: seq<Emission>

    /** A new recorder is disabled and has no handlers and no scopes. */
    constructor()
      ensures !enabled && handlers == [] && scopes == [] && log == []
    {
      enabled := false;
      handlers := [];
      scopes := [];
      log := [];
    }

    method Enable()
      modifies this
      ensures enabled
      ensures handlers == old(handlers) && scopes == old(scopes) && log == old(log)
    {
      enabled := true;
    }

    method Disable()
      modifies this
      ensures !enabled
      ensures handlers == old(handlers) && scopes == old(scopes) && log == old(log)
    {
      enabled := false;
    }

    /** `add_handler(handler)`: it is called only while the recorder is enabled. */
    method AddHandler(handler: HandlerId)
      modifies this
      ensures handlers == old(handlers) + [handler]
      ensures enabled == old(enabled) && scopes == old(scopes) && log == old(log)
    {
      handlers := handlers + [handler];
    }

    /** `add_scope(scope)`: the scope is shared, so handlers added to it later are used too. */
    method AddScope(scope: HistoryRecorderScope)
      modifies this
      ensures scopes == old(scopes) + [scope]
      ensures enabled == old(enabled) && handlers == old(handlers) && log == old(log)
    {
      scopes := scopes + [scope];
    }

    /** `_get_scopes_for_scope_id(scope_id)`. */
    function GetScopesForScopeId(scopeId: ClientId): (r: seq<HistoryRecorderScope>)
      reads this, set s | s in scopes
      ensures forall s :: s in r ==> s in scopes
      ensures States(r) == ScopesForScopeId(States(scopes), scopeId)
    {
      MatchingScopesStates(scopes, scopeId);
      MatchingScopes(scopes, scopeId)
    }

    /** The handlers the next `record` with this scope id would call. */
    function Pending(scopeId: Option<ClientId>): seq<HandlerId>
      reads this, set s | s in scopes
    {
      Dispatch(enabled, handlers, States(scopes), scopeId)
    }

    /** `_emit_event`: the handler is called and whatever it raises is swallowed. */
    method EmitEvent(handler: HandlerId, eventType: string, payload: string, source: string,
                     raises: (HandlerId, string) -> bool)
      modifies this
      ensures log == old(log) + [Emission(handler, eventType, payload, source, raises(handler, eventType))]
      ensures enabled == old(enabled) && handlers == old(handlers) && scopes == old(scopes)
    {
      log := log + [Emission(handler, eventType, payload, source, raises(handler, eventType))];
    }

    /**
     * `record(event_type, payload, source='BOTOCORE', scope_id=None)`:
     * `source` is `None` when the caller leaves it out. `raises` says which
     * handlers raise for which event.
     */
    method Record(eventType: string, payload: string, source: Option<string>, scopeId: Option<ClientId>,
                  raises: (HandlerId, string) -> bool)
      modifies this
      ensures log == old(log) + Emissions(old(Pending(scopeId)), eventType, payload,
                                          source.GetOr(DefaultSource), raises)
      ensures enabled == old(enabled) && handlers == old(handlers) && scopes == old(scopes)
    {
      var src := source.GetOr(DefaultSource);
      if !enabled {
        return;
      }
      ghost var scopeStates := States(scopes);
      EmitAll(handlers, eventType, payload, src, raises);
      if scopeId.Some? {
        var matching := GetScopesForScopeId(scopeId.value);
        EmitScoped(matching, eventType, payload, src, raises);
        EmissionsAppend(old(handlers), ScopedHandlers(ScopesForScopeId(scopeStates, scopeId.value)),
                        eventType, payload, src, raises);
      }
    }

    /** The `for scope in scopes: for handler in scope.handlers: ...` loops of `record`. */
    method EmitScoped(matching: seq<HistoryRecorderScope>, eventType: string, payload: string, source: string,
                      raises: (HandlerId, string) -> bool)
      modifies this
      ensures log == old(log) + Emissions(ScopedHandlers(old(States(matching))), eventType, payload, source, raises)
      ensures enabled == old(enabled) && handlers == old(handlers) && scopes == old(scopes)
    {
      ghost var matchingStates := States(matching);
      var k := 0;
      while k < |matching|
        invariant 0 <= k <= |matching|
        invariant log == old(log) + Emissions(ScopedHandlers(matchingStates[..k]), eventType, payload, source, raises)
        invariant enabled == old(enabled) && handlers == old(handlers) && scopes == old(scopes)
        invariant forall j :: 0 <= j < |matching| ==> matching[j].State() == matchingStates[j]
      {
        var scopeHandlers := matching[k].handlers;
        ghost var done := matchingStates[..k];
        assert scopeHandlers == matchingStates[k].handlers;
        EmitAll(scopeHandlers, eventType, payload, source, raises);
        ScopedHandlersSnoc(done, matchingStates[k]);
        assert matchingStates[..k + 1] == done + [matchingStates[k]];
        EmissionsAppend(ScopedHandlers(done), scopeHandlers, eventType, payload, source, raises);
        k := k + 1;
      }
      assert matchingStates[..k] == matchingStates;
    }

    /** The `for handler in ...: self._emit_event(...)` loop of `record`. */
    method EmitAll(hs: seq<HandlerId>, eventType: string, payload: string, source: string,
                   raises: (HandlerId, string) -> bool)
      modifies this
      ensures log == old(log) + Emissions(hs, eventType, payload, source, raises)
      ensures enabled == old(enabled) && handlers == old(handlers) && scopes == old(scopes)
    {
      var i := 0;
      while i < |hs|
        invariant 0 <= i <= |hs|
        invariant log == old(log) + Emissions(hs[..i], eventType, payload, source, raises)
        invariant enabled == old(enabled) && handlers == old(handlers) && scopes == old(scopes)
      {
        EmitEvent(hs[i], eventType, payload, source, raises);
        assert hs[..i + 1] == hs[..i] + [hs[i]];
        EmissionsAppend(hs[..i], [hs[i]], eventType, payload, source, raises);
        i := i + 1;
      }
      assert hs[..i] == hs;
    }
  }

  /** The scopes among `ss` that registered `scopeId`, in order. */
  function MatchingScopes(ss: seq<HistoryRecorderScope>, scopeId: ClientId): (r: seq<HistoryRecorderScope>)
    reads set s | s in ss
    ensures forall s :: s in r ==> s in ss
  {
    if |ss| == 0 then []
    else
      assert forall s :: s in ss[1..] ==> s in ss;
      (if scopeId in ss[0].registeredScopeIds then [ss[0]] else []) + MatchingScopes(ss[1..], scopeId)
  }

  /** Filtering the scope objects and filtering their states agree. */
  lemma {:induction false} MatchingScopesStates(ss: seq<HistoryRecorderScope>, scopeId: ClientId)
    ensures States(MatchingScopes(ss, scopeId)) == ScopesForScopeId(States(ss), scopeId)
  {
    if |ss| > 0 {
      MatchingScopesStates(ss[1..], scopeId);
      assert States(ss)[1..] == States(ss[1..]);
      var head := if scopeId in ss[0].registeredScopeIds then [ss[0]] else [];
      StatesAppend(head, MatchingScopes(ss[1..], scopeId));
    }
  }

  lemma StatesAppend(a: seq<HistoryRecorderScope>, b: seq<HistoryRecorderScope>)
    ensures States(a + b) == States(a) + States(b)
  {
  }

  lemma EmissionsAppend(a: seq<HandlerId>, b: seq<HandlerId>, eventType: string, payload: string, source: string,
                        raises: (HandlerId, string) -> bool)
    ensures Emissions(a + b, eventType, payload, source, raises)
         == Emissions(a, eventType, payload, source, raises) + Emissions(b, eventType, payload, source, raises)
  {
  }

  lemma {:induction false} ScopedHandlersSnoc(ss: seq<ScopeState>, s: ScopeState)
    ensures ScopedHandlers(ss + [s]) == ScopedHandlers(ss) + s.handlers
  {
    if |ss| > 0 {
      assert (ss + [s])[1..] == ss[1..] + [s];
      ScopedHandlersSnoc(ss[1..], s);
    }
  }

  /** `get_global_history_recorder`: the module-global `HISTORY_RECORDER`, created on first use. */
  class GlobalHistory {
    var recorder: HistoryRecorder?

    constructor()
      ensures recorder == null
    {
      recorder := null;
    }

    method GetGlobalHistoryRecorder() returns (r: HistoryRecorder)
      modifies this
      ensures old(recorder) != null ==> r == old(recorder)
      ensures old(recorder) == null ==> fresh(r) && !r.enabled && r.handlers == [] && r.scopes == [] && r.log == []
      ensures recorder == r
    {
      if recorder == null {
        recorder := new HistoryRecorder();
      }
      r := recorder;
    }
  }

  // ---- What a `record` call dispatches ----

  /** A disabled recorder calls no handler, whatever handlers and scopes it has. */
  lemma DisabledDispatchesNothing(handlers: seq<HandlerId>, scopes: seq<ScopeState>, scopeId: Option<ClientId>)
    ensures Dispatch(false, handlers, scopes, scopeId) == []
  {
  }

  /** When enabled, the global handlers are called first, in the order they were added. */
  lemma GlobalHandlersFirst(handlers: seq<HandlerId>, scopes: seq<ScopeState>, scopeId: Option<ClientId>)
    ensures var d := Dispatch(true, handlers, scopes, scopeId);
      |handlers| <= |d| && d[..|handlers|] == handlers
  {
  }

  /** Without a scope id no scoped handler is called. */
  lemma NoScopeIdOnlyGlobal(handlers: seq<HandlerId>, scopes: seq<ScopeState>)
    ensures Dispatch(true, handlers, scopes, None) == handlers
  {
  }

  /** A scope id no scope registered calls only the global handlers. */
  lemma UnregisteredIdOnlyGlobal(handlers: seq<HandlerId>, scopes: seq<ScopeState>, id: ClientId)
    requires forall s :: s in scopes ==> id !in s.registeredScopeIds
    ensures Dispatch(true, handlers, scopes, Some(id)) == handlers
  {
    ScopesForScopeIdMembers(scopes, id);
    var m := ScopesForScopeId(scopes, id);
    if |m| > 0 {
      assert m[0] in m;
    }
  }

  /** The matching scopes of a concatenation are those of each part, in order. */
  lemma {:induction false} ScopesForScopeIdAppend(a: seq<ScopeState>, b: seq<ScopeState>, id: ClientId)
    ensures ScopesForScopeId(a + b, id) == ScopesForScopeId(a, id) + ScopesForScopeId(b, id)
  {
    if |a| > 0 {
      assert (a + b)[1..] == a[1..] + b;
      ScopesForScopeIdAppend(a[1..], b, id);
    } else {
      assert a + b == b;
    }
  }

  /**
   * With a matching scope id: the global handlers, then the handlers of each
   * scope that registered the id, in scope order and each scope once — here
   * for two scopes, one of which registered the id.
   */
  lemma ScopedDispatchOrder(handlers: seq<HandlerId>, before: seq<ScopeState>, s: ScopeState,
                            after: seq<ScopeState>, id: ClientId)
    requires id in s.registeredScopeIds
    ensures Dispatch(true, handlers, before + [s] + after, Some(id))
         == handlers + ScopedHandlers(ScopesForScopeId(before, id)) + s.handlers
            + ScopedHandlers(ScopesForScopeId(after, id))
  {
    var m1 := ScopesForScopeId(before, id);
    var m2 := ScopesForScopeId(after, id);
    assert ScopesForScopeId(before + [s] + after, id) == m1 + [s] + m2 by {
      ScopesForScopeIdAppend(before + [s], after, id);
      ScopesForScopeIdAppend(before, [s], id);
      ScopesForScopeIdSingle(s, id);
    }
    assert ScopedHandlers(m1 + [s] + m2) == ScopedHandlers(m1) + s.handlers + ScopedHandlers(m2) by {
      ScopedHandlersAppend(m1 + [s], m2);
      ScopedHandlersSnoc(m1, s);
    }
  }

  lemma ScopesForScopeIdSingle(s: ScopeState, id: ClientId)
    ensures ScopesForScopeId([s], id) == if id in s.registeredScopeIds then [s] else []
  {
    assert [s][1..] == [];
  }

  lemma ScopedHandlersSingle(s: ScopeState)
    ensures ScopedHandlers([s]) == s.handlers
  {
    assert [s][1..] == [];
  }

  lemma {:induction false} ScopedHandlersAppend(a: seq<ScopeState>, b: seq<ScopeState>)
    ensures ScopedHandlers(a + b) == ScopedHandlers(a) + ScopedHandlers(b)
  {
    if |a| > 0 {
      assert (a + b)[1..] == a[1..] + b;
      ScopedHandlersAppend(a[1..], b);
    } else {
      assert a + b == b;
    }
  }

  /** Whether handlers raise changes what is logged about them, never which handlers are called. */
  lemma FailuresDoNotStopDispatch(hs: seq<HandlerId>, eventType: string, payload: string, source: string,
                                  raises1: (HandlerId, string) -> bool, raises2: (HandlerId, string) -> bool)
    ensures var e1 := Emissions(hs, eventType, payload, source, raises1);
      var e2 := Emissions(hs, eventType, payload, source, raises2);
      |e1| == |e2| && forall i :: 0 <= i < |e1| ==> e1[i].handler == e2[i].handler
  {
  }

  /** Two scopes that registered the same client are both called, in the order they were added. */
  lemma TwoScopesSameClient(handlers: seq<HandlerId>, s1: ScopeState, s2: ScopeState, id: ClientId)
    requires id in s1.registeredScopeIds && id in s2.registeredScopeIds
    ensures Dispatch(true, handlers, [s1, s2], Some(id)) == handlers + s1.handlers + s2.handlers
  {
    assert [s1, s2] == [s1] + [s2];
    ScopesForScopeIdAppend([s1], [s2], id);
    ScopesForScopeIdSingle(s1, id);
    ScopesForScopeIdSingle(s2, id);
    ScopedHandlersSnoc([s1], s2);
    ScopedHandlersSingle(s1);
  }

  // ---- Whole-object runs ----

  /** Enabling then disabling a new recorder, then adding a handler: `record` calls nothing. */
  method RecordAfterDisable(handler: HandlerId, eventType: string, payload: string,
                            raises: (HandlerId, string) -> bool)
    returns (log: seq<Emission>)
    ensures log == []
  {
    var recorder := new HistoryRecorder();
    recorder.Enable();
    recorder.Disable();
    recorder.AddHandler(handler);
    recorder.Record(eventType, payload, None, None, raises);
    log := recorder.log;
  }

  /**
   * A scope with one handler and one registered client, and a global handler
   * added after the scope: a `record` for that client calls the global handler,
   * then the scoped one, both with the default source; a failing first handler
   * does not stop the second.
   */
  method RecordScopedAndGlobal(scoped: HandlerId, global: HandlerId, client: ClientId,
                               raises: (HandlerId, string) -> bool)
    returns (log: seq<Emission>)
    ensures log == [Emission(global, "myevent", "{}", DefaultSource, raises(global, "myevent")),
                    Emission(scoped, "myevent", "{}", DefaultSource, raises(scoped, "myevent"))]
  {
    var scope := new HistoryRecorderScope();
    scope.AddHandler(scoped);
    scope.RegisterClient(client);
    var recorder := new HistoryRecorder();
    recorder.Enable();
    recorder.AddScope(scope);
    recorder.AddHandler(global);
    assert recorder.Pending(Some(client)) == [global, scoped] by {
      assert recorder.scopes == [scope];
      assert scope.State() == ScopeState([client], [scoped]);
      assert States(recorder.scopes) == [ScopeState([client], [scoped])] by {
        assert States(recorder.scopes)[0] == ScopeState([client], [scoped]);
      }
      OneMatchingScope([global], ScopeState([client], [scoped]), client);
    }
    assert recorder.log == [];
    recorder.Record("myevent", "{}", None, Some(client), raises);
    assert recorder.log == Emissions([global, scoped], "myevent", "{}", DefaultSource, raises);
    log := recorder.log;
  }

  lemma OneMatchingScope(handlers: seq<HandlerId>, s: ScopeState, id: ClientId)
    requires id in s.registeredScopeIds
    ensures Dispatch(true, handlers, [s], Some(id)) == handlers + s.handlers
  {
    ScopesForScopeIdSingle(s, id);
    ScopedHandlersSingle(s);
  }
}
