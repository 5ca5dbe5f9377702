// The session's lock sections and store calls, each against its step of the protocol.
module OAuthSessions {
  import opened Prelude
  import opened Credentials
  import opened OAuthProtocol

  class OAuthSession {
    const providerId: string
    const store: InMemoryCredentialStore
    // The mutex-held pair: the last generation, and the generation in the slot.
    var generation: nat
    var slot: Option<nat>
    // The shared operations, and the calls of `refresh` that wait on them.
    var operations: map<nat, Phase>
    var callers: map<nat, Caller>

    constructor (providerId: string, store: InMemoryCredentialStore)
      ensures this.providerId == providerId && this.store == store
      ensures View() == Initial(store.Stored(providerId))
    {
      this.providerId, this.store := providerId, store;
      generation, slot, operations, callers := 0, None, map[], map[];
    }

    function View(): State
      reads this, store
    {
      State(store.Stored(providerId), generation, slot, operations, callers)
    }

    // The first lock section of `refresh`.
    method JoinRefresh(caller: nat) returns (joined: nat)
      requires Enabled(View(), Join(caller))
      modifies this
      ensures View() == Perform(old(View()), Join(caller))
      ensures callers[caller] == Waiting(joined)
    {
      if slot.Some? {
        joined := slot.value;
      } else {
        generation := generation + 1;
        joined := generation;
        operations := operations[joined := Unread];
        slot := Some(joined);
      }
      callers := callers[caller := Waiting(joined)];
    }

    // The operation `caller` polls has its result, which is that caller's at once.
    method CompleteOperation(caller: nat, outcome: RefreshResult)
      requires Waits(View(), caller)
      modifies this`operations, this`callers
      ensures View() == Polled(old(View()), caller, Finished(outcome))
    {
      var g := callers[caller].generation;
      operations := operations[g := Finished(outcome)];
      callers := callers[caller := Observed(g, outcome)];
    }

    // `refresh_once`, up to the token exchange, as `caller` polls it.
    method BeginOperation(caller: nat, ok: bool)
      requires Enabled(View(), ReadStore(caller, ok))
      modifies this
      ensures View() == Perform(old(View()), ReadStore(caller, ok))
    {
      if !ok {
        CompleteOperation(caller, Err(Transient(STORE_FAILED)));
        return;
      }
      var found := store.Get(providerId);
      if found.None? || !found.value.OAuth? {
        CompleteOperation(caller, Err(Invalid(NO_CREDENTIAL)));
        return;
      }
      var credential := found.value.credential;
      if credential.refreshToken == None {
        CompleteOperation(caller, Err(Invalid(NO_REFRESH_TOKEN)));
        return;
      }
      operations := operations[callers[caller].generation := Exchanging(credential)];
    }

    method ExchangeTokens(caller: nat, answer: RefreshResult)
      requires Enabled(View(), Exchange(caller, answer))
      modifies this
      ensures View() == Perform(old(View()), Exchange(caller, answer))
    {
      var g := callers[caller].generation;
      var expected := operations[g].expected;
      match answer
      case Err(e) => CompleteOperation(caller, Err(e));
      case Ok(refreshed) => operations := operations[g := Swapping(expected, Merged(refreshed, expected))];
    }

    // The compare-and-swap, in one `modify` of the store.
    method SwapCredential(caller: nat, ok: bool)
      requires Enabled(View(), Swap(caller, ok))
      modifies this, store
      ensures View() == Perform(old(View()), Swap(caller, ok))
      ensures forall other :: other != providerId ==> store.Stored(other) == old(store.Stored(other))
    {
      if !ok {
        CompleteOperation(caller, Err(Transient(STORE_FAILED)));
        return;
      }
      var g := callers[caller].generation;
      var expected, rotated := operations[g].expected, operations[g].rotated;
      var outcome := store.Modify<string>(providerId, current => Ok(Swapped(current, expected, rotated)));
      var left := outcome.value;
      if left.Some? && left.value.OAuth? {
        CompleteOperation(caller, Ok(left.value.credential));
      } else {
        CompleteOperation(caller, Err(Invalid(CHANGED)));
      }
    }

    // The shared future, already resolved, answers another caller.
    method ObserveResult(caller: nat) returns (result: RefreshResult)
      requires Enabled(View(), Observe(caller))
      modifies this
      ensures View() == Perform(old(View()), Observe(caller))
      ensures callers[caller] == Observed(old(callers)[caller].generation, result)
    {
      var g := callers[caller].generation;
      result := operations[g].outcome;
      callers := callers[caller := Observed(g, result)];
    }

    // The second lock section of `refresh`: clear only the refresh waited on.
    method ClearSlot(caller: nat)
      requires Enabled(View(), Clear(caller))
      modifies this
      ensures View() == Perform(old(View()), Clear(caller))
    {
      var waited := callers[caller];
      if slot.Some? && slot.value == waited.generation {
        slot := None;
      }
      callers := callers[caller := Cleared(waited.generation, waited.seen)];
    }

    method DropCaller(caller: nat)
      requires Enabled(View(), Drop(caller))
      modifies this
      ensures View() == Perform(old(View()), Drop(caller))
    {
      callers := callers[caller := Dropped];
    }

    method StoreLogin(credential: OAuthCredential)
      modifies store
      ensures View() == Perform(old(View()), Login(credential, true))
      ensures forall other :: other != providerId ==> store.Stored(other) == old(store.Stored(other))
    {
      var outcome := store.Modify<string>(providerId, _ => Ok(Some(OAuth(credential))));
    }

    method DeleteStored()
      modifies store
      ensures View() == Perform(old(View()), Logout(true))
      ensures forall other :: other != providerId ==> store.Stored(other) == old(store.Stored(other))
    {
      store.Delete(providerId);
    }
  }

  // What `refresh` returns to its caller.
  datatype SessionError =
    | ReLoginRequired(provider: string, reason: string)
    | AuthFailed(provider: string, detail: string)

  function ForCaller(provider: string, result: RefreshResult): (r: Result<OAuthCredential, SessionError>)
    ensures r.Ok? <==> result.Ok?
    ensures r.Err? ==> (r.error.ReLoginRequired? <==> result.error.Invalid?)
  {
    match result
    case Ok(c) => Ok(c)
    case Err(Invalid(reason)) => Err(ReLoginRequired(provider, reason))
    case Err(Transient(text)) => Err(AuthFailed(provider, text))
  }

  // Any interleaving of the sections leaves what the protocol says. A step that fails in
  // the store has no effect but the operation's result.
  method Schedule(session: OAuthSession, labels: seq<Label>)
    requires session.View() == Initial(session.store.Stored(session.providerId))
    modifies session, session.store
    ensures session.View() == Run(old(session.store.Stored(session.providerId)), labels).state
  {
    ghost var stored := session.store.Stored(session.providerId);
    var i := 0;
    while i < |labels|
      invariant 0 <= i <= |labels|
      invariant session.View() == Run(stored, labels[..i]).state
    {
      assert labels[..i + 1][..i] == labels[..i];
      if Enabled(session.View(), labels[i]) {
        match labels[i]
        case Join(c) => var joined := session.JoinRefresh(c);
        case ReadStore(c, ok) => session.BeginOperation(c, ok);
        case Exchange(c, answer) => session.ExchangeTokens(c, answer);
        case Swap(c, ok) => session.SwapCredential(c, ok);
        case Observe(c) => var result := session.ObserveResult(c);
        case Clear(c) => session.ClearSlot(c);
        case Drop(c) => session.DropCaller(c);
        case Login(credential, ok) =>
          if ok {
            session.StoreLogin(credential);
          }
        case Logout(ok) =>
          if ok {
            session.DeleteStored();
          }
      }
      i := i + 1;
    }
    assert labels[..i] == labels;
  }
}
