// Single-flight refresh as a step relation: callers joining and leaving, the shared
// operation's own steps, and logins and logouts racing its compare-and-swap.
module OAuthProtocol {
  import opened Prelude
  import opened Credentials

  datatype RefreshError = Invalid(reason: string) | Transient(text: string)

  type RefreshResult = Result<OAuthCredential, RefreshError>

  // How far one shared refresh operation has come.
  datatype Phase =
    | Unread
    | Exchanging(expected: OAuthCredential)
    | Swapping(expected: OAuthCredential, rotated: OAuthCredential)
    | Finished(outcome: RefreshResult)

  // Where one call of `refresh` is. `Observed` is between the result and the second lock
  // section, with nothing awaited in between; `Cleared` is after that section.
  datatype Caller =
    | Waiting(generation: nat)
    | Observed(generation: nat, seen: RefreshResult)
    | Cleared(generation: nat, seen: RefreshResult)
    | Dropped

  datatype State = State(
    stored: Option<Credential>,
    generation: nat,
    slot: Option<nat>,
    operations: map<nat, Phase>,
    callers: map<nat, Caller>)

  function Initial(stored: Option<Credential>): State {
    State(stored, 0, None, map[], map[])
  }

  // One atomic step, with what the outside world answers. The shared operation runs only
  // while a caller that waits on it polls it. `ok` is false where the store reports an
  // error, which leaves it unchanged.
  datatype Label =
    | Join(caller: nat)
    | ReadStore(caller: nat, ok: bool)
    | Exchange(caller: nat, answer: RefreshResult)
    | Swap(caller: nat, ok: bool)
    | Observe(caller: nat)
    | Clear(caller: nat)
    | Drop(caller: nat)
    | Login(credential: OAuthCredential, ok: bool)
    | Logout(ok: bool)

  const NO_CREDENTIAL := "no OAuth credential is stored"
  const NO_REFRESH_TOKEN := "the stored credential has no refresh token"
  const CHANGED := "the credential changed while the refresh was in flight"
  const STORE_FAILED := "the credential store failed"

  // ---------------------------------------------------------------- the sections

  function Joined(s: State, caller: nat): State {
    match s.slot
    case Some(g) => s.(callers := s.callers[caller := Waiting(g)])
    case None =>
      var g := s.generation + 1;
      State(s.stored, g, Some(g), s.operations[g := Unread], s.callers[caller := Waiting(g)])
  }

  // What reading the store decides.
  function AfterRead(stored: Option<Credential>, ok: bool): Phase {
    if !ok then Finished(Err(Transient(STORE_FAILED)))
    else if !(stored.Some? && stored.value.OAuth?) then Finished(Err(Invalid(NO_CREDENTIAL)))
    else if stored.value.credential.refreshToken.None? then Finished(Err(Invalid(NO_REFRESH_TOKEN)))
    else Exchanging(stored.value.credential)
  }

  function AfterExchange(expected: OAuthCredential, answer: RefreshResult): Phase {
    match answer
    case Err(e) => Finished(Err(e))
    case Ok(refreshed) => Swapping(expected, Merged(refreshed, expected))
  }

  // The compare-and-swap: whatever is stored survives unless it is what was read.
  function Swapped(current: Option<Credential>, expected: OAuthCredential,
                   rotated: OAuthCredential): Option<Credential> {
    if current == Some(OAuth(expected)) then Some(OAuth(rotated)) else current
  }

  function AfterSwap(left: Option<Credential>, ok: bool): Phase {
    if !ok then Finished(Err(Transient(STORE_FAILED)))
    else if left.Some? && left.value.OAuth? then Finished(Ok(left.value.credential))
    else Finished(Err(Invalid(CHANGED)))
  }

  // The slot after a caller that waited on `generation`.
  function ClearedSlot(slot: Option<nat>, generation: nat): Option<nat> {
    if slot == Some(generation) then None else slot
  }

  // The operation comes to `phase` while `caller` polls it: a result is that caller's at once.
  function Polled(s: State, caller: nat, phase: Phase): State
    requires Waits(s, caller)
  {
    var g := s.callers[caller].generation;
    s.(operations := s.operations[g := phase],
       callers := if phase.Finished? then s.callers[caller := Observed(g, phase.outcome)] else s.callers)
  }

  // ---------------------------------------------------------------- steps

  predicate Waits(s: State, caller: nat) {
    caller in s.callers && s.callers[caller].Waiting? && s.callers[caller].generation in s.operations
  }

  // The operation a waiting caller polls.
  function PhaseOf(s: State, caller: nat): Phase
    requires Waits(s, caller)
  {
    s.operations[s.callers[caller].generation]
  }

  // A caller can be dropped only where it awaits.
  predicate Enabled(s: State, l: Label) {
    match l
    case Join(c) => c !in s.callers
    case ReadStore(c, _) => Waits(s, c) && PhaseOf(s, c).Unread?
    case Exchange(c, _) => Waits(s, c) && PhaseOf(s, c).Exchanging?
    case Swap(c, _) => Waits(s, c) && PhaseOf(s, c).Swapping?
    case Observe(c) => Waits(s, c) && PhaseOf(s, c).Finished?
    case Clear(c) => c in s.callers && s.callers[c].Observed?
    case Drop(c) => c in s.callers && s.callers[c].Waiting?
    case Login(_, _) => true
    case Logout(_) => true
  }

  function Perform(s: State, l: Label): State
    requires Enabled(s, l)
  {
    match l
    case Join(c) => Joined(s, c)
    case ReadStore(c, ok) => Polled(s, c, AfterRead(s.stored, ok))
    case Exchange(c, answer) => Polled(s, c, AfterExchange(PhaseOf(s, c).expected, answer))
    case Swap(c, ok) =>
      var left := if ok then Swapped(s.stored, PhaseOf(s, c).expected, PhaseOf(s, c).rotated) else s.stored;
      Polled(s, c, AfterSwap(left, ok)).(stored := left)
    case Observe(c) => Polled(s, c, PhaseOf(s, c))
    case Clear(c) =>
      var g := s.callers[c].generation;
      s.(slot := ClearedSlot(s.slot, g), callers := s.callers[c := Cleared(g, s.callers[c].seen)])
    case Drop(c) => s.(callers := s.callers[c := Dropped])
    case Login(credential, ok) => if ok then s.(stored := Some(OAuth(credential))) else s
    case Logout(ok) => if ok then s.(stored := None) else s
  }

  // ---------------------------------------------------------------- history

  datatype Writer = ByRefresh(operation: nat) | ByLogin | ByLogout

  datatype Write = Write(writer: Writer, before: Option<Credential>, after: Option<Credential>)

  // What each operation read and was answered, and every write of the store.
  datatype Journal = Journal(seen: map<nat, OAuthCredential>, answers: map<nat, OAuthCredential>, writes: seq<Write>)

  function Noted(j: Journal, s: State, l: Label): Journal
    requires Enabled(s, l)
  {
    match l
    case ReadStore(c, ok) =>
      if AfterRead(s.stored, ok).Exchanging?
      then j.(seen := j.seen[s.callers[c].generation := AfterRead(s.stored, ok).expected])
      else j
    case Exchange(c, answer) =>
      if answer.Ok? then j.(answers := j.answers[s.callers[c].generation := answer.value]) else j
    case Swap(c, ok) =>
      if ok && s.stored == Some(OAuth(PhaseOf(s, c).expected)) then
        j.(writes := j.writes + [Write(ByRefresh(s.callers[c].generation), s.stored,
                                       Some(OAuth(PhaseOf(s, c).rotated)))])
      else j
    case Login(credential, ok) =>
      if ok then j.(writes := j.writes + [Write(ByLogin, s.stored, Some(OAuth(credential)))]) else j
    case Logout(ok) => if ok then j.(writes := j.writes + [Write(ByLogout, s.stored, None)]) else j
    case _ => j
  }

  datatype Ran = Ran(state: State, journal: Journal)

  // Any interleaving: a label that is not enabled does nothing.
  function Run(stored: Option<Credential>, labels: seq<Label>): Ran
    decreases |labels|
  {
    if labels == [] then Ran(Initial(stored), Journal(map[], map[], []))
    else
      var before := Run(stored, labels[..|labels| - 1]);
      var l := labels[|labels| - 1];
      if Enabled(before.state, l)
      then Ran(Perform(before.state, l), Noted(before.journal, before.state, l))
      else before
  }

  // ---------------------------------------------------------------- single flight

  ghost predicate SingleFlight(s: State) {
    && (s.slot.Some? ==> s.slot == Some(s.generation) && s.generation in s.operations)
    && (forall g :: g in s.operations ==> 1 <= g <= s.generation)
    && (forall g :: g in s.operations && !s.operations[g].Finished? ==> s.slot == Some(g))
  }

  ghost predicate CallersAgree(s: State) {
    && (forall c :: c in s.callers && !s.callers[c].Dropped? ==> s.callers[c].generation in s.operations)
    && (forall c :: c in s.callers && (s.callers[c].Observed? || s.callers[c].Cleared?) ==>
         s.operations[s.callers[c].generation] == Finished(s.callers[c].seen))
  }

  // Two callers that joined the same generation and have returned.
  predicate SameGeneration(s: State, c: nat, d: nat) {
    && c in s.callers && d in s.callers && s.callers[c].Cleared? && s.callers[d].Cleared?
    && s.callers[c].generation == s.callers[d].generation
  }

  lemma {:induction false} StepKeepsSingleFlight(s: State, l: Label)
    requires SingleFlight(s) && CallersAgree(s) && Enabled(s, l)
    ensures SingleFlight(Perform(s, l)) && CallersAgree(Perform(s, l))
  {
  }

  // In every interleaving, dropped callers included: at most one operation is
  // uncompleted; it is the one in the slot and has the largest generation; and all callers
  // of one generation get the same result.
  lemma {:induction false} EveryRunIsSingleFlight(stored: Option<Credential>, labels: seq<Label>)
    ensures var s := Run(stored, labels).state;
            && SingleFlight(s) && CallersAgree(s)
            && (forall g, h ::
                  g in s.operations && h in s.operations && !s.operations[g].Finished? && !s.operations[h].Finished? ==>
                  g == h)
            && (forall g, h :: g in s.operations && h in s.operations && !s.operations[g].Finished? ==> h <= g)
            && (forall c, d :: SameGeneration(s, c, d) ==> s.callers[c].seen == s.callers[d].seen)
    decreases |labels|
  {
    if labels != [] {
      EveryRunIsSingleFlight(stored, labels[..|labels| - 1]);
      var before := Run(stored, labels[..|labels| - 1]).state;
      if Enabled(before, labels[|labels| - 1]) {
        StepKeepsSingleFlight(before, labels[|labels| - 1]);
      }
    }
  }

  // The slot is emptied only by a caller that waited on the very generation in it, once
  // that one has finished: a late caller never clears a newer one. Nothing replaces it.
  lemma {:induction false} SlotLosesOnlyFinished(s: State, l: Label, g: nat)
    requires SingleFlight(s) && CallersAgree(s) && Enabled(s, l)
    requires s.slot == Some(g) && Perform(s, l).slot != s.slot
    ensures Perform(s, l).slot == None && s.operations[g].Finished?
    ensures l.Clear? && s.callers[l.caller].generation == g
  {
  }

  // Once an operation has a result it keeps it.
  lemma {:induction false} ResultsAreFinal(s: State, l: Label, g: nat)
    requires SingleFlight(s) && Enabled(s, l) && g in s.operations && s.operations[g].Finished?
    ensures g in Perform(s, l).operations && Perform(s, l).operations[g] == s.operations[g]
  {
    assert g != s.generation + 1;
  }

  // A caller that joins while an operation is uncompleted starts no second one.
  lemma {:induction false} JoiningSharesTheOperation(s: State, c: nat, g: nat)
    requires SingleFlight(s) && c !in s.callers && g in s.operations && !s.operations[g].Finished?
    ensures var s' := Perform(s, Join(c));
            s'.callers[c] == Waiting(g) && s'.operations == s.operations && s'.generation == s.generation
  {
  }

  // ---------------------------------------------------------------- no result outlives its callers

  predicate AboutToClear(s: State, c: nat, g: nat) {
    c in s.callers && s.callers[c].Observed? && s.callers[c].generation == g
  }

  // A finished operation in the slot has a caller on its way to clear it.
  ghost predicate Attended(s: State) {
    s.slot.Some? && s.slot.value in s.operations && s.operations[s.slot.value].Finished? ==>
      exists c :: AboutToClear(s, c, s.slot.value)
  }

  lemma {:induction false} StepKeepsAttended(s: State, l: Label)
    requires SingleFlight(s) && CallersAgree(s) && Attended(s) && Enabled(s, l)
    ensures Attended(Perform(s, l))
  {
    var s' := Perform(s, l);
    if s'.slot.Some? && s'.operations[s'.slot.value].Finished? {
      var g := s'.slot.value;
      if s.slot == s'.slot && s.operations[g].Finished? {
        var c :| AboutToClear(s, c, g);
        assert AboutToClear(s', c, g);
      } else {
        assert AboutToClear(s', l.caller, g);
      }
    }
  }

  // In every run a finished operation in the slot has a caller that is about to clear it and
  // can no longer be dropped. So once all callers of a refresh have returned or left, a
  // caller that comes then is given an operation still to be completed, its own or one
  // that was abandoned, and never a result that is already there.
  lemma {:induction false} NoResultOutlivesItsCallers(stored: Option<Credential>, labels: seq<Label>, newcomer: nat)
    ensures var s := Run(stored, labels).state;
            && Attended(s)
            && (forall c, g :: AboutToClear(s, c, g) ==> Enabled(s, Clear(c)) && !Enabled(s, Drop(c)))
            && ((forall c, g :: !AboutToClear(s, c, g)) && newcomer !in s.callers ==>
                 var joined := Perform(s, Join(newcomer));
                 Waits(joined, newcomer) && !PhaseOf(joined, newcomer).Finished?)
  {
    EveryRunIsSingleFlight(stored, labels);
    EveryRunIsAttended(stored, labels);
  }

  lemma {:induction false} EveryRunIsAttended(stored: Option<Credential>, labels: seq<Label>)
    ensures Attended(Run(stored, labels).state)
    decreases |labels|
  {
    if labels != [] {
      var before, l := Run(stored, labels[..|labels| - 1]).state, labels[|labels| - 1];
      EveryRunIsAttended(stored, labels[..|labels| - 1]);
      EveryRunIsSingleFlight(stored, labels[..|labels| - 1]);
      if Enabled(before, l) {
        StepKeepsAttended(before, l);
      }
    }
  }

  // A refresh whose callers all left in the middle is taken up where it stood: the store is
  // not read a second time, and the tokens are not exchanged twice.
  lemma {:induction false} AbandonedRefreshIsResumed(s: State, newcomer: nat, g: nat)
    requires SingleFlight(s) && g in s.operations && !s.operations[g].Finished? && newcomer !in s.callers
    ensures var joined := Perform(s, Join(newcomer));
            Waits(joined, newcomer) && PhaseOf(joined, newcomer) == s.operations[g]
    ensures forall ok :: Enabled(Perform(s, Join(newcomer)), ReadStore(newcomer, ok)) <==> s.operations[g].Unread?
  {
    JoiningSharesTheOperation(s, newcomer, g);
  }

  // ---------------------------------------------------------------- the store

  // The journal explains the phases, and the writes explain the store.
  ghost predicate Explained(stored: Option<Credential>, r: Ran) {
    && (forall g :: g in r.state.operations && r.state.operations[g].Exchanging? ==>
         g in r.journal.seen && r.journal.seen[g] == r.state.operations[g].expected &&
         r.journal.seen[g].refreshToken.Some?)
    && (forall g :: g in r.state.operations && r.state.operations[g].Swapping? ==>
         && g in r.journal.seen && r.journal.seen[g] == r.state.operations[g].expected &&
            r.journal.seen[g].refreshToken.Some?
         && g in r.journal.answers && r.state.operations[g].rotated == Merged(r.journal.answers[g], r.journal.seen[g]))
    && r.state.stored == LastStored(stored, r.journal.writes)
    && Chained(stored, r.journal.writes)
    && (forall w :: w in r.journal.writes ==> Proper(w, r))
  }

  function LastStored(stored: Option<Credential>, writes: seq<Write>): Option<Credential> {
    if writes == [] then stored else writes[|writes| - 1].after
  }

  // Each write starts from what the one before left.
  predicate Chained(stored: Option<Credential>, writes: seq<Write>) {
    writes == [] || (
      && writes[|writes| - 1].before == LastStored(stored, writes[..|writes| - 1])
      && Chained(stored, writes[..|writes| - 1]))
  }

  // A refresh writes the merge of what it read and was answered over exactly what it
  // read, and has succeeded with it; only a logout deletes.
  ghost predicate Proper(w: Write, r: Ran) {
    match w.writer
    case ByRefresh(g) =>
      && g in r.journal.seen && g in r.journal.answers && g in r.state.operations
      && w.before == Some(OAuth(r.journal.seen[g]))
      && w.after == Some(OAuth(Merged(r.journal.answers[g], r.journal.seen[g])))
      && r.journal.seen[g].refreshToken.Some?
      && r.state.operations[g] == Finished(Ok(Merged(r.journal.answers[g], r.journal.seen[g])))
    case ByLogin => w.after.Some?
    case ByLogout => w.after == None
  }

  // What a journal entry says of a finished operation is never overwritten.
  lemma {:induction false} ProperStays(stored: Option<Credential>, r: Ran, l: Label, w: Write)
    requires SingleFlight(r.state) && Enabled(r.state, l) && Proper(w, r)
    ensures Proper(w, Ran(Perform(r.state, l), Noted(r.journal, r.state, l)))
  {
    if w.writer.ByRefresh? {
      ResultsAreFinal(r.state, l, w.writer.operation);
    }
  }

  lemma {:induction false} NewWriteProper(stored: Option<Credential>, r: Ran, l: Label, w: Write)
    requires SingleFlight(r.state) && Enabled(r.state, l) && Explained(stored, r)
    requires w in Noted(r.journal, r.state, l).writes && w !in r.journal.writes
    ensures Proper(w, Ran(Perform(r.state, l), Noted(r.journal, r.state, l)))
  {
  }

  lemma {:induction false} StepChained(stored: Option<Credential>, r: Ran, l: Label)
    requires Enabled(r.state, l) && Explained(stored, r)
    ensures Perform(r.state, l).stored == LastStored(stored, Noted(r.journal, r.state, l).writes)
    ensures Chained(stored, Noted(r.journal, r.state, l).writes)
  {
    var writes := Noted(r.journal, r.state, l).writes;
    if writes != r.journal.writes {
      assert writes[..|writes| - 1] == r.journal.writes;
    }
  }

  lemma {:induction false} StepExplained(stored: Option<Credential>, r: Ran, l: Label)
    requires SingleFlight(r.state) && Enabled(r.state, l) && Explained(stored, r)
    ensures Explained(stored, Ran(Perform(r.state, l), Noted(r.journal, r.state, l)))
  {
    var r' := Ran(Perform(r.state, l), Noted(r.journal, r.state, l));
    StepChained(stored, r, l);
    forall w | w in r'.journal.writes
      ensures Proper(w, r')
    {
      if w in r.journal.writes {
        ProperStays(stored, r, l, w);
      } else {
        NewWriteProper(stored, r, l, w);
      }
    }
  }

  // In every run the store changes only by logins, logouts, and refreshes that found
  // exactly the credential they had read.
  lemma {:induction false} EveryRunIsExplained(stored: Option<Credential>, labels: seq<Label>)
    ensures Explained(stored, Run(stored, labels))
    decreases |labels|
  {
    if labels != [] {
      EveryRunIsExplained(stored, labels[..|labels| - 1]);
      EveryRunIsSingleFlight(stored, labels[..|labels| - 1]);
      var before := Run(stored, labels[..|labels| - 1]);
      if Enabled(before.state, labels[|labels| - 1]) {
        StepExplained(stored, before, labels[|labels| - 1]);
      }
    }
  }

  // A refresh that failed wrote nothing; one that wrote returned what it wrote, with a
  // refresh token; and only a logout leaves nothing stored.
  lemma {:induction false} RefreshNeverClobbers(stored: Option<Credential>, labels: seq<Label>, w: Write)
    requires w in Run(stored, labels).journal.writes
    ensures var r := Run(stored, labels);
            && (w.after == None <==> w.writer.ByLogout?)
            && (w.writer.ByRefresh? ==>
                 && w.writer.operation in r.journal.seen && w.writer.operation in r.state.operations
                 && w.before == Some(OAuth(r.journal.seen[w.writer.operation]))
                 && w.after.value.OAuth? && w.after.value.credential.refreshToken.Some?
                 && r.state.operations[w.writer.operation] == Finished(Ok(w.after.value.credential)))
  {
    EveryRunIsExplained(stored, labels);
  }

  // A refresh that succeeds returns the credential its swap left stored, its own or the
  // one that won the race.
  lemma {:induction false} SuccessIsStored(s: State, c: nat, ok: bool)
    requires Enabled(s, Swap(c, ok))
    ensures var s', g := Perform(s, Swap(c, ok)), s.callers[c].generation;
            && s'.callers[c] == Observed(g, s'.operations[g].outcome)
            && s'.operations[g].Finished?
            && (s'.operations[g].outcome.Ok? ==> s'.stored == Some(OAuth(s'.operations[g].outcome.value)))
            && (s'.operations[g].outcome.Err? ==> s'.stored == s.stored)
            && (s'.stored != s.stored ==> s.stored == Some(OAuth(s.operations[g].expected)))
  {
  }
}
