/**
 * The client's session as a value, and each operation as a function on it.
 * `Client.ClientStub` is proved to follow these functions step by step.
 *
 * A suspension on `Task.sleep` either resumes normally or throws a
 * cancellation error; the only error any operation can throw is that one.
 */
module Session {
  import opened Entities
  import opened Placeholder

  /** How a suspension, and so a throwing operation, ends. */
  datatype Outcome = Completed | Cancelled

  /**
   * `isLoggedIn`, `fetchCount` and the contents of `records`, together with
   * `countHistory`: every value `fetchCount` has taken so far, in order.
   */
  datatype State = State(isLoggedIn: bool, fetchCount: int, records: seq<RecordContent>, countHistory: seq<int>)

  /** The state after an operation and how the operation ended. */
  datatype Step = Step(state: State, outcome: Outcome)

  /** A new client: logged out, nothing in flight, no records. */
  const Initial := State(false, 0, [], [])

  /** `fetchCount` has never been negative. */
  predicate NonNegative(s: State) {
    s.fetchCount >= 0 && forall k :: 0 <= k < |s.countHistory| ==> s.countHistory[k] >= 0
  }

  /** `startFetch()`: one more operation in flight. */
  function StartFetch(s: State): State {
    s.(fetchCount := s.fetchCount + 1, countHistory := s.countHistory + [s.fetchCount + 1])
  }

  /** `endFetch()`: one operation fewer in flight. */
  function EndFetch(s: State): State {
    s.(fetchCount := s.fetchCount - 1, countHistory := s.countHistory + [s.fetchCount - 1])
  }

  /**
   * `fetchDataSets()`: generate the placeholder records, sleep, and on
   * resuming replace `records` with them; the deferred `endFetch` runs on
   * both paths.
   */
  function Fetch(s: State, draws: seq<Draw>, sleep: Outcome): Step
    requires ValidDraws(draws)
  {
    var started := StartFetch(s);
    var fetched := PlaceholderRecords(draws);
    match sleep
    case Completed => Step(EndFetch(started.(records := fetched)), Completed)
    case Cancelled => Step(EndFetch(started), Cancelled)
  }

  /**
   * `login()`: sleep, set `isLoggedIn`, then run a nested fetch; the
   * deferred `endFetch` runs after the nested fetch has ended, or straight
   * after the sleep if that threw.
   */
  function Login(s: State, loginSleep: Outcome, fetchSleep: Outcome, draws: seq<Draw>): Step
    requires ValidDraws(draws)
  {
    var started := StartFetch(s);
    match loginSleep
    case Cancelled => Step(EndFetch(started), Cancelled)
    case Completed =>
      var nested := Fetch(started.(isLoggedIn := true), draws, fetchSleep);
      Step(EndFetch(nested.state), nested.outcome)
  }

  /** `logout()`: log out and drop every record; nothing is in flight. */
  function Logout(s: State): State {
    s.(isLoggedIn := false, records := [])
  }

  /**
   * A fetch brackets its work: `fetchCount` goes up by one and back, on
   * either outcome, and login state is untouched. If it completes, `records`
   * is exactly the generated data, whatever it held before; if the sleep
   * throws, `records` is as it was.
   */
  lemma FetchBehaviour(s: State, draws: seq<Draw>, sleep: Outcome)
    requires ValidDraws(draws)
    ensures Fetch(s, draws, sleep).outcome == sleep
    ensures Fetch(s, draws, sleep).state.fetchCount == s.fetchCount
    ensures Fetch(s, draws, sleep).state.countHistory == s.countHistory + [s.fetchCount + 1, s.fetchCount]
    ensures Fetch(s, draws, sleep).state.isLoggedIn == s.isLoggedIn
    ensures Fetch(s, draws, sleep).state.records ==
      (if sleep == Completed then PlaceholderRecords(draws) else s.records)
  {
  }

  /** After a completed fetch there are exactly four records, "Record 1" to "Record 4". */
  lemma FetchCompletedRecords(s: State, draws: seq<Draw>)
    requires ValidDraws(draws)
    ensures |Fetch(s, draws, Completed).state.records| == 4
    ensures forall i :: 0 <= i < 4 ==> Fetch(s, draws, Completed).state.records[i].name == RecordName(i + 1)
  {
    PlaceholderShape(draws);
  }

  /**
   * A login, with its nested fetch, brackets twice: `fetchCount` rises to
   * one and then two above its start, falls back, and ends where it started,
   * whether the login completes or throws.
   */
  lemma LoginCounts(s: State, loginSleep: Outcome, fetchSleep: Outcome, draws: seq<Draw>)
    requires ValidDraws(draws)
    ensures Login(s, loginSleep, fetchSleep, draws).state.fetchCount == s.fetchCount
    ensures Login(s, loginSleep, fetchSleep, draws).state.countHistory == s.countHistory +
      (if loginSleep == Completed then [s.fetchCount + 1, s.fetchCount + 2, s.fetchCount + 1, s.fetchCount]
       else [s.fetchCount + 1, s.fetchCount])
  {
  }

  /**
   * How a login ends: it completes exactly when both sleeps do, and then
   * the client is logged in with the generated records. If the login's own
   * sleep throws, nothing but the history changes; if only the nested
   * fetch's sleep throws, the client is logged in with its old records.
   */
  lemma LoginBehaviour(s: State, loginSleep: Outcome, fetchSleep: Outcome, draws: seq<Draw>)
    requires ValidDraws(draws)
    ensures Login(s, loginSleep, fetchSleep, draws).outcome == Completed <==>
      loginSleep == Completed && fetchSleep == Completed
    ensures Login(s, loginSleep, fetchSleep, draws).state.isLoggedIn == (loginSleep == Completed || s.isLoggedIn)
    ensures Login(s, loginSleep, fetchSleep, draws).state.records ==
      (if loginSleep == Completed && fetchSleep == Completed then PlaceholderRecords(draws) else s.records)
  {
  }

  /** Right after a login that completes, the client is logged in and holds four records. */
  lemma LoginCompleted(s: State, draws: seq<Draw>)
    requires ValidDraws(draws)
    ensures Login(s, Completed, Completed, draws).outcome == Completed
    ensures Login(s, Completed, Completed, draws).state.isLoggedIn
    ensures |Login(s, Completed, Completed, draws).state.records| == 4
  {
    PlaceholderShape(draws);
  }

  /** `logout()` logs out, empties `records`, leaves the counter alone, and is idempotent. */
  lemma LogoutBehaviour(s: State)
    ensures !Logout(s).isLoggedIn && Logout(s).records == []
    ensures Logout(s).fetchCount == s.fetchCount && Logout(s).countHistory == s.countHistory
    ensures Logout(Logout(s)) == Logout(s)
  {
  }

  /** No operation makes `fetchCount` negative, at any point. */
  lemma NonNegativePreserved(s: State, loginSleep: Outcome, fetchSleep: Outcome, draws: seq<Draw>)
    requires ValidDraws(draws)
    requires NonNegative(s)
    ensures NonNegative(Fetch(s, draws, fetchSleep).state)
    ensures NonNegative(Login(s, loginSleep, fetchSleep, draws).state)
    ensures NonNegative(Logout(s))
  {
    FetchBehaviour(s, draws, fetchSleep);
    LoginCounts(s, loginSleep, fetchSleep, draws);
  }

  /**
   * From a new client, a login that completes passes through
   * `fetchCount` 1, 2, 1, 0 and leaves the client logged in with four
   * records; a logout then returns it to logged out with no records.
   */
  lemma LoginLogoutScenario(draws: seq<Draw>)
    requires ValidDraws(draws)
    ensures Login(Initial, Completed, Completed, draws).state ==
      State(true, 0, PlaceholderRecords(draws), [1, 2, 1, 0])
    ensures |Login(Initial, Completed, Completed, draws).state.records| == 4
    ensures Logout(Login(Initial, Completed, Completed, draws).state) == State(false, 0, [], [1, 2, 1, 0])
  {
    PlaceholderShape(draws);
  }
}
