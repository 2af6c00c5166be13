/** The browser's session keeping: where the tokens are stored, and the one refresh that everybody waits for.
    The script runs in turns; between turns anything else may run, within a turn nothing does. */
module AuthClient {
  import opened Options
  import opened Sequences

  /** localStorage or sessionStorage, as far as these keys are concerned. */
  datatype Storage = Storage(accessToken: Option<string>, userId: Option<string>)

  const NOTHING := Storage(None, None)

  /** A refresh under way: the call that began it, and what it waits for. */
  datatype Phase = AwaitResponse | AwaitText | AwaitJson

  datatype Flight = Flight(call: nat, phase: Phase)

  /** `waiting` are the calls whose retry callbacks are queued; `retried` are the calls whose requests have been sent
      again, in order. Each call of the refresh function has a number of its own. */
  datatype Client = Client(
    isRefreshing: bool,
    waiting: seq<nat>,
    local: Storage,
    session: Storage,
    flights: seq<Flight>,
    retried: seq<nat>)

  /** How an awaited promise settles. */
  datatype Answer = NetworkError | NotOk | OkResponse | TextRead | JsonRead(accessToken: string, userId: string)

  /** One turn: a request came back with 401; a promise of flight `k` settled; somebody logged in; somebody logged
      out. */
  datatype Turn =
    | Unauthorized(call: nat)
    | Settled(k: nat, answer: Answer)
    | LoggedIn(accessToken: string, userId: string, rememberMe: bool)
    | LoggedOut

  const INITIAL := Client(false, [], NOTHING, NOTHING, [], [])

  /** JavaScript's notion of a value that counts as true. */
  predicate Truthy(s: Option<string>) {
    s.Some? && s.value != ""
  }

  function Saved(c: Client, accessToken: string, userId: string, rememberMe: bool): Client {
    var kept := Storage(Some(accessToken), Some(userId));
    if rememberMe then c.(local := kept, session := NOTHING) else c.(local := NOTHING, session := kept)
  }

  function Cleared(c: Client): Client {
    c.(local := NOTHING, session := NOTHING)
  }

  function WithoutFlight(fs: seq<Flight>, k: nat): seq<Flight>
    requires k < |fs|
  {
    fs[..k] + fs[k + 1..]
  }

  /** The answers a flight can get: an error at any time, and otherwise what it waits for. */
  predicate Fits(phase: Phase, a: Answer) {
    match a
    case NetworkError => true
    case NotOk => phase == AwaitResponse
    case OkResponse => phase == AwaitResponse
    case TextRead => phase == AwaitText
    case JsonRead(_, _) => phase == AwaitJson
  }

  predicate Possible(c: Client, turn: Turn) {
    turn.Settled? ==> turn.k < |c.flights| && Fits(c.flights[turn.k].phase, turn.answer)
  }

  predicate IsSuccess(turn: Turn) {
    turn.Settled? && turn.answer.JsonRead?
  }

  function Step(c: Client, turn: Turn): Client
    requires Possible(c, turn)
  {
    match turn
    case Unauthorized(call) =>
      if c.isRefreshing then c.(waiting := c.waiting + [call])
      else c.(isRefreshing := true, flights := c.flights + [Flight(call, AwaitResponse)])
    case LoggedIn(token, user, rememberMe) => Saved(c, token, user, rememberMe)
    case LoggedOut => Cleared(c)
    case Settled(k, a) =>
      var f := c.flights[k];
      match a
      case NotOk => c.(flights := c.flights[k := f.(phase := AwaitText)])
      case OkResponse => c.(flights := c.flights[k := f.(phase := AwaitJson)])
      case JsonRead(token, user) =>
        Saved(c, token, user, Truthy(c.local.accessToken)).(
          isRefreshing := false, waiting := [], flights := WithoutFlight(c.flights, k),
          retried := c.retried + c.waiting + [f.call])
      case NetworkError => Cleared(c).(isRefreshing := false, flights := WithoutFlight(c.flights, k))
      case TextRead => Cleared(c).(isRefreshing := false, flights := WithoutFlight(c.flights, k))
  }

  // ---------- what every turn keeps ----------

  /** At most one refresh is under way, and the flag says whether there is one. */
  ghost predicate SingleFlight(c: Client) {
    |c.flights| == if c.isRefreshing then 1 else 0
  }

  ghost predicate OnePlace(c: Client) {
    c.local == NOTHING || c.session == NOTHING
  }

  /** The calls the client knows of: retried, waiting, or refreshing. */
  function Calls(c: Client): seq<nat> {
    c.retried + c.waiting + (if c.flights == [] then [] else [c.flights[0].call])
  }

  lemma StepKeepsShape(c: Client, turn: Turn)
    requires SingleFlight(c) && OnePlace(c) && Possible(c, turn)
    ensures SingleFlight(Step(c, turn)) && OnePlace(Step(c, turn))
  {
  }

  /** A turn adds at most its own call to those known; a failed refresh forgets only its own. */
  lemma StepKeepsCalls(c: Client, turn: Turn)
    requires SingleFlight(c) && Possible(c, turn) && Distinct(Calls(c))
    requires turn.Unauthorized? ==> turn.call !in Calls(c)
    ensures Distinct(Calls(Step(c, turn)))
    ensures forall x :: x in Calls(Step(c, turn)) ==> x in Calls(c) || (turn.Unauthorized? && x == turn.call)
  {
    var d := Step(c, turn);
    match turn {
      case Unauthorized(call) =>
        if c.isRefreshing {
          var f := c.flights[0].call;
          MoveLast(c.retried + c.waiting, f, call);
          assert Calls(d) == (c.retried + c.waiting) + [call] + [f];
        } else {
          assert Calls(c) == c.retried + c.waiting;
          assert Calls(d) == Calls(c) + [call];
        }
      case Settled(k, a) =>
        if a.JsonRead? {
          assert Calls(d) == Calls(c);
        } else if a.NetworkError? || a.TextRead? {
          assert Calls(d) == c.retried + c.waiting;
          assert Calls(c) == Calls(d) + [c.flights[0].call];
          DistinctPrefix(Calls(d), [c.flights[0].call]);
        } else {
          assert Calls(d) == Calls(c);
        }
      case _ => assert Calls(d) == Calls(c);
    }
  }

  lemma MoveLast(xs: seq<nat>, x: nat, y: nat)
    requires Distinct(xs + [x]) && y !in xs + [x]
    ensures Distinct(xs + [y] + [x])
  {
    var all := xs + [y] + [x];
    assert forall i :: 0 <= i < |xs| ==> (xs + [x])[i] == xs[i];
    assert (xs + [x])[|xs|] == x;
    forall i, j | 0 <= i < j < |all| ensures all[i] != all[j] {
      if i < |xs| { assert xs[i] in xs + [x]; }
    }
  }

  // ---------- whole runs ----------

  ghost predicate Follows(turns: seq<Turn>, cs: seq<Client>, i: nat)
    requires i < |turns| && |cs| == |turns| + 1
  {
    && Possible(cs[i], turns[i]) && cs[i + 1] == Step(cs[i], turns[i])
    && (turns[i].Unauthorized? ==> forall j :: 0 <= j < i && turns[j].Unauthorized? ==> turns[j].call != turns[i].call)
  }

  /** Any interleaving of turns from a fresh page, in which each call has its own number. */
  ghost predicate Run(turns: seq<Turn>, cs: seq<Client>) {
    && |cs| == |turns| + 1 && cs[0] == INITIAL
    && forall i {:trigger Follows(turns, cs, i)} :: 0 <= i < |turns| ==> Follows(turns, cs, i)
  }

  ghost predicate CalledBefore(turns: seq<Turn>, n: nat, call: nat)
    requires n <= |turns|
  {
    exists i :: 0 <= i < n && turns[i] == Unauthorized(call)
  }

  lemma NewCallIsNew(turns: seq<Turn>, cs: seq<Client>, i: nat)
    requires i < |turns| && |cs| == |turns| + 1 && Follows(turns, cs, i)
    ensures turns[i].Unauthorized? ==> !CalledBefore(turns, i, turns[i].call)
  {
  }

  /** Single flight, over all interleavings: never two refreshes at once, no call retried twice or both waiting and
      retried, and tokens in at most one storage. */
  lemma {:induction false} RunIsSingleFlight(turns: seq<Turn>, cs: seq<Client>, n: nat)
    requires Run(turns, cs) && n <= |turns|
    ensures SingleFlight(cs[n]) && OnePlace(cs[n])
    ensures Distinct(Calls(cs[n])) && Distinct(cs[n].retried)
    ensures forall x :: x in Calls(cs[n]) ==> CalledBefore(turns, n, x)
  {
    if n > 0 {
      RunIsSingleFlight(turns, cs, n - 1);
      assert Follows(turns, cs, n - 1);
      var turn := turns[n - 1];
      NewCallIsNew(turns, cs, n - 1);
      StepKeepsShape(cs[n - 1], turn);
      StepKeepsCalls(cs[n - 1], turn);
      forall x | x in Calls(cs[n]) ensures CalledBefore(turns, n, x) {
        if x in Calls(cs[n - 1]) {
          var i :| 0 <= i < n - 1 && turns[i] == Unauthorized(x);
          assert turns[i] == Unauthorized(x);
        } else {
          assert turns[n - 1] == Unauthorized(x);
        }
      }
      DistinctPrefix(cs[n].retried, cs[n].waiting + (if cs[n].flights == [] then [] else [cs[n].flights[0].call]));
      assert Calls(cs[n]) ==
             cs[n].retried + (cs[n].waiting + (if cs[n].flights == [] then [] else [cs[n].flights[0].call]));
    }
  }

  lemma DistinctPrefix(xs: seq<nat>, ys: seq<nat>)
    ensures Distinct(xs + ys) ==> Distinct(xs)
  {
    if Distinct(xs + ys) {
      forall i, j | 0 <= i < j < |xs| ensures xs[i] != xs[j] {
        assert (xs + ys)[i] != (xs + ys)[j];
      }
    }
  }

  /** A successful refresh retries everybody who waited, in order, then the call that began it, and nobody waits on. */
  lemma SuccessRunsAllWaiters(c: Client, turn: Turn)
    requires SingleFlight(c) && Possible(c, turn) && IsSuccess(turn)
    ensures var d := Step(c, turn);
      && d.waiting == [] && !d.isRefreshing && d.flights == []
      && d.retried == c.retried + c.waiting + [c.flights[0].call]
  {
  }

  ghost predicate SucceedsBetween(turns: seq<Turn>, i: nat, n: nat)
    requires i <= n <= |turns|
  {
    exists k :: i <= k < n && IsSuccess(turns[k])
  }

  /** A call that queued itself has been retried by turn `n` if and only if a refresh has succeeded since. A failed
      refresh does not empty the queue: those who wait go on waiting, for a later refresh to succeed. */
  lemma {:induction false} WaiterRunsIffSuccess(turns: seq<Turn>, cs: seq<Client>, i: nat, n: nat)
    requires Run(turns, cs) && i < n <= |turns|
    requires turns[i].Unauthorized? && cs[i].isRefreshing
    ensures turns[i].call in cs[n].retried <==> SucceedsBetween(turns, i + 1, n)
    ensures turns[i].call in cs[n].waiting <==> !SucceedsBetween(turns, i + 1, n)
  {
    var w := turns[i].call;
    assert Follows(turns, cs, n - 1);
    RunIsSingleFlight(turns, cs, n);
    if n == i + 1 {
      assert w in cs[n].waiting;
      InBoth(cs[n].retried, cs[n].waiting, if cs[n].flights == [] then [] else [cs[n].flights[0].call], w);
    } else {
      WaiterRunsIffSuccess(turns, cs, i, n - 1);
      RunIsSingleFlight(turns, cs, n - 1);
      var turn := turns[n - 1];
      assert SucceedsBetween(turns, i + 1, n) <==> SucceedsBetween(turns, i + 1, n - 1) || IsSuccess(turn) by {
        if SucceedsBetween(turns, i + 1, n - 1) {
          var k :| i + 1 <= k < n - 1 && IsSuccess(turns[k]);
          assert IsSuccess(turns[k]);
        }
      }
      if IsSuccess(turn) {
        SuccessRunsAllWaiters(cs[n - 1], turn);
      } else {
        assert turn.Unauthorized? ==> turn.call != w;
      }
    }
  }

  /** Such a call can be left waiting with nothing under way: the refresh it waits for fails. */
  lemma WaiterCanBeLeft() returns (turns: seq<Turn>, cs: seq<Client>)
    ensures Run(turns, cs) && |turns| == 3 && turns[1] == Unauthorized(1) && cs[1].isRefreshing
    ensures var last := cs[|turns|];
      last.waiting == [1] && last.retried == [] && !last.isRefreshing && last.flights == []
  {
    turns := [Unauthorized(0), Unauthorized(1), Settled(0, NetworkError)];
    var c1 := Step(INITIAL, turns[0]);
    var c2 := Step(c1, turns[1]);
    cs := [INITIAL, c1, c2, Step(c2, turns[2])];
    assert Follows(turns, cs, 0) && Follows(turns, cs, 1) && Follows(turns, cs, 2);
  }

  lemma InBoth(xs: seq<nat>, ys: seq<nat>, zs: seq<nat>, x: nat)
    requires Distinct(xs + ys + zs) && x in ys
    ensures x !in xs
  {
    var j :| 0 <= j < |ys| && ys[j] == x;
    var all := xs + ys + zs;
    assert all[|xs| + j] == x;
    forall i | 0 <= i < |xs| ensures xs[i] != x {
      assert all[i] == xs[i];
    }
  }

  /** A refresh puts the new token where the old one was. */
  lemma RefreshKeepsThePlace(c: Client, turn: Turn)
    requires OnePlace(c) && Possible(c, turn) && IsSuccess(turn)
    ensures Truthy(c.local.accessToken) ==> Step(c, turn).local.accessToken == Some(turn.answer.accessToken)
    ensures Truthy(c.session.accessToken) ==> Step(c, turn).session.accessToken == Some(turn.answer.accessToken)
  {
  }

  // ---------- the script ----------

  class Script {
    var isRefreshing: bool
    var refreshSubscribers: seq<nat>
    var localStorage: Storage
    var sessionStorage: Storage
    ghost var flights: seq<Flight>
    ghost var retried: seq<nat>

    ghost function View(): Client
      reads this
    {
      Client(isRefreshing, refreshSubscribers, localStorage, sessionStorage, flights, retried)
    }

    constructor ()
      ensures View() == INITIAL
    {
      isRefreshing, refreshSubscribers := false, [];
      localStorage, sessionStorage := NOTHING, NOTHING;
      flights, retried := [], [];
    }

    method SaveTokens(accessToken: string, userId: string, rememberMe: bool)
      modifies this`localStorage, this`sessionStorage
      ensures View() == Step(old(View()), LoggedIn(accessToken, userId, rememberMe))
    {
      if rememberMe {
        sessionStorage := NOTHING;
        localStorage := Storage(Some(accessToken), Some(userId));
      } else {
        localStorage := NOTHING;
        sessionStorage := Storage(Some(accessToken), Some(userId));
      }
    }

    /** The local storage first, then the other. */
    method GetTokens() returns (accessToken: Option<string>, userId: Option<string>)
      ensures Truthy(localStorage.accessToken) ==>
                accessToken == localStorage.accessToken && userId == localStorage.userId
      ensures !Truthy(localStorage.accessToken) ==>
                accessToken == sessionStorage.accessToken && userId == sessionStorage.userId
      ensures OnePlace(View()) && Truthy(sessionStorage.accessToken) ==> accessToken == sessionStorage.accessToken
    {
      accessToken, userId := localStorage.accessToken, localStorage.userId;
      if !Truthy(accessToken) {
        accessToken, userId := sessionStorage.accessToken, sessionStorage.userId;
      }
    }

    method ClearTokens()
      modifies this`localStorage, this`sessionStorage
      ensures View() == Step(old(View()), LoggedOut)
    {
      localStorage, sessionStorage := NOTHING, NOTHING;
    }

    /** The first turn of the refresh function; `send` tells whether it asks the server. */
    method RefreshTokenAndRetry(call: nat) returns (send: bool)
      modifies this`isRefreshing, this`refreshSubscribers, this`flights
      ensures View() == Step(old(View()), Unauthorized(call))
      ensures send == !old(isRefreshing)
    {
      if isRefreshing {
        refreshSubscribers := refreshSubscribers + [call];
        return false;
      }
      isRefreshing := true;
      flights := flights + [Flight(call, AwaitResponse)];
      return true;
    }

    /** A later turn of the refresh function that `call` began: what it awaited has settled. */
    method Resume(call: nat, answer: Answer, ghost k: nat)
      requires Possible(View(), Settled(k, answer)) && flights[k].call == call
      modifies this
      ensures View() == Step(old(View()), Settled(k, answer))
    {
      match answer {
        case NotOk => flights := flights[k := flights[k].(phase := AwaitText)];
        case OkResponse => flights := flights[k := flights[k].(phase := AwaitJson)];
        case JsonRead(accessToken, userId) =>
          var rememberMe := Truthy(localStorage.accessToken);
          SaveTokens(accessToken, userId, rememberMe);
          for i := 0 to |refreshSubscribers|
            invariant retried == old(retried) + refreshSubscribers[..i]
            invariant View() == Saved(old(View()), accessToken, userId, rememberMe).(retried := retried)
          {
            retried := retried + [refreshSubscribers[i]];
          }
          refreshSubscribers := [];
          retried := retried + [call];
          isRefreshing := false;
          flights := WithoutFlight(flights, k);
        case NetworkError =>
          ClearTokens();
          isRefreshing := false;
          flights := WithoutFlight(flights, k);
        case TextRead =>
          ClearTokens();
          isRefreshing := false;
          flights := WithoutFlight(flights, k);
      }
    }
  }
}
