/** What the browser has stored, told from the turns: the last login, refresh or clearing decides. */
module TokenStorage {
  import opened Options
  import opened AuthClient

  /** Both storages emptied: a logout, or a refresh that failed, by an error on the way or by the server's refusal. */
  predicate Empties(turn: Turn) {
    turn.LoggedOut? || (turn.Settled? && (turn.answer.NetworkError? || turn.answer.TextRead?))
  }

  predicate Refreshes(turn: Turn) {
    turn.Settled? && turn.answer.JsonRead?
  }

  predicate TouchesTokens(turn: Turn) {
    Empties(turn) || turn.LoggedIn? || Refreshes(turn)
  }

  /** Turn `i` is the last of the first `n` to touch the tokens. */
  ghost predicate LastTouch(turns: seq<Turn>, i: nat, n: nat) {
    i < n <= |turns| && TouchesTokens(turns[i]) && forall j :: i < j < n ==> !TouchesTokens(turns[j])
  }

  /** Some login up to turn `n` asked to be remembered, nothing has emptied the storages or logged in since, and neither
      it nor any refresh since brought an empty token. */
  ghost predicate Remembered(turns: seq<Turn>, n: nat)
    requires n <= |turns|
  {
    exists i :: 0 <= i < n && RemembersFrom(turns, i, n)
  }

  ghost predicate RemembersFrom(turns: seq<Turn>, i: nat, n: nat)
    requires i < n <= |turns|
  {
    && turns[i].LoggedIn? && turns[i].rememberMe && turns[i].accessToken != ""
    && (forall j :: i < j < n ==> !Empties(turns[j]) && !turns[j].LoggedIn?)
    && (forall j :: i < j < n && Refreshes(turns[j]) ==> turns[j].answer.accessToken != "")
  }

  /** A token that counts stands in the local storage if and only if a login is being remembered. */
  lemma {:induction false} LocalIffRemembered(turns: seq<Turn>, cs: seq<Client>, n: nat)
    requires Run(turns, cs) && n <= |turns|
    ensures cs[n].local.accessToken.Some? && cs[n].local.accessToken != Some("") <==> Remembered(turns, n)
  {
    if n > 0 {
      LocalIffRemembered(turns, cs, n - 1);
      assert Follows(turns, cs, n - 1);
      if Remembered(turns, n - 1) && !Empties(turns[n - 1]) && !turns[n - 1].LoggedIn? &&
         (Refreshes(turns[n - 1]) ==> turns[n - 1].answer.accessToken != "") {
        var i :| 0 <= i < n - 1 && RemembersFrom(turns, i, n - 1);
        assert RemembersFrom(turns, i, n);
      }
      if turns[n - 1].LoggedIn? && turns[n - 1].rememberMe && turns[n - 1].accessToken != "" {
        assert RemembersFrom(turns, n - 1, n);
      }
      if i :| 0 <= i < n && RemembersFrom(turns, i, n) {
        if i < n - 1 { assert RemembersFrom(turns, i, n - 1); }
      }
    }
  }

  /** The tokens in `kept`, and nothing in `other`. */
  predicate Only(kept: Storage, other: Storage, accessToken: string, userId: string) {
    kept.accessToken == Some(accessToken) && kept.userId == Some(userId) && Nothing(other)
  }

  predicate Nothing(s: Storage) {
    s.accessToken == None && s.userId == None
  }

  /** What is stored after any turns. A logout or a failed refresh leaves nothing; a login leaves its tokens, in the
      local storage if it is to be remembered and in the session's otherwise; a refresh leaves the new tokens, in the
      local storage if and only if a login was being remembered. Before the first of these nothing is stored. */
  lemma {:induction false} StoredTokensAre(turns: seq<Turn>, cs: seq<Client>, i: nat, n: nat)
    requires Run(turns, cs) && n <= |turns|
    ensures (forall j :: 0 <= j < n ==> !TouchesTokens(turns[j])) ==> Nothing(cs[n].local) && Nothing(cs[n].session)
    ensures LastTouch(turns, i, n) && Empties(turns[i]) ==> Nothing(cs[n].local) && Nothing(cs[n].session)
    ensures LastTouch(turns, i, n) && turns[i].LoggedIn? ==>
              if turns[i].rememberMe
              then Only(cs[n].local, cs[n].session, turns[i].accessToken, turns[i].userId)
              else Only(cs[n].session, cs[n].local, turns[i].accessToken, turns[i].userId)
    ensures LastTouch(turns, i, n) && Refreshes(turns[i]) ==>
              if Remembered(turns, i)
              then Only(cs[n].local, cs[n].session, turns[i].answer.accessToken, turns[i].answer.userId)
              else Only(cs[n].session, cs[n].local, turns[i].answer.accessToken, turns[i].answer.userId)
  {
    hide Remembered;
    if n > 0 {
      assert Follows(turns, cs, n - 1);
      if TouchesTokens(turns[n - 1]) {
        LocalIffRemembered(turns, cs, n - 1);
      } else {
        StoredTokensAre(turns, cs, i, n - 1);
      }
    }
  }

  // ---------- the refresh ----------

  /** A refresh ends: with new tokens, or without. */
  predicate EndsRefresh(turn: Turn) {
    turn.Settled? && (turn.answer.JsonRead? || turn.answer.NetworkError? || turn.answer.TextRead?)
  }

  /** A refresh is under way if and only if some call has come back unauthorized and no refresh has ended since: the
      next such call then waits, and otherwise asks the server. */
  lemma {:induction false} RefreshingIff(turns: seq<Turn>, cs: seq<Client>, n: nat)
    requires Run(turns, cs) && n <= |turns|
    ensures cs[n].isRefreshing <==>
            exists i :: 0 <= i < n && turns[i].Unauthorized? && forall j :: i < j < n ==> !EndsRefresh(turns[j])
  {
    if n > 0 {
      RefreshingIff(turns, cs, n - 1);
      assert Follows(turns, cs, n - 1);
    }
  }

  /** The last promise of the refresh to settle before turn `n` was answered with `a`. */
  ghost predicate LastAnswer(turns: seq<Turn>, a: Answer, n: nat)
    requires n <= |turns|
  {
    exists i :: 0 <= i < n && turns[i].Settled? && turns[i].answer == a &&
                forall j :: i < j < n ==> !turns[j].Settled?
  }

  /** A refresh brings tokens only after a good answer, and the text of a refusal only after one that was not. */
  lemma {:induction false} AnswersInOrder(turns: seq<Turn>, cs: seq<Client>, n: nat)
    requires Run(turns, cs) && n < |turns| && turns[n].Settled?
    ensures turns[n].answer.JsonRead? ==> LastAnswer(turns, OkResponse, n)
    ensures turns[n].answer.TextRead? ==> LastAnswer(turns, NotOk, n)
  {
    assert Follows(turns, cs, n);
    PhaseIs(turns, cs, n);
    RunIsSingleFlight(turns, cs, n);
  }

  lemma LastAnswerLonger(turns: seq<Turn>, a: Answer, n: nat)
    requires n < |turns|
    ensures !turns[n].Settled? && LastAnswer(turns, a, n) ==> LastAnswer(turns, a, n + 1)
    ensures turns[n].Settled? && turns[n].answer == a ==> LastAnswer(turns, a, n + 1)
  {
  }

  lemma {:induction false} PhaseIs(turns: seq<Turn>, cs: seq<Client>, n: nat)
    requires Run(turns, cs) && n <= |turns|
    ensures cs[n].flights != [] && cs[n].flights[0].phase.AwaitJson? ==> LastAnswer(turns, OkResponse, n)
    ensures cs[n].flights != [] && cs[n].flights[0].phase.AwaitText? ==> LastAnswer(turns, NotOk, n)
  {
    hide LastAnswer;
    if n > 0 {
      PhaseIs(turns, cs, n - 1);
      assert Follows(turns, cs, n - 1);
      RunIsSingleFlight(turns, cs, n - 1);
      LastAnswerLonger(turns, OkResponse, n - 1);
      LastAnswerLonger(turns, NotOk, n - 1);
    }
  }
}
