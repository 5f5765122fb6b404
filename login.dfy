/**
 * The login page (src/pages/Login.jsx): the credential lookup, the session it stores, the prompt loop
 * that retries after a failed attempt, and what happens when the page is entered; and the logout
 * transition (src/components/LogoutModal.jsx) that feeds it.
 */
module Login {
  import opened Wrappers
  import Seqs
  import opened Storage

  /** An account matches when both its username and its password are exactly the ones typed. */
  predicate Matches(u: User, username: string, password: string) {
    u.username == username && u.password == password
  }

  /** The `users.find` of a login attempt: the first account that matches. */
  function FindUser(users: seq<User>, username: string, password: string): (r: Option<User>)
    ensures r.Some? ==> r.value in users && Matches(r.value, username, password)
    ensures r.None? <==> forall u :: u in users ==> !Matches(u, username, password)
    ensures r.Some? ==>
      exists i :: 0 <= i < |users| && users[i] == r.value && (forall j :: 0 <= j < i ==> !Matches(users[j], username, password))
  {
    Seqs.Find(users, (u: User) => Matches(u, username, password))
  }

  /** The session written on success: the account's id, username, name and role. */
  function SessionOf(u: User): (s: Session)
    ensures s.id == u.id && s.username == u.username && s.name == u.name && s.role == u.role
  {
    Session(u.id, u.username, u.name, u.role)
  }

  /** The session does not depend on the password, which is never stored in it. */
  lemma SessionForgetsPassword(u: User, p: string)
    ensures SessionOf(u.(password := p)) == SessionOf(u)
    ensures SessionOf(u).id == u.id && SessionOf(u).username == u.username
    ensures SessionOf(u).name == u.name && SessionOf(u).role == u.role
  {
  }

  /** The accounts a login attempt sees: a missing `receptoUsers` document reads as no accounts. */
  function UsersOf(doc: Option<seq<User>>): (r: seq<User>)
    ensures doc.None? ==> r == []
    ensures doc.Some? ==> r == doc.value
  {
    doc.GetOr([])
  }

  /** What a `prompt` returns: the text typed, or `null` when the dialog is cancelled. */
  datatype Reply = Typed(text: string) | Cancelled

  /** How the prompt loop ends: cancelled, signed in, or still prompting when the replies run out. */
  datatype Outcome = Aborted | SignedIn(session: Session) | Prompting

  /** Round `k` (replies `2k` and `2k + 1`) got a typed username and a typed password. */
  predicate RoundTyped(replies: seq<Reply>, k: nat) {
    2 * k + 1 < |replies| && replies[2 * k].Typed? && replies[2 * k + 1].Typed?
  }

  /** The account round `k` finds with what was typed. */
  function RoundUser(users: seq<User>, replies: seq<Reply>, k: nat): Option<User>
    requires RoundTyped(replies, k)
  {
    FindUser(users, replies[2 * k].text, replies[2 * k + 1].text)
  }

  /** Rounds before `k` were typed and failed, and round `k` signs in with `session`. */
  predicate SignsInAt(users: seq<User>, replies: seq<Reply>, k: nat, session: Session) {
    RoundTyped(replies, k) && RoundUser(users, replies, k).Some?
    && session == SessionOf(RoundUser(users, replies, k).value)
    && forall j: nat :: j < k ==> RoundTyped(replies, j) && RoundUser(users, replies, j).None?
  }

  /**
   * `showLoginPrompt` run over a sequence of prompt replies, two per round (username, password).
   * A cancelled prompt aborts; a failed round re-prompts with the remaining replies.
   */
  function PromptLoop(users: seq<User>, replies: seq<Reply>): (r: Outcome)
    ensures r.SignedIn? ==> exists u :: u in users && r.session == SessionOf(u)
    ensures users == [] ==> !r.SignedIn?
    ensures r.Aborted? ==> Cancelled in replies
    ensures |replies| > 0 && replies[0].Cancelled? ==> r.Aborted?
    ensures |replies| > 1 && replies[0].Typed? && replies[1].Cancelled? ==> r.Aborted?
    decreases |replies|
  {
    if replies == [] then Prompting
    else if replies[0].Cancelled? then Aborted
    else if |replies| == 1 then Prompting
    else if replies[1].Cancelled? then Aborted
    else match FindUser(users, replies[0].text, replies[1].text)
      case Some(u) => SignedIn(SessionOf(u))
      case None =>
        var r := PromptLoop(users, replies[2..]);
        assert r.Aborted? ==> Cancelled in replies by {
          if r.Aborted? {
            var i :| 0 <= i < |replies[2..]| && replies[2..][i] == Cancelled;
            assert replies[i + 2] == Cancelled;
          }
        }
        r
  }

  /**
   * Signing in needs credentials typed at some round that match an account, after rounds that were
   * all typed and failed; the session is that account's.
   */
  lemma {:induction false} SignInNeedsMatchingRound(users: seq<User>, replies: seq<Reply>)
    ensures PromptLoop(users, replies).SignedIn? ==>
      exists k: nat :: SignsInAt(users, replies, k, PromptLoop(users, replies).session)
    decreases |replies|
  {
    var r := PromptLoop(users, replies);
    if r.SignedIn? {
      if FindUser(users, replies[0].text, replies[1].text).Some? {
        assert SignsInAt(users, replies, 0, r.session);
      } else {
        SignInNeedsMatchingRound(users, replies[2..]);
        var k: nat :| SignsInAt(users, replies[2..], k, r.session);
        LaterRoundSignsIn(users, replies, k, r.session);
      }
    }
  }

  /** Conversely, a matching round after failed typed rounds signs in with that round's account. */
  lemma {:induction false} MatchingRoundSignsIn(users: seq<User>, replies: seq<Reply>, k: nat, session: Session)
    requires SignsInAt(users, replies, k, session)
    ensures PromptLoop(users, replies) == SignedIn(session)
    decreases k
  {
    if k == 0 {
      assert FindUser(users, replies[0].text, replies[1].text) == RoundUser(users, replies, 0);
    } else {
      assert RoundTyped(replies, 0) && RoundUser(users, replies, 0).None?;
      var rest := replies[2..];
      assert PromptLoop(users, replies) == PromptLoop(users, rest);
      assert SignsInAt(users, rest, k - 1, session) by {
        forall j: nat | j <= k - 1
          ensures RoundTyped(rest, j) && RoundUser(users, rest, j) == RoundUser(users, replies, j + 1)
        {
          ShiftRound(users, replies, j);
        }
      }
      MatchingRoundSignsIn(users, rest, k - 1, session);
    }
  }

  /** A sign-in at round `k` of the replies after a failed first round is a sign-in at round `k + 1`. */
  lemma LaterRoundSignsIn(users: seq<User>, replies: seq<Reply>, k: nat, session: Session)
    requires RoundTyped(replies, 0) && RoundUser(users, replies, 0).None?
    requires SignsInAt(users, replies[2..], k, session)
    ensures SignsInAt(users, replies, k + 1, session)
  {
    var rest := replies[2..];
    forall j: nat | j <= k
      ensures RoundTyped(replies, j + 1) && RoundUser(users, replies, j + 1) == RoundUser(users, rest, j)
    {
      ShiftRound(users, replies, j);
    }
    forall j: nat | j < k + 1 ensures RoundTyped(replies, j) && RoundUser(users, replies, j).None? {
      if j > 0 {
        assert RoundTyped(rest, j - 1);
      }
    }
  }

  /** Round `j` of the replies after the first round is round `j + 1` of all of them. */
  lemma ShiftRound(users: seq<User>, replies: seq<Reply>, j: nat)
    requires |replies| >= 2
    ensures RoundTyped(replies[2..], j) <==> RoundTyped(replies, j + 1)
    ensures RoundTyped(replies, j + 1) ==> RoundUser(users, replies[2..], j) == RoundUser(users, replies, j + 1)
  {
    var rest := replies[2..];
    if 2 * j + 1 < |rest| {
      assert rest[2 * j] == replies[2 * (j + 1)] && rest[2 * j + 1] == replies[2 * (j + 1) + 1];
    }
  }

  /** A round whose credentials match signs in as the first matching account. */
  lemma FirstRoundSignsIn(users: seq<User>, name: string, password: string, rest: seq<Reply>)
    requires FindUser(users, name, password).Some?
    ensures PromptLoop(users, [Typed(name), Typed(password)] + rest)
      == SignedIn(SessionOf(FindUser(users, name, password).value))
  {
  }

  /** A round whose credentials do not match changes nothing and asks again. */
  lemma FailedRoundRetries(users: seq<User>, name: string, password: string, rest: seq<Reply>)
    requires FindUser(users, name, password).None?
    ensures PromptLoop(users, [Typed(name), Typed(password)] + rest) == PromptLoop(users, rest)
  {
    assert ([Typed(name), Typed(password)] + rest)[2..] == rest;
  }

  /**
   * With no accounts every round fails and re-prompts: the loop only ends by a cancelled prompt,
   * and it does end at the first one.
   */
  lemma {:induction false} NoAccountsOnlyCancelEnds(replies: seq<Reply>)
    ensures PromptLoop([], replies) == if Cancelled in replies then Aborted else Prompting
  {
    if |replies| >= 2 && replies[0].Typed? && replies[1].Typed? {
      NoAccountsOnlyCancelEnds(replies[2..]);
      assert replies == replies[..2] + replies[2..];
      assert Cancelled in replies <==> Cancelled in replies[2..];
    }
  }

  /** `showLoginPrompt` against the store: the session is written only when a round signs in. */
  method ShowLoginPrompt(store: Store, replies: seq<Reply>) returns (outcome: Outcome)
    modifies store`loggedUser
    ensures outcome == PromptLoop(UsersOf(store.users), replies)
    ensures store.loggedUser == if outcome.SignedIn? then Some(outcome.session) else old(store.loggedUser)
  {
    outcome := PromptLoop(UsersOf(store.users), replies);
    if outcome.SignedIn? {
      store.loggedUser := Some(outcome.session);
    }
  }

  // ---------------------------------------------------------------- entering the page and logging out

  /** Where the page sends the user on entry. */
  datatype Route = ToDashboard | StayOnLogin

  /** On entry a stored session sends the user to the dashboard. */
  function EntryRoute(loggedUser: Option<Session>): (r: Route)
    ensures r == ToDashboard <==> loggedUser.Some?
  {
    if loggedUser.Some? then ToDashboard else StayOnLogin
  }

  /** The `manualLogout` flag after entry: cleared when there is no session and it reads `'true'`. */
  function EntryFlag(loggedUser: Option<Session>, flag: Option<string>): (f: Option<string>)
    ensures loggedUser.Some? ==> f == flag
    ensures f != flag <==> loggedUser.None? && flag == Some("true")
    ensures f != Some("true") || loggedUser.Some?
    ensures loggedUser.None? && flag == Some("true") ==> f == None
  {
    if loggedUser.Some? then flag
    else if flag == Some("true") then None
    else flag
  }

  /** Entering twice does no more than entering once: the flag is consumed by the first entry. */
  lemma EntryFlagIdempotent(loggedUser: Option<Session>, flag: Option<string>)
    ensures EntryFlag(loggedUser, EntryFlag(loggedUser, flag)) == EntryFlag(loggedUser, flag)
  {
  }

  /** The login page's entry effect. */
  method Enter(store: Store) returns (route: Route)
    modifies store`manualLogout
    ensures route == EntryRoute(store.loggedUser)
    ensures store.manualLogout == EntryFlag(store.loggedUser, old(store.manualLogout))
  {
    route := EntryRoute(store.loggedUser);
    if store.loggedUser.None? && store.manualLogout == Some("true") {
      store.manualLogout := None;
    }
  }

  /** `handleLogout`: the session is removed and the logout flag set. */
  method Logout(store: Store)
    modifies store`loggedUser, store`manualLogout
    ensures store.loggedUser == None && store.manualLogout == Some("true")
  {
    store.loggedUser := None;
    store.manualLogout := Some("true");
  }

  /** A client: after logging out, entering the login page stays there and consumes the flag. */
  method LogoutThenEnter(store: Store) returns (route: Route)
    modifies store
    ensures route == StayOnLogin && store.loggedUser == None && store.manualLogout == None
  {
    Logout(store);
    route := Enter(store);
  }
}
