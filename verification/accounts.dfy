/**
 * Facts that span the account routes: what registration stores is what login
 * and the statistics route later read.
 */
module Accounts {
  import opened Wrappers
  import opened Text
  import opened Js
  import opened Users
  import Register
  import Login
  import StatsHistory

  /** Registering and then logging in with the same e-mail, in any letter
      case, and the same string password succeeds; the token names the new
      record and the statistics are all zero. */
  lemma RegisteredUserLogsIn(users: seq<UserDoc>, req: Register.RegisterRequest, newId: UserId, now: int, e: string)
    requires forall j :: 0 <= j < |users| ==> users[j].id != newId
    requires Register.Post(users, req, newId, now).reply.Success?
    requires req.password.Str?
    requires ToLower(e) == ToLower(req.email.s)
    ensures var after := Register.Post(users, req, newId, now).users;
      var r := Login.Post(after, Login.LoginRequest(Str(e), req.password));
      && r.Success?
      && r.value.token == Login.TokenPayload(newId, ToLower(req.email.s), "user")
      && r.value.stats == ZeroStats
  {
    var after := Register.Post(users, req, newId, now).users;
    var lower := ToLower(req.email.s);
    var u := Register.NewUser(newId, lower, req.password, Trim(req.name.s), now);
    assert after == users + [u];
    assert |e| == |req.email.s| > 0;
    forall j | 0 <= j < |users|
      ensures !Login.Matches(after[j], ToLower(e))
    {
      assert after[j] == users[j];
    }
    LoginFindsFirstMatch(after, e, req.password, |users|);
  }

  /** Login succeeds for the first record that matches the lower-cased e-mail
      when the password is the stored one. */
  lemma LoginFindsFirstMatch(users: seq<UserDoc>, e: string, password: Value, k: nat)
    requires e != [] && password.Str? && password.s != []
    requires k < |users| && Login.Matches(users[k], ToLower(e))
    requires forall j :: 0 <= j < k ==> !Login.Matches(users[j], ToLower(e))
    requires users[k].password == password
    ensures var r := Login.Post(users, Login.LoginRequest(Str(e), password));
      && r.Success?
      && r.value.token == Login.TokenPayload(users[k].id, users[k].email, users[k].role)
      && r.value.stats == CurrentStats(users[k])
  {
    assert Login.FindLogin(users, ToLower(e)) == Some(k);
  }

  /** A freshly registered record satisfies the statistics invariant: its
      statistics are what its (empty) history replays to. */
  lemma RegisteredUserConsistent(users: seq<UserDoc>, req: Register.RegisterRequest, newId: UserId, now: int)
    requires forall j :: 0 <= j < |users| ==> users[j].id != newId
    requires Register.Post(users, req, newId, now).reply.Success?
    ensures var after := Register.Post(users, req, newId, now).users;
      StatsHistory.Consistent(after[|users|])
  {
    var after := Register.Post(users, req, newId, now).users;
    StatsHistory.EmptyRecordConsistent(after[|users|]);
  }
}
