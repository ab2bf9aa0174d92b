/** The two SASL servers (internal/smtp/authserver.go). A response is a string of bytes, or nil. */
module Sasl {
  import opened Text

  datatype Credentials = Credentials(identity: string, username: string, password: string)

  datatype Error = NoError | UnexpectedResponse | InvalidResponse | AuthFailed

  datatype Reply = Reply(challenge: Option<string>, done: bool, error: Error)

  const NUL: char := '\0'

  function AuthReply(allow: bool): Reply { Reply(None, true, if allow then NoError else AuthFailed) }

  /** What the client sends, and what the authenticator would say to it. */
  datatype Turn = Turn(response: Option<string>, allow: bool)

  /* ---------- PLAIN ---------- */

  /** `calls` lists the calls of the authenticator, `bans` counts those of `BanAuth`. */
  datatype Plain = Plain(done: bool, calls: seq<Credentials>, bans: nat)

  const PLAIN_START := Plain(false, [], 0)

  function PlainNext(s: Plain, turn: Turn): (Plain, Reply) {
    if s.done then (s, Reply(None, false, UnexpectedResponse))
    else if turn.response.None? then (s, Reply(Some(""), false, NoError))
    else
      var parts := Split(turn.response.value, NUL);
      if |parts| != 3 then (Plain(true, s.calls, s.bans + 1), Reply(None, false, InvalidResponse))
      else (Plain(true, s.calls + [Credentials(parts[0], parts[1], parts[2])], s.bans), AuthReply(turn.allow))
  }

  class PlainAuthServer {
    var done: bool
    var calls: seq<Credentials>
    var bans: nat

    ghost function State(): Plain reads this { Plain(done, calls, bans) }

    constructor ()
      ensures State() == PLAIN_START
    {
      done, calls, bans := false, [], 0;
    }

    method Next(turn: Turn) returns (r: Reply)
      modifies this
      ensures (State(), r) == PlainNext(old(State()), turn)
    {
      if done { return Reply(None, false, UnexpectedResponse); }
      if turn.response.None? { return Reply(Some(""), false, NoError); }
      done := true;
      var parts := Split(turn.response.value, NUL);
      if |parts| != 3 {
        bans := bans + 1;
        return Reply(None, false, InvalidResponse);
      }
      calls := calls + [Credentials(parts[0], parts[1], parts[2])];
      r := AuthReply(turn.allow);
    }
  }

  function PlainAfter(run: seq<Turn>): Plain {
    if run == [] then PLAIN_START else PlainNext(PlainAfter(run[..|run| - 1]), run[|run| - 1]).0
  }

  /** The first response that is not nil. */
  function FirstResponse(run: seq<Turn>): Option<string> {
    if run == [] then None
    else
      var earlier := FirstResponse(run[..|run| - 1]);
      if earlier.Some? then earlier else run[|run| - 1].response
  }

  /** The message of section 2 of RFC 4616: three NUL-free parts with NUL between them. */
  function PlainMessage(c: Credentials): string { c.identity + [NUL] + c.username + [NUL] + c.password }

  predicate NulFree(c: Credentials) { NUL !in c.identity && NUL !in c.username && NUL !in c.password }

  /** Splitting recovers the parts of a message, and yields three parts for nothing else. */
  lemma SplitIsPlainMessage(r: string, c: Credentials)
    requires NulFree(c)
    ensures r == PlainMessage(c) <==> Split(r, NUL) == [c.identity, c.username, c.password]
  {
    var parts := [c.identity, c.username, c.password];
    assert forall i :: 0 <= i < |parts| ==> NUL !in parts[i];
    assert Join(parts, NUL) == PlainMessage(c) by {
      assert parts[1..] == [c.username, c.password] && parts[1..][1..] == [c.password];
      assert Join(parts[1..], NUL) == c.username + [NUL] + c.password;
      assert Join(parts, NUL) == c.identity + [NUL] + (c.username + [NUL] + c.password);
    }
    SplitOfJoin(parts, NUL);
    JoinOfSplit(r, NUL);
  }

  /** Over every sequence of responses the authenticator is called at most once: with the three parts of
      the first response if that is a PLAIN message, and never if it is not. */
  lemma {:induction false} PlainExact(run: seq<Turn>)
    ensures var s := PlainAfter(run);
      var first := FirstResponse(run);
      && s.done == first.Some?
      && (first.None? ==> s.calls == [] && s.bans == 0)
      && (first.Some? ==>
            var parts := Split(first.value, NUL);
            if |parts| == 3 then s.calls == [Credentials(parts[0], parts[1], parts[2])] && s.bans == 0
            else s.calls == [] && s.bans == 1)
  {
    if run != [] { PlainExact(run[..|run| - 1]); }
  }

  lemma PlainCallsExactlyMessages(run: seq<Turn>, c: Credentials)
    ensures PlainAfter(run).calls == [c] <==>
            NulFree(c) && FirstResponse(run) == Some(PlainMessage(c))
    ensures |PlainAfter(run).calls| <= 1
  {
    PlainExact(run);
    if NulFree(c) && FirstResponse(run).Some? { SplitIsPlainMessage(FirstResponse(run).value, c); }
    if FirstResponse(run).Some? { SplitPieces(FirstResponse(run).value, NUL); }
  }

  /** Once done, everything is rejected and nothing changes. */
  lemma PlainRejectsAfterDone(run: seq<Turn>, turn: Turn)
    requires FirstResponse(run).Some?
    ensures PlainNext(PlainAfter(run), turn) == (PlainAfter(run), Reply(None, false, UnexpectedResponse))
  {
    PlainExact(run);
  }

  /** What each turn of PLAIN is answered: an empty challenge while there is no response; at the first response an error
      without an end if it is not a message, else the end, with an error if and only if the login is refused; an error
      afterwards. */
  lemma PlainAnswers(run: seq<Turn>, turn: Turn)
    ensures var r := PlainNext(PlainAfter(run), turn).1;
      && (FirstResponse(run).None? && turn.response.None? ==> r.challenge == Some("") && !r.done && r.error == NoError)
      && (FirstResponse(run).None? && turn.response.Some? ==>
            && r.challenge == None
            && (r.done <==> exists c :: NulFree(c) && turn.response.value == PlainMessage(c))
            && (r.error == NoError <==> r.done && turn.allow)
            && (r.done && !turn.allow <==> r.error == AuthFailed))
      && (FirstResponse(run).Some? ==> r.challenge == None && !r.done && r.error == UnexpectedResponse)
  {
    PlainExact(run);
    hide PlainAfter, FirstResponse;
    if turn.response.Some? {
      var parts := Split(turn.response.value, NUL);
      SplitPieces(turn.response.value, NUL);
      if |parts| == 3 {
        var c := Credentials(parts[0], parts[1], parts[2]);
        assert NulFree(c);
        SplitIsPlainMessage(turn.response.value, c);
      }
      forall c | NulFree(c) && turn.response.value == PlainMessage(c) ensures |parts| == 3 {
        SplitIsPlainMessage(turn.response.value, c);
      }
    }
  }

  /* ---------- LOGIN ---------- */

  datatype LoginStep = NotStarted | Username | Password

  datatype Login = Login(done: bool, step: LoginStep, username: string, password: string, calls: seq<Credentials>)

  const LOGIN_START := Login(false, NotStarted, "", "", [])

  function Bytes(response: Option<string>): string { if response.Some? then response.value else "" }

  function LoginNext(s: Login, turn: Turn): (Login, Reply) {
    if s.done then (s, Reply(None, false, UnexpectedResponse))
    else
      match s.step
      case NotStarted => (s.(step := Username), Reply(Some("Username:"), false, NoError))
      case Username =>
        (s.(step := Password, username := Bytes(turn.response)), Reply(Some("Password:"), false, NoError))
      case Password =>
        var password := Bytes(turn.response);
        (s.(done := true, password := password, calls := s.calls + [Credentials("", s.username, password)]),
         AuthReply(turn.allow))
  }

  class LoginAuthServer {
    var done: bool
    var step: LoginStep
    var username: string
    var password: string
    var calls: seq<Credentials>

    ghost function State(): Login reads this { Login(done, step, username, password, calls) }

    constructor ()
      ensures State() == LOGIN_START
    {
      done, step, username, password, calls := false, NotStarted, "", "", [];
    }

    method Next(turn: Turn) returns (r: Reply)
      modifies this
      ensures (State(), r) == LoginNext(old(State()), turn)
    {
      if done { return Reply(None, false, UnexpectedResponse); }
      match step {
        case NotStarted =>
          step := Username;
          return Reply(Some("Username:"), false, NoError);
        case Username =>
          username := Bytes(turn.response);
          step := Password;
          return Reply(Some("Password:"), false, NoError);
        case Password =>
          password := Bytes(turn.response);
          done := true;
          calls := calls + [Credentials("", username, password)];
          return AuthReply(turn.allow);
      }
    }
  }

  function LoginAfter(run: seq<Turn>): Login {
    if run == [] then LOGIN_START else LoginNext(LoginAfter(run[..|run| - 1]), run[|run| - 1]).0
  }

  /** Over every sequence of responses the authenticator is called exactly at the third, with the second
      and third responses; from then on the server is done. */
  lemma {:induction false} LoginExact(run: seq<Turn>)
    ensures var s := LoginAfter(run);
      && s.done == (|run| >= 3)
      && (|run| < 3 ==> s.calls == [] && s.step == [NotStarted, Username, Password][|run|])
      && (|run| == 2 ==> s.username == Bytes(run[1].response))
      && (|run| >= 3 ==> s.calls == [Credentials("", Bytes(run[1].response), Bytes(run[2].response))])
  {
    if run != [] { LoginExact(run[..|run| - 1]); }
  }

  lemma LoginRejectsAfterDone(run: seq<Turn>, turn: Turn)
    requires |run| >= 3
    ensures LoginNext(LoginAfter(run), turn) == (LoginAfter(run), Reply(None, false, UnexpectedResponse))
  {
    LoginExact(run);
  }

  /** What each turn of LOGIN is answered: two challenges, then the end, with an error if and only if the login is
      refused, then errors. */
  lemma LoginAnswers(run: seq<Turn>, turn: Turn)
    ensures var r := LoginNext(LoginAfter(run), turn).1;
      && (|run| == 0 ==> r == Reply(Some("Username:"), false, NoError))
      && (|run| == 1 ==> r == Reply(Some("Password:"), false, NoError))
      && (|run| == 2 ==> r.challenge == None && r.done && (r.error == NoError <==> turn.allow)
                         && (r.error == AuthFailed <==> !turn.allow))
      && (|run| >= 3 ==> r.challenge == None && !r.done && r.error == UnexpectedResponse)
  {
    LoginExact(run);
  }
}
