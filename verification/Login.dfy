/** Credentials on disk and in memory: `LoginManager` of rx/client/login.py and
    the `metadata` property of rx/client/worker_client.py. The token requests are
    those of RFC 6749, sections 4.1.3 (code exchange) and 6 (refresh); what the
    server answers, the clock and the decoding of id tokens are inputs. */
module Login {
  import opened Prelude

  /** An id token as `decode_id_token` sees it. */
  datatype IdToken = Jwt(exp: Option<int>) | Undecodable(valueError: bool)

  /** A token response, as kept in memory and in the files. */
  datatype Token = Token(idToken: Option<IdToken>, refreshToken: Option<string>, accessToken: string)

  /** The access-token and the refresh-token file. */
  datatype Files = Files(access: Option<Token>, refresh: Option<Token>)

  /** What the token endpoint answers: status 200 with a token, another status,
      no connection or a timeout, or anything else that raises. */
  datatype Reply = Granted(token: Token) | Refused | NoConnection | Broken

  datatype Outcome = Done | AuthError | OtherError

  /** What one call leaves behind: the files, the manager's token, how it ended,
      and the files after each single file operation it did, in order. */
  datatype Effect = Effect(files: Files, memory: Option<Token>, outcome: Outcome, trail: seq<Files>)

  /** `needs_login`. */
  predicate NeedsLogin(f: Files) {
    !(f.access.Some? && f.refresh.Some?)
  }

  /** A refresh file implies an access file. */
  predicate Safe(f: Files) {
    f.refresh.Some? ==> f.access.Some?
  }

  // ------------------------------------------------------------ operations

  /** `_delete_auth_files`: the refresh file first. */
  function DeleteTrail(f: Files): seq<Files> {
    (if f.refresh.Some? then [f.(refresh := None)] else [])
    + (if f.access.Some? then [Files(None, None)] else [])
  }

  function Delete(f: Files, memory: Option<Token>): Effect {
    Effect(Files(None, None), memory, AuthError, DeleteTrail(f))
  }

  function Nothing(f: Files, memory: Option<Token>, outcome: Outcome): Effect {
    Effect(f, memory, outcome, [])
  }

  /** `refresh_access_token`. */
  function Refresh(f: Files, memory: Option<Token>, reply: Reply): Effect {
    if f.refresh.None? then Delete(f, memory)
    else if f.refresh.value.refreshToken.None? then Nothing(f, memory, OtherError)
    else
      match reply
      case NoConnection => Nothing(f, memory, AuthError)
      case Broken => Nothing(f, memory, OtherError)
      case Refused => Delete(f, memory)
      case Granted(token) =>
        var f' := f.(access := Some(token));
        Effect(f', Some(token), Done, [f'])
  }

  /** `validate_login` at a time, with the answer a refresh would get. */
  function Validate(f: Files, memory: Option<Token>, now: int, reply: Reply): Effect {
    if memory.None? || memory.value.idToken.None? then Nothing(f, memory, OtherError)
    else
      match memory.value.idToken.value
      case Undecodable(valueError) => if valueError then Delete(f, memory) else Nothing(f, memory, OtherError)
      case Jwt(None) => Nothing(f, memory, OtherError)
      case Jwt(Some(exp)) => if now > exp then Refresh(f, memory, reply) else Nothing(f, memory, Done)
  }

  /** `_get_access_token`: the access file first. */
  function Exchange(f: Files, exchange: Reply): Effect {
    match exchange
    case Granted(token) =>
      var f1 := f.(access := Some(token));
      var f2 := f1.(refresh := Some(token));
      Effect(f2, Some(token), Done, [f1, f2])
    case Refused => Nothing(f, None, AuthError)
    case _ => Nothing(f, None, OtherError)
  }

  /** `login`. */
  function LogIn(f: Files, memory: Option<Token>, exchange: Reply, now: int, reply: Reply): Effect {
    if memory.Some? then Validate(f, memory, now, reply)
    else
      var e := Exchange(f, exchange);
      if !e.outcome.Done? then e
      else
        var v := Validate(e.files, e.memory, now, reply);
        v.(trail := e.trail + v.trail)
  }

  /** A call on a manager. */
  datatype Call = Validating(now: int, reply: Reply) | LoggingIn(exchange: Reply, now: int, reply: Reply)

  function Perform(f: Files, memory: Option<Token>, c: Call): Effect {
    match c
    case Validating(now, reply) => Validate(f, memory, now, reply)
    case LoggingIn(exchange, now, reply) => LogIn(f, memory, exchange, now, reply)
  }

  // ------------------------------------------------------------------ runs

  /** A process starts a manager, or calls it; a call may be cut off after some
      of its file operations, and then the process is gone. */
  datatype Event = Start | Do(call: Call) | Crash(call: Call, after: nat)

  /** What the server granted: a token for a code, or for a refresh. */
  datatype Grant = ForCode(token: Token) | ForRefresh(token: Token)

  /** The files, the running manager with its token, and all the server granted,
      in order. */
  datatype World = World(files: Files, manager: Option<Option<Token>>, grants: seq<Grant>)

  const Init := World(Files(None, None), None, [])

  /** The call asks for a code exchange, and is granted one. */
  predicate Exchanges(memory: Option<Token>, c: Call) {
    memory.None? && c.LoggingIn? && c.exchange.Granted?
  }

  /** The files and the token that `validate_login` finds in this call; None if
      the call does not come to it. */
  function AtCheck(f: Files, memory: Option<Token>, c: Call): Option<(Files, Option<Token>)> {
    if memory.Some? || c.Validating? then Some((f, memory))
    else if Exchanges(memory, c) then
      var token := Some(c.exchange.token);
      Some((Files(token, token), token))
    else None
  }

  /** The token is one that decodes and has expired. */
  predicate Expired(memory: Option<Token>, now: int) {
    && memory.Some? && memory.value.idToken.Some? && memory.value.idToken.value.Jwt?
    && memory.value.idToken.value.exp.Some? && memory.value.idToken.value.exp.value < now
  }

  /** The refresh file holds something to refresh with. */
  predicate CanRefresh(f: Files) {
    f.refresh.Some? && f.refresh.value.refreshToken.Some?
  }

  /** What the server grants in this call. */
  function Granting(f: Files, memory: Option<Token>, c: Call): seq<Grant> {
    var at := AtCheck(f, memory, c);
    (if Exchanges(memory, c) then [ForCode(c.exchange.token)] else [])
    + (if at.Some? && Expired(at.value.1, c.now) && CanRefresh(at.value.0) && c.reply.Granted?
       then [ForRefresh(c.reply.token)] else [])
  }

  function Step(w: World, e: Event): World {
    match e
    // ReadOnlyConfig reads the access file once, when the manager is made.
    case Start => w.(manager := Some(w.files.access))
    case Do(c) =>
      if w.manager.None? then w
      else
        var r := Perform(w.files, w.manager.value, c);
        World(r.files, Some(r.memory), w.grants + Granting(w.files, w.manager.value, c))
    case Crash(c, after) =>
      if w.manager.None? then w
      else
        var trail := Perform(w.files, w.manager.value, c).trail;
        var files := if after == 0 || trail == [] then w.files
                     else if after <= |trail| then trail[after - 1] else trail[|trail| - 1];
        // No refresh is asked for before both files of an exchange are written.
        var grants := if Exchanges(w.manager.value, c) && after < 2 then [ForCode(c.exchange.token)]
                      else Granting(w.files, w.manager.value, c);
        World(files, None, w.grants + grants)
  }

  function Run(w: World, events: seq<Event>): World
    decreases |events|
  {
    if events == [] then w else Run(Step(w, events[0]), events[1..])
  }

  /** The token of the last code exchange that was granted. */
  function CodeToken(grants: seq<Grant>): Option<Token> {
    if grants == [] then None
    else
      var last := grants[|grants| - 1];
      if last.ForCode? then Some(last.token) else CodeToken(grants[..|grants| - 1])
  }

  /** The refresh token a client holds by RFC 6749, section 6: that of the last
      code exchange, unless a refresh since then was answered with another. */
  function Newest(grants: seq<Grant>): Option<string> {
    if grants == [] then None
    else
      var last := grants[|grants| - 1];
      if last.ForCode? || last.token.refreshToken.Some? then last.token.refreshToken
      else Newest(grants[..|grants| - 1])
  }

  lemma CodeTokenAppend(grants: seq<Grant>, more: seq<Grant>)
    requires |more| <= 2 && forall i :: 0 < i < |more| ==> more[i].ForRefresh?
    ensures CodeToken(grants + more) ==
              if more == [] || more[0].ForRefresh? then CodeToken(grants) else Some(more[0].token)
  {
    if |more| > 0 {
      assert grants + more[..1] == (grants + more)[..|grants| + 1];
      assert (grants + more[..1])[..|grants|] == grants;
    } else {
      assert grants + more == grants;
    }
  }

  /** The refresh file is the answer to the last code exchange; a manager without
      a token found no files. */
  predicate Inv(w: World) {
    && Safe(w.files)
    && (w.files.refresh.Some? ==> w.files.refresh == CodeToken(w.grants))
    && (w.manager == Some(None) ==> w.files.access.None?)
  }

  /** Every state of the disk during a call is safe, and its refresh file is the
      one before the call, or gone, or a token just exchanged for a code. */
  predicate Orderly(f: Files, e: Effect, code: Option<Token>) {
    && (forall i :: 0 <= i < |e.trail| ==> OrderlyState(f, e.trail[i], code))
    && e.files == (if e.trail == [] then f else e.trail[|e.trail| - 1])
  }

  predicate OrderlyState(f: Files, g: Files, code: Option<Token>) {
    Safe(g) && (g.refresh == f.refresh || g.refresh.None? || g.refresh == code)
  }

  lemma RefreshIsOrderly(f: Files, memory: Option<Token>, reply: Reply)
    requires Safe(f)
    ensures Orderly(f, Refresh(f, memory, reply), None)
  {
  }

  lemma ValidateIsOrderly(f: Files, memory: Option<Token>, now: int, reply: Reply)
    requires Safe(f)
    ensures Orderly(f, Validate(f, memory, now, reply), None)
  {
    RefreshIsOrderly(f, memory, reply);
  }

  /** What a code exchange in this call is granted. */
  function Exchanged(memory: Option<Token>, c: Call): Option<Token> {
    if Exchanges(memory, c) then Some(c.exchange.token) else None
  }

  lemma PerformIsOrderly(f: Files, memory: Option<Token>, c: Call)
    requires Safe(f)
    ensures Orderly(f, Perform(f, memory, c), Exchanged(memory, c))
    ensures memory.None? && Perform(f, memory, c).memory.None? ==> Perform(f, memory, c).files == f
  {
    if memory.Some? || c.Validating? {
      ValidateIsOrderly(f, memory, c.now, c.reply);
      assert forall g :: OrderlyState(f, g, None) ==> OrderlyState(f, g, Exchanged(memory, c));
    } else {
      var e := Exchange(f, c.exchange);
      if e.outcome.Done? {
        ValidateIsOrderly(e.files, e.memory, c.now, c.reply);
        assert forall g :: OrderlyState(e.files, g, None) ==> OrderlyState(f, g, Exchanged(memory, c));
      }
    }
  }

  /** After fewer than two file operations an exchange has no refresh file. */
  lemma FirstOfExchange(f: Files, c: Call)
    requires f.refresh.None? && Exchanges(None, c)
    ensures |Perform(f, None, c).trail| >= 2 && Perform(f, None, c).trail[0].refresh.None?
  {
  }

  /** The refresh file of a disk state reached in a call is the answer to the last
      code exchange, counting the grants of that call. */
  predicate OwnFile(g: Files, grants: seq<Grant>) {
    Safe(g) && (g.refresh.Some? ==> g.refresh == CodeToken(grants))
  }

  lemma CallKeepsFile(w: World, memory: Option<Token>, c: Call, g: Files)
    requires Inv(w) && w.manager == Some(memory) && OrderlyState(w.files, g, Exchanged(memory, c))
    ensures OwnFile(g, w.grants + Granting(w.files, memory, c))
  {
    CodeTokenAppend(w.grants, Granting(w.files, memory, c));
  }

  lemma DoKeepsInv(w: World, c: Call)
    requires Inv(w) && w.manager.Some?
    ensures Inv(Step(w, Do(c)))
    ensures w.files.refresh.Some? && Step(w, Do(c)).files.refresh.Some? ==>
              Step(w, Do(c)).files.refresh == w.files.refresh
  {
    PerformIsOrderly(w.files, w.manager.value, c);
    CallKeepsFile(w, w.manager.value, c, Perform(w.files, w.manager.value, c).files);
  }

  lemma CrashKeepsInv(w: World, c: Call, after: nat)
    requires Inv(w) && w.manager.Some?
    ensures Inv(Step(w, Crash(c, after)))
    ensures w.files.refresh.Some? && Step(w, Crash(c, after)).files.refresh.Some? ==>
              Step(w, Crash(c, after)).files.refresh == w.files.refresh
  {
    var memory, g := w.manager.value, Step(w, Crash(c, after)).files;
    PerformIsOrderly(w.files, memory, c);
    if Exchanges(memory, c) && after < 2 {
      FirstOfExchange(w.files, c);
      CodeTokenAppend(w.grants, [ForCode(c.exchange.token)]);
    } else {
      CallKeepsFile(w, memory, c, g);
    }
  }

  lemma StepKeepsInv(w: World, e: Event)
    requires Inv(w)
    ensures Inv(Step(w, e))
    ensures w.files.refresh.Some? && Step(w, e).files.refresh.Some? ==> Step(w, e).files.refresh == w.files.refresh
  {
    if w.manager.Some? {
      match e
      case Start =>
      case Do(c) => DoKeepsInv(w, c);
      case Crash(c, after) => CrashKeepsInv(w, c, after);
    }
  }

  lemma {:induction false} RunKeepsInv(w: World, events: seq<Event>)
    requires Inv(w)
    ensures Inv(Run(w, events))
    decreases |events|
  {
    if events != [] {
      StepKeepsInv(w, events[0]);
      RunKeepsInv(Step(w, events[0]), events[1..]);
    }
  }

  /** Each operation in the trail touches one of the two files. */
  predicate OneByOne(f: Files, trail: seq<Files>)
    decreases |trail|
  {
    trail == [] ||
    ((trail[0].access == f.access || trail[0].refresh == f.refresh) && OneByOne(trail[0], trail[1..]))
  }

  lemma {:induction false} OneByOneConcat(f: Files, first: seq<Files>, second: seq<Files>)
    requires OneByOne(f, first) && OneByOne(if first == [] then f else first[|first| - 1], second)
    ensures OneByOne(f, first + second)
    decreases |first|
  {
    if first == [] {
      assert first + second == second;
    } else {
      assert (first + second)[1..] == first[1..] + second;
      OneByOneConcat(first[0], first[1..], second);
    }
  }

  lemma ValidatesOneByOne(f: Files, memory: Option<Token>, now: int, reply: Reply)
    ensures OneByOne(f, Validate(f, memory, now, reply).trail)
  {
    assert OneByOne(f, DeleteTrail(f));
  }

  /** A crash can cut a call off before its file operations, or after any number of
      them, and there is no disk state between two operations. */
  lemma CrashAnywhere(w: World, c: Call, k: nat)
    requires w.manager.Some?
    ensures
      var trail := Perform(w.files, w.manager.value, c).trail;
      && OneByOne(w.files, trail)
      && Step(w, Crash(c, 0)).files == w.files
      && (k < |trail| ==> Step(w, Crash(c, k + 1)).files == trail[k])
      && Step(w, Crash(c, k)).manager == None
  {
    var memory := w.manager.value;
    if memory.Some? || c.Validating? {
      ValidatesOneByOne(w.files, memory, c.now, c.reply);
    } else if Exchanges(memory, c) {
      var e := Exchange(w.files, c.exchange);
      ValidatesOneByOne(e.files, e.memory, c.now, c.reply);
      assert e.trail[1..] == [e.files];
      assert OneByOne(w.files, e.trail);
      OneByOneConcat(w.files, e.trail, Validate(e.files, e.memory, c.now, c.reply).trail);
    }
  }

  /** From no credential files on, through any logins, refreshes, failures and
      crashes between file operations: a refresh file implies an access file, so
      a login is needed exactly if there is no refresh file, and the refresh file
      is the answer to the last code exchange. */
  lemma CrashSafe(events: seq<Event>)
    ensures
      var w := Run(Init, events);
      && Safe(w.files)
      && (NeedsLogin(w.files) <==> w.files.refresh.None?)
      && (w.files.refresh.Some? ==> w.files.refresh == CodeToken(w.grants))
  {
    RunKeepsInv(Init, events);
  }

  /** In every run no step changes what is in a refresh file: it stays as it is
      or is removed. In particular no refresh overwrites it. */
  lemma RefreshFileNeverOverwritten(events: seq<Event>, e: Event)
    ensures
      var before, after := Run(Init, events).files.refresh, Step(Run(Init, events), e).files.refresh;
      before.Some? && after.Some? ==> after == before
  {
    RunKeepsInv(Init, events);
    StepKeepsInv(Run(Init, events), e);
  }

  // ------------------------------------------------- the newest refresh token

  /** The grants from a place on are all for refreshes. */
  predicate OnlyRefreshes(grants: seq<Grant>, from: nat) {
    forall i :: from <= i < |grants| ==> grants[i].ForRefresh?
  }

  /** This refresh was answered with a refresh token other than the given one,
      and no code was exchanged since. */
  predicate Rotates(grants: seq<Grant>, k: nat, own: Option<string>) {
    && k < |grants| && OnlyRefreshes(grants, k)
    && grants[k].token.refreshToken.Some? && grants[k].token.refreshToken != own
  }

  /** No later refresh was answered with a refresh token. */
  predicate LastWord(grants: seq<Grant>, k: nat) {
    forall i :: k < i < |grants| ==> grants[i].token.refreshToken.None?
  }

  lemma {:induction false} NewestIsOwnIff(grants: seq<Grant>)
    requires CodeToken(grants).Some?
    ensures
      var own := CodeToken(grants).value.refreshToken;
      Newest(grants) != own <==> exists k: nat :: Rotates(grants, k, own) && LastWord(grants, k)
  {
    var n := |grants| - 1;
    var last, before, own := grants[n], grants[..n], CodeToken(grants).value.refreshToken;
    if last.ForRefresh? {
      if last.token.refreshToken.Some? {
        if last.token.refreshToken != own {
          assert Rotates(grants, n, own) && LastWord(grants, n);
        }
      } else {
        NewestIsOwnIff(before);
        forall k: nat
          ensures Rotates(grants, k, own) && LastWord(grants, k) <==> Rotates(before, k, own) && LastWord(before, k)
        {
          assert k < n ==> grants[k] == before[k];
          assert OnlyRefreshes(before, k) ==> OnlyRefreshes(grants, k);
        }
      }
    }
  }

  /** After any events, a refresh file holds the newest refresh token the server
      issued, unless the last refresh to be answered with one was answered with
      another than the file's: it is never stored. */
  lemma HoldsNewestIff(events: seq<Event>)
    ensures
      var w := Run(Init, events);
      w.files.refresh.Some? ==>
        var own := w.files.refresh.value.refreshToken;
        own == Newest(w.grants) <==> !exists k: nat :: Rotates(w.grants, k, own) && LastWord(w.grants, k)
  {
    RunKeepsInv(Init, events);
    var w := Run(Init, events);
    if w.files.refresh.Some? {
      NewestIsOwnIff(w.grants);
    }
  }

  /** The server does not come back to a token it has replaced. */
  predicate NeverBack(grants: seq<Grant>, own: Option<string>) {
    forall k: nat, i :: Rotates(grants, k, own) && k < i < |grants| ==> grants[i].token.refreshToken != own
  }

  lemma {:induction false} LastRotation(grants: seq<Grant>, k: nat, own: Option<string>) returns (last: nat)
    requires Rotates(grants, k, own) && NeverBack(grants, own)
    ensures Rotates(grants, last, own) && LastWord(grants, last)
    decreases |grants| - k
  {
    if LastWord(grants, k) {
      last := k;
    } else {
      var i :| k < i < |grants| && grants[i].token.refreshToken.Some?;
      last := LastRotation(grants, i, own);
    }
  }

  /** With such a server the file holds the newest token exactly if no refresh
      since the exchange was answered with a different one. */
  lemma HoldsNewestIffNoRotation(events: seq<Event>)
    ensures
      var w := Run(Init, events);
      w.files.refresh.Some? && NeverBack(w.grants, w.files.refresh.value.refreshToken) ==>
        var own := w.files.refresh.value.refreshToken;
        own == Newest(w.grants) <==> !exists k: nat :: Rotates(w.grants, k, own)
  {
    HoldsNewestIff(events);
    var w := Run(Init, events);
    if w.files.refresh.Some? && NeverBack(w.grants, w.files.refresh.value.refreshToken) {
      if k: nat :| Rotates(w.grants, k, w.files.refresh.value.refreshToken) {
        var last := LastRotation(w.grants, k, w.files.refresh.value.refreshToken);
      }
    }
  }

  /** One login with a token that has expired by then, refreshed with an answer
      that rotates the refresh token, loses the new one. */
  lemma RotationIsLost(first: string, second: string)
    ensures exists events ::
              var w := Run(Init, events);
              && w.files.refresh.Some? && w.files.refresh.value.refreshToken == Some(first)
              && Newest(w.grants) == Some(second)
  {
    var t1, t2 := Token(Some(Jwt(Some(0))), Some(first), ""), Token(Some(Jwt(Some(2))), Some(second), "");
    var login := Do(LoggingIn(Granted(t1), 1, Granted(t2)));
    var w1 := Step(Init, Start);
    var w2 := Step(w1, login);
    assert w2.grants == [] + [ForCode(t1), ForRefresh(t2)];
    assert Run(w2, []) == w2 && [Start, login][1..] == [login] && [login][1..] == [];
    assert Run(Init, [Start, login]) == w2;
  }

  // --------------------------------------------------------------- outcomes

  /** The token in memory has a time of expiry that can be read. */
  predicate Readable(memory: Option<Token>) {
    && memory.Some? && memory.value.idToken.Some? && memory.value.idToken.value.Jwt?
    && memory.value.idToken.value.exp.Some?
  }

  /** How `validate_login` ends: it succeeds exactly for a token that has not
      expired, or whose refresh is granted; an unexpired one validates whatever the
      server would answer, and changes nothing. A granted refresh stores the new
      token in the access file and in memory. The user is asked to log in again
      exactly if the token is rejected or the server cannot be reached. */
  lemma ValidateOutcomeIff(f: Files, memory: Option<Token>, now: int, reply: Reply)
    ensures
      var r := Validate(f, memory, now, reply);
      var valid := Readable(memory) && !Expired(memory, now);
      var refreshed := Expired(memory, now) && CanRefresh(f) && reply.Granted?;
      && (Readable(memory) ==> (valid <==> now <= memory.value.idToken.value.exp.value))
      && (r.outcome == Done <==> valid || refreshed)
      && (r.outcome == AuthError <==>
            Rejected(f, memory, now, reply) || (Expired(memory, now) && CanRefresh(f) && reply.NoConnection?))
      && (valid ==> r == Effect(f, memory, Done, []))
      && (refreshed ==>
            var f' := Files(Some(reply.token), f.refresh);
            r == Effect(f', Some(reply.token), Done, [f']))
  {
  }

  /** How `login` ends. With a token in memory it is `validate_login`, and asks for
      no code. Without one it succeeds exactly if the exchange is granted and the
      new token validates; both files then hold the new token, unless a refresh in
      this call replaced the access file. */
  lemma LogInOutcomeIff(f: Files, memory: Option<Token>, exchange: Reply, now: int, reply: Reply)
    ensures
      var r := LogIn(f, memory, exchange, now, reply);
      && (memory.Some? ==> r == Validate(f, memory, now, reply))
      && (memory.None? && !exchange.Granted? ==>
            r == Effect(f, None, if exchange.Refused? then AuthError else OtherError, []))
      && (memory.None? && exchange.Granted? ==>
            var token := exchange.token;
            var both := Files(Some(token), Some(token));
            var v := Validate(both, Some(token), now, reply);
            && r.files == v.files && r.memory == v.memory && r.outcome == v.outcome
            && r.trail == [f.(access := Some(token)), both] + v.trail
            && (r.outcome.Done? ==>
                  r.files.refresh == Some(token) && r.files.access == r.memory &&
                  r.memory == if Expired(Some(token), now) then Some(reply.token) else Some(token)))
  {
    if memory.None? && exchange.Granted? {
      var both := Files(Some(exchange.token), Some(exchange.token));
      ValidateOutcomeIff(both, Some(exchange.token), now, reply);
    }
  }

  // ------------------------------------------------------------- dead ends

  /** Some answer of the server can still make a call succeed: the manager has no
      token, or one that decodes and has not expired or can be refreshed. */
  predicate Hopeful(f: Files, memory: Option<Token>, now: int) {
    match memory
    case None => true
    case Some(token) =>
      && token.idToken.Some? && token.idToken.value.Jwt? && token.idToken.value.exp.Some?
      && (now <= token.idToken.value.exp.value || CanRefresh(f))
  }

  /** The outcomes of calls made one after the other on one manager. */
  function Outcomes(f: Files, memory: Option<Token>, calls: seq<Call>): seq<Outcome>
    decreases |calls|
  {
    if calls == [] then []
    else
      var r := Perform(f, memory, calls[0]);
      [r.outcome] + Outcomes(r.files, r.memory, calls[1..])
  }

  predicate NotBefore(calls: seq<Call>, now: int) {
    forall i :: 0 <= i < |calls| ==> calls[i].now >= now
  }

  lemma {:induction false} HopelessForever(f: Files, memory: Option<Token>, now: int, calls: seq<Call>)
    requires !Hopeful(f, memory, now) && NotBefore(calls, now)
    ensures Done !in Outcomes(f, memory, calls)
    decreases |calls|
  {
    if calls != [] {
      var r := Perform(f, memory, calls[0]);
      assert !r.outcome.Done? && !Hopeful(r.files, r.memory, now);
      HopelessForever(r.files, r.memory, now, calls[1..]);
    }
  }

  /** From any files and any token, some later sequence of calls on the same
      manager has one that succeeds exactly if there is hope. */
  lemma CanSucceedIff(f: Files, memory: Option<Token>, now: int)
    ensures (exists calls :: NotBefore(calls, now) && Done in Outcomes(f, memory, calls)) <==> Hopeful(f, memory, now)
  {
    if Hopeful(f, memory, now) {
      var token := Granted(Token(Some(Jwt(Some(now))), None, ""));
      var c := LoggingIn(token, now, token);
      var r := Perform(f, memory, c);
      assert r.outcome.Done?;
      assert Outcomes(f, memory, [c]) == [Done] + Outcomes(r.files, r.memory, [c][1..]);
      assert Outcomes(f, memory, [c])[0] == Done && NotBefore([c], now);
    } else {
      forall calls | NotBefore(calls, now) ensures Done !in Outcomes(f, memory, calls) {
        HopelessForever(f, memory, now, calls);
      }
    }
  }

  /** An expired token with something to refresh it: hope is lost exactly by a
      refusal, or by a granted token without a readable time of expiry. */
  lemma RefreshKeepsHopeIff(f: Files, memory: Option<Token>, now: int, reply: Reply)
    requires Expired(memory, now) && CanRefresh(f)
    ensures
      var r := Validate(f, memory, now, reply);
      Hopeful(r.files, r.memory, now) <==>
        match reply
        case Granted(token) => token.idToken.Some? && token.idToken.value.Jwt? && token.idToken.value.exp.Some?
        case Refused => false
        case NoConnection => true
        case Broken => true
  {
  }

  /** Every manager that logs in with a token of this kind can lose hope: one
      refusal after the time of expiry is enough. */
  lemma HopeCanBeLost(token: Token, now: int)
    requires Expired(Some(token), now) && token.refreshToken.Some?
    ensures exists events ::
              var w := Run(Init, events);
              w.manager == Some(Some(token)) && !Hopeful(w.files, Some(token), now)
  {
    var exp := token.idToken.value.exp.value;
    var login, check := Do(LoggingIn(Granted(token), exp, Refused)), Do(Validating(now, Refused));
    var w1 := Step(Init, Start);
    var w2 := Step(w1, login);
    assert w2.files == Files(Some(token), Some(token)) && w2.manager == Some(Some(token));
    var w3 := Step(w2, check);
    assert w3.files == Files(None, None) && w3.manager == Some(Some(token));
    assert [Start, login, check][1..] == [login, check] && [login, check][1..] == [check] && [check][1..] == [];
    assert Run(w2, [check]) == Run(w3, []);
    assert Run(w1, [login, check]) == w3;
    assert Run(Init, [Start, login, check]) == w3;
  }

  /** With an expired token and no refresh file every later call fails in the
      same way, whatever the server would answer. */
  lemma {:induction false} DeadForever(f: Files, memory: Option<Token>, now: int, calls: seq<Call>)
    requires Expired(memory, now) && f.refresh.None? && NotBefore(calls, now)
    ensures |Outcomes(f, memory, calls)| == |calls|
    ensures forall i :: 0 <= i < |calls| ==> Outcomes(f, memory, calls)[i] == AuthError
    decreases |calls|
  {
    if calls != [] {
      var r := Perform(f, memory, calls[0]);
      assert r.outcome == AuthError && Expired(r.memory, now) && r.files.refresh.None?;
      DeadForever(r.files, r.memory, now, calls[1..]);
    }
  }

  /** The token cannot be decoded by a ValueError, or it has expired and the
      refresh file is missing or the refresh refused. */
  predicate Rejected(f: Files, memory: Option<Token>, now: int, reply: Reply) {
    && memory.Some? && memory.value.idToken.Some?
    && (memory.value.idToken.value == Undecodable(true) ||
        (Expired(memory, now) && (f.refresh.None? || (CanRefresh(f) && reply.Refused?))))
  }

  predicate Lost(before: Files, after: Files) {
    (before.access.Some? && after.access.None?) || (before.refresh.Some? && after.refresh.None?)
  }

  /** One of the file operations removed a file. */
  predicate Removes(f: Files, trail: seq<Files>)
    decreases |trail|
  {
    trail != [] && (Lost(f, trail[0]) || Removes(trail[0], trail[1..]))
  }

  lemma DeleteRemoves(f: Files)
    ensures Removes(f, DeleteTrail(f)) <==> f != Files(None, None)
  {
    if f != Files(None, None) {
      assert Lost(f, DeleteTrail(f)[0]);
    }
  }

  lemma ValidateDeletesIff(f: Files, memory: Option<Token>, now: int, reply: Reply)
    ensures
      var r := Validate(f, memory, now, reply);
      && (Removes(f, r.trail) <==> Rejected(f, memory, now, reply) && f != Files(None, None))
      && (Rejected(f, memory, now, reply) ==>
            r.files == Files(None, None) && r.memory == memory && r.outcome == AuthError)
      && (!Rejected(f, memory, now, reply) && !reply.Granted? ==> r.files == f && r.memory == memory)
  {
    DeleteRemoves(f);
  }

  /** A call removes a file exactly if there is one when `validate_login` rejects
      the token; then both are gone and the call fails. Otherwise, and unless the
      server grants a refresh, the files stay as they were at that check. */
  lemma CallDeletesIff(f: Files, memory: Option<Token>, c: Call)
    ensures
      var r, at := Perform(f, memory, c), AtCheck(f, memory, c);
      var rejected := at.Some? && Rejected(at.value.0, at.value.1, c.now, c.reply);
      && (Removes(f, r.trail) <==> rejected && at.value.0 != Files(None, None))
      && (rejected ==> r.files == Files(None, None) && r.outcome == AuthError)
      && (!rejected && !c.reply.Granted? ==> r.files == if at.Some? then at.value.0 else f)
  {
    if memory.Some? || c.Validating? {
      ValidateDeletesIff(f, memory, c.now, c.reply);
    } else if Exchanges(memory, c) {
      var e := Exchange(f, c.exchange);
      ValidateDeletesIff(e.files, e.memory, c.now, c.reply);
      var rest := Validate(e.files, e.memory, c.now, c.reply).trail;
      var trail := e.trail + rest;
      assert trail[1..] == [e.files] + rest && trail[1..][1..] == rest;
      assert Removes(f, trail) <==> Removes(e.files, rest);
    }
  }

  /** A login that returns has a token that had not expired, or that a refresh in
      this call was granted; a first one has stored the exchanged token in both
      files, and a later one asks nobody for a code. */
  lemma LoginOutcome(f: Files, memory: Option<Token>, exchange: Reply, now: int, reply: Reply)
    ensures
      var r := LogIn(f, memory, exchange, now, reply);
      && (r.outcome.Done? ==>
            && r.memory.Some?
            && ((reply.Granted? && r.memory == Some(reply.token)) ||
                (r.memory.value.idToken.Some? && r.memory.value.idToken.value.Jwt? &&
                 r.memory.value.idToken.value.exp.Some? && now <= r.memory.value.idToken.value.exp.value)))
      && (r.outcome.Done? && memory.None? ==> exchange.Granted? && r.files.refresh == Some(exchange.token))
      && (memory.None? && !exchange.Granted? ==> r.files == f && r.memory.None? && !r.outcome.Done?)
      && (memory.Some? ==> forall other :: LogIn(f, memory, other, now, reply) == r)
  {
  }

  /** `metadata`: validate, then the id token in memory. */
  function MetadataToken(f: Files, memory: Option<Token>, now: int, reply: Reply): Option<IdToken> {
    var r := Validate(f, memory, now, reply);
    if r.outcome.Done? && r.memory.Some? then r.memory.value.idToken else None
  }

  /** Every `metadata` that returns carries a token that had not expired when it
      was checked, or the one a refresh in this very call was granted; and it
      returns with a token exactly then. */
  lemma MetadataIsFresh(f: Files, memory: Option<Token>, now: int, reply: Reply)
    ensures
      var t := MetadataToken(f, memory, now, reply);
      t.Some? ==>
        || (memory.Some? && t == memory.value.idToken && t.value.Jwt? && t.value.exp.Some? && now <= t.value.exp.value)
        || (reply.Granted? && t == reply.token.idToken &&
            Validate(f, memory, now, reply).files.access == Some(reply.token))
    ensures
      MetadataToken(f, memory, now, reply) ==
        if Readable(memory) && now <= memory.value.idToken.value.exp.value then memory.value.idToken
        else if Expired(memory, now) && CanRefresh(f) && reply.Granted? then reply.token.idToken
        else None
  {
  }

  // ----------------------------------------------------------- the manager

  /** The two files. The trail records the disk after every file operation. */
  class Disk {
    var files: Files
    ghost var trail: seq<Files>

    constructor ()
      ensures files == Files(None, None) && trail == []
    {
      files, trail := Files(None, None), [];
    }

    method WriteAccess(token: Token)
      modifies this
      ensures files == old(files).(access := Some(token)) && trail == old(trail) + [files]
    {
      files := files.(access := Some(token));
      trail := trail + [files];
    }

    method WriteRefresh(token: Token)
      modifies this
      ensures files == old(files).(refresh := Some(token)) && trail == old(trail) + [files]
    {
      files := files.(refresh := Some(token));
      trail := trail + [files];
    }

    /** `_delete_auth_files`. */
    method DeleteAuthFiles()
      modifies this
      ensures files == Files(None, None) && trail == old(trail) + DeleteTrail(old(files))
    {
      if files.refresh.Some? {
        files := files.(refresh := None);
        trail := trail + [files];
      }
      if files.access.Some? {
        files := files.(access := None);
        trail := trail + [files];
      }
    }
  }

  class LoginManager {
    const disk: Disk
    var accessToken: Option<Token>

    constructor (disk: Disk)
      ensures this.disk == disk && accessToken == disk.files.access
    {
      this.disk, accessToken := disk, disk.files.access;
    }

    /** The call had exactly this effect. */
    twostate predicate Did(e: Effect, outcome: Outcome)
      reads this, disk
    {
      && disk.files == e.files && accessToken == e.memory && outcome == e.outcome
      && disk.trail == old(disk.trail) + e.trail
    }

    method RefreshAccessToken(reply: Reply) returns (outcome: Outcome)
      modifies this, disk
      ensures Did(Refresh(old(disk.files), old(accessToken), reply), outcome)
    {
      var refresh := disk.files.refresh;
      if refresh.None? {
        disk.DeleteAuthFiles();
        return AuthError;
      }
      if refresh.value.refreshToken.None? {
        return OtherError;
      }
      match reply
      case NoConnection => return AuthError;
      case Broken => return OtherError;
      case Refused =>
        disk.DeleteAuthFiles();
        return AuthError;
      case Granted(token) =>
        accessToken := Some(token);
        disk.WriteAccess(token);
        return Done;
    }

    method ValidateLogin(now: int, reply: Reply) returns (outcome: Outcome)
      modifies this, disk
      ensures Did(Validate(old(disk.files), old(accessToken), now, reply), outcome)
    {
      if accessToken.None? || accessToken.value.idToken.None? {
        return OtherError;
      }
      var idToken := accessToken.value.idToken.value;
      if idToken.Undecodable? {
        if idToken.valueError {
          disk.DeleteAuthFiles();
          return AuthError;
        }
        return OtherError;
      }
      if idToken.exp.None? {
        return OtherError;
      }
      outcome := Done;
      if now > idToken.exp.value {
        outcome := RefreshAccessToken(reply);
      }
    }

    method GetAccessToken(exchange: Reply) returns (outcome: Outcome)
      requires accessToken.None?
      modifies this, disk
      ensures Did(Exchange(old(disk.files), exchange), outcome)
    {
      match exchange
      case Granted(token) =>
        accessToken := Some(token);
        disk.WriteAccess(token);
        disk.WriteRefresh(token);
        return Done;
      case Refused => return AuthError;
      case _ => return OtherError;
    }

    method Login(exchange: Reply, now: int, reply: Reply) returns (outcome: Outcome)
      modifies this, disk
      ensures Did(LogIn(old(disk.files), old(accessToken), exchange, now, reply), outcome)
    {
      if accessToken.None? {
        outcome := GetAccessToken(exchange);
        if !outcome.Done? {
          return;
        }
      }
      outcome := ValidateLogin(now, reply);
    }

    /** The id token `metadata` attaches, or None when it raises. */
    method Metadata(now: int, reply: Reply) returns (token: Option<IdToken>)
      modifies this, disk
      ensures token == MetadataToken(old(disk.files), old(accessToken), now, reply)
      ensures
        var e := Validate(old(disk.files), old(accessToken), now, reply);
        Did(e, e.outcome)
    {
      var outcome := ValidateLogin(now, reply);
      if !outcome.Done? || accessToken.None? {
        return None;
      }
      return accessToken.value.idToken;
    }
  }
}
