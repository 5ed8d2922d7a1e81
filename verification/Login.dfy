/**
 Password login against any server: the requests it sends, and that it ends.

 A server is any sequence of replies, the n-th to the n-th request; that covers every
 strategy, since what is sent is determined by what came back before.
 */
module Login {
  import opened Results

  datatype Form = Form(deviceOtp: Option<string>, twoFactorToken: Option<string>, twoFactorProvider: Option<int>)

  datatype Request =
    | Prelogin(fallback: bool)
    | Token(fallback: bool, form: Form)
    | Sync

  // What the code looks at in a reply: its status, whether the body can be read, whether it
  // holds prelogin parameters or tokens with a key that opens, and what a refusal asks for.
  datatype Reply =
    | NoReply
    | Reply(status: nat, readable: bool, prelogin: bool, opens: bool, access: string, refresh: Option<string>,
            newDevice: bool, twoFactor: bool, providers: seq<int>, challenge: bool)

  datatype Net = Net(cloud: bool, replies: nat -> Reply)

  // Codes are given with the white space around them already removed.
  datatype Credentials = Credentials(code: Option<string>, provider: Option<int>, deviceOtp: Option<string>)

  datatype ApiResult =
    | Tokens(access: string, refresh: Option<string>)
    | TwoFactorRequired(providers: seq<int>, challenge: bool)
    | NewDeviceRequired
    | Failed

  predicate Succeeds(r: Reply) {
    r.Reply? && 200 <= r.status < 300
  }

  predicate IsNotFound(r: Reply) {
    r.Reply? && r.status == 404
  }

  predicate Refuses(r: Reply) {
    r.Reply? && !Succeeds(r) && !IsNotFound(r) && !(500 <= r.status < 600)
  }

  function PreloginTrace(net: Net, at: nat): (t: seq<Request>)
    ensures 1 <= |t| <= 2
  {
    [Prelogin(false)] + if IsNotFound(net.replies(at)) then [Prelogin(true)] else []
  }

  function TokenTrace(net: Net, at: nat, form: Form): (t: seq<Request>)
    ensures 1 <= |t| <= 2
  {
    [Token(false, form)] + if !net.cloud && IsNotFound(net.replies(at)) then [Token(true, form)] else []
  }

  // The reply that counts is the one to the last request of a trace.
  function LastReply(net: Net, at: nat, t: seq<Request>): Reply
    requires t != []
  {
    net.replies(at + |t| - 1)
  }

  function FormOf(c: Credentials): Form {
    if c.deviceOtp.Some? then Form(Some(c.deviceOtp.value), None, None)
    else if c.code.Some? then Form(None, Some(c.code.value), Some(if c.provider.Some? then c.provider.value else 0))
    else Form(None, None, None)
  }

  predicate GivesCode(c: Credentials) {
    c.code.Some? && c.code.value != ""
  }

  // The code sent once more, as a device verification code or as an e-mail code.
  function RetryForm(r: Reply, c: Credentials): Option<Form>
    requires Refuses(r)
  {
    if !r.readable || !GivesCode(c) then None
    else if r.newDevice then
      if c.deviceOtp.None? then Some(Form(Some(c.code.value), None, None)) else None
    else if r.twoFactor && c.provider.None? && 0 !in r.providers && 1 in r.providers then
      Some(FormOf(c).(twoFactorProvider := Some(1)))
    else None
  }

  function Refusal(r: Reply): ApiResult
    requires Refuses(r)
  {
    if !r.readable then Failed
    else if r.newDevice then NewDeviceRequired
    else if r.twoFactor then TwoFactorRequired(r.providers, r.challenge)
    else Failed
  }

  function Opened(r: Reply): ApiResult {
    if r.Reply? && r.readable && r.opens then Tokens(r.access, r.refresh) else Failed
  }

  datatype ApiRun = ApiRun(result: ApiResult, sent: seq<Request>)

  // The token request, and at most one retry.
  function TokenStage(net: Net, at: nat, c: Credentials): ApiRun {
    var b := TokenTrace(net, at, FormOf(c));
    var s := LastReply(net, at, b);
    if Succeeds(s) then ApiRun(Opened(s), b)
    else if !Refuses(s) then ApiRun(Failed, b)
    else
      match RetryForm(s, c)
      case None => ApiRun(Refusal(s), b)
      case Some(form) =>
        var d := TokenTrace(net, at + |b|, form);
        var t := LastReply(net, at + |b|, d);
        ApiRun(if Succeeds(t) && t.readable then Opened(t) else Refusal(s), b + d)
  }

  // One API login: the key derivation parameters first, then the token.
  function ApiLogin(net: Net, at: nat, c: Credentials): ApiRun {
    var a := PreloginTrace(net, at);
    var r := LastReply(net, at, a);
    if !Succeeds(r) || !r.readable || !r.prelogin then ApiRun(Failed, a)
    else
      var rest := TokenStage(net, at + |a|, c);
      rest.(sent := a + rest.sent)
  }

  // What the keyring and the security key do; the security key's token stands for the code.
  datatype World = World(keyringBefore: bool, keyringAfter: bool, storesAccess: bool, storesRefresh: bool, clears: bool,
                         securityKey: Option<string>)

  // The two tokens the keyring holds for the server.
  datatype Kept = Kept(access: Option<string>, refresh: Option<string>)

  // The server asks for a security key, the user has given no code, and the key answers.
  predicate WantsSecurityKey(r: ApiResult, w: World, c: Credentials) {
    r.TwoFactorRequired? && r.challenge && c.code.None? && w.securityKey.Some?
    && (c.provider == Some(7) || (c.provider.None? && r.providers == [7]))
  }

  function SecurityKeyCredentials(w: World, c: Credentials): (next: Credentials)
    requires w.securityKey.Some?
    ensures next.code.Some?
  {
    Credentials(w.securityKey, Some(7), c.deviceOtp)
  }

  // The whole login, with what the keyring holds afterwards.
  datatype Outcome = Outcome(ok: bool, sent: seq<Request>, kept: Kept, saved: bool)

  // The access token goes in first; when the refresh token is then refused, it is cleared again.
  function Settle(w: World, k: Kept, run: ApiRun): Outcome {
    if !run.result.Tokens? || !w.keyringAfter || !w.storesAccess then Outcome(false, run.sent, k, false)
    else
      var stored := k.(access := Some(run.result.access));
      if run.result.refresh.None? then Outcome(true, run.sent + [Sync], stored, true)
      else if w.storesRefresh then Outcome(true, run.sent + [Sync], stored.(refresh := run.result.refresh), true)
      else Outcome(false, run.sent, if w.clears then stored.(access := None) else stored, false)
  }

  function Continue(sent: seq<Request>, again: Outcome): Outcome {
    again.(sent := sent + again.sent)
  }

  // The API login that decides: the one the security key sets off, if it does.
  function Deciding(w: World, c: Credentials, first: ApiRun, second: ApiRun): ApiRun {
    if WantsSecurityKey(first.result, w, c) then second else first
  }

  // A login in terms of its first API login and of the one the security key sets off.
  function AuthLogin(w: World, k: Kept, c: Credentials, first: ApiRun, second: ApiRun): Outcome {
    if !w.keyringBefore then Outcome(false, [], k, false)
    else
      var o := Settle(w, k, Deciding(w, c, first, second));
      if WantsSecurityKey(first.result, w, c) then Continue(first.sent, o) else o
  }

  // The API login that follows another one.
  function SecondLogin(net: Net, w: World, at: nat, c: Credentials, first: ApiRun): ApiRun {
    if w.securityKey.None? then first
    else ApiLogin(net, at + |first.sent|, SecurityKeyCredentials(w, c))
  }

  // ----- the same as the code runs it -----

  class Client {
    const net: Net
    var sent: seq<Request>

    constructor (net: Net)
      ensures this.net == net && sent == []
    {
      this.net, sent := net, [];
    }

    method Send(r: Request) returns (reply: Reply)
      modifies this
      ensures sent == old(sent) + [r] && reply == net.replies(|old(sent)|)
    {
      reply := net.replies(|sent|);
      sent := sent + [r];
    }

    method PostPrelogin() returns (reply: Reply)
      modifies this
      ensures var t := PreloginTrace(net, |old(sent)|);
              sent == old(sent) + t && reply == LastReply(net, |old(sent)|, t)
    {
      reply := Send(Prelogin(false));
      if IsNotFound(reply) {
        reply := Send(Prelogin(true));
      }
    }

    method PostToken(form: Form) returns (reply: Reply)
      modifies this
      ensures var t := TokenTrace(net, |old(sent)|, form);
              sent == old(sent) + t && reply == LastReply(net, |old(sent)|, t)
    {
      reply := Send(Token(false, form));
      if !net.cloud && IsNotFound(reply) {
        reply := Send(Token(true, form));
      }
    }

    method RequestToken(c: Credentials) returns (r: ApiResult)
      modifies this
      ensures var run := TokenStage(net, |old(sent)|, c); r == run.result && sent == old(sent) + run.sent
    {
      var reply := PostToken(FormOf(c));
      if Succeeds(reply) {
        return Opened(reply);
      }
      if !Refuses(reply) {
        return Failed;
      }
      var form := RetryForm(reply, c);
      if form.Some? {
        var retried := PostToken(form.value);
        if Succeeds(retried) && retried.readable {
          return Opened(retried);
        }
      }
      return Refusal(reply);
    }

    method LoginPassword(c: Credentials) returns (r: ApiResult)
      modifies this
      ensures var run := ApiLogin(net, |old(sent)|, c); r == run.result && sent == old(sent) + run.sent
    {
      hide TokenStage;
      hide PreloginTrace;
      var reply := PostPrelogin();
      if !Succeeds(reply) || !reply.readable || !reply.prelogin {
        return Failed;
      }
      r := RequestToken(c);
    }
  }

  class Keyring {
    var kept: Kept

    constructor (kept: Kept)
      ensures this.kept == kept
    {
      this.kept := kept;
    }

    method StoreAccess(token: string, works: bool) returns (ok: bool)
      modifies this
      ensures ok == works && kept == if works then old(kept).(access := Some(token)) else old(kept)
    {
      if works {
        kept := kept.(access := Some(token));
      }
      ok := works;
    }

    method StoreRefresh(token: string, works: bool) returns (ok: bool)
      modifies this
      ensures ok == works && kept == if works then old(kept).(refresh := Some(token)) else old(kept)
    {
      if works {
        kept := kept.(refresh := Some(token));
      }
      ok := works;
    }

    method ClearAccess(works: bool)
      modifies this
      ensures kept == if works then old(kept).(access := None) else old(kept)
    {
      if works {
        kept := kept.(access := None);
      }
    }
  }

  // What comes after the API login; whether the clear worked is not looked at.
  method StoreTokens(client: Client, keyring: Keyring, w: World, ghost run: ApiRun, r: ApiResult) returns (ok: bool, saved: bool)
    requires r == run.result
    modifies client, keyring
    ensures old(client.sent) <= client.sent
    ensures var o := Settle(w, old(keyring.kept), run);
            ok == o.ok && saved == o.saved && keyring.kept == o.kept && run.sent + client.sent[|old(client.sent)|..] == o.sent
  {
    assert run.sent + client.sent[|client.sent|..] == run.sent;
    if !r.Tokens? || !w.keyringAfter {
      return false, false;
    }
    var stored := keyring.StoreAccess(r.access, w.storesAccess);
    if !stored {
      return false, false;
    }
    if r.refresh.Some? {
      stored := keyring.StoreRefresh(r.refresh.value, w.storesRefresh);
      if !stored {
        keyring.ClearAccess(w.clears);
        return false, false;
      }
    }
    var _ := client.Send(Sync);
    return true, true;
  }

  // The code calls itself, with the security key's token for a code. It never gets further than
  // one such call, and saves storage only at the very end.
  method LoginPassword(client: Client, keyring: Keyring, w: World, c: Credentials)
    returns (ok: bool, saved: bool, ghost first: ApiRun)
    modifies client, keyring
    ensures first == ApiLogin(client.net, |old(client.sent)|, c)
    ensures var o := AuthLogin(w, old(keyring.kept), c, first, SecondLogin(client.net, w, |old(client.sent)|, c, first));
            ok == o.ok && saved == o.saved && keyring.kept == o.kept && client.sent == old(client.sent) + o.sent
    decreases if c.code.None? then 1 else 0
  {
    hide ApiLogin;
    hide Settle;
    first := ApiLogin(client.net, |client.sent|, c);
    if !w.keyringBefore {
      return false, false, first;
    }
    ghost var start := client.sent;
    var r := client.LoginPassword(c);
    if WantsSecurityKey(r, w, c) {
      ghost var second;
      ok, saved, second := LoginPassword(client, keyring, w, SecurityKeyCredentials(w, c));
      return ok, saved, first;
    }
    ok, saved := StoreTokens(client, keyring, w, first, r);
    Appended(start, first.sent, client.sent);
  }

  lemma Appended(start: seq<Request>, more: seq<Request>, all: seq<Request>)
    requires start + more <= all
    ensures all == start + (more + all[|start + more|..])
  {
  }

  // ----- what is sent, in terms of the replies -----

  predicate StatusIn(r: Reply, lo: nat, hi: nat) {
    r.Reply? && lo <= r.status < hi
  }

  // How many requests a post makes: one more, to the other address, just after a 404.
  function Posted(net: Net, at: nat, falls: bool): nat {
    if falls && StatusIn(net.replies(at), 404, 405) then 2 else 1
  }

  // A refusal the code reads on: neither success nor 404 nor a server error, with a body.
  predicate ReadsOn(r: Reply) {
    r.Reply? && r.readable && !StatusIn(r, 200, 300) && !StatusIn(r, 404, 405) && !StatusIn(r, 500, 600)
  }

  predicate AsksForDevice(r: Reply, c: Credentials) {
    ReadsOn(r) && r.newDevice && c.code.Some? && c.code.value != "" && c.deviceOtp.None?
  }

  predicate AsksForEmail(r: Reply, c: Credentials) {
    ReadsOn(r) && !r.newDevice && r.twoFactor && c.code.Some? && c.code.value != "" && c.provider.None?
    && 0 !in r.providers && 1 in r.providers
  }

  predicate PostsForm(sent: seq<Request>, from: nat, n: nat, f: Form) {
    1 <= n <= 2 && from + n <= |sent| && sent[from] == Token(false, f) && (n == 2 ==> sent[from + 1] == Token(true, f))
  }

  // The first form carries the device code alone, or the code with its provider, the authenticator
  // unless told otherwise, or nothing. A second one is sent only for a new device, with the code as
  // device code and nothing else, or for e-mail, with the same codes and provider 1.
  lemma TokenForms(net: Net, at: nat, c: Credentials)
    ensures var sent := TokenStage(net, at, c).sent;
            var n := Posted(net, at, !net.cloud);
            var reply := net.replies(at + n - 1);
            var code := if c.deviceOtp.Some? then None else c.code;
            var provider := if code.None? then None else if c.provider.Some? then c.provider else Some(0);
            && PostsForm(sent, 0, n, Form(c.deviceOtp, code, provider))
            && (if AsksForDevice(reply, c) || AsksForEmail(reply, c) then
                  var m := Posted(net, at + n, !net.cloud);
                  var second := if AsksForDevice(reply, c) then Form(c.code, None, None) else Form(c.deviceOtp, code, Some(1));
                  |sent| == n + m && PostsForm(sent, n, m, second)
                else |sent| == n)
  {
  }

  function TokensOf(r: Reply): ApiResult {
    if r.Reply? && r.readable && r.opens then Tokens(r.access, r.refresh) else Failed
  }

  // What comes of it: the tokens of the first or of the second reply, or what the first one asks for.
  lemma TokenResult(net: Net, at: nat, c: Credentials)
    ensures var n := Posted(net, at, !net.cloud);
            var reply := net.replies(at + n - 1);
            var again := net.replies(at + n + Posted(net, at + n, !net.cloud) - 1);
            TokenStage(net, at, c).result ==
              if StatusIn(reply, 200, 300) then TokensOf(reply)
              else if !ReadsOn(reply) then Failed
              else if (AsksForDevice(reply, c) || AsksForEmail(reply, c)) && StatusIn(again, 200, 300) && again.readable then TokensOf(again)
              else if reply.newDevice then NewDeviceRequired
              else if reply.twoFactor then TwoFactorRequired(reply.providers, reply.challenge)
              else Failed
  {
  }

  // The parameters are asked for first, and nothing else without them.
  lemma PreloginFirst(net: Net, at: nat, c: Credentials)
    ensures var run, n := ApiLogin(net, at, c), Posted(net, at, true);
            var reply, stage := net.replies(at + n - 1), TokenStage(net, at + n, c);
            && n <= |run.sent| && run.sent[0] == Prelogin(false) && (n == 2 ==> run.sent[1] == Prelogin(true))
            && (if StatusIn(reply, 200, 300) && reply.readable && reply.prelogin
                then run.result == stage.result && run.sent[n..] == stage.sent
                else run.result == Failed && |run.sent| == n)
  {
    hide TokenStage;
  }

  // A security key is asked just when the server challenges, no code was given, and the key is what
  // the user chose or all the server offers; its token then goes as a code for provider 7.
  lemma SecurityKeyExactly(r: ApiResult, w: World, c: Credentials)
    ensures WantsSecurityKey(r, w, c) <==>
              r.TwoFactorRequired? && r.challenge && c.code.None? && w.securityKey.Some?
              && (c.provider == Some(7) || (c.provider.None? && r.providers == [7]))
    ensures w.securityKey.Some? ==> SecurityKeyCredentials(w, c) == Credentials(w.securityKey, Some(7), c.deviceOtp)
  {
  }

  // A login succeeds just when its API login gives tokens and the keyring is there throughout and
  // takes what it is given.
  lemma SucceedsExactly(w: World, k: Kept, c: Credentials, first: ApiRun, second: ApiRun)
    ensures var r := Deciding(w, c, first, second).result;
            AuthLogin(w, k, c, first, second).ok <==>
              w.keyringBefore && r.Tokens? && w.keyringAfter && w.storesAccess && (r.refresh.Some? ==> w.storesRefresh)
  {
  }

  // ----- how much is sent -----

  // Requests to count: prelogins and token posts to the first address, forms that carry both
  // kinds of code, and syncs.
  datatype Tag = Prelogins | Posts | Doubles | Syncs

  predicate Is(tag: Tag, r: Request) {
    match tag
    case Prelogins => r == Prelogin(false)
    case Posts => r.Token? && !r.fallback
    case Doubles => r.Token? && r.form.deviceOtp.Some? && r.form.twoFactorToken.Some?
    case Syncs => r == Sync
  }

  function Count(sent: seq<Request>, tag: Tag): nat {
    if sent == [] then 0 else Count(sent[..|sent| - 1], tag) + if Is(tag, sent[|sent| - 1]) then 1 else 0
  }

  lemma {:induction false} CountConcat(a: seq<Request>, b: seq<Request>, tag: Tag)
    ensures Count(a + b, tag) == Count(a, tag) + Count(b, tag)
  {
    if b == [] {
      assert a + b == a;
    } else {
      CountConcat(a, b[..|b| - 1], tag);
      assert (a + b)[..|a + b| - 1] == a + b[..|b| - 1];
    }
  }

  // A first request, and perhaps its fallback, which counts for nothing but its form.
  lemma CountPair(first: Request, second: Request, more: bool, tag: Tag)
    requires !Is(tag, second)
    ensures Count([first] + (if more then [second] else []), tag) == if Is(tag, first) then 1 else 0
  {
    assert [first][..0] == [] && Count([first], tag) == if Is(tag, first) then 1 else 0;
    if more {
      assert ([first] + [second])[..1] == [first];
    } else {
      assert [first] + [] == [first];
    }
  }

  // At most so many requests of each kind, no form with both kinds of code, and no sync.
  predicate Within(sent: seq<Request>, size: nat, prelogins: nat, posts: nat) {
    && |sent| <= size && Count(sent, Prelogins) <= prelogins && Count(sent, Posts) <= posts
    && Count(sent, Doubles) == 0 && Count(sent, Syncs) == 0
  }

  lemma WithinConcat(a: seq<Request>, n: nat, p: nat, t: nat, b: seq<Request>, n': nat, p': nat, t': nat)
    requires Within(a, n, p, t) && Within(b, n', p', t')
    ensures Within(a + b, n + n', p + p', t + t')
  {
    CountConcat(a, b, Prelogins);
    CountConcat(a, b, Posts);
    CountConcat(a, b, Doubles);
    CountConcat(a, b, Syncs);
  }

  lemma WithinMore(sent: seq<Request>, n: nat, p: nat, t: nat, n': nat, p': nat, t': nat)
    requires Within(sent, n, p, t) && n <= n' && p <= p' && t <= t'
    ensures Within(sent, n', p', t')
  {
  }

  lemma PreloginWithin(net: Net, at: nat)
    ensures Within(PreloginTrace(net, at), 2, 1, 0)
  {
    var more := IsNotFound(net.replies(at));
    CountPair(Prelogin(false), Prelogin(true), more, Prelogins);
    CountPair(Prelogin(false), Prelogin(true), more, Posts);
    CountPair(Prelogin(false), Prelogin(true), more, Doubles);
    CountPair(Prelogin(false), Prelogin(true), more, Syncs);
  }

  lemma TokenWithin(net: Net, at: nat, form: Form)
    requires form.deviceOtp.None? || form.twoFactorToken.None?
    ensures Within(TokenTrace(net, at, form), 2, 0, 1)
  {
    var x, y, more := Token(false, form), Token(true, form), !net.cloud && IsNotFound(net.replies(at));
    CountPair(x, y, more, Prelogins);
    CountPair(x, y, more, Posts);
    CountPair(x, y, more, Doubles);
    CountPair(x, y, more, Syncs);
  }

  // The requests of a token stage: a token request, and with a code in hand perhaps another.
  lemma TokenStageShape(net: Net, at: nat, c: Credentials) returns (retry: Option<Form>)
    ensures var b := TokenTrace(net, at, FormOf(c));
            TokenStage(net, at, c).sent == if retry.Some? then b + TokenTrace(net, at + |b|, retry.value) else b
    ensures retry.Some? ==> GivesCode(c) && (retry.value.deviceOtp.None? || retry.value.twoFactorToken.None?)
  {
    var s := LastReply(net, at, TokenTrace(net, at, FormOf(c)));
    retry := if Refuses(s) then RetryForm(s, c) else None;
  }

  lemma TokenStageBound(net: Net, at: nat, c: Credentials)
    ensures var sent := TokenStage(net, at, c).sent;
            if GivesCode(c) then Within(sent, 4, 0, 2) else Within(sent, 2, 0, 1)
  {
    hide TokenStage;
    hide TokenTrace;
    hide Within;
    var retry := TokenStageShape(net, at, c);
    var b := TokenTrace(net, at, FormOf(c));
    TokenWithin(net, at, FormOf(c));
    WithinMore(b, 2, 0, 1, 4, 0, 2);
    if retry.Some? {
      TokenWithin(net, at + |b|, retry.value);
      WithinConcat(b, 2, 0, 1, TokenTrace(net, at + |b|, retry.value), 2, 0, 1);
    }
  }

  // One API login asks for its parameters once and posts for a token at most twice, the second
  // time only with a code in hand; no form carries both kinds of code.
  lemma ApiLoginBound(net: Net, at: nat, c: Credentials)
    ensures var sent := ApiLogin(net, at, c).sent;
            if GivesCode(c) then Within(sent, 6, 1, 2) else Within(sent, 4, 1, 1)
  {
    hide TokenStage;
    hide PreloginTrace;
    hide Within;
    var a := PreloginTrace(net, at);
    var rest := TokenStage(net, at + |a|, c).sent;
    PreloginWithin(net, at);
    TokenStageBound(net, at + |a|, c);
    WithinMore(a, 2, 1, 0, 4, 1, 1);
    WithinMore(a, 2, 1, 0, 6, 1, 2);
    if GivesCode(c) {
      WithinConcat(a, 2, 1, 0, rest, 4, 0, 2);
    } else {
      WithinConcat(a, 2, 1, 0, rest, 2, 0, 1);
    }
  }

  // How a login ends: only a complete one saves anything, and only it asks for the vault.
  predicate EndsWell(o: Outcome, size: nat, prelogins: nat) {
    && |o.sent| <= size && Count(o.sent, Prelogins) <= prelogins && Count(o.sent, Doubles) == 0
    && Count(o.sent, Syncs) == (if o.ok then 1 else 0)
    && o.saved == o.ok
  }

  lemma SettleBound(w: World, k: Kept, run: ApiRun, size: nat, posts: nat)
    requires Within(run.sent, size, 1, posts)
    ensures EndsWell(Settle(w, k, run), size + 1, 1)
  {
    CountConcat(run.sent, [Sync], Prelogins);
    CountConcat(run.sent, [Sync], Doubles);
    CountConcat(run.sent, [Sync], Syncs);
    assert [Sync][..0] == [];
  }

  lemma ContinueBound(sent: seq<Request>, again: Outcome, posts: nat)
    requires Within(sent, 4, 1, posts) && EndsWell(again, 7, 1)
    ensures EndsWell(Continue(sent, again), 11, 2)
  {
    CountConcat(sent, again.sent, Prelogins);
    CountConcat(sent, again.sent, Doubles);
    CountConcat(sent, again.sent, Syncs);
  }

  // A login starts at most two API logins, one of them for the security key, and sends at most
  // eleven requests.
  lemma OutcomeBound(w: World, k: Kept, c: Credentials, first: ApiRun, second: ApiRun)
    requires if GivesCode(c) then Within(first.sent, 6, 1, 2) else Within(first.sent, 4, 1, 1)
    requires Within(second.sent, 6, 1, 2)
    ensures EndsWell(AuthLogin(w, k, c, first, second), if c.code.None? then 11 else 7, if c.code.None? then 2 else 1)
  {
    hide Settle;
    if w.keyringBefore {
      if WantsSecurityKey(first.result, w, c) {
        SettleBound(w, k, second, 6, 2);
        ContinueBound(first.sent, Settle(w, k, second), 1);
      } else if GivesCode(c) {
        SettleBound(w, k, first, 6, 2);
      } else {
        SettleBound(w, k, first, 4, 1);
      }
    }
  }

  lemma LoginBound(net: Net, w: World, k: Kept, at: nat, c: Credentials)
    ensures var first := ApiLogin(net, at, c);
            EndsWell(AuthLogin(w, k, c, first, SecondLogin(net, w, at, c, first)),
                     if c.code.None? then 11 else 7, if c.code.None? then 2 else 1)
  {
    hide ApiLogin;
    var first := ApiLogin(net, at, c);
    ApiLoginBound(net, at, c);
    if w.securityKey.Some? {
      ApiLoginBound(net, at + |first.sent|, SecurityKeyCredentials(w, c));
    }
    OutcomeBound(w, k, c, first, SecondLogin(net, w, at, c, first));
  }

  // ----- what is left in the keyring -----

  // The keyring takes the access token and then refuses the refresh token.
  predicate RefreshRefused(w: World, r: ApiResult) {
    w.keyringBefore && w.keyringAfter && w.storesAccess && r.Tokens? && r.refresh.Some? && !w.storesRefresh
  }

  // A login that fails leaves the keyring as it was, except when the refresh token is refused:
  // then the access token it held before is gone, and the login's own stays if and only if
  // clearing it fails as well.
  lemma FailedLogin(w: World, k: Kept, c: Credentials, first: ApiRun, second: ApiRun)
    requires !AuthLogin(w, k, c, first, second).ok
    ensures var o, r := AuthLogin(w, k, c, first, second), Deciding(w, c, first, second).result;
            && o.kept.refresh == k.refresh
            && (!RefreshRefused(w, r) ==> o.kept == k)
            && (RefreshRefused(w, r) ==> o.kept.access == if w.clears then None else Some(r.access))
            && (r.Tokens? && k.access != Some(r.access) ==>
                  (o.kept.access == Some(r.access) <==> RefreshRefused(w, r) && !w.clears))
  {
  }

  // One that succeeds leaves its own access token; an earlier refresh token stays when no new one
  // came.
  lemma GoodLogin(w: World, k: Kept, c: Credentials, first: ApiRun, second: ApiRun)
    requires AuthLogin(w, k, c, first, second).ok
    ensures var o, r := AuthLogin(w, k, c, first, second), Deciding(w, c, first, second).result;
            && r.Tokens? && o.kept.access == Some(r.access)
            && o.kept.refresh == (if r.refresh.Some? then r.refresh else k.refresh)
  {
  }

  // The bound is reached: every first address answers 404, the server asks for the security
  // key and then for device verification.
  function WorstReplies(n: nat): Reply {
    match n
    case 1 | 5 => Reply(200, true, true, false, "", None, false, false, [], false)
    case 3 => Reply(400, true, false, false, "", None, false, true, [7], true)
    case 7 => Reply(400, true, false, false, "", None, true, false, [], false)
    case 9 => Reply(200, true, false, true, "access", Some("refresh"), false, false, [], false)
    case _ => Reply(404, true, false, false, "", None, false, false, [], false)
  }

  function Worst(): Net {
    Net(false, WorstReplies)
  }

  lemma WorstFirst()
    ensures var run := ApiLogin(Worst(), 0, Credentials(None, None, None));
            |run.sent| == 4 && run.result == TwoFactorRequired([7], true)
  {
    var c := Credentials(None, None, None);
    assert |PreloginTrace(Worst(), 0)| == 2 && |TokenTrace(Worst(), 2, FormOf(c))| == 2;
  }

  lemma WorstSecond()
    ensures var run := ApiLogin(Worst(), 4, Credentials(Some("token"), Some(7), None));
            |run.sent| == 6 && run.result == Tokens("access", Some("refresh"))
  {
    var c, retry := Credentials(Some("token"), Some(7), None), Form(Some("token"), None, None);
    assert Worst().replies(5) == WorstReplies(5) && Worst().replies(7) == WorstReplies(7);
    assert |PreloginTrace(Worst(), 4)| == 2 && |TokenTrace(Worst(), 6, FormOf(c))| == 2;
    assert RetryForm(Worst().replies(7), c) == Some(retry) && |TokenTrace(Worst(), 8, retry)| == 2;
  }

  lemma BoundReached()
    ensures var w, k, c := World(true, true, true, true, true, Some("token")), Kept(None, None), Credentials(None, None, None);
            var first := ApiLogin(Worst(), 0, c);
            var o := AuthLogin(w, k, c, first, SecondLogin(Worst(), w, 0, c, first));
            o.ok && |o.sent| == 11
  {
    WorstFirst();
    WorstSecond();
  }

  // The same server with a keyring that refuses the refresh token and the clear: the login fails
  // and its access token stays.
  lemma TokenLeftBehind()
    ensures var w, k, c := World(true, true, true, false, false, Some("token")), Kept(None, None), Credentials(None, None, None);
            var first := ApiLogin(Worst(), 0, c);
            var o := AuthLogin(w, k, c, first, SecondLogin(Worst(), w, 0, c, first));
            !o.ok && o.kept.access == Some("access")
  {
    WorstFirst();
    WorstSecond();
  }
}
