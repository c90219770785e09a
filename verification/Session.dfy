/** The cached session and its refresh (crates/auth-internal/src/client.rs,
    resolver.rs, refresh.rs, renewal.rs; token sets from device.rs). */
module Tokens {
  import opened Wrappers

  /** A token, with the issuer and the client it is of. */
  datatype Token = Token(issuer: string, client: string, text: string)

  const MAX_I64 := 0x7FFF_FFFF_FFFF_FFFF
  const MIN_I64 := -0x8000_0000_0000_0000

  /** `i64::saturating_add`. */
  function SaturatingAdd(a: int, b: int): int {
    if a + b > MAX_I64 then MAX_I64 else if a + b < MIN_I64 then MIN_I64 else a + b
  }

  function Distance(a: int, b: int): int {
    if a < b then b - a else a - b
  }

  /** The sum, or the 64-bit number that comes nearest to it. */
  lemma SaturatingAddIsNearest(a: int, b: int, x: int)
    requires MIN_I64 <= x <= MAX_I64
    ensures MIN_I64 <= SaturatingAdd(a, b) <= MAX_I64
    ensures Distance(SaturatingAdd(a, b), a + b) <= Distance(x, a + b)
  {
  }

  /** A successful answer of a token endpoint. */
  datatype TokenResponse = TokenResponse(
    accessToken: string, refreshToken: Option<string>, expiresIn: int, tokenType: Option<string>, scope: Option<string>)

  datatype TokenSet = TokenSet(accessToken: Token, refreshToken: Token, expiresAt: int, tokenType: string, scope: string)

  /** The token set of an answer of `issuer` to `client`. The refresh token is the
      rotated one, and the one before when the answer holds none. */
  function IntoSet(r: TokenResponse, issuer: string, client: string, now: int, previous: Option<Token>): (t: TokenSet)
    ensures t.accessToken == Token(issuer, client, r.accessToken) && t.expiresAt == SaturatingAdd(now, r.expiresIn)
    ensures t.tokenType == match r.tokenType { case Some(given) => given case None => "Bearer" }
    ensures t.scope == match r.scope { case Some(given) => given case None => "" }
    ensures previous.Some? && previous.value.text != "" ==> t.refreshToken.text != ""
    ensures previous.Some? && previous.value.issuer == issuer && previous.value.client == client ==>
              t.refreshToken.issuer == issuer && t.refreshToken.client == client
    ensures r.refreshToken.Some? && r.refreshToken.value != "" ==> t.refreshToken == Token(issuer, client, r.refreshToken.value)
    ensures (r.refreshToken.None? || r.refreshToken.value == "") && previous.Some? ==> t.refreshToken == previous.value
  {
    var refreshToken :=
      if r.refreshToken.Some? && r.refreshToken.value != "" then Token(issuer, client, r.refreshToken.value)
      else if previous.Some? then previous.value
      else Token(issuer, client, "");
    TokenSet(Token(issuer, client, r.accessToken), refreshToken, SaturatingAdd(now, r.expiresIn),
             if r.tokenType.Some? then r.tokenType.value else "Bearer",
             if r.scope.Some? then r.scope.value else "")
  }
}

module Sessions {
  import opened Wrappers
  import opened Tokens

  /** The cached session. */
  datatype ProfileCreds = ProfileCreds(
    apiUrl: string, issuer: string, clientId: string, accessToken: Token, refreshToken: Token,
    expiresAt: int, tokenType: string, scope: string, subject: string, username: string)

  /** Both tokens are of the issuer and the client the session names. */
  predicate IsBound(pc: ProfileCreds) {
    && pc.accessToken.issuer == pc.issuer && pc.accessToken.client == pc.clientId
    && pc.refreshToken.issuer == pc.issuer && pc.refreshToken.client == pc.clientId
  }

  predicate IsSameLogin(a: ProfileCreds, b: ProfileCreds) {
    a.issuer == b.issuer && a.clientId == b.clientId
  }

  /** The session with its tokens replaced. */
  function ApplyTokens(pc: ProfileCreds, tokens: TokenSet): ProfileCreds {
    pc.(accessToken := tokens.accessToken, refreshToken := tokens.refreshToken, expiresAt := tokens.expiresAt,
        tokenType := tokens.tokenType, scope := tokens.scope)
  }

  function Refreshed(pc: ProfileCreds, response: TokenResponse, now: int): (updated: ProfileCreds)
    ensures IsBound(pc) ==> IsBound(updated)
    ensures IsSameLogin(updated, pc) && updated.apiUrl == pc.apiUrl && updated.subject == pc.subject && updated.username == pc.username
    ensures updated.accessToken == Token(pc.issuer, pc.clientId, response.accessToken)
    ensures updated.expiresAt == SaturatingAdd(now, response.expiresIn)
    ensures updated.tokenType == match response.tokenType { case Some(given) => given case None => "Bearer" }
    ensures updated.scope == match response.scope { case Some(given) => given case None => "" }
    ensures updated.refreshToken == if response.refreshToken in {None, Some("")} then pc.refreshToken
                                    else Token(pc.issuer, pc.clientId, response.refreshToken.value)
    ensures pc.refreshToken.text != "" ==> updated.refreshToken.text != ""
  {
    ApplyTokens(pc, IntoSet(response, pc.issuer, pc.clientId, now, Some(pc.refreshToken)))
  }

  /** What a refresh leaves in the file: the refreshed session, where there is one. */
  function Persisted(file: Option<ProfileCreds>, updated: ProfileCreds): Option<ProfileCreds> {
    if file.Some? then Some(updated) else None
  }

  // --- Every interleaving on the credentials file ---

  /** `Refresh` takes the session the file held at state `read`, and persists it
      now: between the two the file may have changed in any way. */
  datatype Event = Login(pc: ProfileCreds) | Logout | Refresh(read: nat, response: TokenResponse, now: int)

  ghost predicate Follows(states: seq<Option<ProfileCreds>>, i: nat, e: Event)
    requires i + 1 < |states|
  {
    match e
    case Login(pc) => states[i + 1] == Some(pc)
    case Logout => states[i + 1] == None
    case Refresh(read, response, now) =>
      && read <= i && states[read].Some?
      && states[i + 1] == Persisted(states[i], Refreshed(states[read].value, response, now))
  }

  ghost predicate IsHistory(states: seq<Option<ProfileCreds>>, events: seq<Event>) {
    |states| == |events| + 1 && forall i :: 0 <= i < |events| ==> Follows(states, i, events[i])
  }

  predicate IsBoundSession(session: Option<ProfileCreds>) {
    session.Some? ==> IsBound(session.value)
  }

  /** In every interleaving the file holds only sessions whose tokens are of the
      issuer and client they name. */
  lemma {:induction false} HistoryIsBound(states: seq<Option<ProfileCreds>>, events: seq<Event>, n: nat)
    requires IsHistory(states, events) && IsBoundSession(states[0]) && n < |states|
    requires forall i :: 0 <= i < |events| && events[i].Login? ==> IsBound(events[i].pc)
    ensures IsBoundSession(states[n])
  {
    if n > 0 {
      assert Follows(states, n - 1, events[n - 1]);
      if events[n - 1].Refresh? { HistoryIsBound(states, events, events[n - 1].read); }
    }
  }

  /** No refresh turns a refresh token empty, whatever became of the file since it
      read the session. */
  lemma RefreshKeepsToken(states: seq<Option<ProfileCreds>>, events: seq<Event>, i: nat)
    requires IsHistory(states, events) && i < |events| && events[i].Refresh?
    ensures var read := states[events[i].read];
            read.Some? && (states[i + 1].Some? && read.value.refreshToken.text != "" ==> states[i + 1].value.refreshToken.text != "")
  {
    assert Follows(states, i, events[i]);
  }

  /** Where the session of a state comes from: the start, or a login. */
  ghost predicate IsOrigin(states: seq<Option<ProfileCreds>>, events: seq<Event>, n: nat, o: nat)
    requires IsHistory(states, events) && n < |states|
  {
    && o <= n && (o == 0 || events[o - 1].Login?) && states[o].Some? && states[n].Some?
    && IsSameLogin(states[n].value, states[o].value)
    && (states[o].value.refreshToken.text != "" ==> states[n].value.refreshToken.text != "")
  }

  /** In every interleaving the session on file is one of the start or of a login, of
      that login's issuer and client, with a refresh token if it came with one. */
  lemma {:induction false} HistoryHasOrigin(states: seq<Option<ProfileCreds>>, events: seq<Event>, n: nat) returns (o: nat)
    requires IsHistory(states, events) && n < |states| && states[n].Some?
    ensures IsOrigin(states, events, n, o)
  {
    if n == 0 || events[n - 1].Login? {
      o := n;
    } else {
      assert Follows(states, n - 1, events[n - 1]);
      o := HistoryHasOrigin(states, events, events[n - 1].read);
    }
  }

  /** In every interleaving only a login brings a removed session back. */
  lemma {:induction false} RemovedStaysRemoved(states: seq<Option<ProfileCreds>>, events: seq<Event>, from: nat, to: nat)
    requires IsHistory(states, events) && from <= to < |states| && states[from].None?
    requires forall i :: from <= i < to ==> !events[i].Login?
    ensures states[to].None?
  {
    if from < to {
      RemovedStaysRemoved(states, events, from, to - 1);
      assert Follows(states, to - 1, events[to - 1]);
    }
  }

  /** A refresh leaves the login of the file in place exactly when the session it
      read is of that login: the second look asks only whether there is one. */
  lemma RefreshKeepsLoginExactly(file: ProfileCreds, read: ProfileCreds, response: TokenResponse, now: int)
    ensures var after := Persisted(Some(file), Refreshed(read, response, now));
            after.Some? && (IsSameLogin(after.value, file) <==> IsSameLogin(read, file))
  {
  }

  /** A refresh of one login can undo a login at another platform. */
  lemma UndoneLoginExample(a: ProfileCreds, b: ProfileCreds, response: TokenResponse, now: int)
    requires !IsSameLogin(a, b)
    ensures var updated := Refreshed(a, response, now);
            IsHistory([Some(a), Some(b), Some(updated)], [Login(b), Refresh(0, response, now)]) && !IsSameLogin(updated, b)
  {
    var updated := Refreshed(a, response, now);
    var states, events := [Some(a), Some(b), Some(updated)], [Login(b), Refresh(0, response, now)];
    assert Follows(states, 0, events[0]) && Follows(states, 1, events[1]);
  }

  // --- One process among others ---

  datatype Error = NotAuthenticated | Unreadable | RequestFailed | NotDiscovered | RefreshRefused | SaveFailed | WrongPlatform
  datatype Result<+T> = Ok(value: T) | Err(error: Error)

  /** The credentials file on disk: parsed, or not readable. */
  datatype Stored = Unparsable | Holds(session: Option<ProfileCreds>)

  predicate IsBoundFile(stored: Stored) {
    stored.Holds? && stored.session.Some? ==> IsBound(stored.session.value)
  }

  /** The file as one process sees it: before each of its own steps, `others` says
      what other processes have made of it. */
  class CredentialsFile {
    var stored: Stored
    var turn: nat
    const others: nat -> Option<Stored>
    const canSave: nat -> bool

    constructor (stored: Stored, others: nat -> Option<Stored>, canSave: nat -> bool)
      requires IsBoundFile(stored) && forall n :: others(n).Some? ==> IsBoundFile(others(n).value)
      ensures Valid() && this.stored == stored
    {
      this.stored, turn, this.others, this.canSave := stored, 0, others, canSave;
    }

    ghost predicate Valid()
      reads this
    {
      IsBoundFile(stored) && forall n :: others(n).Some? ==> IsBoundFile(others(n).value)
    }

    /** What the next look at the file finds. */
    function Now(): Stored
      reads this
    {
      if others(turn).Some? then others(turn).value else stored
    }

    method Load() returns (r: Result<Option<ProfileCreds>>)
      requires Valid()
      modifies this
      ensures Valid() && stored == old(Now()) && turn == old(turn) + 1
      ensures r == if stored.Unparsable? then Err(Unreadable) else Ok(stored.session)
      ensures r.Ok? && r.value.Some? ==> IsBound(r.value.value)
    {
      if others(turn).Some? { stored := others(turn).value; }
      turn := turn + 1;
      r := if stored.Unparsable? then Err(Unreadable) else Ok(stored.session);
    }

    /** Re-reads the file and, where it holds a session, saves `updated` in its place.
        `seen` is the file as it was re-read. */
    method Persist(updated: ProfileCreds) returns (r: Result<()>, ghost seen: Stored)
      requires Valid() && IsBound(updated)
      modifies this
      ensures Valid() && seen == old(Now()) && turn == old(turn) + 1
      ensures seen.Unparsable? ==> r == Err(Unreadable) && stored == seen
      ensures seen.Holds? && seen.session.None? ==> r == Ok(()) && stored == seen
      ensures seen.Holds? && seen.session.Some? ==>
                if canSave(turn) then r == Ok(()) && stored == Holds(Some(updated)) else r == Err(SaveFailed) && stored == seen
    {
      var loaded := Load();
      seen := stored;
      if loaded.Err? { return Err(loaded.error), seen; }
      if loaded.value.Some? {
        var ok := canSave(turn);
        if !ok { return Err(SaveFailed), seen; }
        stored := Holds(Some(updated));
      }
      return Ok(()), seen;
    }
  }

  /** A bearer, with the session it was built from. */
  datatype Credential = Credential(token: Token, issuer: string, clientId: string, refreshToken: Token)

  function SessionCredential(pc: ProfileCreds): Credential {
    Credential(pc.accessToken, pc.issuer, pc.clientId, pc.refreshToken)
  }

  ghost predicate IsOf(cred: Credential, issuer: string, client: string) {
    && cred.issuer == issuer && cred.clientId == client
    && cred.token.issuer == issuer && cred.token.client == client
  }

  /** A request for new tokens: who is asked, for which client, with which token. */
  datatype Grant = Grant(issuer: string, client: string, refreshToken: Token)

  /** The network: whether an issuer's endpoints are discovered, and what each token
      endpoint and the platform answer, by turn. The requests made are kept. */
  class Network {
    const discovery: (nat, string) -> bool
    const endpoint: (nat, Grant) -> Option<TokenResponse>
    const platform: (nat, Token) -> Option<nat>
    const clock: nat -> int
    var lookups: nat
    var grants: seq<Grant>
    var sent: seq<Token>

    constructor (discovery: (nat, string) -> bool, endpoint: (nat, Grant) -> Option<TokenResponse>,
                 platform: (nat, Token) -> Option<nat>, clock: nat -> int)
      ensures lookups == 0 && grants == [] && sent == []
    {
      this.discovery, this.endpoint, this.platform, this.clock := discovery, endpoint, platform, clock;
      lookups, grants, sent := 0, [], [];
    }

    /** Whether the token endpoint of `issuer` is found. */
    method Discover(issuer: string) returns (found: bool)
      modifies this`lookups
      ensures lookups == old(lookups) + 1 && found == discovery(old(lookups), issuer)
    {
      found := discovery(lookups, issuer);
      lookups := lookups + 1;
    }

    method Refresh(g: Grant) returns (r: Option<TokenResponse>)
      modifies this`grants
      ensures grants == old(grants) + [g] && r == endpoint(|old(grants)|, g)
    {
      r := endpoint(|grants|, g);
      grants := grants + [g];
    }

    /** The status of the answer, or no answer. */
    method Send(bearer: Token) returns (status: Option<nat>)
      modifies this`sent
      ensures sent == old(sent) + [bearer] && status == platform(|old(sent)|, bearer)
    {
      status := platform(|sent|, bearer);
      sent := sent + [bearer];
    }
  }

  /** Exchanges the refresh token of `pc` for new tokens at the issuer of `pc`, once its
      endpoint is discovered, and persists the session with them. `seen` is the file
      as it was re-read for that. */
  method RefreshAndPersist(net: Network, file: CredentialsFile, pc: ProfileCreds) returns (r: Result<ProfileCreds>, ghost seen: Stored)
    requires file.Valid() && IsBound(pc)
    modifies file, net`lookups, net`grants
    ensures file.Valid()
    ensures !net.discovery(old(net.lookups), pc.issuer) ==>
              r == Err(NotDiscovered) && net.grants == old(net.grants) && file.stored == old(file.stored)
    ensures net.discovery(old(net.lookups), pc.issuer) ==>
              net.grants == old(net.grants) + [Grant(pc.issuer, pc.clientId, pc.refreshToken)]
    ensures var answer := net.endpoint(|old(net.grants)|, Grant(pc.issuer, pc.clientId, pc.refreshToken));
            net.discovery(old(net.lookups), pc.issuer) ==>
              && (answer.None? ==> r == Err(RefreshRefused) && file.stored == old(file.stored))
              && (r.Ok? ==> answer.Some? && r.value == Refreshed(pc, answer.value, net.clock(|net.grants|)) && seen.Holds?
                            && file.stored == Holds(Persisted(seen.session, r.value)))
              && (answer.Some? ==> seen == old(file.Now()))
              && (r.Err? && answer.Some? ==> file.stored == seen)
  {
    seen := file.stored;
    var found := net.Discover(pc.issuer);
    if !found { return Err(NotDiscovered), seen; }
    var tokens := net.Refresh(Grant(pc.issuer, pc.clientId, pc.refreshToken));
    if tokens.None? { return Err(RefreshRefused), seen; }
    var updated := Refreshed(pc, tokens.value, net.clock(|net.grants|));
    var saved;
    saved, seen := file.Persist(updated);
    r := if saved.Ok? then Ok(updated) else Err(saved.error);
  }

  const EXPIRY_SKEW_SECS := 30

  /** A bearer of the session `pc`, refreshed first when it is about to expire. */
  method ResolveSession(net: Network, file: CredentialsFile, pc: ProfileCreds, now: int) returns (r: Result<Credential>)
    requires file.Valid() && IsBound(pc)
    modifies file, net`lookups, net`grants
    ensures file.Valid()
    ensures r.Ok? ==> IsOf(r.value, pc.issuer, pc.clientId)
    ensures now + EXPIRY_SKEW_SECS < pc.expiresAt ==>
              r == Ok(Credential(pc.accessToken, pc.issuer, pc.clientId, pc.refreshToken)) && net.grants == old(net.grants)
    ensures now + EXPIRY_SKEW_SECS >= pc.expiresAt && r.Ok? ==>
              var answer := net.endpoint(|old(net.grants)|, Grant(pc.issuer, pc.clientId, pc.refreshToken));
              answer.Some? && r.value.token == Token(pc.issuer, pc.clientId, answer.value.accessToken)
    ensures now + EXPIRY_SKEW_SECS >= pc.expiresAt ==>
              if net.discovery(old(net.lookups), pc.issuer)
              then net.grants == old(net.grants) + [Grant(pc.issuer, pc.clientId, pc.refreshToken)]
              else r == Err(NotDiscovered) && net.grants == old(net.grants)
  {
    if now + EXPIRY_SKEW_SECS < pc.expiresAt { return Ok(SessionCredential(pc)); }
    var updated, _ := RefreshAndPersist(net, file, pc);
    r := if updated.Ok? then Ok(SessionCredential(updated.value)) else Err(updated.error);
  }

  /** The credential a renewal uses: of the cached session, and only when that is
      one of the platform the machine is enrolled at. `origin` normalises an API. */
  method CredentialFor(net: Network, file: CredentialsFile, enrolledApi: string, origin: string -> Option<string>, now: int)
    returns (r: Result<Credential>, ghost read: Option<ProfileCreds>)
    requires file.Valid()
    modifies file, net`lookups, net`grants
    ensures file.Valid() && read == match old(file.Now()) { case Holds(session) => session case Unparsable => None }
    ensures r.Ok? ==> read.Some? && IsOf(r.value, read.value.issuer, read.value.clientId)
    ensures r.Ok? ==> origin(enrolledApi).Some? && origin(read.value.apiUrl) == origin(enrolledApi)
    ensures read.None? || origin(enrolledApi).None? || origin(read.value.apiUrl) != origin(enrolledApi) ==>
              r.Err? && net.grants == old(net.grants)
  {
    read := None;
    var loaded := file.Load();
    if loaded.Err? { return Err(loaded.error), read; }
    if loaded.value.None? { return Err(NotAuthenticated), read; }
    read := loaded.value;
    var ours, theirs := origin(loaded.value.value.apiUrl), origin(enrolledApi);
    if ours.None? || theirs.None? || ours != theirs { return Err(WrongPlatform), read; }
    r := ResolveSession(net, file, loaded.value.value, now);
  }

  /** Calls to the platform with the bearer of one session. */
  class PlatformApi {
    const net: Network
    const file: CredentialsFile
    const issuer: string
    const clientId: string
    var cred: Credential

    constructor (net: Network, file: CredentialsFile, cred: Credential)
      requires file.Valid() && IsOf(cred, cred.issuer, cred.clientId)
      ensures Valid() && this.net == net && this.file == file && this.cred == cred
    {
      this.net, this.file, this.issuer, this.clientId, this.cred := net, file, cred.issuer, cred.clientId, cred;
    }

    /** The bearer is of the issuer and the client this was built with. */
    ghost predicate Valid()
      reads this, file
    {
      file.Valid() && IsOf(cred, issuer, clientId)
    }

    /** The file holds a session of the issuer and the client this was built with. */
    ghost predicate IsOwn(read: Stored) {
      read.Holds? && read.session.Some? && read.session.value.issuer == issuer && read.session.value.clientId == clientId
    }

    /** Refreshes the bearer from the session in the file, `read`, when that is of
        the same issuer and client; without one the bearer stays as it is. */
    method RefreshInPlace() returns (r: Result<()>, ghost read: Stored)
      requires Valid()
      modifies this, file, net`lookups, net`grants
      ensures Valid() && read == old(file.Now())
      ensures !IsOwn(read) ==> net.grants == old(net.grants) && cred == old(cred) && file.stored == read && r.Ok? == read.Holds?
      ensures IsOwn(read) ==> IsBound(read.session.value)
      ensures IsOwn(read) && r.Err? ==> cred == old(cred)
      ensures IsOwn(read) && !net.discovery(old(net.lookups), issuer) ==> r.Err? && net.grants == old(net.grants)
      ensures IsOwn(read) && net.discovery(old(net.lookups), issuer) ==>
                var grant := Grant(issuer, clientId, read.session.value.refreshToken);
                var answer := net.endpoint(|old(net.grants)|, grant);
                && net.grants == old(net.grants) + [grant]
                && (r.Ok? ==> answer.Some? && cred.token == Token(issuer, clientId, answer.value.accessToken)
                              && cred.refreshToken == Refreshed(read.session.value, answer.value, net.clock(|net.grants|)).refreshToken)
    {
      var loaded := file.Load();
      read := file.stored;
      if loaded.Err? { return Err(loaded.error), read; }
      if loaded.value.None? { return Ok(()), read; }
      var pc := loaded.value.value;
      if !(cred.issuer == pc.issuer && cred.clientId == pc.clientId) { return Ok(()), read; }
      var updated, _ := RefreshAndPersist(net, file, pc);
      if updated.Err? { return Err(updated.error), read; }
      cred := SessionCredential(updated.value);
      return Ok(()), read;
    }

    /** One request and, after a 401, one more with the refreshed bearer. Every bearer
        sent is of the issuer and the client this was built with. */
    method Authed() returns (r: Result<nat>)
      requires Valid()
      modifies this, file, net
      ensures Valid()
      ensures 1 <= |net.sent| - |old(net.sent)| <= 2 && 0 <= |net.grants| - |old(net.grants)| <= 1
      ensures forall i :: |old(net.sent)| <= i < |net.sent| ==> net.sent[i].issuer == issuer && net.sent[i].client == clientId
      ensures forall i :: |old(net.grants)| <= i < |net.grants| ==>
                net.grants[i].issuer == issuer && net.grants[i].refreshToken.issuer == issuer && net.grants[i].refreshToken.client == clientId
      ensures net.sent[|old(net.sent)|] == old(cred).token
      ensures net.platform(|old(net.sent)|, old(cred).token) != Some(401) ==>
                |net.sent| == |old(net.sent)| + 1 && net.grants == old(net.grants) && cred == old(cred)
      ensures r.Ok? ==> Some(r.value) == net.platform(|net.sent| - 1, net.sent[|net.sent| - 1])
      ensures r == Ok(401) ==> |net.sent| == |old(net.sent)| + 2
      ensures |net.sent| == |old(net.sent)| + 2 ==>
                && old(net.grants) == net.grants[..|old(net.grants)|]
                && if net.grants == old(net.grants) then net.sent[|old(net.sent)| + 1] == old(cred).token
                   else var answer := net.endpoint(|old(net.grants)|, net.grants[|old(net.grants)|]);
                        answer.Some? && net.sent[|old(net.sent)| + 1] == Token(issuer, clientId, answer.value.accessToken)
    {
      var first := net.Send(cred.token);
      if first.None? { return Err(RequestFailed); }
      if first.value != 401 { return Ok(first.value); }
      var refreshed, _ := RefreshInPlace();
      if refreshed.Err? { return Err(refreshed.error); }
      var second := net.Send(cred.token);
      r := if second.Some? then Ok(second.value) else Err(RequestFailed);
    }
  }
}
