/** JWT issue, validation, refresh and revocation.

    A signed token is the datatype value of its algorithm, key and claims, so signing is
    injective; nobody without the key can make one that was not issued.  Each call reads the
    clock once.  Instants are nanoseconds; NumericDate fields are kept as whole seconds. */
module Jwt {
  import opened Basics

  datatype Claims = Claims(
    issuer: string, subject: string, issuedAt: int, expiresAt: int,
    userID: string, username: string, roles: seq<string>, extra: map<string, string>)

  datatype Token = Signed(alg: string, secret: string, claims: Claims) | Malformed(text: string)

  datatype TokenPair = TokenPair(accessToken: Token, refreshToken: Token, expiresAt: int)

  datatype Config = Config(secret: string, issuer: string, accessExpiry: int, refreshExpiry: int, alg: string)

  datatype Failure = SecretTooShort | TokenInvalid

  const MIN_SECRET_LENGTH: nat := 32

  /** The configuration an Authenticator ends up with. */
  function Configure(cfg: Config): Result<Config, Failure> {
    if |cfg.secret| < MIN_SECRET_LENGTH then Err(SecretTooShort)
    else Ok(cfg.(accessExpiry := if cfg.accessExpiry == 0 then 2 * 3600 * SECOND else cfg.accessExpiry,
                 refreshExpiry := if cfg.refreshExpiry == 0 then 168 * 3600 * SECOND else cfg.refreshExpiry))
  }

  // ---- pure parts of the protocol ----

  function AccessClaims(cfg: Config, now: int, c: Claims): Claims {
    c.(issuer := cfg.issuer, subject := "",
       issuedAt := TruncateToSecond(now), expiresAt := TruncateToSecond(now + cfg.accessExpiry))
  }

  function RefreshClaims(cfg: Config, now: int, c: Claims): Claims {
    Claims(cfg.issuer, c.userID, TruncateToSecond(now), TruncateToSecond(now + cfg.refreshExpiry),
           c.userID, "", [], map[])
  }

  function Sign(cfg: Config, c: Claims): Token {
    Signed(cfg.alg, cfg.secret, c)
  }

  function Pair(cfg: Config, now: int, c: Claims): TokenPair {
    TokenPair(Sign(cfg, AccessClaims(cfg, now, c)), Sign(cfg, RefreshClaims(cfg, now, c)), now + cfg.accessExpiry)
  }

  /** Signature, algorithm and `exp` (section 4.1.4 of RFC 7519: only before that instant). */
  predicate Parses(cfg: Config, now: int, t: Token) {
    t.Signed? && t.alg == cfg.alg && t.secret == cfg.secret && now < t.claims.expiresAt
  }

  // ---- the authenticator ----

  class TokenStore {
    /** token -> the instant its entry lapses */
    var items: map<Token, int>

    constructor ()
      ensures items == map[]
    {
      items := map[];
    }

    method Store(now: int, token: Token, expiration: int)
      modifies this
      ensures items == old(items)[token := now + expiration]
    {
      items := items[token := now + expiration];
    }

    method Exists(now: int, token: Token) returns (b: bool)
      ensures b <==> token in items && now < items[token]
    {
      if token !in items {
        return false;
      }
      return now < items[token];
    }
  }

  class Authenticator {
    const cfg: Config
    const tokenStore: TokenStore?

    constructor (cfg: Config, tokenStore: TokenStore?)
      requires Configure(cfg).Ok?
      ensures this.cfg == Configure(cfg).value && this.tokenStore == tokenStore
      ensures |this.cfg.secret| >= 32 && this.cfg.secret == cfg.secret
      ensures this.cfg.issuer == cfg.issuer && this.cfg.alg == cfg.alg
      ensures this.cfg.accessExpiry == if cfg.accessExpiry == 0 then 7200 * SECOND else cfg.accessExpiry
      ensures this.cfg.refreshExpiry == if cfg.refreshExpiry == 0 then 604800 * SECOND else cfg.refreshExpiry
    {
      this.cfg := Configure(cfg).value;
      this.tokenStore := tokenStore;
    }

    ghost function Store(): Option<map<Token, int>>
      reads this, tokenStore
    {
      if tokenStore == null then None else Some(tokenStore.items)
    }

    method GenerateTokenPair(now: int, claims: Claims) returns (pair: TokenPair)
      ensures pair == Pair(cfg, now, claims)
      ensures pair.expiresAt == now + cfg.accessExpiry
      ensures pair.accessToken
           == Signed(cfg.alg, cfg.secret,
                     claims.(issuer := cfg.issuer, subject := "", issuedAt := now / SECOND * SECOND,
                             expiresAt := (now + cfg.accessExpiry) / SECOND * SECOND))
      ensures pair.refreshToken
           == Signed(cfg.alg, cfg.secret,
                     Claims(cfg.issuer, claims.userID, now / SECOND * SECOND,
                            (now + cfg.refreshExpiry) / SECOND * SECOND, claims.userID, "", [], map[]))
    {
      var access := claims.(issuer := cfg.issuer, subject := "", issuedAt := TruncateToSecond(now),
                            expiresAt := TruncateToSecond(now + cfg.accessExpiry));
      var refresh := Claims(cfg.issuer, access.userID, TruncateToSecond(now),
                            TruncateToSecond(now + cfg.refreshExpiry), access.userID, "", [], map[]);
      pair := TokenPair(Sign(cfg, access), Sign(cfg, refresh), now + cfg.accessExpiry);
    }

    method ValidateToken(now: int, token: Token) returns (r: Result<Claims, Failure>)
      ensures r == if Accepts(World(cfg, now, Store(), map[]), token) then Ok(token.claims) else Err(TokenInvalid)
      ensures r.Ok? <==>
                && token.Signed? && token.alg == cfg.alg && token.secret == cfg.secret && now < token.claims.expiresAt
                && (tokenStore == null || token !in tokenStore.items || tokenStore.items[token] <= now)
    {
      if !Parses(cfg, now, token) {
        return Err(TokenInvalid);
      }
      if tokenStore != null {
        var revoked := tokenStore.Exists(now, token);
        if revoked {
          return Err(TokenInvalid);
        }
      }
      return Ok(token.claims);
    }

    method RevokeToken(now: int, token: Token)
      modifies tokenStore
      ensures Store() == Revoked(old(Store()), now, cfg, token)
      ensures tokenStore != null ==> tokenStore.items == old(tokenStore.items)[token := now + cfg.accessExpiry]
    {
      if tokenStore == null {
        return;
      }
      tokenStore.Store(now, token, cfg.accessExpiry);
    }

    /** Accepts access and refresh tokens alike; a rejected token changes nothing. */
    method RefreshToken(now: int, token: Token) returns (r: Result<TokenPair, Failure>)
      modifies tokenStore
      ensures var w := World(cfg, now, old(Store()), map[]);
              && r == (if Accepts(w, token) then Ok(Pair(cfg, now, token.claims)) else Err(TokenInvalid))
              && Store() == Happen(w, Refresh(token)).store
      ensures tokenStore != null ==>
                tokenStore.items == if r.Ok? then old(tokenStore.items)[token := now + cfg.accessExpiry]
                                    else old(tokenStore.items)
    {
      var claims := ValidateToken(now, token);
      if claims.Err? {
        return Err(claims.error);
      }
      RevokeToken(now, token);
      var pair := GenerateTokenPair(now, claims.value);
      return Ok(pair);
    }
  }

  // ---- runs ----

  /** The authenticator's state over time: its revocation store, if any, and, for every token
      it has handed out so far, when it first did. */
  datatype World = World(cfg: Config, now: int, store: Option<map<Token, int>>, issued: map<Token, int>)

  datatype Event =
    | Issue(claims: Claims)
    | Refresh(token: Token)
    | Revoke(token: Token)
    | Wait(dt: nat)

  predicate Accepts(w: World, t: Token) {
    && Parses(w.cfg, w.now, t)
    && !(w.store.Some? && t in w.store.value && w.now < w.store.value[t])
  }

  function Revoked(store: Option<map<Token, int>>, now: int, cfg: Config, t: Token): Option<map<Token, int>> {
    if store.None? then None else Some(store.value[t := now + cfg.accessExpiry])
  }

  /** The pair an event hands out. */
  function Minted(w: World, e: Event): Option<TokenPair> {
    match e
    case Issue(c) => Some(Pair(w.cfg, w.now, c))
    case Refresh(t) => if Accepts(w, t) then Some(Pair(w.cfg, w.now, t.claims)) else None
    case _ => None
  }

  function Record(issued: map<Token, int>, t: Token, now: int): map<Token, int> {
    if t in issued then issued else issued[t := now]
  }

  function HandOut(w: World, p: TokenPair): World {
    w.(issued := Record(Record(w.issued, p.accessToken, w.now), p.refreshToken, w.now))
  }

  function Happen(w: World, e: Event): World {
    match e
    case Issue(c) => HandOut(w, Pair(w.cfg, w.now, c))
    case Refresh(t) =>
      if Accepts(w, t)
      then HandOut(w.(store := Revoked(w.store, w.now, w.cfg, t)), Pair(w.cfg, w.now, t.claims))
      else w
    case Revoke(t) => w.(store := Revoked(w.store, w.now, w.cfg, t))
    case Wait(dt) => w.(now := w.now + dt)
  }

  /** Unforgeability: a token under our key can be presented only once it has been issued. */
  predicate Possible(w: World, e: Event) {
    match e
    case Refresh(t) => t.Signed? && t.secret == w.cfg.secret ==> t in w.issued
    case Revoke(t) => t.Signed? && t.secret == w.cfg.secret ==> t in w.issued
    case _ => true
  }

  predicate AllPossible(w: World, events: seq<Event>)
    decreases |events|
  {
    events == [] || (Possible(w, events[0]) && AllPossible(Happen(w, events[0]), events[1..]))
  }

  function After(w: World, events: seq<Event>): World
    decreases |events|
  {
    if events == [] then w else After(Happen(w, events[0]), events[1..])
  }

  function Begin(cfg: Config, now: int, hasStore: bool): World {
    World(cfg, now, if hasStore then Some(map[]) else None, map[])
  }

  /** Every token was issued in the past, under our key, for one of the two lifetimes; no
      revocation entry lapses later than AccessExpiry from now. */
  ghost predicate Sound(w: World) {
    && (forall t <- w.issued ::
          && t.Signed? && t.secret == w.cfg.secret && t.alg == w.cfg.alg
          && w.issued[t] <= w.now
          && t.claims.issuedAt <= w.issued[t]
          && (t.claims.expiresAt <= w.issued[t] + w.cfg.accessExpiry ||
              t.claims.expiresAt <= w.issued[t] + w.cfg.refreshExpiry))
    && (w.store.Some? ==> forall t <- w.store.value :: w.store.value[t] <= w.now + w.cfg.accessExpiry)
  }

  lemma SoundHandOut(w: World, c: Claims)
    requires Sound(w)
    ensures Sound(HandOut(w, Pair(w.cfg, w.now, c)))
  {
    var p := Pair(w.cfg, w.now, c);
    forall t <- HandOut(w, p).issued | t !in w.issued
      ensures t == p.accessToken || t == p.refreshToken
    {
    }
  }

  lemma SoundNext(w: World, e: Event)
    requires Sound(w)
    ensures Sound(Happen(w, e))
  {
    match e
    case Issue(c) => SoundHandOut(w, c);
    case Refresh(t) =>
      if Accepts(w, t) {
        SoundHandOut(w.(store := Revoked(w.store, w.now, w.cfg, t)), t.claims);
      }
    case _ =>
  }

  lemma {:induction false} SoundAfter(w: World, events: seq<Event>)
    requires Sound(w)
    ensures Sound(After(w, events)) && After(w, events).cfg == w.cfg && w.now <= After(w, events).now
    ensures w.issued.Keys <= After(w, events).issued.Keys
    decreases |events|
  {
    if events != [] {
      SoundNext(w, events[0]);
      SoundAfter(Happen(w, events[0]), events[1..]);
    }
  }

  /** Whatever has happened so far, the state is sound. */
  lemma ReachableIsSound(cfg: Config, now: int, hasStore: bool, events: seq<Event>)
    ensures var w := After(Begin(cfg, now, hasStore), events);
            Sound(w) && w.cfg == cfg && now <= w.now && (w.store.Some? <==> hasStore)
  {
    SoundAfter(Begin(cfg, now, hasStore), events);
    StoreStays(Begin(cfg, now, hasStore), events);
  }

  // ---- revocation ----

  /** Later events can only extend a revocation entry. */
  lemma {:induction false} EntriesOnlyExtend(w: World, events: seq<Event>, t: Token)
    requires Sound(w) && w.store.Some? && t in w.store.value
    ensures var s := After(w, events).store; s.Some? && t in s.value && w.store.value[t] <= s.value[t]
    decreases |events|
  {
    if events != [] {
      SoundNext(w, events[0]);
      EntriesOnlyExtend(Happen(w, events[0]), events[1..], t);
    }
  }

  ghost predicate RejectedForever(w: World, t: Token) {
    forall events: seq<Event> :: AllPossible(w, events) ==> !Accepts(After(w, events), t)
  }

  /** Revocation is final exactly when the entry outlives the token. */
  lemma RevocationIsFinalIff(w: World, t: Token)
    requires Sound(w) && w.store.Some? && t.Signed? && t.secret == w.cfg.secret && t.alg == w.cfg.alg
    ensures RejectedForever(Happen(w, Revoke(t)), t)
       <==> t.claims.expiresAt <= w.now + Max(w.cfg.accessExpiry, 0)
  {
    var w1 := Happen(w, Revoke(t));
    if t.claims.expiresAt <= w.now + Max(w.cfg.accessExpiry, 0) {
      forall events: seq<Event> | AllPossible(w1, events)
        ensures !Accepts(After(w1, events), t)
      {
        EntriesOnlyExtend(w1, events, t);
        SoundAfter(w1, events);
      }
    } else {
      var back := [Wait(Max(w.cfg.accessExpiry, 0))];
      assert After(w1, back) == Happen(w1, back[0]);
      assert AllPossible(w1, back) && Accepts(After(w1, back), t);
    }
  }

  /** A revoked access token is never accepted again, in any continuation of any run. */
  lemma RevokedAccessTokenStaysRevoked(w: World, e: Event, between: seq<Event>)
    requires Sound(w) && w.store.Some? && Minted(w, e).Some?
    ensures var t := Minted(w, e).value.accessToken;
            var w1 := After(Happen(w, e), between);
            w1.store.Some? && RejectedForever(Happen(w1, Revoke(t)), t)
  {
    var t := Minted(w, e).value.accessToken;
    SoundNext(w, e);
    StoreStays(Happen(w, e), between);
    SoundAfter(Happen(w, e), between);
    RevocationIsFinalIff(After(Happen(w, e), between), t);
  }

  lemma {:induction false} StoreStays(w: World, events: seq<Event>)
    ensures After(w, events).store.Some? <==> w.store.Some?
    decreases |events|
  {
    if events != [] {
      StoreStays(Happen(w, events[0]), events[1..]);
    }
  }

  // ---- refresh token rotation ----

  /** Two successful exchanges of one token are at least AccessExpiry apart. */
  lemma ExchangesAreApart(w: World, t: Token, between: seq<Event>)
    requires Sound(w) && w.store.Some? && Possible(w, Refresh(t)) && Accepts(w, t)
    requires Accepts(After(Happen(w, Refresh(t)), between), t)
    ensures After(Happen(w, Refresh(t)), between).now >= w.now + w.cfg.accessExpiry
  {
    var w1 := Happen(w, Refresh(t));
    SoundNext(w, Refresh(t));
    EntriesOnlyExtend(w1, between, t);
    SoundAfter(w1, between);
  }

  /** How often a run exchanges t for a new pair. */
  function Exchanges(w: World, events: seq<Event>, t: Token): nat
    decreases |events|
  {
    if events == [] then 0
    else (if events[0] == Refresh(t) && Accepts(w, t) then 1 else 0) + Exchanges(Happen(w, events[0]), events[1..], t)
  }

  /** The first instant at which t is not rejected as revoked. */
  function Available(w: World, t: Token): int {
    if w.store.Some? && t in w.store.value then Max(w.now, w.store.value[t]) else w.now
  }

  lemma AvailableAdvances(w: World, e: Event, t: Token)
    requires Sound(w) && w.store.Some?
    ensures Happen(w, e).store.Some? && Happen(w, e).cfg == w.cfg
    ensures Available(w, t) <= Available(Happen(w, e), t)
    ensures e == Refresh(t) && Accepts(w, t) ==>
              Available(w, t) == w.now && w.now + w.cfg.accessExpiry <= Available(Happen(w, e), t)
  {
  }

  /** n events, the first at `start` and then one every `gap`, all come before `limit`. */
  predicate Fits(start: int, n: nat, gap: int, limit: int)
    decreases n
  {
    n == 0 || (start < limit && Fits(start + gap, n - 1, gap, limit))
  }

  lemma {:induction false} FitsEarlier(early: int, start: int, n: nat, gap: int, limit: int)
    requires early <= start && Fits(start, n, gap, limit)
    ensures Fits(early, n, gap, limit)
    decreases n
  {
    if n > 0 {
      FitsEarlier(early + gap, start + gap, n - 1, gap, limit);
    }
  }

  lemma {:induction false} FitsLast(start: int, n: nat, gap: int, limit: int)
    requires n > 0 && Fits(start, n, gap, limit)
    ensures start + (n - 1) * gap < limit
    decreases n
  {
    if n > 1 {
      FitsLast(start + gap, n - 1, gap, limit);
      assert (n - 1) * gap == gap + (n - 2) * gap;
    }
  }

  lemma {:induction false} FitsIff(start: int, n: nat, gap: nat, limit: int)
    ensures Fits(start, n, gap, limit) <==> n == 0 || start + (n - 1) * gap < limit
    decreases n
  {
    if n > 1 {
      FitsIff(start + gap, n - 1, gap, limit);
      assert (n - 1) * gap == gap + (n - 2) * gap;
      MulNonNegative(n - 1, gap);
    }
  }

  /** The exchanges of a token come an access lifetime apart, all before its expiry. */
  lemma {:induction false} ExchangesFit(w: World, events: seq<Event>, t: Token)
    requires Sound(w) && w.store.Some? && t.Signed?
    ensures Fits(Available(w, t), Exchanges(w, events, t), w.cfg.accessExpiry, t.claims.expiresAt)
    decreases |events|
  {
    if events != [] {
      var w1, first := Happen(w, events[0]), events[0] == Refresh(t) && Accepts(w, t);
      SoundNext(w, events[0]);
      AvailableAdvances(w, events[0], t);
      ExchangesFit(w1, events[1..], t);
      FitsEarlier(if first then w.now + w.cfg.accessExpiry else Available(w, t), Available(w1, t),
                  Exchanges(w1, events[1..], t), w.cfg.accessExpiry, t.claims.expiresAt);
    }
  }

  /** The k-th exchange comes k - 1 access lifetimes after the first, and before the expiry. */
  lemma ExchangesFitTheLifetime(w: World, events: seq<Event>, t: Token)
    requires Sound(w) && w.store.Some? && t.Signed?
    ensures var k := Exchanges(w, events, t);
            k >= 1 ==> Available(w, t) + (k - 1) * w.cfg.accessExpiry < t.claims.expiresAt
  {
    ExchangesFit(w, events, t);
    var k := Exchanges(w, events, t);
    if k >= 1 {
      FitsLast(Available(w, t), k, w.cfg.accessExpiry, t.claims.expiresAt);
    }
  }

  /** ceil(a / b) for positive b */
  function CeilDiv(a: int, b: int): int
    requires b > 0
  {
    (a + b - 1) / b
  }

  lemma CeilDivBounds(a: int, b: int, k: int)
    requires b > 0
    ensures (k - 1) * b < a <==> k <= CeilDiv(a, b)
  {
    var q := CeilDiv(a, b);
    assert q * b <= a + b - 1 < q * b + b;
    if k <= q {
      MulMonotone(k, q, b);
    } else {
      MulMonotone(q + 1, k, b);
    }
    assert (k - 1) * b == k * b - b && (q + 1) * b == q * b + b;
  }

  lemma CeilDivMonotone(a: int, a': int, b: int)
    requires b > 0 && a <= a' && a' > 0
    ensures Max(0, CeilDiv(a, b)) <= CeilDiv(a', b)
  {
    CeilDivBounds(a, b, CeilDiv(a, b));
    CeilDivBounds(a', b, CeilDiv(a, b));
    CeilDivBounds(a', b, 1);
  }

  lemma MulMonotone(x: int, y: int, b: int)
    requires x <= y && b > 0
    ensures x * b <= y * b
  {
  }

  /** From the moment it is handed out, a refresh token is exchanged at most
      ceil(RefreshExpiry / AccessExpiry) times in any run. */
  lemma ExchangeLimit(w: World, e: Event, events: seq<Event>)
    requires Sound(w) && w.store.Some? && w.cfg.accessExpiry > 0 && w.cfg.refreshExpiry > 0
    requires Minted(w, e).Some?
    ensures Exchanges(Happen(w, e), events, Minted(w, e).value.refreshToken)
         <= CeilDiv(w.cfg.refreshExpiry, w.cfg.accessExpiry)
  {
    SoundNext(w, e);
    NoMoreThanLeft(Happen(w, e), Minted(w, e).value.refreshToken, events);
    LeftAtIssue(w, e);
  }

  lemma LeftAtIssue(w: World, e: Event)
    requires w.cfg.accessExpiry > 0 && w.cfg.refreshExpiry > 0 && Minted(w, e).Some?
    ensures Happen(w, e).cfg == w.cfg
    ensures Left(Happen(w, e), Minted(w, e).value.refreshToken) <= CeilDiv(w.cfg.refreshExpiry, w.cfg.accessExpiry)
  {
    var w1, t := Happen(w, e), Minted(w, e).value.refreshToken;
    CeilDivMonotone(t.claims.expiresAt - Available(w1, t), w.cfg.refreshExpiry, w.cfg.accessExpiry);
  }

  function Replay(t: Token, k: nat, gap: nat): seq<Event> {
    if k == 0 then [] else [Refresh(t), Wait(gap)] + Replay(t, k - 1, gap)
  }

  lemma ReplayRound(w: World, t: Token, gap: nat)
    requires Sound(w) && t in w.issued && gap >= w.cfg.accessExpiry && Available(w, t) == w.now
    requires w.now < t.claims.expiresAt
    ensures var w2 := Happen(Happen(w, Refresh(t)), Wait(gap));
            && Sound(w2) && w2.cfg == w.cfg && t in w2.issued
            && Available(w2, t) == w2.now == w.now + gap
    ensures Possible(w, Refresh(t)) && Accepts(w, t)
  {
    SoundNext(w, Refresh(t));
    SoundNext(Happen(w, Refresh(t)), Wait(gap));
  }

  lemma ExchangesTwoMore(w: World, t: Token, gap: nat, rest: seq<Event>)
    requires Possible(w, Refresh(t)) && Accepts(w, t)
    requires AllPossible(Happen(Happen(w, Refresh(t)), Wait(gap)), rest)
    ensures var events := [Refresh(t), Wait(gap)] + rest;
            && AllPossible(w, events)
            && Exchanges(w, events, t) == 1 + Exchanges(Happen(Happen(w, Refresh(t)), Wait(gap)), rest, t)
  {
    var events := [Refresh(t), Wait(gap)] + rest;
    assert events[1..] == [Wait(gap)] + rest && events[1..][1..] == rest;
    assert AllPossible(Happen(w, Refresh(t)), events[1..]);
  }

  /** Exchanging one token every `gap` succeeds each time, as long as the entry left by one
      exchange has lapsed at the next and the token has not expired. */
  lemma {:induction false} ReplaySucceeds(w: World, t: Token, k: nat, gap: nat)
    requires Sound(w) && t in w.issued && gap >= w.cfg.accessExpiry
    requires Available(w, t) == w.now
    requires Fits(w.now, k, gap, t.claims.expiresAt)
    ensures AllPossible(w, Replay(t, k, gap)) && Exchanges(w, Replay(t, k, gap), t) == k
    decreases k
  {
    if k > 0 {
      ReplayRound(w, t, gap);
      ReplaySucceeds(Happen(Happen(w, Refresh(t)), Wait(gap)), t, k - 1, gap);
      ExchangesTwoMore(w, t, gap, Replay(t, k - 1, gap));
    }
  }

  lemma MulNonNegative(x: nat, y: nat)
    ensures x * y >= 0
  {
  }

  /** How many exchanges are left to a token: one per access lifetime, from the instant it is no
      longer rejected as revoked to its own exp. */
  function Left(w: World, t: Token): nat
    requires t.Signed? && w.cfg.accessExpiry > 0
  {
    Max(0, CeilDiv(t.claims.expiresAt - Available(w, t), w.cfg.accessExpiry))
  }

  lemma NoMoreThanLeft(w: World, t: Token, events: seq<Event>)
    requires Sound(w) && w.store.Some? && t.Signed? && w.cfg.accessExpiry > 0
    ensures Exchanges(w, events, t) <= Left(w, t)
  {
    var k := Exchanges(w, events, t);
    if k >= 1 {
      ExchangesFitTheLifetime(w, events, t);
      CeilDivBounds(t.claims.expiresAt - Available(w, t), w.cfg.accessExpiry, k);
    }
  }

  /** Waiting for a revocation to lapse, then exchanging each time the entry lapses again. */
  lemma WaitAndReplay(w: World, t: Token, n: nat)
    requires Sound(w) && w.store.Some? && t in w.issued && w.cfg.accessExpiry > 0
    requires Fits(Available(w, t), n, w.cfg.accessExpiry, t.claims.expiresAt)
    ensures var events := [Wait(Available(w, t) - w.now)] + Replay(t, n, w.cfg.accessExpiry);
            AllPossible(w, events) && Exchanges(w, events, t) == n
  {
    var dt := Available(w, t) - w.now;
    WaitedOut(w, t);
    ReplaySucceeds(Happen(w, Wait(dt)), t, n, w.cfg.accessExpiry);
    AfterWaiting(w, t, dt, Replay(t, n, w.cfg.accessExpiry));
  }

  lemma WaitedOut(w: World, t: Token)
    requires Sound(w)
    ensures var w1 := Happen(w, Wait(Available(w, t) - w.now));
            && Sound(w1) && w1.cfg == w.cfg && w1.issued == w.issued
            && Available(w1, t) == w1.now == Available(w, t)
  {
    SoundNext(w, Wait(Available(w, t) - w.now));
  }

  lemma LeftFits(w: World, t: Token)
    requires t.Signed? && w.cfg.accessExpiry > 0
    ensures Fits(Available(w, t), Left(w, t), w.cfg.accessExpiry, t.claims.expiresAt)
  {
    if Left(w, t) > 0 {
      CeilDivBounds(t.claims.expiresAt - Available(w, t), w.cfg.accessExpiry, Left(w, t));
    }
    FitsIff(Available(w, t), Left(w, t), w.cfg.accessExpiry, t.claims.expiresAt);
  }

  lemma AfterWaiting(w: World, t: Token, dt: nat, rest: seq<Event>)
    requires AllPossible(Happen(w, Wait(dt)), rest)
    ensures AllPossible(w, [Wait(dt)] + rest)
    ensures Exchanges(w, [Wait(dt)] + rest, t) == Exchanges(Happen(w, Wait(dt)), rest, t)
  {
    assert ([Wait(dt)] + rest)[1..] == rest;
  }

  /** In any state, Left is exactly the greatest number of exchanges of an issued token that any
      continuation makes: at its issue, ceil((exp - now) / AccessExpiry). */
  lemma ExchangeMaximum(w: World, t: Token)
    requires Sound(w) && w.store.Some? && t in w.issued && w.cfg.accessExpiry > 0
    ensures forall events: seq<Event> :: Exchanges(w, events, t) <= Left(w, t)
    ensures exists events: seq<Event> :: AllPossible(w, events) && Exchanges(w, events, t) == Left(w, t)
  {
    forall events: seq<Event>
      ensures Exchanges(w, events, t) <= Left(w, t)
    {
      NoMoreThanLeft(w, t, events);
    }
    LeftFits(w, t);
    WaitAndReplay(w, t, Left(w, t));
  }

  /** The limit is attained: for every configuration some run reaches it. */
  lemma ExchangeLimitIsTight(w: World, c: Claims)
    requires Sound(w) && w.store == Some(map[]) && w.cfg.accessExpiry > 0 && w.cfg.refreshExpiry > 0
    requires (w.now + w.cfg.refreshExpiry) % SECOND == 0
    ensures var w1, t := Happen(w, Issue(c)), Pair(w.cfg, w.now, c).refreshToken;
            var n := CeilDiv(w.cfg.refreshExpiry, w.cfg.accessExpiry);
            && n >= 1
            && AllPossible(w1, Replay(t, n, w.cfg.accessExpiry))
            && Exchanges(w1, Replay(t, n, w.cfg.accessExpiry), t) == n
  {
    var n := CeilDiv(w.cfg.refreshExpiry, w.cfg.accessExpiry);
    CeilDivBounds(w.cfg.refreshExpiry, w.cfg.accessExpiry, n);
    CeilDivBounds(w.cfg.refreshExpiry, w.cfg.accessExpiry, 1);
    SoundNext(w, Issue(c));
    FitsIff(w.now, n, w.cfg.accessExpiry, w.now + w.cfg.refreshExpiry);
    ReplaySucceeds(Happen(w, Issue(c)), Pair(w.cfg, w.now, c).refreshToken, n, w.cfg.accessExpiry);
  }

  /** In no run of an authenticator with a store is a refresh token exchanged twice. */
  ghost predicate SingleUse(cfg: Config) {
    forall now: int, c: Claims, events: seq<Event> ::
      var w := Happen(Begin(cfg, now, true), Issue(c));
      AllPossible(w, events) ==> Exchanges(w, events, Pair(cfg, now, c).refreshToken) <= 1
  }

  lemma AtMostOnce(cfg: Config, now: int, c: Claims, events: seq<Event>)
    requires cfg.refreshExpiry <= Max(cfg.accessExpiry, 0)
    ensures Exchanges(Happen(Begin(cfg, now, true), Issue(c)), events, Pair(cfg, now, c).refreshToken) <= 1
  {
    var w, t := Happen(Begin(cfg, now, true), Issue(c)), Pair(cfg, now, c).refreshToken;
    var k := Exchanges(w, events, t);
    if k >= 2 {
      AcceptedSoon(w, events, t);
      SoundNext(Begin(cfg, now, true), Issue(c));
      ExchangesFitTheLifetime(w, events, t);
      MulMonotone(1, k - 1, cfg.accessExpiry);
    }
  }

  lemma CanBeTwice(cfg: Config)
    requires cfg.refreshExpiry > Max(cfg.accessExpiry, 0)
    ensures !SingleUse(cfg)
  {
    var now := -cfg.refreshExpiry;
    var c := Claims("", "", 0, 0, "", "", [], map[]);
    var w, t := Happen(Begin(cfg, now, true), Issue(c)), Pair(cfg, now, c).refreshToken;
    var gap := Max(cfg.accessExpiry, 0);
    SoundNext(Begin(cfg, now, true), Issue(c));
    ReplaySucceeds(w, t, 2, gap);
    assert Exchanges(w, Replay(t, 2, gap), t) == 2;
  }

  /** Replay is prevented exactly when a refresh token does not outlive its revocation entry. */
  lemma SingleUseIff(cfg: Config)
    ensures SingleUse(cfg) <==> cfg.refreshExpiry <= Max(cfg.accessExpiry, 0)
  {
    if cfg.refreshExpiry <= Max(cfg.accessExpiry, 0) {
      forall now: int, c: Claims, events: seq<Event>
        ensures Exchanges(Happen(Begin(cfg, now, true), Issue(c)), events, Pair(cfg, now, c).refreshToken) <= 1
      {
        AtMostOnce(cfg, now, c, events);
      }
    } else {
      CanBeTwice(cfg);
    }
  }

  /** A run that exchanges t at all starts before t expires. */
  lemma {:induction false} AcceptedSoon(w: World, events: seq<Event>, t: Token)
    requires Exchanges(w, events, t) >= 1
    ensures t.Signed? && w.now < t.claims.expiresAt
    decreases |events|
  {
    if !(events[0] == Refresh(t) && Accepts(w, t)) {
      AcceptedSoon(Happen(w, events[0]), events[1..], t);
    }
  }

  // ---- new pairs ----

  /** No event revokes or exchanges t. */
  predicate LeavesAlone(events: seq<Event>, t: Token) {
    forall i :: 0 <= i < |events| ==> events[i] != Revoke(t) && events[i] != Refresh(t)
  }

  lemma {:induction false} UntouchedStaysUnrevoked(w: World, events: seq<Event>, t: Token)
    requires LeavesAlone(events, t) && (w.store.Some? ==> t !in w.store.value)
    ensures var s := After(w, events).store; s.Some? ==> t !in s.value
    decreases |events|
  {
    if events != [] {
      UntouchedStaysUnrevoked(Happen(w, events[0]), events[1..], t);
    }
  }

  /** The clock's second is past the issue second of everything revoked so far. */
  ghost predicate SecondIsFresh(w: World) {
    w.store.Some? ==> forall t <- w.store.value :: t.Signed? ==> t.claims.issuedAt < TruncateToSecond(w.now)
  }

  /** Both tokens of a new pair are accepted exactly until their own exp, unless revoked or
      exchanged; with lifetimes of at least a second that is not yet reached. */
  lemma NewPairIsAccepted(w: World, e: Event, events: seq<Event>, t: Token)
    requires Sound(w) && Minted(w, e).Some? && SecondIsFresh(Happen(w, e))
    requires t == Minted(w, e).value.accessToken || t == Minted(w, e).value.refreshToken
    requires LeavesAlone(events, t)
    ensures var w2 := After(Happen(w, e), events);
            Accepts(w2, t) <==> w2.now < t.claims.expiresAt
    ensures w.cfg.accessExpiry >= SECOND && w.cfg.refreshExpiry >= SECOND ==> Accepts(Happen(w, e), t)
  {
    var w1 := Happen(w, e);
    SoundNext(w, e);
    assert t.claims.issuedAt == TruncateToSecond(w1.now);
    UntouchedStaysUnrevoked(w1, events, t);
    SoundAfter(w1, events);
  }

  /** In terms of the instant of the call: under a fresh second the access token is accepted exactly
      until AccessExpiry from now, the refresh token exactly until RefreshExpiry from now, both cut
      to whole seconds; the pair tells the client the access token's end uncut. */
  lemma PairLifetimes(w: World, e: Event, events: seq<Event>)
    requires Sound(w) && Minted(w, e).Some? && SecondIsFresh(Happen(w, e))
    ensures var pair, w2 := Minted(w, e).value, After(Happen(w, e), events);
            && (LeavesAlone(events, pair.accessToken) ==>
                  (Accepts(w2, pair.accessToken) <==> w2.now < (w.now + w.cfg.accessExpiry) / SECOND * SECOND))
            && (LeavesAlone(events, pair.refreshToken) ==>
                  (Accepts(w2, pair.refreshToken) <==> w2.now < (w.now + w.cfg.refreshExpiry) / SECOND * SECOND))
            && pair.expiresAt == w.now + w.cfg.accessExpiry
  {
    var pair := Minted(w, e).value;
    if LeavesAlone(events, pair.accessToken) {
      NewPairIsAccepted(w, e, events, pair.accessToken);
    }
    if LeavesAlone(events, pair.refreshToken) {
      NewPairIsAccepted(w, e, events, pair.refreshToken);
    }
  }

  lemma {:induction false} UntouchedEntryStays(w: World, events: seq<Event>, t: Token)
    requires LeavesAlone(events, t) && w.store.Some?
    ensures var s := After(w, events).store;
            && s.Some? && (t in s.value <==> t in w.store.value)
            && (t in s.value ==> s.value[t] == w.store.value[t])
    decreases |events|
  {
    if events != [] {
      UntouchedEntryStays(Happen(w, events[0]), events[1..], t);
    }
  }

  /** A fresh second suffices for that and is not necessary.  Exactly: a token just handed out is
      accepted until its own exp, in every continuation that leaves it alone, unless the same token
      was issued before and its revocation is still in force. */
  lemma NewPairIsAcceptedIff(w: World, e: Event, t: Token)
    requires Sound(w) && Minted(w, e).Some?
    requires t == Minted(w, e).value.accessToken || t == Minted(w, e).value.refreshToken
    ensures var w1 := Happen(w, e);
            (forall events: seq<Event> | LeavesAlone(events, t) ::
               Accepts(After(w1, events), t) <==> After(w1, events).now < t.claims.expiresAt)
            <==> !(w1.now < t.claims.expiresAt
                   && w1.store.Some? && t in w1.store.value && w1.now < w1.store.value[t])
  {
    var w1 := Happen(w, e);
    SoundNext(w, e);
    if w1.now < t.claims.expiresAt && w1.store.Some? && t in w1.store.value && w1.now < w1.store.value[t] {
      assert LeavesAlone([], t) && After(w1, []) == w1;
    } else {
      forall events: seq<Event> | LeavesAlone(events, t)
        ensures Accepts(After(w1, events), t) <==> After(w1, events).now < t.claims.expiresAt
      {
        SoundAfter(w1, events);
        StoreStays(w1, events);
        if w1.store.Some? {
          UntouchedEntryStays(w1, events, t);
        }
      }
    }
  }

  /** A token handed out before: a refresh token is exchanged for itself, already revoked, exactly
      when neither truncated date has moved since it was issued. */
  lemma RefreshedIntoItselfIff(w: World, c: Claims, issued: int)
    requires Sound(w) && w.store.Some? && w.cfg.accessExpiry > 0
    requires var t := Pair(w.cfg, issued, c).refreshToken;
             Possible(w, Refresh(t)) && Accepts(w, t)
    ensures var t := Pair(w.cfg, issued, c).refreshToken;
            var t' := Minted(w, Refresh(t)).value.refreshToken;
            && (t' == t <==>
                 (&& TruncateToSecond(w.now) == TruncateToSecond(issued)
                  && TruncateToSecond(w.now + w.cfg.refreshExpiry) == TruncateToSecond(issued + w.cfg.refreshExpiry)))
            && (t' == t ==> !Accepts(Happen(w, Refresh(t)), t'))
  {
  }

  /** And so is an access token, which RefreshToken accepts as well. */
  lemma AccessRefreshedIntoItselfIff(w: World, c: Claims, issued: int)
    requires Sound(w) && w.store.Some? && w.cfg.accessExpiry > 0
    requires var t := Pair(w.cfg, issued, c).accessToken;
             Possible(w, Refresh(t)) && Accepts(w, t)
    ensures var t := Pair(w.cfg, issued, c).accessToken;
            var t' := Minted(w, Refresh(t)).value.accessToken;
            && (t' == t <==>
                 (&& TruncateToSecond(w.now) == TruncateToSecond(issued)
                  && TruncateToSecond(w.now + w.cfg.accessExpiry) == TruncateToSecond(issued + w.cfg.accessExpiry)))
            && (t' == t ==> !Accepts(Happen(w, Refresh(t)), t'))
  {
  }

  /** The same second alone does not make it so: with a RefreshExpiry of 1.5 seconds, tokens issued
      at 0.4 and 0.6 seconds differ. */
  lemma SameSecondIsNotEnough(cfg: Config, c: Claims)
    requires cfg.refreshExpiry == 3 * SECOND / 2
    ensures TruncateToSecond(2 * SECOND / 5) == TruncateToSecond(3 * SECOND / 5)
    ensures Pair(cfg, 2 * SECOND / 5, c).refreshToken != Pair(cfg, 3 * SECOND / 5, c).refreshToken
  {
  }

  /** The pair's ExpiresAt is less than a second after the access token's own expiry. */
  lemma ExpiresAtIsClose(cfg: Config, now: int, c: Claims)
    ensures var p := Pair(cfg, now, c);
            p.accessToken.claims.expiresAt <= p.expiresAt < p.accessToken.claims.expiresAt + SECOND
  {
  }

  // ---- identity along chains of refreshes ----

  /** One link: the instant of the refresh, and which token of the previous pair it used. */
  datatype Link = Link(now: int, usedAccess: bool)

  function ChainPair(cfg: Config, root: Claims, start: int, links: seq<Link>): TokenPair {
    if links == [] then Pair(cfg, start, root)
    else
      var l := links[|links| - 1];
      var previous := ChainPair(cfg, root, start, links[..|links| - 1]);
      Pair(cfg, l.now, if l.usedAccess then previous.accessToken.claims else previous.refreshToken.claims)
  }

  /** Along a chain of any length both tokens keep the UserID of the login; the access token
      keeps its name, roles and extras as long as only access tokens were exchanged, and has
      none of them ever after a refresh token was. */
  lemma {:induction false} ChainKeepsIdentity(cfg: Config, root: Claims, start: int, links: seq<Link>)
    ensures var p := ChainPair(cfg, root, start, links);
            var a, r := p.accessToken.claims, p.refreshToken.claims;
            && a.userID == r.userID == r.subject == root.userID
            && a.issuer == r.issuer == cfg.issuer && a.subject == ""
            && r.roles == [] && r.username == "" && r.extra == map[]
            && (if forall l <- links :: l.usedAccess
                then a.roles == root.roles && a.username == root.username && a.extra == root.extra
                else a.roles == [] && a.username == "" && a.extra == map[])
  {
    if links != [] {
      var init := links[..|links| - 1];
      ChainKeepsIdentity(cfg, root, start, init);
      assert links == init + [links[|links| - 1]];
      assert (forall l <- links :: l.usedAccess)
        <==> (forall l <- init :: l.usedAccess) && links[|links| - 1].usedAccess;
    }
  }

  /** t carries the identity of the login claims c and no role beyond them. */
  predicate Derives(t: Token, c: Claims) {
    t.Signed? && t.claims.userID == c.userID && (t.claims.roles == c.roles || t.claims.roles == [])
  }

  ghost predicate HasLogin(logins: set<Claims>, t: Token) {
    exists c :: c in logins && Derives(t, c)
  }

  function LoginsOf(events: seq<Event>): set<Claims> {
    set e | e in events && e.Issue? :: e.claims
  }

  /** In every run every token handed out, hence every token ever accepted, carries the UserID
      of some login of that run and no role that login lacked. */
  lemma {:induction false} TokensComeFromLogins(w: World, events: seq<Event>, logins: set<Claims>)
    requires Sound(w) && AllPossible(w, events)
    requires forall t <- w.issued :: HasLogin(logins, t)
    ensures forall t <- After(w, events).issued :: HasLogin(logins + LoginsOf(events), t)
    decreases |events|
  {
    if events == [] {
      assert LoginsOf(events) == {} && logins + {} == logins;
    } else {
      var w1 := Happen(w, events[0]);
      var more := if events[0].Issue? then logins + {events[0].claims} else logins;
      forall t <- w1.issued
        ensures HasLogin(more, t)
      {
        if t in w.issued {
          var c :| c in logins && Derives(t, c);
        } else if events[0].Issue? {
          assert Derives(t, events[0].claims);
        } else {
          assert events[0].Refresh? && HasLogin(logins, events[0].token);
          var c :| c in logins && Derives(events[0].token, c);
          assert Derives(t, c);
        }
      }
      SoundNext(w, events[0]);
      TokensComeFromLogins(w1, events[1..], more);
      assert events == [events[0]] + events[1..];
      assert more + LoginsOf(events[1..]) == logins + LoginsOf(events);
    }
  }
}
