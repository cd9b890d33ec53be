/**
 * One user's device registry in Redis: the token of each session, the session of each device, and
 * the sorted set of devices by last use. Keys expire; a key is read only before its expiry.
 * Signing and hashing are taken as injective, so a stored hash stands for its token.
 */
module Sessions {
  import opened Options

  type DeviceId = string
  type SessionId = string
  type Time = int // milliseconds

  const REFRESH_TOKEN_TIME: int := 7 * 24 * 60 * 60 * 1000
  const MAX_DEVICES: nat := 5

  /** A signed refresh token carries its session; `serial` tells apart tokens of one session. */
  datatype Token = Token(sessionId: SessionId, serial: nat)
  datatype Key<T> = Key(value: T, expiresAt: Time)

  datatype Registry = Registry(
    tokens: map<SessionId, Key<Token>>,
    sessions: map<DeviceId, Key<SessionId>>,
    devices: map<DeviceId, Time>, devicesExpireAt: Time)

  predicate Live<T>(m: map<string, Key<T>>, k: string, now: Time) {
    k in m && now < m[k].expiresAt
  }

  /** The members of the sorted set, none once the whole set has expired. */
  function Members(r: Registry, now: Time): map<DeviceId, Time> {
    if now < r.devicesExpireAt then r.devices else map[]
  }

  // ----- The newest members -----

  /** Members of equal score are ordered by name. */
  predicate Below(a: string, b: string) {
    b != "" && (a == "" || a[0] < b[0] || (a[0] == b[0] && Below(a[1..], b[1..])))
  }

  lemma {:induction false} BelowIsTotal(a: string, b: string)
    ensures a != b ==> Below(a, b) || Below(b, a)
    ensures Below(a, b) ==> a != b && !Below(b, a)
  {
    if a != "" && b != "" {
      BelowIsTotal(a[1..], b[1..]);
      assert a == [a[0]] + a[1..] && b == [b[0]] + b[1..];
    }
  }

  lemma {:induction false} BelowIsTransitive(a: string, b: string, c: string)
    requires Below(a, b) && Below(b, c)
    ensures Below(a, c)
  {
    if a != "" && a[0] == b[0] == c[0] {
      BelowIsTransitive(a[1..], b[1..], c[1..]);
    }
  }

  /** The order of the sorted set: by score, then by name. */
  predicate Before(m: map<DeviceId, Time>, d: DeviceId, e: DeviceId)
    requires d in m && e in m
  {
    m[d] < m[e] || (m[d] == m[e] && Below(d, e))
  }

  lemma BeforeIsOrder(m: map<DeviceId, Time>, d: DeviceId, e: DeviceId)
    requires d in m && e in m
    ensures d != e ==> Before(m, d, e) || Before(m, e, d)
    ensures Before(m, d, e) ==> d != e && !Before(m, e, d)
  {
    BelowIsTotal(d, e);
  }

  function Newer(m: map<DeviceId, Time>, d: DeviceId): set<DeviceId>
    requires d in m
  {
    set e | e in m && Before(m, d, e)
  }

  /** The members with fewer than k newer ones. */
  function Newest(m: map<DeviceId, Time>, k: nat): map<DeviceId, Time> {
    map d | d in m && |Newer(m, d)| < k :: m[d]
  }

  ghost predicate IsOldest(m: map<DeviceId, Time>, d: DeviceId) {
    d in m && forall e | e in m :: e == d || Before(m, d, e)
  }

  lemma {:induction false} OldestExists(m: map<DeviceId, Time>)
    requires m != map[]
    ensures exists d :: IsOldest(m, d)
    decreases |m|
  {
    var d :| d in m;
    if !IsOldest(m, d) {
      var rest := m - {d};
      var e :| e in m && e != d && !Before(m, d, e);
      assert e in rest;
      OldestExists(rest);
      var f :| IsOldest(rest, f);
      BeforeIsOrder(m, d, e);
      if f != e {
        assert Before(rest, f, e);
        BeforeIsTransitive(m, f, e, d);
      }
      forall x | x in m
        ensures x == f || Before(m, f, x)
      {
        if x != d && x != f {
          assert x in rest && Before(rest, f, x);
        }
      }
      assert IsOldest(m, f);
    }
  }

  lemma BeforeIsTransitive(m: map<DeviceId, Time>, d: DeviceId, e: DeviceId, f: DeviceId)
    requires d in m && e in m && f in m && Before(m, d, e) && Before(m, e, f)
    ensures Before(m, d, f)
  {
    if m[d] == m[e] == m[f] {
      BelowIsTransitive(d, e, f);
    }
  }

  lemma OldestHasAllOthersNewer(m: map<DeviceId, Time>, d: DeviceId)
    requires IsOldest(m, d)
    ensures |Newer(m, d)| == |m| - 1
  {
    BeforeIsOrder(m, d, d);
    assert Newer(m, d) == m.Keys - {d};
  }

  /** Dropping the oldest member changes nothing for those who kept fewer than k newer ones. */
  lemma NewestIgnoresOldest(m: map<DeviceId, Time>, d: DeviceId, k: nat)
    requires IsOldest(m, d) && k < |m|
    ensures Newest(m - {d}, k) == Newest(m, k)
    ensures |m - {d}| == |m| - 1
  {
    var rest := m - {d};
    assert rest.Keys == m.Keys - {d};
    OldestHasAllOthersNewer(m, d);
    forall e | e in rest
      ensures Newer(rest, e) == Newer(m, e)
    {
      BeforeIsOrder(m, d, e);
      assert d !in Newer(m, e);
    }
  }

  lemma NewestOfFew(m: map<DeviceId, Time>, k: nat)
    requires |m| <= k
    ensures Newest(m, k) == m
  {
    forall d | d in m
      ensures |Newer(m, d)| < k
    {
      BeforeIsOrder(m, d, d);
      assert Newer(m, d) <= m.Keys - {d};
      SubsetSize(Newer(m, d), m.Keys - {d});
    }
  }

  lemma {:induction false} SubsetSize(a: set<DeviceId>, b: set<DeviceId>)
    requires a <= b
    ensures |a| <= |b|
  {
    assert b == a + (b - a);
  }

  /** Exactly the k newest are kept, or all of fewer. */
  lemma {:induction false} NewestCount(m: map<DeviceId, Time>, k: nat)
    ensures |Newest(m, k)| == if |m| <= k then |m| else k
    decreases |m|
  {
    if |m| <= k {
      NewestOfFew(m, k);
    } else {
      OldestExists(m);
      var d :| IsOldest(m, d);
      NewestIgnoresOldest(m, d, k);
      NewestCount(m - {d}, k);
    }
  }

  // ----- Operations -----

  /** Sessions whose tokens go with the evicted devices; an expired device key is no longer found. */
  function SessionsOf(sessions: map<DeviceId, Key<SessionId>>, ds: set<DeviceId>, now: Time): set<SessionId> {
    set d | d in ds && d in sessions && now < sessions[d].expiresAt :: sessions[d].value
  }

  lemma SessionsOfMore(sessions: map<DeviceId, Key<SessionId>>, ds: set<DeviceId>, d: DeviceId, now: Time)
    ensures SessionsOf(sessions, ds + {d}, now) == SessionsOf(sessions, ds, now) + SessionsOf(sessions - ds, {d}, now)
  {}

  function LoggedIn(r: Registry, now: Time, d: DeviceId, token: Token): Registry {
    var expiry := now + REFRESH_TOKEN_TIME;
    var sessions := r.sessions[d := Key(token.sessionId, expiry)];
    var members := Members(r, now)[d := now];
    var evicted := members.Keys - Newest(members, MAX_DEVICES).Keys;
    Registry(r.tokens[token.sessionId := Key(token, expiry)] - SessionsOf(sessions, evicted, now),
             sessions - evicted, Newest(members, MAX_DEVICES), expiry)
  }

  /** The token is the one stored for its session, and its session is the one registered on the device. */
  predicate Accepts(r: Registry, now: Time, d: DeviceId, token: Token) {
    && Live(r.tokens, token.sessionId, now) && r.tokens[token.sessionId].value == token
    && Live(r.sessions, d, now) && r.sessions[d].value == token.sessionId
  }

  function Refreshed(r: Registry, now: Time, d: DeviceId, token: Token, successor: Token): Registry {
    var expiry := now + REFRESH_TOKEN_TIME;
    if !Accepts(r, now, d, token) then r
    else Registry(r.tokens[token.sessionId := Key(successor, expiry)], r.sessions[d := Key(token.sessionId, expiry)],
                  Members(r, now)[d := now], expiry)
  }

  function LoggedOut(r: Registry, now: Time, d: DeviceId): Registry {
    if !Live(r.sessions, d, now) then r
    else Registry(r.tokens - {r.sessions[d].value}, r.sessions - {d}, r.devices - {d}, r.devicesExpireAt)
  }

  // ----- Runs -----

  datatype Event =
    | LogIn(now: Time, d: DeviceId, token: Token)
    | Rotate(now: Time, d: DeviceId, token: Token, successor: Token)
    | LogOut(now: Time, d: DeviceId)

  /** The registry, with what has been issued: `latest` is the last token given to each device still logged in. */
  datatype World = World(r: Registry, clock: Time, latest: map<DeviceId, Token>, issued: set<Token>, used: set<SessionId>)

  const START := World(Registry(map[], map[], map[], 0), 0, map[], {}, {})

  /** Time never goes back; sessions and tokens are fresh when created. */
  predicate Legal(w: World, e: Event) {
    match e
    case LogIn(now, _, token) => w.clock <= now && token !in w.issued && token.sessionId !in w.used
    case Rotate(now, _, token, successor) => w.clock <= now && successor !in w.issued && successor.sessionId == token.sessionId
    case LogOut(now, _) => w.clock <= now
  }

  function Next(w: World, e: Event): World {
    match e
    case LogIn(now, d, token) =>
      var r := LoggedIn(w.r, now, d, token);
      var latest := w.latest[d := token];
      World(r, now, map x | x in latest && x in r.sessions :: latest[x], w.issued + {token}, w.used + {token.sessionId})
    case Rotate(now, d, token, successor) =>
      if Accepts(w.r, now, d, token)
      then World(Refreshed(w.r, now, d, token, successor), now, w.latest[d := successor], w.issued + {successor}, w.used)
      else w.(clock := now)
    case LogOut(now, d) =>
      World(LoggedOut(w.r, now, d), now, if Live(w.r.sessions, d, now) then w.latest - {d} else w.latest, w.issued, w.used)
  }

  function Run(es: seq<Event>): World {
    if es == [] then START else Next(Run(es[..|es| - 1]), es[|es| - 1])
  }

  ghost predicate LegalRun(es: seq<Event>) {
    es == [] || (LegalRun(es[..|es| - 1]) && Legal(Run(es[..|es| - 1]), es[|es| - 1]))
  }

  // ----- Invariants -----

  /** At most five members, scored at past instants; a session never outlives the set that lists its device. */
  ghost predicate Listed(r: Registry, clock: Time) {
    && |r.devices| <= MAX_DEVICES
    && r.devicesExpireAt <= clock + REFRESH_TOKEN_TIME
    && (forall d | d in r.devices :: r.devices[d] <= clock)
    && (forall d | d in r.sessions :: r.sessions[d].expiresAt <= r.devicesExpireAt)
    && (forall d | d in r.sessions && clock < r.sessions[d].expiresAt :: d in r.devices)
  }

  /** The device's session is its own, and stores the last token the device was given. */
  predicate Holds(w: World, d: DeviceId) {
    && d in w.r.sessions && d in w.latest
    && var s := w.r.sessions[d].value;
       && s == w.latest[d].sessionId && s in w.used && w.latest[d] in w.issued
       && s in w.r.tokens && w.r.tokens[s] == Key(w.latest[d], w.r.sessions[d].expiresAt)
  }

  ghost predicate OwnSessions(sessions: map<DeviceId, Key<SessionId>>) {
    forall d, e | d in sessions && e in sessions && d != e :: sessions[d].value != sessions[e].value
  }

  ghost predicate Registered(w: World) {
    && w.latest.Keys == w.r.sessions.Keys
    && (forall d | d in w.latest :: Holds(w, d))
    && OwnSessions(w.r.sessions)
  }

  lemma NewestIsPart(m: map<DeviceId, Time>, k: nat)
    ensures Newest(m, k).Keys <= m.Keys
    ensures |Newest(m, k)| <= k
  {
    NewestCount(m, k);
  }

  lemma LoginKeepsListed(r: Registry, clock: Time, now: Time, d: DeviceId, token: Token)
    requires Listed(r, clock) && clock <= now
    ensures Listed(LoggedIn(r, now, d, token), now)
  {
    var m := Members(r, now)[d := now];
    var r' := LoggedIn(r, now, d, token);
    NewestIsPart(m, MAX_DEVICES);
    assert r'.devices == Newest(m, MAX_DEVICES);
    forall x | x in r'.sessions
      ensures r'.sessions[x].expiresAt <= r'.devicesExpireAt
      ensures now < r'.sessions[x].expiresAt ==> x in r'.devices
    {
      if x != d {
        assert r'.sessions[x] == r.sessions[x];
        if now < r.sessions[x].expiresAt {
          assert x in m;
        }
      }
    }
  }

  lemma RefreshKeepsListed(r: Registry, clock: Time, now: Time, d: DeviceId, token: Token, successor: Token)
    requires Listed(r, clock) && clock <= now
    ensures Listed(Refreshed(r, now, d, token, successor), now)
  {
    if Accepts(r, now, d, token) {
      assert d in r.devices;
      assert r.devices[d := now].Keys == r.devices.Keys;
    }
  }

  lemma LogoutKeepsListed(r: Registry, clock: Time, now: Time, d: DeviceId)
    requires Listed(r, clock) && clock <= now
    ensures Listed(LoggedOut(r, now, d), now)
  {
    SubsetSize(r.devices.Keys - {d}, r.devices.Keys);
    assert (r.devices - {d}).Keys == r.devices.Keys - {d};
  }

  lemma NextKeepsListed(w: World, e: Event)
    requires Listed(w.r, w.clock) && Legal(w, e)
    ensures Listed(Next(w, e).r, Next(w, e).clock)
  {
    match e
    case LogIn(now, d, token) => LoginKeepsListed(w.r, w.clock, now, d, token);
    case Rotate(now, d, token, successor) => RefreshKeepsListed(w.r, w.clock, now, d, token, successor);
    case LogOut(now, d) => LogoutKeepsListed(w.r, w.clock, now, d);
  }

  /** A new session on one device leaves all sessions distinct. */
  lemma NewSessionIsOwn(w: World, d: DeviceId, s: SessionId, expiry: Time)
    requires Registered(w) && s !in w.used
    ensures OwnSessions(w.r.sessions[d := Key(s, expiry)])
  {
    forall x | x in w.r.sessions
      ensures w.r.sessions[x].value != s
    {
      assert Holds(w, x);
    }
  }

  /** A device that survives another one's login keeps its session and token. */
  lemma LoginKeepsHolder(w: World, now: Time, d: DeviceId, token: Token, x: DeviceId)
    requires Registered(w) && token.sessionId !in w.used && x != d
    requires x in LoggedIn(w.r, now, d, token).sessions
    ensures Holds(Next(w, LogIn(now, d, token)), x)
  {
    var sessions := w.r.sessions[d := Key(token.sessionId, now + REFRESH_TOKEN_TIME)];
    NewSessionIsOwn(w, d, token.sessionId, now + REFRESH_TOKEN_TIME);
    assert Holds(w, x);
    var members := Members(w.r, now)[d := now];
    var evicted := members.Keys - Newest(members, MAX_DEVICES).Keys;
    assert sessions[x].value !in SessionsOf(sessions, evicted, now);
  }

  lemma LoginKeepsRegistered(w: World, now: Time, d: DeviceId, token: Token)
    requires Listed(w.r, w.clock) && Registered(w) && Legal(w, LogIn(now, d, token))
    ensures Registered(Next(w, LogIn(now, d, token)))
  {
    var w' := Next(w, LogIn(now, d, token));
    LoginKeepsListed(w.r, w.clock, now, d, token);
    NewSessionIsOwn(w, d, token.sessionId, now + REFRESH_TOKEN_TIME);
    forall x | x in w'.latest
      ensures Holds(w', x)
    {
      if x != d {
        LoginKeepsHolder(w, now, d, token, x);
      }
    }
  }

  lemma RotateKeepsRegistered(w: World, now: Time, d: DeviceId, token: Token, successor: Token)
    requires Listed(w.r, w.clock) && Registered(w) && Legal(w, Rotate(now, d, token, successor))
    ensures Registered(Next(w, Rotate(now, d, token, successor)))
  {
    if Accepts(w.r, now, d, token) {
      var w' := Next(w, Rotate(now, d, token, successor));
      forall x | x in w'.r.sessions
        ensures w'.r.sessions[x].value == w.r.sessions[x].value
      {}
    }
  }

  lemma LogOutKeepsRegistered(w: World, now: Time, d: DeviceId)
    requires Registered(w)
    ensures Registered(Next(w, LogOut(now, d)))
  {}

  lemma NextKeepsRegistered(w: World, e: Event)
    requires Listed(w.r, w.clock) && Registered(w) && Legal(w, e)
    ensures Registered(Next(w, e))
  {
    match e
    case LogIn(now, d, token) => LoginKeepsRegistered(w, now, d, token);
    case Rotate(now, d, token, successor) => RotateKeepsRegistered(w, now, d, token, successor);
    case LogOut(now, d) => LogOutKeepsRegistered(w, now, d);
  }

  lemma {:induction false} AlwaysConsistent(es: seq<Event>)
    requires LegalRun(es)
    ensures Listed(Run(es).r, Run(es).clock) && Registered(Run(es))
  {
    if es != [] {
      var prefix := es[..|es| - 1];
      AlwaysConsistent(prefix);
      NextKeepsListed(Run(prefix), es[|es| - 1]);
      NextKeepsRegistered(Run(prefix), es[|es| - 1]);
    }
  }

  // ----- What a user relies on -----

  function LiveDevices(r: Registry, now: Time): set<DeviceId> {
    set d | d in r.sessions && now < r.sessions[d].expiresAt
  }

  /** After any run and any passing of time, at most five devices are logged in, and each is in the unexpired set. */
  lemma AtMostFiveDevices(es: seq<Event>, now: Time)
    requires LegalRun(es) && Run(es).clock <= now
    ensures LiveDevices(Run(es).r, now) <= Members(Run(es).r, now).Keys
    ensures |LiveDevices(Run(es).r, now)| <= 5
  {
    AlwaysConsistent(es);
    var r := Run(es).r;
    assert LiveDevices(r, now) <= r.devices.Keys;
    SubsetSize(LiveDevices(r, now), r.devices.Keys);
  }

  /** A sixth member pushes out exactly the oldest one. */
  lemma SixthPushesOutOldest(before: map<DeviceId, Time>, eldest: DeviceId)
    requires |before| == MAX_DEVICES + 1 && IsOldest(before, eldest)
    ensures Newest(before, MAX_DEVICES) == before - {eldest}
  {
    NewestIgnoresOldest(before, eldest, MAX_DEVICES);
    NewestOfFew(before - {eldest}, MAX_DEVICES);
  }

  lemma LoggedInDevice(r: Registry, now: Time, d: DeviceId, token: Token)
    ensures var after := LoggedIn(r, now, d, token);
            && after.devices == Newest(Members(r, now)[d := now], MAX_DEVICES)
            && (d in after.devices <==> Live(after.sessions, d, now))
            && forall e | e in Members(r, now)[d := now] && e !in after.devices :: e !in after.sessions
  {}

  lemma AtMostOneMore(m: map<DeviceId, Time>, d: DeviceId, now: Time)
    ensures |m[d := now]| <= |m| + 1
  {
    assert m[d := now].Keys == m.Keys + {d};
  }

  /**
   * A login evicts only when a sixth device joins, then exactly one: the least recently used. That is the
   * new device only if the five others were all used at the same instant and have greater names.
   */
  lemma LoginEvictsOldest(es: seq<Event>, now: Time, d: DeviceId, token: Token)
    requires LegalRun(es) && Legal(Run(es), LogIn(now, d, token))
    ensures var before := Members(Run(es).r, now)[d := now];
            var after := LoggedIn(Run(es).r, now, d, token);
            && (|before| <= 5 ==> after.devices == before)
            && (|before| > 5 ==> exists eldest ::
                  IsOldest(before, eldest) && after.devices == before - {eldest} && eldest !in after.sessions)
            && (d in after.devices <==> Live(after.sessions, d, now))
            && (d !in after.devices <==>
                  |before| > 5 && forall e | e in before && e != d :: before[e] == now && Below(d, e))
  {
    AlwaysConsistent(es);
    LoginEvicts(Run(es).r, Run(es).clock, now, d, token);
  }

  lemma LoginEvicts(r: Registry, clock: Time, now: Time, d: DeviceId, token: Token)
    requires Listed(r, clock) && clock <= now
    ensures var before := Members(r, now)[d := now];
            var after := LoggedIn(r, now, d, token);
            && (|before| <= 5 ==> after.devices == before)
            && (|before| > 5 ==> exists eldest ::
                  IsOldest(before, eldest) && after.devices == before - {eldest} && eldest !in after.sessions)
            && (d in after.devices <==> Live(after.sessions, d, now))
            && (d !in after.devices <==>
                  |before| > 5 && forall e | e in before && e != d :: before[e] == now && Below(d, e))
  {
    var before := Members(r, now)[d := now];
    LoggedInDevice(r, now, d, token);
    if |before| <= MAX_DEVICES {
      NewestOfFew(before, MAX_DEVICES);
    } else {
      AtMostOneMore(Members(r, now), d, now);
      OldestExists(before);
      var eldest :| IsOldest(before, eldest);
      SixthPushesOutOldest(before, eldest);
      NewestIsOldestExactly(before, now, d, eldest);
    }
  }

  lemma NewestIsOldestExactly(m: map<DeviceId, Time>, now: Time, d: DeviceId, eldest: DeviceId)
    requires d in m && m[d] == now && IsOldest(m, eldest) && forall e | e in m :: m[e] <= now
    ensures d == eldest <==> forall e | e in m && e != d :: m[e] == now && Below(d, e)
  {
    if d != eldest {
      BeforeIsOrder(m, d, eldest);
    }
  }

  /** In particular, a login later than every other use never evicts the device it comes from. */
  lemma LaterLoginIsKept(es: seq<Event>, now: Time, d: DeviceId, token: Token)
    requires LegalRun(es) && Legal(Run(es), LogIn(now, d, token)) && Run(es).clock < now
    ensures Live(LoggedIn(Run(es).r, now, d, token).sessions, d, now)
  {
    AlwaysConsistent(es);
    LoginEvictsOldest(es, now, d, token);
    var before := Members(Run(es).r, now)[d := now];
    if |before| > MAX_DEVICES {
      var e := OtherMember(before, d);
      assert before[e] < now;
    }
  }

  lemma OtherMember(m: map<DeviceId, Time>, d: DeviceId) returns (e: DeviceId)
    requires |m| > 1
    ensures e in m && e != d
  {
    if forall x | x in m :: x == d {
      SubsetSize(m.Keys, {d});
    }
    e :| e in m && e != d;
  }

  /** A refresh token is accepted exactly when it is the last one given to that device and has not expired. */
  lemma AcceptedExactlyLatest(es: seq<Event>, now: Time, d: DeviceId, token: Token)
    requires LegalRun(es)
    ensures var w := Run(es);
            Accepts(w.r, now, d, token) <==>
            d in w.latest && w.latest[d] == token && d in w.r.sessions && now < w.r.sessions[d].expiresAt
  {
    AlwaysConsistent(es);
  }

  /** Issued once, and no longer the latest of any device. */
  ghost predicate Retired(w: World, token: Token) {
    token in w.issued && forall d | d in w.latest :: w.latest[d] != token
  }

  /** Whatever takes a device's latest token away - rotation, new login, logout, eviction - retires it. */
  lemma SupersededTokensRetire(es: seq<Event>, e: Event, d: DeviceId)
    requires LegalRun(es) && Legal(Run(es), e)
    requires d in Run(es).latest
    requires var after := Next(Run(es), e).latest; d !in after || after[d] != Run(es).latest[d]
    ensures Retired(Next(Run(es), e), Run(es).latest[d])
  {
    AlwaysConsistent(es);
    var w, w' := Run(es), Next(Run(es), e);
    forall x | x in w'.latest
      ensures w'.latest[x] != w.latest[d]
    {
      if x != d && x in w.latest {
        assert Holds(w, x) && Holds(w, d) && w.r.sessions[x].value != w.r.sessions[d].value;
      }
    }
  }

  lemma {:induction false} RetiredForever(es: seq<Event>, i: nat, token: Token)
    requires LegalRun(es) && i <= |es| && Retired(Run(es[..i]), token)
    ensures Retired(Run(es), token)
  {
    if i == |es| {
      assert es[..i] == es;
    } else {
      var prefix := es[..|es| - 1];
      assert prefix[..i] == es[..i];
      RetiredForever(prefix, i, token);
    }
  }

  /** A retired token is refused on every device, at every instant, in every later state. */
  lemma RetiredTokensRefused(es: seq<Event>, i: nat, token: Token, now: Time, d: DeviceId)
    requires LegalRun(es) && i <= |es| && Retired(Run(es[..i]), token)
    ensures !Accepts(Run(es).r, now, d, token)
  {
    RetiredForever(es, i, token);
    AcceptedExactlyLatest(es, now, d, token);
  }

  // ----- How long a token lasts, told from the events alone -----

  /** The token a device was given last, and when. */
  datatype Grant = Grant(token: Token, at: Time)

  predicate Good(g: Option<Grant>, token: Token, now: Time) {
    g.Some? && g.value.token == token && now < g.value.at + 604_800_000
  }

  /** The device is still one of the five. */
  predicate Kept(es: seq<Event>, d: DeviceId) {
    d in Run(es).r.devices
  }

  /** A login gives its device a token, a rotation with a good one the successor; logout and eviction take it away. */
  function GrantOf(es: seq<Event>, d: DeviceId): Option<Grant> {
    if es == [] then None
    else
      var before := GrantOf(es[..|es| - 1], d);
      match es[|es| - 1]
      case LogIn(now, x, token) => if !Kept(es, d) then None else if x == d then Some(Grant(token, now)) else before
      case Rotate(now, x, token, successor) => if x == d && Good(before, token, now) then Some(Grant(successor, now)) else before
      case LogOut(_, x) => if x == d then None else before
  }

  /** The grant is exactly what the keys of the device hold, or neither is any good. */
  ghost predicate Granted(w: World, d: DeviceId, g: Option<Grant>) {
    if d in w.r.sessions && w.clock < w.r.sessions[d].expiresAt
    then d in w.latest && g == Some(Grant(w.latest[d], w.r.sessions[d].expiresAt - REFRESH_TOKEN_TIME))
    else g.Some? ==> g.value.at + REFRESH_TOKEN_TIME <= w.clock
  }

  lemma LoginGrants(w: World, now: Time, d: DeviceId, token: Token, x: DeviceId, g: Option<Grant>)
    requires Listed(w.r, w.clock) && Granted(w, x, g) && w.clock <= now
    ensures var w' := Next(w, LogIn(now, d, token));
            Granted(w', x, if x !in w'.r.devices then None else if x == d then Some(Grant(token, now)) else g)
  {
    var w' := Next(w, LogIn(now, d, token));
    LoginKeepsListed(w.r, w.clock, now, d, token);
    if x != d && x in w'.r.sessions {
      assert w'.r.sessions[x] == w.r.sessions[x];
    }
  }

  lemma RotationGrants(w: World, now: Time, d: DeviceId, token: Token, successor: Token, x: DeviceId, g: Option<Grant>)
    requires Listed(w.r, w.clock) && Registered(w) && Granted(w, x, g) && w.clock <= now
    ensures Granted(Next(w, Rotate(now, d, token, successor)), x,
                    if x == d && Good(g, token, now) then Some(Grant(successor, now)) else g)
  {
    if d in w.r.sessions {
      assert Holds(w, d);
    }
  }

  lemma LogoutGrants(w: World, now: Time, d: DeviceId, x: DeviceId, g: Option<Grant>)
    requires Granted(w, x, g) && w.clock <= now
    ensures Granted(Next(w, LogOut(now, d)), x, if x == d then None else g)
  {}

  lemma {:induction false} GrantsAreHeld(es: seq<Event>, d: DeviceId)
    requires LegalRun(es)
    ensures Granted(Run(es), d, GrantOf(es, d))
  {
    if es != [] {
      var prefix, e := es[..|es| - 1], es[|es| - 1];
      GrantsAreHeld(prefix, d);
      AlwaysConsistent(prefix);
      match e {
        case LogIn(now, x, token) => LoginGrants(Run(prefix), now, x, token, d, GrantOf(prefix, d));
        case Rotate(now, x, token, successor) => RotationGrants(Run(prefix), now, x, token, successor, d, GrantOf(prefix, d));
        case LogOut(now, x) => LogoutGrants(Run(prefix), now, x, d, GrantOf(prefix, d));
      }
    }
  }

  /**
   * After every run, a token is accepted on a device exactly if it is the one the device was given last,
   * by a login or an accepted rotation, and less than seven days ago, with no logout or eviction since.
   */
  lemma TokensLastSevenDays(es: seq<Event>, now: Time, d: DeviceId, token: Token)
    requires LegalRun(es) && Run(es).clock <= now
    ensures Accepts(Run(es).r, now, d, token) <==> Good(GrantOf(es, d), token, now)
  {
    GrantsAreHeld(es, d);
    AlwaysConsistent(es);
    AcceptedExactlyLatest(es, now, d, token);
  }

  /** Events that leave a device alone, and the device among the five. */
  ghost predicate LeavesAlone(es: seq<Event>, more: seq<Event>, d: DeviceId) {
    forall i | 0 <= i < |more| :: more[i].d != d && (more[i].LogIn? ==> Kept(es + more[..i + 1], d))
  }

  lemma {:induction false} GrantStays(es: seq<Event>, more: seq<Event>, d: DeviceId)
    requires LeavesAlone(es, more, d)
    ensures GrantOf(es + more, d) == GrantOf(es, d)
  {
    if more == [] {
      assert es + more == es;
    } else {
      var n := |more| - 1;
      assert (es + more)[..|es + more| - 1] == es + more[..n];
      assert forall i | 0 <= i < n :: more[..n][i] == more[i] && more[..n][..i + 1] == more[..i + 1];
      GrantStays(es, more[..n], d);
      assert more[..n + 1] == more;
    }
  }

  /**
   * An accepted rotation leaves the device logged in: its successor is accepted at every instant of the
   * next seven days, through any events that leave the device alone, and no longer.
   */
  lemma SuccessorIsGoodForSevenDays(es: seq<Event>, e: Event, more: seq<Event>, now: Time)
    requires e.Rotate? && Accepts(Run(es).r, e.now, e.d, e.token)
    requires LegalRun(es + [e] + more) && Run(es + [e] + more).clock <= now && LeavesAlone(es + [e], more, e.d)
    ensures Accepts(Run(es + [e] + more).r, now, e.d, e.successor) <==> now < e.now + 604_800_000
  {
    LegalPrefix(es + [e], more);
    LegalPrefix(es, [e]);
    assert (es + [e])[..|es|] == es;
    TokensLastSevenDays(es, e.now, e.d, e.token);
    GrantStays(es + [e], more, e.d);
    TokensLastSevenDays(es + [e] + more, now, e.d, e.successor);
  }

  /** So is the token of a login that keeps its device. */
  lemma LoginIsGoodForSevenDays(es: seq<Event>, e: Event, more: seq<Event>, now: Time)
    requires e.LogIn? && Kept(es + [e], e.d)
    requires LegalRun(es + [e] + more) && Run(es + [e] + more).clock <= now && LeavesAlone(es + [e], more, e.d)
    ensures Accepts(Run(es + [e] + more).r, now, e.d, e.token) <==> now < e.now + 604_800_000
  {
    assert (es + [e])[..|es|] == es;
    GrantStays(es + [e], more, e.d);
    TokensLastSevenDays(es + [e] + more, now, e.d, e.token);
  }

  lemma {:induction false} LegalPrefix(es: seq<Event>, more: seq<Event>)
    requires LegalRun(es + more)
    ensures LegalRun(es)
  {
    if more == [] {
      assert es + more == es;
    } else {
      assert (es + more)[..|es + more| - 1] == es + more[..|more| - 1];
      LegalPrefix(es, more[..|more| - 1]);
    }
  }

  /** The instant of a device's last login or accepted rotation, unless it logged out since. */
  function LastUse(es: seq<Event>, d: DeviceId): Option<Time> {
    if es == [] then None
    else
      var prefix := es[..|es| - 1];
      match es[|es| - 1]
      case LogIn(now, x, _) => if x == d then Some(now) else LastUse(prefix, d)
      case Rotate(now, x, token, _) => if x == d && Good(GrantOf(prefix, d), token, now) then Some(now) else LastUse(prefix, d)
      case LogOut(now, x) =>
        var g := GrantOf(prefix, d);
        if x == d && g.Some? && now < g.value.at + 604_800_000 then None else LastUse(prefix, d)
  }

  /** The event is a use of the device: a login, or an accepted rotation. */
  predicate Uses(w: World, e: Event, d: DeviceId) {
    e.d == d && (e.LogIn? || (e.Rotate? && Accepts(w.r, e.now, d, e.token)))
  }

  lemma MemberAfter(w: World, e: Event, d: DeviceId)
    requires d in Next(w, e).r.devices
    ensures Uses(w, e, d) ==> Next(w, e).r.devices[d] == e.now
    ensures !Uses(w, e, d) ==> d in w.r.devices && Next(w, e).r.devices[d] == w.r.devices[d]
    ensures e.LogOut? && e.d == d ==> !Live(w.r.sessions, d, e.now)
  {}

  /** Over every run, a member of the sorted set is scored with the instant of its device's last use. */
  lemma {:induction false} ScoresAreLastUses(es: seq<Event>, d: DeviceId)
    requires LegalRun(es) && d in Run(es).r.devices
    ensures LastUse(es, d) == Some(Run(es).r.devices[d])
  {
    if es != [] {
      var prefix, e := es[..|es| - 1], es[|es| - 1];
      MemberAfter(Run(prefix), e, d);
      if e.Rotate? && e.d == d {
        TokensLastSevenDays(prefix, e.now, d, e.token);
      } else if e.LogOut? && e.d == d {
        DeadGrant(prefix, d, e.now);
      }
      if !Uses(Run(prefix), e, d) {
        ScoresAreLastUses(prefix, d);
      }
    }
  }

  lemma DeadGrant(es: seq<Event>, d: DeviceId, now: Time)
    requires LegalRun(es) && Run(es).clock <= now && !Live(Run(es).r.sessions, d, now)
    ensures GrantOf(es, d).Some? ==> GrantOf(es, d).value.at + 604_800_000 <= now
  {
    GrantsAreHeld(es, d);
  }

  // ----- The service -----

  class AuthService {
    var tokens: map<SessionId, Key<Token>>
    var sessions: map<DeviceId, Key<SessionId>>
    var devices: map<DeviceId, Time>
    var devicesExpireAt: Time

    ghost function Keys(): Registry
      reads this
    {
      Registry(tokens, sessions, devices, devicesExpireAt)
    }

    constructor ()
      ensures Keys() == START.r
    {
      tokens, sessions, devices, devicesExpireAt := map[], map[], map[], 0;
    }

    method Oldest(m: map<DeviceId, Time>) returns (d: DeviceId)
      requires m != map[]
      ensures IsOldest(m, d)
    {
      OldestExists(m);
      d :| d in m && forall e | e in m :: e == d || Before(m, d, e);
    }

    /** zrange from the lowest score: everything but the `keep` newest members, oldest first. */
    method OldestDevices(m: map<DeviceId, Time>, keep: nat) returns (ids: seq<DeviceId>)
      requires keep <= |m|
      ensures forall d :: d in ids <==> d in m && d !in Newest(m, keep)
      ensures forall i, j | 0 <= i < j < |ids| :: ids[i] in m && ids[j] in m && Before(m, ids[i], ids[j])
    {
      ids := [];
      var rest := m;
      while |rest| > keep
        invariant keep <= |rest|
        invariant forall d :: d in ids <==> d in m && d !in rest
        invariant forall d | d in rest :: d in m && rest[d] == m[d]
        invariant Newest(rest, keep) == Newest(m, keep)
        invariant forall d | d in ids :: d in m
        invariant forall i, j | 0 <= i < j < |ids| :: Before(m, ids[i], ids[j])
        invariant forall d, e | d in ids && e in rest :: Before(m, d, e)
        decreases |rest|
      {
        var d := Oldest(rest);
        NewestIgnoresOldest(rest, d, keep);
        ids := ids + [d];
        rest := rest - {d};
      }
      NewestOfFew(rest, keep);
    }

    method Login(now: Time, d: DeviceId, token: Token)
      modifies this
      ensures Keys() == LoggedIn(old(Keys()), now, d, token)
    {
      Register(now, d, token);
      LimitDevices(now);
    }

    /** The login pipeline: token, device session, place in the set, and the set's own expiry. */
    method Register(now: Time, d: DeviceId, token: Token)
      modifies this
      ensures tokens == old(tokens)[token.sessionId := Key(token, now + REFRESH_TOKEN_TIME)]
      ensures sessions == old(sessions)[d := Key(token.sessionId, now + REFRESH_TOKEN_TIME)]
      ensures devices == Members(old(Keys()), now)[d := now]
      ensures devicesExpireAt == now + REFRESH_TOKEN_TIME
    {
      var expiry := now + REFRESH_TOKEN_TIME;
      tokens := tokens[token.sessionId := Key(token, expiry)];
      sessions := sessions[d := Key(token.sessionId, expiry)];
      if devicesExpireAt <= now {
        devices := map[];
      }
      devices := devices[d := now];
      devicesExpireAt := expiry;
    }

    /** Beyond five devices, the oldest ones are logged out until five remain. */
    method LimitDevices(now: Time)
      modifies `tokens, `sessions, `devices
      ensures devices == Newest(old(devices), MAX_DEVICES)
      ensures sessions == old(sessions) - (old(devices).Keys - devices.Keys)
      ensures tokens == old(tokens) - SessionsOf(old(sessions), old(devices).Keys - devices.Keys, now)
    {
      ghost var evicted := devices.Keys - Newest(devices, MAX_DEVICES).Keys;
      var deviceCount := |devices|;
      if deviceCount > 5 {
        var oldest := OldestDevices(devices, 5);
        assert evicted == set x | x in oldest;
        assert Newest(devices, MAX_DEVICES) == devices - evicted;
        EvictAll(oldest, now);
      } else {
        NewestOfFew(devices, MAX_DEVICES);
      }
    }

    /** One turn of the eviction loop; an expired device key is no longer found. */
    method Evict(d: DeviceId, now: Time)
      modifies `tokens, `sessions, `devices
      ensures tokens == old(tokens) - SessionsOf(old(sessions), {d}, now)
      ensures sessions == old(sessions) - {d} && devices == old(devices) - {d}
    {
      if d in sessions && now < sessions[d].expiresAt {
        tokens := tokens - {sessions[d].value};
      }
      sessions := sessions - {d};
      devices := devices - {d};
    }

    /** The eviction loop: each listed device loses its token, its session and its place in the set. */
    method EvictAll(oldest: seq<DeviceId>, now: Time)
      modifies `tokens, `sessions, `devices
      ensures var evicted := set d | d in oldest;
              && tokens == old(tokens) - SessionsOf(old(sessions), evicted, now)
              && sessions == old(sessions) - evicted
              && devices == old(devices) - evicted
    {
      ghost var tokens0, sessions0, devices0 := tokens, sessions, devices;
      ghost var gone: set<DeviceId> := {};
      for i := 0 to |oldest|
        invariant gone == set d | d in oldest[..i]
        invariant tokens == tokens0 - SessionsOf(sessions0, gone, now)
        invariant sessions == sessions0 - gone
        invariant devices == devices0 - gone
      {
        var d := oldest[i];
        SessionsOfMore(sessions0, gone, d, now);
        assert oldest[..i + 1] == oldest[..i] + [d];
        Evict(d, now);
        gone := gone + {d};
      }
      assert oldest[..|oldest|] == oldest;
    }

    /** Rotation: the old token is deleted, its successor stored, and the device key renewed only if it is still there. */
    method RefreshToken(now: Time, d: DeviceId, token: Token, successor: Token) returns (ok: bool)
      modifies this
      ensures ok <==> Accepts(old(Keys()), now, d, token)
      ensures Keys() == Refreshed(old(Keys()), now, d, token, successor)
    {
      if token.sessionId !in tokens || tokens[token.sessionId].expiresAt <= now || tokens[token.sessionId].value != token {
        return false;
      }
      if d !in sessions || sessions[d].expiresAt <= now || sessions[d].value != token.sessionId {
        return false;
      }
      var expiry := now + REFRESH_TOKEN_TIME;
      tokens := tokens - {token.sessionId};
      tokens := tokens[token.sessionId := Key(successor, expiry)];
      sessions := sessions[d := Key(token.sessionId, expiry)];
      if devicesExpireAt <= now {
        devices := map[];
      }
      devices := devices[d := now];
      devicesExpireAt := expiry;
      ok := true;
    }

    method Logout(now: Time, d: DeviceId) returns (ok: bool)
      modifies this
      ensures ok <==> Live(old(sessions), d, now)
      ensures Keys() == LoggedOut(old(Keys()), now, d)
    {
      if d !in sessions || sessions[d].expiresAt <= now {
        return false;
      }
      var sessionId := sessions[d].value;
      tokens := tokens - {sessionId};
      sessions := sessions - {d};
      devices := devices - {d};
      ok := true;
    }
  }
}

/** One OTP and the counter of guesses against it. */
module Otp {
  import opened Options

  type Time = int // seconds
  type Code = string

  const OTP_TIME: int := 300
  const MAX_VALIDATE_OTP_REQUEST: nat := 5

  datatype State = State(
    otp: Option<Code>, otpExpiresAt: Time,
    attempts: nat, attemptsExpireAt: Time, // zero attempts: no counter key
    compared: nat, succeeded: nat)         // what has happened to guesses so far

  function Issue(code: Code, now: Time): State {
    State(Some(code), now + OTP_TIME, 0, 0, 0, 0)
  }

  predicate Alive(s: State, now: Time) {
    s.otp.Some? && now < s.otpExpiresAt
  }

  /** validateOTP: count first, refuse past the fifth, only then look the guess up. */
  function Validate(s: State, guess: Code, now: Time): State {
    var counting := s.attempts > 0 && now < s.attemptsExpireAt;
    var n := if counting then s.attempts + 1 else 1;
    var s' := s.(attempts := n, attemptsExpireAt := if counting then s.attemptsExpireAt else now + OTP_TIME);
    if n > MAX_VALIDATE_OTP_REQUEST then s'
    else if !Alive(s, now) then s'
    else if s.otp.value != guess then s'.(compared := s.compared + 1)
    else s'.(otp := None, attempts := 0, compared := s.compared + 1, succeeded := s.succeeded + 1)
  }

  datatype Guess = Guess(code: Code, now: Time)

  function Run(s: State, gs: seq<Guess>): State {
    if gs == [] then s
    else Validate(Run(s, gs[..|gs| - 1]), gs[|gs| - 1].code, gs[|gs| - 1].now)
  }

  ghost predicate InOrder(since: Time, gs: seq<Guess>) {
    && (forall i | 0 <= i < |gs| :: since <= gs[i].now)
    && (forall i, j | 0 <= i < j < |gs| :: gs[i].now <= gs[j].now)
  }

  /** While the OTP lives, so does the counter of every guess made against it. */
  ghost predicate Counted(s: State, issuedAt: Time, clock: Time) {
    && s.otpExpiresAt == issuedAt + OTP_TIME
    && s.compared <= MAX_VALIDATE_OTP_REQUEST
    && s.succeeded == (if s.otp.None? then 1 else 0)
    && (Alive(s, clock) ==>
          && s.compared <= s.attempts
          && (s.attempts > 0 ==> s.otpExpiresAt <= s.attemptsExpireAt))
  }

  function LastTime(since: Time, gs: seq<Guess>): Time {
    if gs == [] then since else gs[|gs| - 1].now
  }

  lemma {:induction false} GuessesAreCounted(code: Code, issuedAt: Time, gs: seq<Guess>)
    requires InOrder(issuedAt, gs)
    ensures Counted(Run(Issue(code, issuedAt), gs), issuedAt, LastTime(issuedAt, gs))
  {
    if gs != [] {
      var prefix := gs[..|gs| - 1];
      GuessesAreCounted(code, issuedAt, prefix);
      assert LastTime(issuedAt, prefix) <= gs[|gs| - 1].now;
    }
  }

  /** At most five guesses are ever compared with one OTP and at most one succeeds, whatever their timing. */
  lemma AtMostFiveGuesses(code: Code, issuedAt: Time, gs: seq<Guess>)
    requires InOrder(issuedAt, gs)
    ensures Run(Issue(code, issuedAt), gs).compared <= 5
    ensures Run(Issue(code, issuedAt), gs).succeeded <= 1
  {
    GuessesAreCounted(code, issuedAt, gs);
  }

  /** Guess i is the code, in time, and one of the first five. */
  predicate Right(code: Code, issuedAt: Time, gs: seq<Guess>, i: nat)
    requires i < |gs|
  {
    gs[i].code == code && gs[i].now < issuedAt + 300 && i < 5
  }

  ghost predicate SomeRight(code: Code, issuedAt: Time, gs: seq<Guess>) {
    exists i :: 0 <= i < |gs| && Right(code, issuedAt, gs, i)
  }

  lemma RightSoFar(code: Code, issuedAt: Time, gs: seq<Guess>)
    requires gs != []
    ensures SomeRight(code, issuedAt, gs) <==>
            SomeRight(code, issuedAt, gs[..|gs| - 1]) || Right(code, issuedAt, gs, |gs| - 1)
  {
    var n := |gs| - 1;
    if i :| 0 <= i < |gs| && Right(code, issuedAt, gs, i) {
      if i < n {
        assert Right(code, issuedAt, gs[..n], i);
      }
    }
    if i :| 0 <= i < n && Right(code, issuedAt, gs[..n], i) {
      assert Right(code, issuedAt, gs, i);
    }
  }

  /** Until one guess succeeds the counter shows how many were made, as long as the code is alive. */
  ghost predicate Tracks(s: State, code: Code, issuedAt: Time, gs: seq<Guess>) {
    && s.otpExpiresAt == issuedAt + 300
    && s.succeeded == (if SomeRight(code, issuedAt, gs) then 1 else 0)
    && (if SomeRight(code, issuedAt, gs) then s.otp.None? else s.otp == Some(code))
    && (!SomeRight(code, issuedAt, gs) && LastTime(issuedAt, gs) < issuedAt + 300 ==>
          s.attempts == |gs| && (gs != [] ==> issuedAt + 300 <= s.attemptsExpireAt))
  }

  lemma {:induction false} GuessesAreTracked(code: Code, issuedAt: Time, gs: seq<Guess>)
    requires InOrder(issuedAt, gs)
    ensures Tracks(Run(Issue(code, issuedAt), gs), code, issuedAt, gs)
  {
    if gs != [] {
      var prefix := gs[..|gs| - 1];
      GuessesAreTracked(code, issuedAt, prefix);
      RightSoFar(code, issuedAt, gs);
      assert LastTime(issuedAt, prefix) <= gs[|gs| - 1].now;
    }
  }

  /** A run of guesses succeeds if and only if one of the first five, made before expiry, is the code. */
  lemma SucceedsExactlyWithTheCode(code: Code, issuedAt: Time, gs: seq<Guess>)
    requires InOrder(issuedAt, gs)
    ensures Run(Issue(code, issuedAt), gs).succeeded ==
            if exists i :: 0 <= i < |gs| && i < 5 && gs[i].code == code && gs[i].now < issuedAt + 300 then 1 else 0
  {
    GuessesAreTracked(code, issuedAt, gs);
    if i :| 0 <= i < |gs| && i < 5 && gs[i].code == code && gs[i].now < issuedAt + 300 {
      assert Right(code, issuedAt, gs, i);
    }
  }

  /** And it succeeds at the first such guess. */
  lemma SucceedsAtTheFirstRightGuess(code: Code, issuedAt: Time, gs: seq<Guess>, i: nat)
    requires InOrder(issuedAt, gs) && i < |gs|
    ensures Run(Issue(code, issuedAt), gs[..i + 1]).succeeded == Run(Issue(code, issuedAt), gs[..i]).succeeded + 1 <==>
            && gs[i].code == code && gs[i].now < issuedAt + 300 && i < 5
            && forall j | 0 <= j < i :: gs[j].code != code
  {
    var before, upTo := gs[..i], gs[..i + 1];
    GuessesAreTracked(code, issuedAt, before);
    GuessesAreTracked(code, issuedAt, upTo);
    assert upTo[..i] == before;
    RightSoFar(code, issuedAt, upTo);
    if Right(code, issuedAt, gs, i) {
      if j :| 0 <= j < i && gs[j].code == code {
        assert gs[j].now <= gs[i].now;
        assert Right(code, issuedAt, before, j);
      }
    }
  }
}
