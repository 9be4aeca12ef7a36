/** The token blacklist of utils/jwt.go: the tokens invalidated at logout,
    each with the time its JWT expires, and the periodic sweep that forgets
    the ones that have expired. */
module Blacklist {
  import opened Base

  /** A point in time (time.Time), as nanoseconds since the Unix epoch. */
  type Time = int

  /** time.Unix(seconds, 0). */
  function UnixTime(seconds: int): Time {
    seconds * 1_000_000_000
  }

  type Token = Bytes

  datatype TokenBlacklist = TokenBlacklist(tokens: map<Token, Time>)

  /** The blacklist the server starts with. */
  const Empty := TokenBlacklist(map[])

  /** IsTokenBlacklisted: the token has an entry, whatever its expiry. */
  predicate IsTokenBlacklisted(b: TokenBlacklist, token: Token) {
    token in b.tokens
  }

  /** AddToBlacklist: (re)record the token with the given expiry. */
  function AddToBlacklist(b: TokenBlacklist, token: Token, expiry: Time): (r: TokenBlacklist)
    ensures IsTokenBlacklisted(r, token) && r.tokens[token] == expiry
    ensures AgreeExcept(b.tokens, r.tokens, token)
  {
    TokenBlacklist(b.tokens[token := expiry])
  }

  /** `now.After(expiry)`: strictly later. */
  predicate After(now: Time, expiry: Time) {
    now > expiry
  }

  /** CleanupBlacklist at time `now`: the entries whose expiry `now` is
      strictly after are gone; every other entry stays as it was. */
  function CleanupBlacklist(b: TokenBlacklist, now: Time): (r: TokenBlacklist)
    ensures forall t :: IsTokenBlacklisted(r, t) <==> IsTokenBlacklisted(b, t) && !After(now, b.tokens[t])
    ensures forall t :: t in r.tokens ==> t in b.tokens && r.tokens[t] == b.tokens[t]
  {
    TokenBlacklist(map t | t in b.tokens && !After(now, b.tokens[t]) :: b.tokens[t])
  }

  /** The loop of utils/jwt.go:54-58: visit every token once and delete the
      expired ones from the map being ranged over. */
  method SweepBlacklist(b: TokenBlacklist, now: Time) returns (r: TokenBlacklist)
    ensures r == CleanupBlacklist(b, now)
  {
    var tokens := b.tokens;
    var unvisited := b.tokens.Keys;
    while unvisited != {}
      invariant unvisited <= b.tokens.Keys
      invariant forall t :: t in tokens <==> t in b.tokens && (t in unvisited || !After(now, b.tokens[t]))
      invariant forall t :: t in tokens ==> tokens[t] == b.tokens[t]
      decreases unvisited
    {
      var t :| t in unvisited;
      if After(now, b.tokens[t]) {
        tokens := tokens - {t};
      }
      unvisited := unvisited - {t};
    }
    r := TokenBlacklist(tokens);
  }

  // ---------------------------------------------------------------------
  // Properties

  /** After adding `token`, exactly it and the tokens already there are
      blacklisted. */
  lemma AddThenCheck(b: TokenBlacklist, token: Token, expiry: Time, other: Token)
    ensures IsTokenBlacklisted(AddToBlacklist(b, token, expiry), other) <==> other == token || IsTokenBlacklisted(b, other)
  {
  }

  /** Re-adding a blacklisted token only moves its expiry: the set of
      blacklisted tokens is the same, and the later expiry wins. */
  lemma ReAddOverwrites(b: TokenBlacklist, token: Token, first: Time, second: Time)
    ensures AddToBlacklist(AddToBlacklist(b, token, first), token, second) == AddToBlacklist(b, token, second)
    ensures IsTokenBlacklisted(b, token) ==> AddToBlacklist(b, token, second).tokens.Keys == b.tokens.Keys
  {
  }

  /** The sweep never adds anything: its result is a sub-map of its input. */
  lemma CleanupIsSubmap(b: TokenBlacklist, now: Time)
    ensures CleanupBlacklist(b, now).tokens.Keys <= b.tokens.Keys
    ensures forall t :: t in CleanupBlacklist(b, now).tokens ==> CleanupBlacklist(b, now).tokens[t] == b.tokens[t]
  {
  }

  /** The membership test does not look at the expiry: a token whose
      expiry has passed still counts as blacklisted until a sweep drops it. */
  lemma ExpiredUntilSwept(b: TokenBlacklist, token: Token, now: Time)
    requires token in b.tokens && After(now, b.tokens[token])
    ensures IsTokenBlacklisted(b, token)
    ensures !IsTokenBlacklisted(CleanupBlacklist(b, now), token)
  {
  }

  /** Sweeping twice at the same time is sweeping once. */
  lemma CleanupIdempotent(b: TokenBlacklist, now: Time)
    ensures CleanupBlacklist(CleanupBlacklist(b, now), now) == CleanupBlacklist(b, now)
  {
  }

  /** A later sweep keeps no more than an earlier one. */
  lemma CleanupMonotone(b: TokenBlacklist, earlier: Time, later: Time)
    requires earlier <= later
    ensures CleanupBlacklist(b, later).tokens.Keys <= CleanupBlacklist(b, earlier).tokens.Keys
  {
  }

  /** A token blacklisted until `expiry` survives every sweep up to and
      including the instant `expiry` itself. */
  lemma AddedSurvivesUntilExpiry(b: TokenBlacklist, token: Token, expiry: Time, now: Time)
    requires now <= expiry
    ensures IsTokenBlacklisted(CleanupBlacklist(AddToBlacklist(b, token, expiry), now), token)
  {
  }

  /** The two ways the blacklist changes: a logout adds a token, and the
      ticker sweeps at some time. */
  datatype Change = Added(token: Token, expiry: Time) | Swept(now: Time)

  function Apply(b: TokenBlacklist, changes: seq<Change>): TokenBlacklist
    decreases |changes|
  {
    if changes == [] then b
    else
      var next := match changes[0]
        case Added(token, expiry) => AddToBlacklist(b, token, expiry)
        case Swept(now) => CleanupBlacklist(b, now);
      Apply(next, changes[1..])
  }

  /** A token is blacklisted after a history of changes only if it was
      blacklisted before or some logout in that history added it. */
  lemma {:induction false} BlacklistedOnlyIfAdded(b: TokenBlacklist, changes: seq<Change>, token: Token)
    ensures IsTokenBlacklisted(Apply(b, changes), token) ==>
      IsTokenBlacklisted(b, token) || exists i :: 0 <= i < |changes| && changes[i].Added? && changes[i].token == token
    decreases |changes|
  {
    if changes != [] && IsTokenBlacklisted(Apply(b, changes), token) {
      var next := match changes[0]
        case Added(t, expiry) => AddToBlacklist(b, t, expiry)
        case Swept(now) => CleanupBlacklist(b, now);
      BlacklistedOnlyIfAdded(next, changes[1..], token);
      if exists i :: 0 <= i < |changes[1..]| && changes[1..][i].Added? && changes[1..][i].token == token {
        var i :| 0 <= i < |changes[1..]| && changes[1..][i].Added? && changes[1..][i].token == token;
        assert changes[i + 1].Added? && changes[i + 1].token == token;
      } else if !(changes[0].Added? && changes[0].token == token) {
        assert IsTokenBlacklisted(b, token);
      }
    }
  }

  /** The server starts with an empty blacklist, so every blacklisted token
      was put there by a logout. */
  lemma FromEmptyOnlyAdded(changes: seq<Change>, token: Token)
    requires IsTokenBlacklisted(Apply(Empty, changes), token)
    ensures exists i :: 0 <= i < |changes| && changes[i].Added? && changes[i].token == token
  {
    BlacklistedOnlyIfAdded(Empty, changes, token);
  }
}
