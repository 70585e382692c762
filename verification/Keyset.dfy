/**
 The signing keyset shared by the replicas of the iam service: one table that only grows, a
 rotation that asks twice, and the two horizons a token is verified against.
 */
module Keyset {
  import opened Options
  import Queries
  import Trimming

  /**
   bornAt is the clock reading a key was generated for, a lifetime before it retires; keypair names the
   key itself.
   */
  datatype Key = Key(kid: string, keypair: nat, bornAt: int, retireAfter: int)

  /** Whether k is the one that should sign at now: the last to retire of those that have not. */
  ghost predicate SignsAt(rows: seq<Key>, k: Key, now: int) {
    && k in rows && k.retireAfter > now
    && forall i :: 0 <= i < |rows| ==> rows[i].retireAfter <= k.retireAfter
  }

  ghost predicate AllRetired(rows: seq<Key>, now: int) {
    forall i :: 0 <= i < |rows| ==> rows[i].retireAfter <= now
  }

  /** Each key's signing interval [bornAt, retireAfter) begins only when every earlier one has ended. */
  ghost predicate Successive(rows: seq<Key>) {
    && (forall i :: 0 <= i < |rows| ==> rows[i].bornAt < rows[i].retireAfter)
    && (forall i, k :: 0 <= i < k < |rows| ==> rows[i].retireAfter <= rows[k].bornAt)
  }

  class KeyTable {
    /** In the order they were installed. */
    var rows: seq<Key>

    constructor ()
      ensures rows == []
    {
      rows := [];
    }

    /** The newest key that has not retired, or none. */
    method Current(now: int) returns (key: Option<Key>)
      ensures key.Some? ==> SignsAt(rows, key.value, now)
      ensures key.None? ==> AllRetired(rows, now)
    {
      key := None;
      for i := 0 to |rows|
        invariant key.Some? ==> SignsAt(rows[..i], key.value, now)
        invariant key.None? ==> AllRetired(rows[..i], now)
      {
        if rows[i].retireAfter > now && (key.None? || rows[i].retireAfter > key.value.retireAfter) {
          key := Some(rows[i]);
        }
      }
      assert rows[..|rows|] == rows;
    }

    /** Every key there has ever been, retired ones included, newest first. */
    method Verifiers() returns (keys: seq<Key>)
      ensures |keys| == |rows| && forall i :: 0 <= i < |keys| ==> keys[i] == rows[|rows| - 1 - i]
    {
      keys := [];
      for i := 0 to |rows|
        invariant |keys| == i && forall k :: 0 <= k < i ==> keys[k] == rows[i - 1 - k]
      {
        keys := [rows[i]] + keys;
      }
    }

    /**
     Under the lock: asks again, and installs the generated key only when every key has retired by
     the caller's own clock.
     */
    method Rotate(now: int, generated: Key) returns (key: Key)
      requires generated.bornAt == now < generated.retireAfter
      modifies this
      ensures SignsAt(rows, key, now)
      ensures old(AllRetired(rows, now)) ==> rows == old(rows) + [generated] && key == generated
      ensures !old(AllRetired(rows, now)) ==> rows == old(rows)
      ensures old(Successive(rows)) ==> Successive(rows)
    {
      var existing := Current(now);
      if existing.Some? {
        return existing.value;
      }
      rows := rows + [generated];
      return generated;
    }
  }

  // ----- any interleaving of replicas --------------------------------------------------------------

  /** One replica's locked transaction: the clock it read, and the key it would install. */
  datatype Turn = Turn(now: int, generated: Key)

  function After(rows: seq<Key>, turn: Turn): seq<Key> {
    if forall i :: 0 <= i < |rows| ==> rows[i].retireAfter <= turn.now then rows + [turn.generated] else rows
  }

  function Rotations(turns: seq<Turn>): seq<Key> {
    if turns == [] then [] else After(Rotations(turns[..|turns| - 1]), turns[|turns| - 1])
  }

  ghost predicate Honest(turns: seq<Turn>) {
    forall i :: 0 <= i < |turns| ==> turns[i].generated.bornAt == turns[i].now < turns[i].generated.retireAfter
  }

  /**
   Whatever the replicas' clocks read and however their turns interleave, no two keys' signing
   intervals overlap, and a key once installed is there for good.
   */
  lemma {:induction false} KeysNeverOverlap(turns: seq<Turn>, earlier: nat)
    requires Honest(turns) && earlier <= |turns|
    ensures Successive(Rotations(turns))
    ensures Rotations(turns[..earlier]) <= Rotations(turns)
  {
    if turns == [] {
      assert turns[..earlier] == turns;
    } else {
      var before := turns[..|turns| - 1];
      KeysNeverOverlap(before, if earlier < |turns| then earlier else 0);
      if earlier < |turns| {
        assert before[..earlier] == turns[..earlier];
      } else {
        assert turns[..earlier] == turns;
      }
    }
  }

  /**
   Two replicas that both found nothing to sign with install one key between them unless their clocks
   are a lifetime apart.
   */
  lemma RacersShareOneKey(rows: seq<Key>, first: Turn, second: Turn)
    requires Honest([first, second])
    requires AllRetired(rows, first.now) && second.now < first.generated.retireAfter
    ensures After(After(rows, first), second) == rows + [first.generated]
  {
    var t := [first, second];
    assert t[0] == first && t[1] == second;
    var more := After(rows, first);
    assert more[|rows|] == first.generated;
  }

  // ----- configuration -----------------------------------------------------------------------------

  const DEFAULT_TOKEN_TTL := 3600 * Queries.NANOS_PER_SECOND
  const DEFAULT_KEY_LIFETIME := 30 * 24 * 3600 * Queries.NANOS_PER_SECOND
  const CLOCK_SKEW := 30 * Queries.NANOS_PER_SECOND

  datatype Config = Config(issuer: string, audience: string, tokenTTL: int, keyLifetime: int)

  predicate IsSlash(c: char) { c == '/' }

  /** The configured issuer as it is used: what it is joined to starts with a slash of its own. */
  function IssuerOf(configured: string): (r: string)
    ensures r != "" ==> !Trimming.IsSpace(r[0]) && r[|r| - 1] != '/'
  {
    Trimming.TrimRight(Trimming.TrimSpace(configured), IsSlash)
  }

  /**
   The service's configuration with its defaults in force, refused when a key would retire before
   its tokens. The issuer is trimmed so that a path can be appended to it.
   */
  function NewService(cfg: Config): (r: Result<Config, string>)
    ensures r.Success? ==>
              && r.value.issuer == IssuerOf(cfg.issuer) && r.value.issuer != ""
              && r.value.audience != "" && 0 < r.value.tokenTTL < r.value.keyLifetime
  {
    var issuer := IssuerOf(cfg.issuer);
    if issuer == "" then Failure("an issuer is required")
    else if cfg.audience == "" then Failure("an audience is required")
    else
      var c := cfg.(issuer := issuer,
                    tokenTTL := if cfg.tokenTTL <= 0 then DEFAULT_TOKEN_TTL else cfg.tokenTTL,
                    keyLifetime := if cfg.keyLifetime <= 0 then DEFAULT_KEY_LIFETIME else cfg.keyLifetime);
      if c.keyLifetime <= c.tokenTTL then Failure("the key lifetime must exceed the token lifetime") else Success(c)
  }

  /** Some configuration was accepted and this is what it came to. */
  ghost predicate InForce(c: Config) {
    exists cfg: Config :: NewService(cfg) == Success(c)
  }

  /**
   What that refusal buys: unless minting dawdled after choosing its key for as long as a key lives
   beyond a token, the token has expired by the time a second key follows the one that signed it, so
   a verifier holding the newest two holds the one it needs.
   */
  lemma TokenOutlivesOneRotationAtMost(rows: seq<Key>, c: Config, i: nat, k: nat, chosen: int, minted: int)
    requires Successive(rows) && InForce(c)
    requires forall j :: 0 <= j < |rows| ==> rows[j].retireAfter == rows[j].bornAt + c.keyLifetime
    requires i + 1 < k < |rows| && chosen < rows[i].retireAfter && minted - chosen <= c.keyLifetime - c.tokenTTL
    ensures minted + c.tokenTTL < rows[k].bornAt
  {
    assert rows[i].retireAfter <= rows[i + 1].bornAt && rows[i + 1].retireAfter <= rows[k].bornAt;
  }

  // ----- tokens ------------------------------------------------------------------------------------

  /** A NumericDate: whole seconds, rounded down (section 2 of RFC 7519). */
  function NumericDate(t: int): int { t / Queries.NANOS_PER_SECOND }

  function Instant(date: int): int { date * Queries.NANOS_PER_SECOND }

  /** The registered claims, and the key whose signature the token carries. */
  datatype Token = Token(
    signedBy: nat, issuer: string, audience: seq<string>, subject: string,
    issuedAt: Option<int>, notBefore: Option<int>, expiry: Option<int>)

  function Minted(c: Config, key: Key, subject: string, now: int): Token {
    Token(key.keypair, c.issuer, [c.audience], subject,
          Some(NumericDate(now)), Some(NumericDate(now - CLOCK_SKEW)), Some(NumericDate(now + c.tokenTTL)))
  }

  datatype Verdict = Accepted | Expired | NotOurs

  ghost predicate SignedByOneOf(keys: seq<Key>, t: Token) {
    exists i :: 0 <= i < |keys| && keys[i].keypair == t.signedBy
  }

  /** What a verifier reading `now` says of a token, given the published keys. */
  ghost function Judged(c: Config, keys: seq<Key>, t: Token, now: int): Verdict {
    if !SignedByOneOf(keys, t) || t.issuer != c.issuer || c.audience !in t.audience then NotOurs
    else if t.notBefore.Some? && now + CLOCK_SKEW < Instant(t.notBefore.value) then NotOurs
    else if t.issuedAt.Some? && now + CLOCK_SKEW < Instant(t.issuedAt.value) then NotOurs
    else if t.expiry.None? then NotOurs
    else if now > Instant(t.expiry.value) + CLOCK_SKEW then Expired
    else Accepted
  }

  /** Tries every published key rather than the one the header names, then the claims one by one. */
  method Verify(c: Config, keys: seq<Key>, t: Token, now: int) returns (v: Verdict)
    ensures v == Judged(c, keys, t, now)
  {
    var signed := false;
    for i := 0 to |keys|
      invariant signed <==> exists k :: 0 <= k < i && keys[k].keypair == t.signedBy
    {
      if keys[i].keypair == t.signedBy {
        signed := true;
        break;
      }
    }
    if !signed {
      return NotOurs;
    }
    if t.issuer != c.issuer {
      return NotOurs;
    }
    if c.audience !in t.audience {
      return NotOurs;
    }
    if t.notBefore.Some? && now + CLOCK_SKEW < Instant(t.notBefore.value) {
      return NotOurs;
    }
    if t.issuedAt.Some? && now + CLOCK_SKEW < Instant(t.issuedAt.value) {
      return NotOurs;
    }
    if t.expiry.None? {
      return NotOurs;
    }
    if now > Instant(t.expiry.value) + CLOCK_SKEW {
      return Expired;
    }
    return Accepted;
  }

  /** The service's own check: whatever the table publishes, in whatever order, a token is judged by all of it. */
  method VerifyToken(table: KeyTable, c: Config, t: Token, now: int) returns (v: Verdict)
    ensures v == Judged(c, table.rows, t, now)
  {
    var keys := table.Verifiers();
    v := Verify(c, keys, t, now);
    assert forall i :: 0 <= i < |table.rows| ==> table.rows[i] == keys[|keys| - 1 - i];
  }

  lemma DatesAreOrdered(a: int, b: int)
    requires a <= b
    ensures NumericDate(a) <= NumericDate(b)
    ensures Instant(NumericDate(a)) <= a < Instant(NumericDate(a)) + Queries.NANOS_PER_SECOND
  {}

  lemma TTLIsPositive(c: Config)
    requires InForce(c)
    ensures c.tokenTTL > 0
  {}

  /** A token stays signed by a published key however many rotations follow. */
  lemma KeyStays(turns: seq<Turn>, earlier: nat, key: Key, t: Token)
    requires Honest(turns) && earlier <= |turns| && key in Rotations(turns[..earlier]) && t.signedBy == key.keypair
    ensures SignedByOneOf(Rotations(turns), t)
  {
    hide Rotations;
    KeysNeverOverlap(turns, earlier);
    assert key in Rotations(turns);
  }

  /** When a token minted at `minted` starts and stops being accepted. */
  function LiveFrom(minted: int): int { Instant(NumericDate(minted)) - CLOCK_SKEW }

  function LiveUntil(c: Config, minted: int): int { Instant(NumericDate(minted + c.tokenTTL)) + CLOCK_SKEW }

  /**
   A minted token is accepted exactly from the skew before its issue to the skew after its expiry,
   both as NumericDates, by any verifier whose table has grown from the one it was signed under.
   Outside that window it is expired on the late side, with its claims, and not ours on the early.
   */
  lemma {:induction false} MintedVerifiesExactly(
      c: Config, turns: seq<Turn>, earlier: nat, key: Key, subject: string, minted: int, now: int)
    requires InForce(c) && Honest(turns) && earlier <= |turns|
    requires key in Rotations(turns[..earlier])
    ensures LiveFrom(minted) <= minted < minted + c.tokenTTL < LiveUntil(c, minted)
    ensures Judged(c, Rotations(turns), Minted(c, key, subject, minted), now)
            == if now < LiveFrom(minted) then NotOurs
               else if now <= LiveUntil(c, minted) then Accepted
               else Expired
  {
    hide Rotations, InForce;
    KeyStays(turns, earlier, key, Minted(c, key, subject, minted));
    TTLIsPositive(c);
    DatesAreOrdered(minted - CLOCK_SKEW, minted);
    DatesAreOrdered(minted, minted + c.tokenTTL);
  }
}
