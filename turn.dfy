/** Ephemeral TURN relay credentials, after the TURN REST API scheme
    (section 2.2 of draft-uberti-behave-turn-rest-00): the username is
    "<expiry>:<name>" with the expiry in UNIX seconds, the password is the
    base64 HMAC-SHA1 of that username under a secret shared with the relay. */
module Turn {
  import opened Wrappers
  import opened Decimal
  import opened Text

  datatype Credentials = Credentials(username: string, password: string)

  /** The shared secret and the keyed hash. `hmac(key, message)` stands for
      base64(HMAC-SHA1(key, message)); it is left uninterpreted. */
  datatype TurnConfig = TurnConfig(secret: string, hmac: (string, string) -> string)

  /** A username as the relay reads it back. */
  datatype TurnUser = TurnUser(expiry: nat, name: string)

  /** Four hours, the validity window of a credential. */
  const ValiditySeconds: nat := 4 * 3600

  /** The relay's reading of a username: the decimal expiry before the first
      ':' and the name after it. */
  function ParseUsername(username: string): Option<TurnUser> {
    var parts := Split(username, ':');
    if |parts| < 2 || parts[0] == [] || !IsDigits(parts[0]) then None
    else Some(TurnUser(DecimalToNat(parts[0]), Join(parts[1..], ':')))
  }

  /** Credentials for `name`, issued at `nowMs` (milliseconds since the epoch).
      The password is the keyed hash of the username and of nothing else; the
      relay reads back the name and an expiry that lies four hours after the
      issuing second. */
  function TurnCredentials(name: string, config: TurnConfig, nowMs: nat): (c: Credentials)
    ensures c.username == NatToDecimal(nowMs / 1000 + ValiditySeconds) + ":" + name
    ensures c.password == config.hmac(config.secret, c.username)
    ensures ParseUsername(c.username).Some?
    ensures ParseUsername(c.username).value.name == name
    ensures var expiry := ParseUsername(c.username).value.expiry;
      expiry * 1000 <= nowMs + ValiditySeconds * 1000 < expiry * 1000 + 1000
  {
    var expiry := nowMs / 1000 + ValiditySeconds;
    var username := NatToDecimal(expiry) + ":" + name;
    UsernameRoundTrip(expiry, name);
    Credentials(username, config.hmac(config.secret, username))
  }

  /** `[expiry, name].join(":")` parses back to its two parts, whatever the
      name holds (the expiry's digits never contain ':'). */
  lemma UsernameRoundTrip(expiry: nat, name: string)
    ensures ParseUsername(NatToDecimal(expiry) + ":" + name) == Some(TurnUser(expiry, name))
  {
    var d := NatToDecimal(expiry);
    assert ':' !in d by {
      forall i | 0 <= i < |d| ensures d[i] != ':' { assert IsDigit(d[i]); }
    }
    assert d + ":" + name == d + [':'] + name;
    SplitFirst(d, ':', name);
    var parts := Split(d + ":" + name, ':');
    assert parts[0] == d && parts[1..] == Split(name, ':');
    JoinSplit(name, ':');
    DecimalRoundTrip(expiry);
  }

  /** What a signaling message carries: credentials only when a shared secret
      is configured. */
  function OptionalCredentials(name: string, config: TurnConfig, nowMs: nat): (c: Option<Credentials>)
    ensures c.None? <==> config.secret == ""
    ensures c.Some? ==> c.value == TurnCredentials(name, config, nowMs)
  {
    if config.secret != "" then Some(TurnCredentials(name, config, nowMs)) else None
  }

  /** Credentials issued within the same second for the same name under the
      same secret are identical: both peers can regenerate them. */
  lemma SameSecondSameCredentials(name: string, config: TurnConfig, t1: nat, t2: nat)
    requires t1 / 1000 == t2 / 1000
    ensures TurnCredentials(name, config, t1) == TurnCredentials(name, config, t2)
  {
  }

  /** Credentials for different names never share a username. */
  lemma DistinctNamesDistinctUsernames(n1: string, n2: string, config: TurnConfig, nowMs: nat)
    requires n1 != n2
    ensures TurnCredentials(n1, config, nowMs).username != TurnCredentials(n2, config, nowMs).username
  {
    var c1 := TurnCredentials(n1, config, nowMs);
    var c2 := TurnCredentials(n2, config, nowMs);
    assert ParseUsername(c1.username).value.name != ParseUsername(c2.username).value.name;
  }
}
