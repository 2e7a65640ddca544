/**
 * The authenticator's decisions. The configured credentials are a map from
 * user name to the hex digest of the password; the digest function (SHA-256
 * in the program) is a parameter, and the digest comparison is equality.
 * An unreadable secrets file yields no credentials, so it is the empty map.
 */
module Auth {
  import opened Base

  type Credentials = map<string, string>

  /** `verify_credentials` */
  function VerifyCredentials(credentials: Credentials, hash: string -> string, username: string, password: string): (ok: bool)
    ensures credentials == map[] ==> ok
    ensures ok && credentials != map[] ==> username in credentials && hash(password) == credentials[username]
  {
    if credentials == map[] then true
    else if username !in credentials then false
    else hash(password) == credentials[username]
  }

  /** With no credentials configured, every name and password is let in. */
  lemma NoCredentialsOpen(hash: string -> string, username: string, password: string)
    ensures VerifyCredentials(map[], hash, username, password)
  {
  }

  /**
   * A login succeeds exactly when no credentials are configured or the pair
   * (user name, digest of the password) is one of the configured entries.
   */
  lemma AcceptedPairs(credentials: Credentials, hash: string -> string, username: string, password: string)
    ensures VerifyCredentials(credentials, hash, username, password) <==>
      credentials == map[] || (username, hash(password)) in credentials.Items
  {
    if (username, hash(password)) in credentials.Items {
      assert username in credentials && credentials[username] == hash(password);
    }
    if username in credentials && credentials[username] == hash(password) {
      assert (username, hash(password)) in credentials.Items;
    }
  }

  /** A name longer than every configured one, so it names no configured user. */
  lemma {:induction false} FreshName(names: set<string>) returns (u: string)
    ensures forall k | k in names :: |k| < |u|
    decreases names
  {
    if names == {} {
      u := "";
    } else {
      var k :| k in names;
      var v := FreshName(names - {k});
      u := if |v| > |k| then v else seq(|k| + 1, _ => 'a');
    }
  }

  /**
   * The login is open to everyone exactly when no credentials are configured:
   * otherwise a name outside the table is refused whatever its password.
   */
  lemma OpenExactlyWithoutCredentials(credentials: Credentials, hash: string -> string)
    ensures credentials == map[] <==> forall u, p :: VerifyCredentials(credentials, hash, u, p)
  {
    if credentials != map[] {
      var u := FreshName(credentials.Keys);
      assert u !in credentials;
      assert !VerifyCredentials(credentials, hash, u, "");
    }
  }
  /** A login depends only on the user's own entry, as long as some credentials are configured. */
  lemma OtherUsersIrrelevant(credentials: Credentials, other: string, digest: string, hash: string -> string, username: string, password: string)
    requires credentials != map[] && other != username
    ensures VerifyCredentials(credentials[other := digest], hash, username, password)
         == VerifyCredentials(credentials, hash, username, password)
  {
    var c := credentials[other := digest];
    assert other in c;
    assert username in c <==> username in credentials;
  }

  /** Two passwords a user can log in with have the same digest; with an injective digest they are equal. */
  lemma AcceptedPasswordsShareDigest(credentials: Credentials, hash: string -> string, username: string, p1: string, p2: string)
    requires credentials != map[]
    requires VerifyCredentials(credentials, hash, username, p1) && VerifyCredentials(credentials, hash, username, p2)
    ensures hash(p1) == hash(p2)
    ensures (forall a, b :: hash(a) == hash(b) ==> a == b) ==> p1 == p2
  {
  }

  /**
   * `require_auth`: open when no credentials are configured, otherwise the
   * session's `authenticated` flag, which counts as false when it was never set.
   */
  function RequireAuth(credentials: Credentials, authenticated: Option<bool>): (ok: bool)
    ensures authenticated == Some(true) ==> ok
    ensures !ok ==> credentials != map[]
  {
    if credentials == map[] then true
    else authenticated == Some(true)
  }

  /** The page is open to every session, marked or not, exactly when no credentials are configured. */
  lemma RequireAuthOpenExactlyWithoutCredentials(credentials: Credentials)
    ensures credentials == map[] <==> forall a :: RequireAuth(credentials, a)
  {
    if credentials != map[] {
      assert !RequireAuth(credentials, None);
    }
  }

  /**
   * The two gates open together: a session that never logged in passes
   * `require_auth` exactly when `verify_credentials` lets every login through.
   */
  lemma GatesAgree(credentials: Credentials, hash: string -> string)
    ensures RequireAuth(credentials, None) <==> forall u, p :: VerifyCredentials(credentials, hash, u, p)
  {
    OpenExactlyWithoutCredentials(credentials, hash);
  }

  /**
   * A fresh session that the login form marks authenticated only on success
   * passes `require_auth` exactly when the
   * login succeeded.
   */
  lemma LoginOpensGate(credentials: Credentials, hash: string -> string, username: string, password: string)
    ensures var ok := VerifyCredentials(credentials, hash, username, password);
      RequireAuth(credentials, if ok then Some(true) else None) <==> ok
  {
  }
}
