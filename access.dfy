/** The authorization predicate for privileged operations (server.js `isAdmin`). */
module AccessGate {
  import opened Text

  /** `ADMIN_USER`, `ADMIN_PASS` and `ADMIN_KEY`; an unset variable is the empty string. */
  datatype AdminConfig = AdminConfig(user: string, pass: string, key: string) {
    /** Credential-pair mode applies when both user and password are configured. */
    predicate PairMode() {
      user != "" && pass != ""
    }
  }

  /**
   * What a request presents; an absent header or parameter is the empty string.
   * `decoded` is the UTF-8 text of the Base64 payload that follows `Basic ` in
   * `authorization`; decoding itself is not modelled.
   */
  datatype Credentials = Credentials(
    authorization: string,
    decoded: string,
    keyHeader: string,
    keyQuery: string)

  /** `req.get('X-Admin-Key') || req.query.key || ''`. */
  function PresentedKey(cred: Credentials): string {
    if cred.keyHeader != "" then cred.keyHeader else cred.keyQuery
  }

  function IsAdmin(cfg: AdminConfig, cred: Credentials): bool {
    if cfg.PairMode() then
      if !StartsWith(cred.authorization, "Basic ") then false
      else
        var sep := IndexOf(cred.decoded, ':');
        if sep == -1 then false
        else cred.decoded[..sep] == cfg.user && cred.decoded[sep + 1..] == cfg.pass
    else
      cfg.key != "" && PresentedKey(cred) == cfg.key
  }

  /**
   * In credential-pair mode a request is authorized exactly when it uses the Basic
   * scheme and its decoded text is the user, one colon and the password. A user
   * name containing a colon can never be matched, as the first colon ends it.
   */
  lemma PairModeExact(cfg: AdminConfig, cred: Credentials)
    requires cfg.PairMode()
    ensures IsAdmin(cfg, cred) <==>
      && StartsWith(cred.authorization, "Basic ")
      && ':' !in cfg.user
      && cred.decoded == cfg.user + ":" + cfg.pass
  {
    var d := cred.decoded;
    var sep := IndexOf(d, ':');
    if IsAdmin(cfg, cred) {
      assert d == d[..sep] + [':'] + d[sep + 1..];
    }
    if StartsWith(cred.authorization, "Basic ") && ':' !in cfg.user && d == cfg.user + ":" + cfg.pass {
      var u := cfg.user;
      assert d == u + [':'] + cfg.pass;
      IndexAfter(u, ':', cfg.pass);
      assert d[..|u|] == u && d[|u| + 1..] == cfg.pass;
    }
  }

  /** In credential-pair mode the shared key is ignored, wherever it is presented. */
  lemma PairModeIgnoresKey(cfg: AdminConfig, cred: Credentials, header: string, query: string)
    requires cfg.PairMode()
    ensures IsAdmin(cfg, cred) == IsAdmin(cfg, cred.(keyHeader := header, keyQuery := query))
  {
  }

  /**
   * Otherwise the request is authorized exactly when a key is configured and the
   * presented key, from the header or else the query string, equals it; the
   * Authorization header is then ignored.
   */
  lemma KeyModeExact(cfg: AdminConfig, cred: Credentials)
    requires !cfg.PairMode()
    ensures IsAdmin(cfg, cred) <==>
      (cfg.key != "" && if cred.keyHeader != "" then cred.keyHeader == cfg.key else cred.keyQuery == cfg.key)
  {
  }

  /** With nothing configured every privileged request is refused. */
  lemma FailsClosed(cfg: AdminConfig, cred: Credentials)
    requires cfg.key == "" && (cfg.user == "" || cfg.pass == "")
    ensures !IsAdmin(cfg, cred)
  {
  }
}
