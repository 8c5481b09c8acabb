/** What a login user must look like, written out: the rule `_validate_login_user` enforces. */
module LoginNames {

  predicate LowerCase(c: char) {
    'a' <= c <= 'z'
  }

  predicate DecimalDigit(c: char) {
    '0' <= c <= '9'
  }

  /** Names of system accounts. */
  predicate SystemAccount(login: string) {
    || login == "root" || login == "daemon" || login == "bin" || login == "sys" || login == "sync" || login == "games"
    || login == "man" || login == "lp" || login == "mail" || login == "news" || login == "uucp" || login == "proxy"
    || login == "www-data" || login == "backup" || login == "list" || login == "irc" || login == "gnats"
    || login == "nobody" || login == "systemd-network" || login == "systemd-resolve" || login == "systemd-timesync"
  }

  predicate ProperLogin(login: string) {
    && 0 < |login| < 33
    && (forall i :: 0 <= i < |login| ==>
          LowerCase(login[i]) || DecimalDigit(login[i]) || login[i] == '-' || login[i] == '_')
    && login[0] != '-' && login[0] != '_'
    && (|login| < 8 || login[..8] != "systemd-")
    && !SystemAccount(login)
  }
}
