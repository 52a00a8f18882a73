/** The configuration at rest: secrets are sealed on a copy before writing, and opened after reading. */
module Sealing {
  import opened Prelude
  import opened Text

  const DPAPI_PREFIX := "dpapi1:"
  const ENC_PREFIX := "enc1:"

  /** The two ciphers, base64 included. Sealing takes fresh randomness; None is an error. */
  datatype Vault = Vault(
    supported: bool,
    dpapiSeal: (string, nat) -> Option<string>, dpapiOpen: string -> Option<string>,
    keySeal: (string, nat) -> Option<string>, keyOpen: string -> Option<string>)

  /** What a cipher seals, it opens again. */
  ghost predicate Sound(v: Vault) {
    && (forall s, n {:trigger v.dpapiSeal(s, n)} ::
          v.supported && v.dpapiSeal(s, n).Some? ==> v.dpapiOpen(v.dpapiSeal(s, n).value) == Some(s))
    && (forall s, n {:trigger v.keySeal(s, n)} ::
          v.keySeal(s, n).Some? ==> v.keyOpen(v.keySeal(s, n).value) == Some(s))
  }

  /** `other` has a different key: it opens nothing that `v` seals. */
  ghost predicate Foreign(v: Vault, other: Vault) {
    && (forall s, n {:trigger v.dpapiSeal(s, n)} ::
          v.supported && v.dpapiSeal(s, n).Some? ==> other.dpapiOpen(v.dpapiSeal(s, n).value) == None)
    && (forall s, n {:trigger v.keySeal(s, n)} ::
          v.keySeal(s, n).Some? ==> other.keyOpen(v.keySeal(s, n).value) == None)
  }

  predicate IsProtected(s: string) { HasPrefix(s, DPAPI_PREFIX) || HasPrefix(s, ENC_PREFIX) }

  function Seal(v: Vault, s: string, rnd: nat): string {
    if s == "" || IsProtected(s) then s
    else if v.supported && v.dpapiSeal(s, rnd).Some? then DPAPI_PREFIX + v.dpapiSeal(s, rnd).value
    else if v.keySeal(s, rnd).Some? then ENC_PREFIX + v.keySeal(s, rnd).value
    else s
  }

  function Open(v: Vault, s: string): string {
    if HasPrefix(s, DPAPI_PREFIX) then
      var b := v.dpapiOpen(s[|DPAPI_PREFIX|..]);
      if b.None? then s else b.value
    else if HasPrefix(s, ENC_PREFIX) then
      var b := v.keyOpen(s[|ENC_PREFIX|..]);
      if b.None? then s else b.value
    else s
  }

  /** Opening never gives more text than it was given. */
  ghost predicate Expanding(v: Vault) {
    && (forall t :: v.dpapiOpen(t).Some? ==> |v.dpapiOpen(t).value| <= |t|)
    && (forall t :: v.keyOpen(t).Some? ==> |v.keyOpen(t).value| <= |t|)
  }

  /** The cipher that the prefix names does not open what follows it. */
  predicate Rejected(v: Vault, s: string) {
    && (HasPrefix(s, DPAPI_PREFIX) ==> v.dpapiOpen(s[|DPAPI_PREFIX|..]).None?)
    && (HasPrefix(s, ENC_PREFIX) ==> v.keyOpen(s[|ENC_PREFIX|..]).None?)
  }

  /** A secret comes back from sealing and opening, whether or not the ciphers worked. One that already
      looks sealed is not sealed again, and comes back exactly when the cipher rejects it. */
  lemma SealOpens(v: Vault, s: string, rnd: nat)
    requires Sound(v)
    ensures !IsProtected(s) ==> Open(v, Seal(v, s, rnd)) == s
    ensures Expanding(v) ==> (Open(v, Seal(v, s, rnd)) == s <==> !IsProtected(s) || Rejected(v, s))
    ensures s != "" ==> Seal(v, s, rnd) != ""
  {
    PrefixesDiffer(Seal(v, s, rnd));
    if s != "" && !IsProtected(s) {
      var sealed := Seal(v, s, rnd);
      if v.supported && v.dpapiSeal(s, rnd).Some? {
        assert sealed[|DPAPI_PREFIX|..] == v.dpapiSeal(s, rnd).value;
      } else if v.keySeal(s, rnd).Some? {
        assert sealed[|ENC_PREFIX|..] == v.keySeal(s, rnd).value;
      }
    }
  }

  /** DPAPI seals wherever it works, the key file where it does not, and only what neither can seal stays
      in the clear; what is sealed already, or empty, is left alone. */
  lemma SealChoice(v: Vault, s: string, rnd: nat)
    ensures var sealed := Seal(v, s, rnd);
            var byDpapi := v.supported && v.dpapiSeal(s, rnd).Some?;
            if s == "" || HasPrefix(s, "dpapi1:") || HasPrefix(s, "enc1:") then sealed == s
            else
              && (HasPrefix(sealed, "dpapi1:") <==> byDpapi)
              && (HasPrefix(sealed, "enc1:") <==> !byDpapi && v.keySeal(s, rnd).Some?)
              && (!byDpapi && v.keySeal(s, rnd).None? ==> sealed == s)
  {
    PrefixesDiffer(Seal(v, s, rnd));
  }

  lemma PrefixesDiffer(s: string)
    ensures !(HasPrefix(s, DPAPI_PREFIX) && HasPrefix(s, ENC_PREFIX))
  {
    assert DPAPI_PREFIX[0] != ENC_PREFIX[0];
  }

  /** Under another key a sealed secret stays as it is. */
  lemma ForeignStaysSealed(v: Vault, other: Vault, s: string, rnd: nat)
    requires Foreign(v, other) && !IsProtected(s)
    ensures Open(other, Seal(v, s, rnd)) == Seal(v, s, rnd)
  {
    PrefixesDiffer(Seal(v, s, rnd));
    if s != "" {
      var sealed := Seal(v, s, rnd);
      if v.supported && v.dpapiSeal(s, rnd).Some? {
        assert sealed[|DPAPI_PREFIX|..] == v.dpapiSeal(s, rnd).value;
      } else if v.keySeal(s, rnd).Some? {
        assert sealed[|ENC_PREFIX|..] == v.keySeal(s, rnd).value;
      }
    }
  }

  // ----- the configuration as a value

  datatype TOTPSecret = TOTPSecret(secret: string, confirmed: bool)

  /** The fields that normalize looks at; `other` is everything it passes through. */
  datatype Rest = Rest(loginMaxFails: int, lockoutMinutes: int, cacheDir: string, username: string, passwordHash: string,
                       backupInterval: int, backupKeep: int, checkInterval: int, checkTimeout: int, checkFailures: int,
                       other: string)

  datatype Settings = Settings(sessionSecret: string, clientSecret: string, dsn: string,
                               totp: Option<map<string, TOTPSecret>>, rest: Rest)

  /** What the random source and the password hash give, if they give anything. */
  datatype Generated = Generated(secret: Option<string>, hash: Option<string>) {
    predicate Real() {
      && (secret.Some? ==> secret.value != "" && !IsProtected(secret.value))
      && (hash.Some? ==> hash.value != "")
    }
  }

  datatype Error = BadJson | NoRandomness | KeyMismatch

  datatype Result<+T> = Ok(value: T) | Err(error: Error)

  function Positive(x: int, default: int): int { if x <= 0 then default else x }

  function NormalRest(r: Rest, hash: string): Rest {
    Rest(Positive(r.loginMaxFails, 5), Positive(r.lockoutMinutes, 15),
         if r.cacheDir == "" then "acme-cache" else r.cacheDir,
         if r.username == "" then "admin" else r.username,
         if r.passwordHash == "" then hash else r.passwordHash,
         if r.backupInterval == 0 then 360 else if r.backupInterval < 0 then 0 else r.backupInterval,
         Positive(r.backupKeep, 10), Positive(r.checkInterval, 30), Positive(r.checkTimeout, 5),
         Positive(r.checkFailures, 3), r.other)
  }

  function Normalized(c: Settings, gen: Generated): Result<Settings> {
    if (c.sessionSecret == "" && gen.secret.None?) || (c.rest.passwordHash == "" && gen.hash.None?) then Err(NoRandomness)
    else Ok(c.(sessionSecret := if c.sessionSecret == "" then gen.secret.value else c.sessionSecret,
               totp := if c.totp.None? then Some(map[]) else c.totp,
               rest := NormalRest(c.rest, if c.rest.passwordHash == "" then gen.hash.value else "")))
  }

  /** No field is left for normalize to fill in. */
  predicate Settled(c: Settings) {
    && c.sessionSecret != "" && c.totp.Some?
    && c.rest.loginMaxFails > 0 && c.rest.lockoutMinutes > 0 && c.rest.cacheDir != "" && c.rest.username != ""
    && c.rest.passwordHash != "" && c.rest.backupInterval > 0 && c.rest.backupKeep > 0
    && c.rest.checkInterval > 0 && c.rest.checkTimeout > 0 && c.rest.checkFailures > 0
  }

  lemma SettledIsUnchanged(c: Settings, gen: Generated)
    requires gen.Real()
    ensures Normalized(c, gen) == Ok(c) <==> Settled(c)
  {
    if c.rest.passwordHash != "" {
      assert NormalRest(c.rest, "") == c.rest <==>
        Settled(c.(sessionSecret := "s", totp := Some(map[])));
    }
  }

  /** Each field that is not set gets its own default, and each that is set stays. */
  lemma DefaultsFilled(r: Rest, hash: string)
    ensures var n := NormalRest(r, hash);
            && n.other == r.other
            && (if r.loginMaxFails > 0 then n.loginMaxFails == r.loginMaxFails else n.loginMaxFails == 5)
            && (if r.lockoutMinutes > 0 then n.lockoutMinutes == r.lockoutMinutes else n.lockoutMinutes == 15)
            && (if r.cacheDir != "" then n.cacheDir == r.cacheDir else n.cacheDir == "acme-cache")
            && (if r.username != "" then n.username == r.username else n.username == "admin")
            && (if r.passwordHash != "" then n.passwordHash == r.passwordHash else n.passwordHash == hash)
            && (if r.backupInterval > 0 then n.backupInterval == r.backupInterval
                else n.backupInterval == if r.backupInterval == 0 then 360 else 0)
            && (if r.backupKeep > 0 then n.backupKeep == r.backupKeep else n.backupKeep == 10)
            && (if r.checkInterval > 0 then n.checkInterval == r.checkInterval else n.checkInterval == 30)
            && (if r.checkTimeout > 0 then n.checkTimeout == r.checkTimeout else n.checkTimeout == 5)
            && (if r.checkFailures > 0 then n.checkFailures == r.checkFailures else n.checkFailures == 3)
  {
  }

  /** normalize fails exactly when it needs a random secret or a password hash and gets none. Otherwise it
      makes up what is missing and keeps the other secrets. */
  lemma NormalizedExact(c: Settings, gen: Generated)
    ensures Normalized(c, gen).Err? <==> (c.sessionSecret == "" && gen.secret.None?)
                                         || (c.rest.passwordHash == "" && gen.hash.None?)
    ensures Normalized(c, gen).Err? ==> Normalized(c, gen).error == NoRandomness
    ensures Normalized(c, gen).Ok? ==>
      var n := Normalized(c, gen).value;
      && (if c.sessionSecret != "" then n.sessionSecret == c.sessionSecret else Some(n.sessionSecret) == gen.secret)
      && (if c.rest.passwordHash != "" then n.rest.passwordHash == c.rest.passwordHash
          else Some(n.rest.passwordHash) == gen.hash)
      && n.clientSecret == c.clientSecret && n.dsn == c.dsn
      && n.totp == (if c.totp.Some? then c.totp else Some(map[]))
  {
  }

  /** One pass settles a configuration unless it turns backups off with a negative interval: the 0 it
      stores for that reads as "not set" the next time. */
  lemma NormalizeSettles(c: Settings, gen: Generated, again: Generated)
    requires gen.Real() && again.Real() && Normalized(c, gen).Ok?
    ensures var once := Normalized(c, gen).value;
            && (Settled(once) <==> c.rest.backupInterval >= 0)
            && (Normalized(once, again) == Ok(once) <==> c.rest.backupInterval >= 0)
            && (c.rest.backupInterval < 0 ==>
                  Normalized(once, again) == Ok(once.(rest := once.rest.(backupInterval := 360))))
  {
    SettledIsUnchanged(Normalized(c, gen).value, again);
  }

  /** Where a secret sits, so that each is sealed with randomness of its own. */
  datatype Slot = Session | Client | Dsn | Totp(user: string)

  function SealedSecrets(v: Vault, m: map<string, TOTPSecret>, rnd: Slot -> nat): map<string, TOTPSecret> {
    map k | k in m :: m[k].(secret := Seal(v, m[k].secret, rnd(Totp(k))))
  }

  function OpenedSecrets(v: Vault, m: map<string, TOTPSecret>): map<string, TOTPSecret> {
    map k | k in m :: m[k].(secret := Open(v, m[k].secret))
  }

  function Sealed(v: Vault, c: Settings, rnd: Slot -> nat): Settings {
    Settings(Seal(v, c.sessionSecret, rnd(Session)), Seal(v, c.clientSecret, rnd(Client)), Seal(v, c.dsn, rnd(Dsn)),
             if c.totp.None? then None else Some(SealedSecrets(v, c.totp.value, rnd)), c.rest)
  }

  function Opened(v: Vault, c: Settings): Settings {
    Settings(Open(v, c.sessionSecret), Open(v, c.clientSecret), Open(v, c.dsn),
             if c.totp.None? then None else Some(OpenedSecrets(v, c.totp.value)), c.rest)
  }

  predicate StillSealed(c: Settings) {
    || IsProtected(c.sessionSecret) || IsProtected(c.clientSecret) || IsProtected(c.dsn)
    || (c.totp.Some? && exists k :: k in c.totp.value && IsProtected(c.totp.value[k].secret))
  }

  datatype Data = Garbage | Json(c: Settings)

  function Decoded(v: Vault, data: Data, gen: Generated): Result<Settings> {
    if data.Garbage? then Err(BadJson)
    else
      var n := Normalized(data.c, gen);
      if n.Err? then n
      else
        var c := Opened(v, n.value);
        if StillSealed(c) then Err(KeyMismatch) else Ok(c)
  }

  lemma SecretsOpen(v: Vault, m: map<string, TOTPSecret>, rnd: Slot -> nat)
    requires Sound(v) && forall k :: k in m ==> !IsProtected(m[k].secret)
    ensures OpenedSecrets(v, SealedSecrets(v, m, rnd)) == m
  {
    forall k | k in m ensures Open(v, Seal(v, m[k].secret, rnd(Totp(k)))) == m[k].secret {
      SealOpens(v, m[k].secret, rnd(Totp(k)));
    }
  }

  /** Every secret is sealed in its own place. */
  lemma SealedInPlace(v: Vault, c: Settings, rnd: Slot -> nat)
    requires Sound(v) && !StillSealed(c)
    ensures var s := Sealed(v, c, rnd);
            && Open(v, s.sessionSecret) == c.sessionSecret && Open(v, s.clientSecret) == c.clientSecret
            && Open(v, s.dsn) == c.dsn && s.rest == c.rest && (s.totp.Some? <==> c.totp.Some?)
            && (c.totp.Some? ==> s.totp.value.Keys == c.totp.value.Keys
                                 && forall k :: k in c.totp.value ==>
                                      Open(v, s.totp.value[k].secret) == c.totp.value[k].secret)
  {
    SealOpens(v, c.sessionSecret, rnd(Session));
    SealOpens(v, c.clientSecret, rnd(Client));
    SealOpens(v, c.dsn, rnd(Dsn));
    if c.totp.Some? {
      var m := c.totp.value;
      forall k | k in m ensures Open(v, Seal(v, m[k].secret, rnd(Totp(k)))) == m[k].secret {
        SealOpens(v, m[k].secret, rnd(Totp(k)));
      }
    }
  }

  /** What is written reads back as normalize would leave the configuration, unless a secret looks
      sealed in the clear. */
  lemma LoadGivesNormalized(v: Vault, c: Settings, rnd: Slot -> nat, gen: Generated)
    requires Sound(v) && gen.Real() && !StillSealed(c)
    ensures Decoded(v, Json(Sealed(v, c, rnd)), gen) == Normalized(c, gen)
  {
    var s := Sealed(v, c, rnd);
    SealOpens(v, c.sessionSecret, rnd(Session));
    SealOpens(v, c.clientSecret, rnd(Client));
    SealOpens(v, c.dsn, rnd(Dsn));
    if Normalized(s, gen).Ok? {
      if c.totp.Some? { SecretsOpen(v, c.totp.value, rnd); }
      assert OpenedSecrets(v, map[]) == map[];
      assert Opened(v, Normalized(s, gen).value) == Normalized(c, gen).value;
    }
  }

  /** It reads back as what was in memory if and only if normalize has nothing left to fill in and no
      secret looks sealed in the clear. */
  lemma SaveLoadRoundTrip(v: Vault, c: Settings, rnd: Slot -> nat, gen: Generated)
    requires Sound(v) && gen.Real()
    ensures Decoded(v, Json(Sealed(v, c, rnd)), gen) == Ok(c) <==> Settled(c) && !StillSealed(c)
  {
    if !StillSealed(c) {
      LoadGivesNormalized(v, c, rnd, gen);
      SettledIsUnchanged(c, gen);
    }
  }

  /** Backups turned off with -1 are on again, every six hours, after two loads: the first one turns
      the -1 into the 0 that memory holds, and what is saved of that reads back as 360. */
  lemma BackupsComeBack(v: Vault, c: Settings, rnd: Slot -> nat, gen: Generated)
    requires Sound(v) && gen.Real() && Settled(c) && !StillSealed(c)
    ensures var off := c.(rest := c.rest.(backupInterval := -1));
            var loaded := Decoded(v, Json(Sealed(v, off, rnd)), gen);
            && loaded == Ok(c.(rest := c.rest.(backupInterval := 0)))
            && Decoded(v, Json(Sealed(v, loaded.value, rnd)), gen) == Ok(c.(rest := c.rest.(backupInterval := 360)))
  {
    LoadGivesNormalized(v, c.(rest := c.rest.(backupInterval := -1)), rnd, gen);
    LoadGivesNormalized(v, c.(rest := c.rest.(backupInterval := 0)), rnd, gen);
  }

  lemma SecretsStaySealed(v: Vault, other: Vault, m: map<string, TOTPSecret>, rnd: Slot -> nat)
    requires Foreign(v, other) && forall k :: k in m ==> !IsProtected(m[k].secret)
    ensures OpenedSecrets(other, SealedSecrets(v, m, rnd)) == SealedSecrets(v, m, rnd)
  {
    forall k | k in m
      ensures Open(other, Seal(v, m[k].secret, rnd(Totp(k)))) == Seal(v, m[k].secret, rnd(Totp(k)))
    {
      ForeignStaysSealed(v, other, m[k].secret, rnd(Totp(k)));
    }
  }

  /** A node with another key refuses the configuration as soon as one secret in it was really sealed. */
  lemma OtherKeyRefuses(v: Vault, other: Vault, c: Settings, rnd: Slot -> nat, gen: Generated)
    requires Foreign(v, other) && !StillSealed(c) && gen.Real()
    ensures var s := Sealed(v, c, rnd);
            Decoded(other, Json(s), gen)
            == if Normalized(s, gen).Ok? && StillSealed(s) then Err(KeyMismatch) else Normalized(s, gen)
  {
    var s := Sealed(v, c, rnd);
    ForeignStaysSealed(v, other, c.sessionSecret, rnd(Session));
    ForeignStaysSealed(v, other, c.clientSecret, rnd(Client));
    ForeignStaysSealed(v, other, c.dsn, rnd(Dsn));
    var n := Normalized(s, gen);
    if n.Ok? {
      if c.totp.Some? { SecretsStaySealed(v, other, c.totp.value, rnd); }
      assert OpenedSecrets(other, map[]) == map[];
      assert Opened(other, n.value) == n.value;
      assert StillSealed(n.value) <==> StillSealed(s);
    }
  }

  /** While the key file can be used, no secret is written in the clear. */
  lemma NothingInClear(v: Vault, c: Settings, rnd: Slot -> nat)
    requires forall s, n :: v.keySeal(s, n).Some?
    ensures var s := Sealed(v, c, rnd);
            && (s.sessionSecret == "" || IsProtected(s.sessionSecret))
            && (s.clientSecret == "" || IsProtected(s.clientSecret)) && (s.dsn == "" || IsProtected(s.dsn))
            && (s.totp.Some? ==> forall k :: k in s.totp.value ==>
                  s.totp.value[k].secret == "" || IsProtected(s.totp.value[k].secret))
  {
    forall x, n ensures Seal(v, x, n) == "" || IsProtected(Seal(v, x, n)) {
      assert v.dpapiSeal(x, n).Some? ==> HasPrefix(DPAPI_PREFIX + v.dpapiSeal(x, n).value, DPAPI_PREFIX);
      assert HasPrefix(ENC_PREFIX + v.keySeal(x, n).value, ENC_PREFIX);
    }
  }

  // ----- the configuration in memory

  /** A Go map: shared by everyone who holds the configuration, until someone copies it. */
  class SecretTable {
    var m: map<string, TOTPSecret>

    constructor (m: map<string, TOTPSecret>)
      ensures this.m == m
    {
      this.m := m;
    }
  }

  class Config {
    var sessionSecret: string
    var clientSecret: string
    var dsn: string
    var secrets: SecretTable?
    var rest: Rest

    constructor (sessionSecret: string, clientSecret: string, dsn: string, secrets: SecretTable?, rest: Rest)
      ensures this.sessionSecret == sessionSecret && this.clientSecret == clientSecret && this.dsn == dsn
      ensures this.secrets == secrets && this.rest == rest
    {
      this.sessionSecret, this.clientSecret, this.dsn := sessionSecret, clientSecret, dsn;
      this.secrets, this.rest := secrets, rest;
    }

    function View(): Settings
      reads this, secrets
    {
      Settings(sessionSecret, clientSecret, dsn, if secrets == null then None else Some(secrets.m), rest)
    }
  }

  method SealSensitive(v: Vault, c: Config, rnd: Slot -> nat)
    modifies c, c.secrets
    ensures c.secrets == old(c.secrets) && c.View() == Sealed(v, old(c.View()), rnd)
  {
    c.sessionSecret := Seal(v, c.sessionSecret, rnd(Session));
    c.clientSecret := Seal(v, c.clientSecret, rnd(Client));
    c.dsn := Seal(v, c.dsn, rnd(Dsn));
    if c.secrets == null {
      return;
    }
    var table := c.secrets;
    ghost var before := table.m;
    var todo := table.m.Keys;
    while todo != {}
      modifies table
      invariant todo <= before.Keys && table.m.Keys == before.Keys
      invariant forall k :: k in before ==> table.m[k] == if k in todo then before[k] else SealedSecrets(v, before, rnd)[k]
      decreases todo
    {
      var k :| k in todo;
      todo := todo - {k};
      table.m := table.m[k := table.m[k].(secret := Seal(v, table.m[k].secret, rnd(Totp(k))))];
    }
    assert table.m == SealedSecrets(v, before, rnd);
  }

  method OpenSensitive(v: Vault, c: Config)
    modifies c, c.secrets
    ensures c.secrets == old(c.secrets) && c.View() == Opened(v, old(c.View()))
  {
    c.sessionSecret := Open(v, c.sessionSecret);
    c.clientSecret := Open(v, c.clientSecret);
    c.dsn := Open(v, c.dsn);
    if c.secrets == null {
      return;
    }
    var table := c.secrets;
    ghost var before := table.m;
    var todo := table.m.Keys;
    while todo != {}
      modifies table
      invariant todo <= before.Keys && table.m.Keys == before.Keys
      invariant forall k :: k in before ==> table.m[k] == if k in todo then before[k] else OpenedSecrets(v, before)[k]
      decreases todo
    {
      var k :| k in todo;
      todo := todo - {k};
      table.m := table.m[k := table.m[k].(secret := Open(v, table.m[k].secret))];
    }
    assert table.m == OpenedSecrets(v, before);
  }

  /** What Save writes. It may change no object that was there before, so the live configuration and
      its map of secrets stay in the clear. */
  method Marshal(v: Vault, cfg: Config, rnd: Slot -> nat) returns (data: Data)
    ensures data == Json(Sealed(v, cfg.View(), rnd))
  {
    var clone := new Config(cfg.sessionSecret, cfg.clientSecret, cfg.dsn, cfg.secrets, cfg.rest);
    if clone.secrets != null {
      var m := new SecretTable(clone.secrets.m);
      clone.secrets := m;
    }
    assert clone.View() == cfg.View();
    SealSensitive(v, clone, rnd);
    return Json(clone.View());
  }

  /** normalize, on the fields other than secrets; None is a failing password hash. */
  method NormalizeRest(r: Rest, hash: Option<string>) returns (out: Option<Rest>)
    ensures out == if r.passwordHash == "" && hash.None? then None
                   else Some(NormalRest(r, if r.passwordHash == "" then hash.value else ""))
  {
    var Rest(maxFails, lockout, cacheDir, username, hashed, interval, keep, every, timeout, failures, other) := r;
    if maxFails <= 0 { maxFails := 5; }
    if lockout <= 0 { lockout := 15; }
    if cacheDir == "" { cacheDir := "acme-cache"; }
    if hashed == "" {
      if hash.None? {
        return None;
      }
      hashed := hash.value;
    }
    if username == "" { username := "admin"; }
    if interval == 0 { interval := 360; }
    if interval < 0 { interval := 0; }
    if keep <= 0 { keep := 10; }
    if every <= 0 { every := 30; }
    if timeout <= 0 { timeout := 5; }
    if failures <= 0 { failures := 3; }
    return Some(Rest(maxFails, lockout, cacheDir, username, hashed, interval, keep, every, timeout, failures, other));
  }

  method Normalize(c: Config, gen: Generated) returns (err: Option<Error>)
    modifies c
    ensures c.secrets == old(c.secrets) || (old(c.secrets) == null && fresh(c.secrets))
    ensures match Normalized(old(c.View()), gen)
            case Ok(n) => err == None && c.View() == n
            case Err(e) => err == Some(e)
  {
    if c.sessionSecret == "" {
      if gen.secret.None? {
        return Some(NoRandomness);
      }
      c.sessionSecret := gen.secret.value;
    }
    var rest := NormalizeRest(c.rest, gen.hash);
    if rest.None? {
      return Some(NoRandomness);
    }
    c.rest := rest.value;
    if c.secrets == null {
      c.secrets := new SecretTable(map[]);
    }
    return None;
  }

  method DecodeConfig(v: Vault, data: Data, gen: Generated) returns (r: Result<Settings>, cfg: Config?)
    ensures r == Decoded(v, data, gen)
    ensures r.Ok? ==> cfg != null && fresh(cfg) && cfg.View() == r.value
  {
    if data.Garbage? {
      return Err(BadJson), null;
    }
    var table: SecretTable? := null;
    if data.c.totp.Some? {
      table := new SecretTable(data.c.totp.value);
    }
    var c := new Config(data.c.sessionSecret, data.c.clientSecret, data.c.dsn, table, data.c.rest);
    assert c.View() == data.c;
    var err := Normalize(c, gen);
    if err.Some? {
      return Err(err.value), null;
    }
    OpenSensitive(v, c);
    if StillSealed(c.View()) {
      return Err(KeyMismatch), null;
    }
    return Ok(c.View()), c;
  }
}
