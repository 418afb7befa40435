/**
 Normalizing a database section: type inference, trimming, vendor rules, pool and session defaults. It works on a
 clone and commits only when every step succeeds, and its callers rely on it being idempotent.
 */
module DatabaseSection {
  import opened Options
  import ConfigTree
  import PostgresDsn
  import Trimming

  // ----- data model

  datatype Tls = Tls(mode: string, cert: string, key: string, ca: string)

  datatype Pool = Pool(maxConnections: int, idleConnections: int, idleTime: int, lifetimeMax: int,
                       keepAlive: Option<bool>, keepAliveInterval: int)

  datatype Db = Db(typ: string, host: string, port: int, database: string, username: string, password: string,
                   connectionString: string, serviceName: string, sid: string, tls: Tls,
                   timezone: string, pool: Pool, logMaxLength: int, slowThreshold: int)

  /** What the code asks of the world: does a timezone load, and does the scan of a PostgreSQL connection string
      against the process environment refuse it. */
  datatype World = World(loads: string -> bool, dsnRefused: string -> bool)

  datatype Field = TypeField | HostField | PortField | DatabaseField | UsernameField | PasswordField | DsnField
    | TlsField | TlsModeField | OracleIdentifier | TimezoneField | MaxConnections | IdleConnections | IdleTime
    | LifetimeMax | KeepAliveInterval | LogMaxLength | SlowThreshold

  datatype Strictness = Startup | Connect

  datatype Result = Ok(db: Db) | Refused(field: Field)

  const POSTGRESQL := "postgresql"
  const ORACLE := "oracle"
  const SECOND := 1_000_000_000

  // ----- strings

  predicate IsSpace(c: char) {
    || '\t' <= c <= '\r' || c == ' ' || c == '\U{0085}' || c == '\U{00A0}' || c == '\U{1680}'
    || '\U{2000}' <= c <= '\U{200A}' || c == '\U{2028}' || c == '\U{2029}' || c == '\U{202F}' || c == '\U{205F}'
    || c == '\U{3000}'
  }

  /** `strings.TrimSpace`. */
  function TrimSpace(s: string): string {
    Trimming.Trim(s, IsSpace)
  }

  function Lower(s: string): string {
    if s == "" then ""
    else (if 'A' <= s[0] <= 'Z' then [(s[0] as int + 32) as char] else [s[0]]) + Lower(s[1..])
  }

  predicate HasPrefix(s: string, prefix: string) {
    prefix <= s
  }

  /** libpq's keyword shape. */
  predicate IsKeywordName(key: string) {
    forall i | 0 <= i < |key| ::
      var c := key[i];
      c == '_' || 'a' <= c <= 'z' || 'A' <= c <= 'Z' || (i > 0 && '0' <= c <= '9')
  }

  predicate IsKeywordDsn(cs: string) {
    && '=' in cs
    && var settings := PostgresDsn.Scan(cs);
    settings.Some? && settings.value != map[] && forall k | k in settings.value :: IsKeywordName(k)
  }

  /** The vendor a connection string's shape implies, or "". */
  function InferType(cs: string): (t: string)
    ensures t == "" || t == POSTGRESQL || t == ORACLE
  {
    var trimmed := TrimSpace(cs);
    var lower := Lower(trimmed);
    if HasPrefix(lower, "postgres://") || HasPrefix(lower, "postgresql://") then POSTGRESQL
    else if HasPrefix(lower, "oracle://") then ORACLE
    else if IsKeywordDsn(trimmed) then POSTGRESQL
    else ""
  }

  // ----- the rules

  predicate IsConfigured(db: Db) {
    || db.connectionString != "" || db.typ != "" || db.host != "" || db.port != 0 || db.database != ""
    || db.username != "" || db.password != "" || db.serviceName != "" || db.sid != ""
  }

  /** `validateDatabaseCoreFields`. */
  function CoreRefusal(db: Db): Option<Field> {
    if db.host == "" then Some(HostField)
    else if db.port <= 0 || db.port > 65535 then Some(PortField)
    else if db.typ != ORACLE && db.database == "" then Some(DatabaseField)
    else if db.username == "" then Some(UsernameField)
    else if db.password != "" && |db.password| < 8 then Some(PasswordField)
    else None
  }

  predicate HasTls(t: Tls) {
    t.mode != "" || t.cert != "" || t.key != "" || t.ca != ""
  }

  predicate IsUnixSocketHost(h: string) {
    || (h != "" && h[0] == '/')
    || (|h| >= 3 && 'A' <= h[0] <= 'Z' && h[1] == ':' && h[2] == '\\')
  }

  predicate MandatoryMode(mode: string) {
    mode == "require" || mode == "verify-ca" || mode == "verify-full"
  }

  predicate KnownMode(mode: string) {
    mode == "disable" || mode == "allow" || mode == "prefer" || MandatoryMode(mode)
  }

  function CoherenceRefusal(db: Db): Option<Field> {
    var hasMaterial := db.tls.cert != "" || db.tls.key != "" || db.tls.ca != "";
    var claimsTls := hasMaterial || (db.tls.mode != "" && db.tls.mode != "disable");
    if claimsTls && exists h :: h in ConfigTree.Split(db.host, ',') && IsUnixSocketHost(h) then Some(TlsField)
    else if hasMaterial && !MandatoryMode(db.tls.mode) then Some(TlsField)
    else if (db.tls.cert != "") != (db.tls.key != "") then Some(TlsField)
    else None
  }

  function PostgresRefusal(w: World, db: Db): Option<Field> {
    if db.connectionString != "" then
      if HasTls(db.tls) then Some(TlsField) else if w.dsnRefused(db.connectionString) then Some(DsnField) else None
    else if "" in ConfigTree.Split(db.host, ',') then Some(HostField)
    else if db.tls.mode != "" && !KnownMode(db.tls.mode) then Some(TlsModeField)
    else CoherenceRefusal(db)
  }

  function OracleRefusal(db: Db): Option<Field> {
    var count := (if db.serviceName != "" then 1 else 0) + (if db.sid != "" then 1 else 0)
      + (if db.database != "" then 1 else 0);
    if HasTls(db.tls) then Some(TlsField)
    else if count == 0 && db.connectionString == "" then Some(OracleIdentifier)
    else if count > 1 then Some(OracleIdentifier)
    else None
  }

  function Trimmed(db: Db): Db {
    db.(host := TrimSpace(db.host),
        tls := Tls(TrimSpace(db.tls.mode), TrimSpace(db.tls.cert), TrimSpace(db.tls.key), TrimSpace(db.tls.ca)))
  }

  /** The vendor rules over trimmed values. */
  function VendorRefusal(w: World, db: Db): Option<Field> {
    if db.typ == ORACLE then OracleRefusal(db) else if db.typ == POSTGRESQL then PostgresRefusal(w, db) else None
  }

  /** `applyDatabasePoolDefaults`: the first value refused, in the order they are checked. */
  function PoolRefusal(w: World, db: Db): Option<Field> {
    var zone := if db.timezone == "" then "UTC" else db.timezone;
    if zone != "-" && (zone == "Local" || !w.loads(zone)) then Some(TimezoneField)
    else if db.pool.maxConnections < 0 then Some(MaxConnections)
    else if db.pool.idleConnections < 0 then Some(IdleConnections)
    else if db.pool.idleTime < 0 then Some(IdleTime)
    else if db.pool.lifetimeMax < 0 then Some(LifetimeMax)
    else if db.pool.keepAliveInterval < 0 then Some(KeepAliveInterval)
    else if db.logMaxLength < 0 then Some(LogMaxLength)
    else if db.slowThreshold < 0 then Some(SlowThreshold)
    else None
  }

  function OrDefault(v: int, default: int): int {
    if v == 0 then default else v
  }

  function PoolFilled(db: Db): Db {
    var max := OrDefault(db.pool.maxConnections, 25);
    var idle := db.pool.idleConnections;
    db.(timezone := if db.timezone == "" then "UTC" else db.timezone,
        pool := Pool(max, if idle == 0 || idle > max then max else idle,
                     OrDefault(db.pool.idleTime, 300 * SECOND), OrDefault(db.pool.lifetimeMax, 1800 * SECOND),
                     if db.pool.keepAlive.None? then Some(true) else db.pool.keepAlive,
                     OrDefault(db.pool.keepAliveInterval, 60 * SECOND)),
        logMaxLength := OrDefault(db.logMaxLength, 1000),
        slowThreshold := OrDefault(db.slowThreshold, SECOND / 5))
  }

  /** What normalization decides about the type: the explicit one, else the inferred one; at startup an explicit
      type must agree with a recognized connection string and be a supported one. */
  function Typed(db: Db): Db {
    if db.typ == "" then db.(typ := InferType(db.connectionString)) else db
  }

  predicate Supported(typ: string) {
    typ == POSTGRESQL || typ == ORACLE
  }

  function TypeRefusal(db: Db): Option<Field> {
    var inferred := InferType(db.connectionString);
    if db.connectionString == "" then (if Supported(db.typ) then None else Some(TypeField))
    else if db.typ != "" && inferred != "" && db.typ != inferred then Some(TypeField)
    else if Typed(db).typ != "" && !Supported(Typed(db).typ) then Some(TypeField)
    else None
  }

  function First(a: Option<Field>, b: Option<Field>): Option<Field> {
    if a.Some? then a else b
  }

  /** Why a section is refused, in the order each door reports it. */
  function Refusal(w: World, db: Db, st: Strictness): Option<Field> {
    var t := Trimmed(Typed(db));
    if st.Connect? then First(VendorRefusal(w, t), PoolRefusal(w, db))
    else if db.connectionString != "" then
      First(TypeRefusal(db),
            First(if db.port < 0 || db.port > 65535 then Some(PortField) else None,
                  First(PoolRefusal(w, db), VendorRefusal(w, t))))
    else First(TypeRefusal(db), First(CoreRefusal(db), First(VendorRefusal(w, t), PoolRefusal(w, db))))
  }

  function Normalize(w: World, db: Db, st: Strictness): Result {
    var r := Refusal(w, db, st);
    if r.Some? then Refused(r.value) else Ok(PoolFilled(Trimmed(Typed(db))))
  }

  // ----- what callers rely on

  /** A host that is set but blank: it passes the emptiness check, which runs before the trim. */
  predicate BlankHost(db: Db) {
    db.host != "" && TrimSpace(db.host) == ""
  }

  /** What a normalized section satisfies: every default filled, idle connections capped, text trimmed. */
  predicate Settled(db: Db) {
    && db.timezone != "" && db.pool.keepAlive.Some?
    && 0 < db.pool.idleConnections <= db.pool.maxConnections
    && db.pool.idleTime > 0 && db.pool.lifetimeMax > 0 && db.pool.keepAliveInterval > 0
    && db.logMaxLength > 0 && db.slowThreshold > 0
    && Trimmed(db) == db
  }

  lemma SettledIsFixed(db: Db)
    requires Settled(db)
    ensures PoolFilled(Trimmed(db)) == db
  {
  }

  lemma TrimmedIsFixed(db: Db)
    ensures Trimmed(Trimmed(db)) == Trimmed(db)
  {
    Trimming.TrimIsIdempotent(db.host, IsSpace);
    Trimming.TrimIsIdempotent(db.tls.mode, IsSpace);
    Trimming.TrimIsIdempotent(db.tls.cert, IsSpace);
    Trimming.TrimIsIdempotent(db.tls.key, IsSpace);
    Trimming.TrimIsIdempotent(db.tls.ca, IsSpace);
  }

  lemma PoolFilledIsSettled(w: World, db: Db)
    requires PoolRefusal(w, db).None? && Trimmed(db) == db
    ensures Settled(PoolFilled(db)) && PoolRefusal(w, PoolFilled(db)).None?
  {
    assert Trimmed(PoolFilled(db)) == PoolFilled(db);
  }

  /** Every default is filled, idle connections are capped and text is trimmed; beside those only the type moves,
      and only from unset to what the connection string implies. */
  lemma NormalizedIsSettled(w: World, db: Db, st: Strictness)
    requires Normalize(w, db, st).Ok?
    ensures Settled(Normalize(w, db, st).db) && PoolRefusal(w, Normalize(w, db, st).db).None?
    ensures var n := Normalize(w, db, st).db;
            && n.typ == (if db.typ == "" then InferType(db.connectionString) else db.typ)
            && n.host == TrimSpace(db.host) && n.port == db.port && n.database == db.database
            && n.username == db.username
            && n.password == db.password && n.connectionString == db.connectionString
            && n.serviceName == db.serviceName && n.sid == db.sid
  {
    TrimmedIsFixed(Typed(db));
    assert PoolRefusal(w, Trimmed(Typed(db))) == PoolRefusal(w, db);
    PoolFilledIsSettled(w, Trimmed(Typed(db)));
  }

  /** The vendor rules read nothing the defaults fill. */
  lemma VendorIgnoresPool(w: World, db: Db)
    ensures VendorRefusal(w, PoolFilled(db)) == VendorRefusal(w, db)
  {
  }

  lemma TypeIsSettled(w: World, db: Db, st: Strictness)
    requires Normalize(w, db, st).Ok?
    ensures Typed(Normalize(w, db, st).db) == Normalize(w, db, st).db
    ensures st.Startup? ==> TypeRefusal(Normalize(w, db, st).db).None?
  {
  }

  /** Exactly when a second pass gives the section back: always, except at startup for a section without a
      connection string whose host is blank. The host check runs before the trim, so such a section (Oracle's,
      as PostgreSQL's own host rule refuses it) passes once and is refused the second time. */
  lemma NormalizeIsIdempotentIff(w: World, db: Db, st: Strictness)
    requires Normalize(w, db, st).Ok?
    ensures Normalize(w, Normalize(w, db, st).db, st) == Normalize(w, db, st)
            <==> !(st.Startup? && db.connectionString == "" && BlankHost(db))
  {
    var n := Normalize(w, db, st).db;
    NormalizedIsSettled(w, db, st);
    TypeIsSettled(w, db, st);
    VendorIgnoresPool(w, Trimmed(Typed(db)));
    SettledIsFixed(n);
    assert VendorRefusal(w, Trimmed(Typed(n))).None?;
    if st.Startup? && db.connectionString == "" {
      assert CoreRefusal(db).None?;
      assert CoreRefusal(n).None? <==> n.host != "";
    }
  }

  /** Exactly when normalization leaves the configured verdict alone: always, except on the connect door for a
      section whose only identity is a blank host. */
  lemma ConfiguredVerdictIff(w: World, db: Db, st: Strictness)
    requires Normalize(w, db, st).Ok?
    ensures IsConfigured(Normalize(w, db, st).db) == IsConfigured(db)
            <==> !(st.Connect? && BlankHost(db) && !IsConfigured(db.(host := "")))
  {
    NormalizedIsSettled(w, db, st);
    InferFromNothing();
    assert TrimSpace("") == "";
  }

  lemma InferFromNothing()
    ensures InferType("") == ""
  {
  }

  /** The blank-host section itself: an Oracle section every other rule accepts. */
  lemma BlankHostPassesOnce(w: World, db: Db)
    requires db.typ == ORACLE && db.connectionString == "" && BlankHost(db)
    requires CoreRefusal(db).None? && !HasTls(Trimmed(db).tls) && PoolRefusal(w, db).None?
    requires db.serviceName != "" && db.sid == "" && db.database == ""
    ensures Normalize(w, db, Startup).Ok?
    ensures Normalize(w, Normalize(w, db, Startup).db, Startup) == Refused(HostField)
  {
    NormalizedIsSettled(w, db, Startup);
  }

  // ----- the code

  /** A section as the normalizers update it, field by field. */
  class Section {
    var db: Db

    constructor (db: Db)
      ensures this.db == db
    {
      this.db := db;
    }

    method ApplyConnectionCountDefaults() returns (refused: Option<Field>)
      modifies this
      ensures refused == (if old(db).pool.maxConnections < 0 then Some(MaxConnections)
                          else if old(db).pool.idleConnections < 0 then Some(IdleConnections) else None)
      ensures refused.None? ==>
                var filled := PoolFilled(old(db)).pool;
                db == old(db).(pool := old(db).pool.(maxConnections := filled.maxConnections,
                                                     idleConnections := filled.idleConnections))
    {
      if db.pool.maxConnections < 0 {
        return Some(MaxConnections);
      }
      if db.pool.maxConnections == 0 {
        db := db.(pool := db.pool.(maxConnections := 25));
      }
      if db.pool.idleConnections < 0 {
        return Some(IdleConnections);
      }
      if db.pool.idleConnections == 0 {
        db := db.(pool := db.pool.(idleConnections := db.pool.maxConnections));
      } else if db.pool.idleConnections > db.pool.maxConnections {
        db := db.(pool := db.pool.(idleConnections := db.pool.maxConnections));
      }
      return None;
    }

    method ApplyTimeDefaults() returns (refused: Option<Field>)
      modifies this
      ensures refused == (if old(db).pool.idleTime < 0 then Some(IdleTime)
                          else if old(db).pool.lifetimeMax < 0 then Some(LifetimeMax)
                          else if old(db).pool.keepAliveInterval < 0 then Some(KeepAliveInterval) else None)
      ensures refused.None? ==>
                var was := old(db).pool;
                db == old(db).(pool := PoolFilled(old(db)).pool.(maxConnections := was.maxConnections,
                                                                 idleConnections := was.idleConnections))
    {
      if db.pool.idleTime < 0 {
        return Some(IdleTime);
      }
      if db.pool.idleTime == 0 {
        db := db.(pool := db.pool.(idleTime := 300 * SECOND));
      }
      if db.pool.lifetimeMax < 0 {
        return Some(LifetimeMax);
      }
      if db.pool.lifetimeMax == 0 {
        db := db.(pool := db.pool.(lifetimeMax := 1800 * SECOND));
      }
      if db.pool.keepAlive.None? {
        db := db.(pool := db.pool.(keepAlive := Some(true)));
      }
      if db.pool.keepAliveInterval < 0 {
        return Some(KeepAliveInterval);
      }
      if db.pool.keepAliveInterval == 0 {
        db := db.(pool := db.pool.(keepAliveInterval := 60 * SECOND));
      }
      return None;
    }

    method ApplyPoolDefaults(w: World) returns (refused: Option<Field>)
      modifies this
      ensures refused == PoolRefusal(w, old(db))
      ensures refused.None? ==> db == PoolFilled(old(db))
    {
      if db.timezone == "" {
        db := db.(timezone := "UTC");
      }
      if db.timezone != "-" && (db.timezone == "Local" || !w.loads(db.timezone)) {
        return Some(TimezoneField);
      }
      refused := ApplyConnectionCountDefaults();
      if refused.Some? {
        return;
      }
      refused := ApplyTimeDefaults();
      if refused.Some? {
        return;
      }
      if db.logMaxLength < 0 {
        return Some(LogMaxLength);
      }
      if db.logMaxLength == 0 {
        db := db.(logMaxLength := 1000);
      }
      if db.slowThreshold < 0 {
        return Some(SlowThreshold);
      }
      if db.slowThreshold == 0 {
        db := db.(slowThreshold := SECOND / 5);
      }
      return None;
    }

    method ValidateVendorFields(w: World) returns (refused: Option<Field>)
      modifies this
      ensures db == Trimmed(old(db)) && refused == VendorRefusal(w, Trimmed(old(db)))
    {
      db := db.(host := TrimSpace(db.host));
      db := db.(tls := db.tls.(mode := TrimSpace(db.tls.mode)));
      db := db.(tls := db.tls.(cert := TrimSpace(db.tls.cert)));
      db := db.(tls := db.tls.(key := TrimSpace(db.tls.key)));
      db := db.(tls := db.tls.(ca := TrimSpace(db.tls.ca)));
      return if db.typ == ORACLE then OracleRefusal(db)
        else if db.typ == POSTGRESQL then PostgresRefusal(w, db) else None;
    }

    method NormalizeForConnect(w: World) returns (refused: Option<Field>)
      modifies this
      ensures refused == Refusal(w, old(db), Connect)
      ensures refused.None? ==> Normalize(w, old(db), Connect) == Ok(db)
    {
      if db.typ == "" {
        db := db.(typ := InferType(db.connectionString));
      }
      refused := ValidateVendorFields(w);
      if refused.None? {
        refused := ApplyPoolDefaults(w);
      }
    }

    method NormalizeWithConnectionString(w: World) returns (refused: Option<Field>)
      requires db.connectionString != ""
      modifies this
      ensures refused == Refusal(w, old(db), Startup)
      ensures refused.None? ==> Normalize(w, old(db), Startup) == Ok(db)
    {
      var inferred := InferType(db.connectionString);
      if inferred != "" {
        if db.typ == "" {
          db := db.(typ := inferred);
        } else if db.typ != inferred {
          return Some(TypeField);
        }
      }
      if db.typ != "" && !Supported(db.typ) {
        return Some(TypeField);
      }
      if db.port < 0 || db.port > 65535 {
        return Some(PortField);
      }
      ghost var typed := db;
      refused := ApplyPoolDefaults(w);
      if refused.None? {
        VendorIgnoresPool(w, Trimmed(typed));
        refused := ValidateVendorFields(w);
      }
    }

    method NormalizeWithFields(w: World) returns (refused: Option<Field>)
      requires db.connectionString == ""
      modifies this
      ensures refused == Refusal(w, old(db), Startup)
      ensures refused.None? ==> Normalize(w, old(db), Startup) == Ok(db)
    {
      InferFromNothing();
      if !Supported(db.typ) {
        return Some(TypeField);
      }
      refused := CoreRefusal(db);
      if refused.Some? {
        return;
      }
      refused := ValidateVendorFields(w);
      if refused.None? {
        refused := ApplyPoolDefaults(w);
      }
    }

    /** All or nothing: the steps run on a clone, and a refused section comes back untouched. */
    method NormalizeValues(w: World, st: Strictness) returns (refused: Option<Field>)
      modifies this
      ensures refused.Some? ==> db == old(db) && Normalize(w, old(db), st) == Refused(refused.value)
      ensures refused.None? ==> Normalize(w, old(db), st) == Ok(db)
    {
      var clone := new Section(db);
      if st.Connect? {
        refused := clone.NormalizeForConnect(w);
      } else if clone.db.connectionString != "" {
        refused := clone.NormalizeWithConnectionString(w);
      } else {
        refused := clone.NormalizeWithFields(w);
      }
      if refused.None? {
        db := clone.db;
      }
    }
  }
}
