/**
 The rules of a database section in an operator's words: which vendor a connection string names, which default an
 unset field gets, and exactly which sections are accepted.
 */
module DatabaseRules {
  import opened Options
  import opened DatabaseSection
  import ConfigTree
  import PostgresDsn
  import Trimming

  // ----- the vendor a connection string names

  lemma {:induction false} LowerOfConcat(a: string, b: string)
    ensures Lower(a + b) == Lower(a) + Lower(b)
  {
    if a == "" {
      assert a + b == b;
    } else {
      assert (a + b)[1..] == a[1..] + b;
      LowerOfConcat(a[1..], b);
    }
  }

  lemma {:induction false} LowerOfChar(s: string, i: nat)
    requires i < |s|
    ensures |Lower(s)| == |s|
    ensures Lower(s)[i] == if 'A' <= s[i] <= 'Z' then (s[i] as int + 32) as char else s[i]
  {
    if |s| > 1 {
      LowerOfChar(s[1..], if i > 0 then i - 1 else 0);
    } else {
      assert s[1..] == "";
    }
  }

  lemma TrimKeepsScheme(lead: string, scheme: string, rest: string)
    requires forall i | 0 <= i < |lead| :: IsSpace(lead[i])
    requires scheme != "" && !IsSpace(scheme[0]) && !IsSpace(scheme[|scheme| - 1])
    ensures scheme <= TrimSpace(lead + (scheme + rest))
  {
    var s := scheme + rest;
    Trimming.TrimLeftSkips(lead, s, IsSpace);
    assert s[0] == scheme[0] && Trimming.TrimLeft(s, IsSpace) == s;
    Trimming.TrimRightKeepsHead(scheme, rest, IsSpace);
  }

  lemma LowerOfPrefix(a: string, s: string)
    requires a <= s
    ensures Lower(a) <= Lower(s)
  {
    assert s == a + s[|a|..];
    LowerOfConcat(a, s[|a|..]);
  }

  predicate IsPlain(c: char) {
    'a' <= c <= 'z' || c == '/'
  }

  lemma PlainIsNoSpace(s: string, i: nat)
    requires i < |s| == |Lower(s)| && IsPlain(Lower(s)[i])
    ensures !IsSpace(s[i])
  {
    LowerOfChar(s, i);
  }

  lemma SchemeEnds(scheme: string, low: string)
    requires Lower(scheme) == low != "" && IsPlain(low[0]) && IsPlain(low[|low| - 1])
    ensures scheme != "" && !IsSpace(scheme[0]) && !IsSpace(scheme[|scheme| - 1])
  {
    if scheme != "" {
      LowerOfChar(scheme, 0);
      PlainIsNoSpace(scheme, 0);
      PlainIsNoSpace(scheme, |scheme| - 1);
    }
  }

  /** Whatever surrounds it, a string that starts with a scheme in any case is trimmed and lowered to one that starts
      with the lower-case scheme. */
  lemma SchemeIsKept(lead: string, scheme: string, rest: string, low: string)
    requires forall i | 0 <= i < |lead| :: IsSpace(lead[i])
    requires Lower(scheme) == low != "" && IsPlain(low[0]) && IsPlain(low[|low| - 1])
    ensures low <= Lower(TrimSpace(lead + (scheme + rest)))
  {
    SchemeEnds(scheme, low);
    TrimKeepsScheme(lead, scheme, rest);
    LowerOfPrefix(scheme, TrimSpace(lead + (scheme + rest)));
  }

  /** A URI scheme decides the vendor, in any case and under any surrounding space. */
  lemma PostgresSchemeIsTyped(lead: string, scheme: string, rest: string)
    requires forall i | 0 <= i < |lead| :: IsSpace(lead[i])
    requires Lower(scheme) == "postgres://" || Lower(scheme) == "postgresql://"
    ensures InferType(lead + (scheme + rest)) == "postgresql"
  {
    SchemeIsKept(lead, scheme, rest, Lower(scheme));
  }

  lemma OracleSchemeIsTyped(lead: string, scheme: string, rest: string)
    requires forall i | 0 <= i < |lead| :: IsSpace(lead[i])
    requires Lower(scheme) == "oracle://"
    ensures InferType(lead + (scheme + rest)) == "oracle"
  {
    SchemeIsKept(lead, scheme, rest, "oracle://");
    assert Lower(TrimSpace(lead + (scheme + rest)))[0] == 'o';
  }

  predicate NamesScheme(cs: string) {
    var low := Lower(TrimSpace(cs));
    "postgres://" <= low || "postgresql://" <= low || "oracle://" <= low
  }

  /** Without a scheme, exactly pgx's keyword form is recognized: settings under keyword-shaped keys, at least one. */
  lemma KeywordFormIsTyped(cs: string)
    requires !NamesScheme(cs)
    ensures InferType(cs) == "postgresql" <==>
            var settings := PostgresDsn.Scan(TrimSpace(cs));
            settings.Some? && settings.value != map[] && forall k | k in settings.value :: IsKeywordName(k)
    ensures InferType(cs) != "oracle"
  {
    PostgresDsn.SettingsNeedEquals(TrimSpace(cs));
  }

  /** Nothing is configured exactly when every identity field is at its zero value. */
  lemma ConfiguredIff(db: Db)
    ensures !IsConfigured(db) <==>
            db == db.(typ := "", host := "", port := 0, database := "", username := "", password := "",
                      connectionString := "", serviceName := "", sid := "")
  {
  }

  /** A socket host is an absolute path, or one on a drive. */
  lemma SocketHostIff(h: string)
    ensures IsUnixSocketHost(h) <==>
            || (exists rest: string :: h == "/" + rest)
            || (exists drive: char, rest: string :: 'A' <= drive <= 'Z' && h == [drive] + ":\\" + rest)
  {
    if h != "" && h[0] == '/' {
      assert h == "/" + h[1..];
    }
    if |h| >= 3 && 'A' <= h[0] <= 'Z' && h[1] == ':' && h[2] == '\\' {
      assert h == [h[0]] + ":\\" + h[3..];
    }
  }

  // ----- what an accepted section is filled with

  /** Explicit values survive, unset ones get their default, and idle connections never exceed the maximum. */
  lemma FilledWith(w: World, db: Db, st: Strictness)
    requires Normalize(w, db, st).Ok?
    ensures var n := Normalize(w, db, st).db;
            && n.pool.maxConnections == (if db.pool.maxConnections > 0 then db.pool.maxConnections else 25)
            && (0 < db.pool.idleConnections <= n.pool.maxConnections ==>
                  n.pool.idleConnections == db.pool.idleConnections)
            && (db.pool.idleConnections > n.pool.maxConnections ==> n.pool.idleConnections == n.pool.maxConnections)
            && (db.pool.idleConnections == 0 ==> n.pool.idleConnections == n.pool.maxConnections)
            && n.pool.idleTime == (if db.pool.idleTime > 0 then db.pool.idleTime else 300_000_000_000)
            && n.pool.lifetimeMax == (if db.pool.lifetimeMax > 0 then db.pool.lifetimeMax else 1800_000_000_000)
            && n.pool.keepAlive == (if db.pool.keepAlive.Some? then db.pool.keepAlive else Some(true))
            && n.pool.keepAliveInterval ==
               (if db.pool.keepAliveInterval > 0 then db.pool.keepAliveInterval else 60_000_000_000)
            && n.logMaxLength == (if db.logMaxLength > 0 then db.logMaxLength else 1000)
            && n.slowThreshold == (if db.slowThreshold > 0 then db.slowThreshold else 200_000_000)
            && n.timezone == (if db.timezone != "" then db.timezone else "UTC")
  {
    PoolAcceptedIff(w, db);
  }

  // ----- exactly which sections are accepted

  predicate ZoneOk(w: World, zone: string) {
    zone == "-" || (zone != "Local" && w.loads(if zone == "" then "UTC" else zone))
  }

  lemma PoolAcceptedIff(w: World, db: Db)
    ensures PoolRefusal(w, db).None? <==>
            && ZoneOk(w, db.timezone)
            && db.pool.maxConnections >= 0 && db.pool.idleConnections >= 0
            && db.pool.idleTime >= 0 && db.pool.lifetimeMax >= 0 && db.pool.keepAliveInterval >= 0
            && db.logMaxLength >= 0 && db.slowThreshold >= 0
  {
  }

  /** The fields every vendor needs at startup without a connection string. */
  predicate CoreOk(db: Db) {
    && db.host != "" && 0 < db.port <= 65535 && db.username != ""
    && (db.typ == "oracle" || db.database != "")
    && (db.password == "" || |db.password| >= 8)
  }

  lemma CoreAcceptedIff(db: Db)
    ensures CoreRefusal(db).None? <==> CoreOk(db)
  {
  }

  predicate NoTls(db: Db) {
    db.tls == Tls("", "", "", "")
  }

  /** Oracle takes no TLS settings and one way of naming the database; none at all only with a connection string. */
  predicate OracleOk(db: Db) {
    && NoTls(db)
    && (db.serviceName == "" || db.sid == "") && (db.serviceName == "" || db.database == "")
    && (db.sid == "" || db.database == "")
    && (db.connectionString != "" || db.serviceName != "" || db.sid != "" || db.database != "")
  }

  lemma OracleAcceptedIff(db: Db)
    ensures OracleRefusal(db).None? <==> OracleOk(db)
  {
  }

  predicate SomeSocketHost(db: Db) {
    exists h :: h in ConfigTree.Split(db.host, ',') && IsUnixSocketHost(h)
  }

  /** TLS material needs a mode that enforces it and comes as a pair, and no TLS claim goes with a socket host. */
  predicate PostgresFieldsOk(db: Db) {
    var material := db.tls.cert != "" || db.tls.key != "" || db.tls.ca != "";
    && "" !in ConfigTree.Split(db.host, ',')
    && (db.tls.mode in ["", "disable", "allow", "prefer", "require", "verify-ca", "verify-full"])
    && (material ==> db.tls.mode in ["require", "verify-ca", "verify-full"])
    && (db.tls.cert == "" <==> db.tls.key == "")
    && (material || db.tls.mode !in ["", "disable"] ==> !SomeSocketHost(db))
  }

  predicate PostgresOk(w: World, db: Db) {
    if db.connectionString != "" then NoTls(db) && !w.dsnRefused(db.connectionString) else PostgresFieldsOk(db)
  }

  lemma PostgresAcceptedIff(w: World, db: Db)
    ensures PostgresRefusal(w, db).None? <==> PostgresOk(w, db)
  {
  }

  predicate VendorOk(w: World, db: Db) {
    if db.typ == "oracle" then OracleOk(db) else if db.typ == "postgresql" then PostgresOk(w, db) else true
  }

  lemma VendorAcceptedIff(w: World, db: Db)
    ensures VendorRefusal(w, db).None? <==> VendorOk(w, db)
  {
    OracleAcceptedIff(db);
    PostgresAcceptedIff(w, db);
  }

  /** The section with its type settled and its text trimmed, as the vendor rules see it. */
  function Seen(db: Db): Db {
    db.(typ := if db.typ != "" then db.typ else InferType(db.connectionString),
        host := TrimSpace(db.host),
        tls := Tls(TrimSpace(db.tls.mode), TrimSpace(db.tls.cert), TrimSpace(db.tls.key), TrimSpace(db.tls.ca)))
  }

  /** At startup a type is supported; with a connection string it may stay unset, and must agree with a scheme. */
  predicate TypeOk(db: Db) {
    if db.connectionString == "" then db.typ in ["postgresql", "oracle"]
    else
      && db.typ in ["", "postgresql", "oracle"]
      && (db.typ == "" || InferType(db.connectionString) in ["", db.typ])
  }

  lemma TypeAcceptedIff(db: Db)
    ensures TypeRefusal(db).None? <==> TypeOk(db)
  {
  }

  /** Exactly which sections each door accepts. */
  lemma AcceptedIff(w: World, db: Db, st: Strictness)
    ensures Normalize(w, db, st).Ok? <==>
            && PoolRefusal(w, db).None? && VendorOk(w, Seen(db))
            && (st.Startup? ==> TypeOk(db))
            && (st.Startup? && db.connectionString == "" ==> CoreOk(db))
            && (st.Startup? && db.connectionString != "" ==> 0 <= db.port <= 65535)
  {
    VendorAcceptedIff(w, Seen(db));
    CoreAcceptedIff(db);
    TypeAcceptedIff(db);
    assert Trimmed(Typed(db)) == Seen(db);
  }
}
