/** A database name that ends in an open brace: what the log then shows, at real profiles. */
module OpenBraceLogging {
  import opened Text
  import opened Quoting
  import opened ConnectionString
  import opened ConnectionPrefix
  import opened ConnectionBuilder
  import opened CredentialLogging

  /** A SQL login whose database name ends in an open brace, and is harmless but for that. */
  predicate OpenDatabase(c: Credentials, base: string) {
    && c.authentication == "sql" && !c.windowsLogin
    && c.database == base + "{" && PlainProfile(c.(database := base))
  }

  lemma SqlLogin(c: Credentials, mssqlPython: bool)
    requires c.authentication == "sql" && !c.windowsLogin
    ensures AllFields(c, mssqlPython).Ok? && AuthHead(c) == []
    ensures UserFor(c) == Some(c.uid) && SecretFor(c) == Some(c.pwd)
  {
    hide FormatValue, FormatDriver, ServerArg, NormalizeKey;
    NormalizedHead("sql");
    assert NormalizeKey("sql")[0] == 's';
    assert "activedirectory"[0] == 'a';
  }

  lemma NormalizedHead(key: string)
    requires key != [] && key[0] != '_' && key[0] != ' '
    ensures NormalizeKey(key) == [ToLower(key[0])] + NormalizeKey(key[1..])
  {
  }

  lemma {:induction false} ReachPlain(p: string, q: string)
    requires Plain(p)
    ensures Reach(p + q, false, true) == Past(|p|, Reach(q, false, true))
  {
    if p == [] {
      assert p + q == q;
    } else {
      assert (p + q)[1..] == p[1..] + q;
      ReachPlain(p[1..], q);
    }
  }

  lemma ScanOpen(p: string)
    requires Plain(p)
    ensures Scan(p + "{;", true) == Front([], p + "{;", true)
  {
    ReachPlain(p, "{;");
    assert "{;"[1..] == ";" && ";"[1..] == "";
    assert Reach(";", true, true) == (1, true);
    assert Reach("{;", false, true) == (2, true);
  }

  /** What such a name leaves open: its own part, with a key that is not sensitive. */
  lemma OpenDatabaseFront(c: Credentials, base: string, mssqlPython: bool)
    requires OpenDatabase(c, base)
    ensures var f := FrontOf(c, mssqlPython);
            f.inBraces && f.open == "Database=" + base + "{;" && !OpenKeySensitive(f.open)
  {
    hide ServerArg, FormatDriver, Whole, Scan, Segment, AuthHead, PlainProfile;
    SqlLogin(c, mssqlPython);
    FrontPieces(c, base, mssqlPython);
    var db := "Database=" + base + "{;";
    assert db == ("Database=" + base) + "{;";
    assert Plain("Database=" + base) by { PlainPieces(c, base); }
    ScanOpen("Database=" + base);
    ServerWhole(c, base);
    ScanWhole("SERVER=" + ServerArg(c), db);
    if !mssqlPython {
      ScanWhole("DRIVER=" + FormatDriver(c.driver), ("SERVER=" + ServerArg(c)) + (";" + db));
    }
    DatabaseKey(base);
  }

  lemma PlainPieces(c: Credentials, base: string)
    requires OpenDatabase(c, base)
    ensures Plain("Database=" + base) && Plain(c.host) && Plain(base)
  {
  }

  lemma ServerWhole(c: Credentials, base: string)
    requires OpenDatabase(c, base)
    ensures Whole("SERVER=" + ServerArg(c), false, true) && Whole("DRIVER=" + FormatDriver(c.driver), false, true)
  {
    hide ServerArg, FormatDriver, Whole, Plain, CleanKey;
    PlainPieces(c, base);
    ServerArgPlain(c);
    CommonKeys();
    PlainSound("SERVER", ServerArg(c));
    DriverSound(c.(database := base));
    assert FieldText(Field("SERVER", ServerArg(c))) == "SERVER=" + ServerArg(c);
    assert FieldText(Field("DRIVER", FormatDriver(c.driver))) == "DRIVER=" + FormatDriver(c.driver);
  }

  lemma FrontPieces(c: Credentials, base: string, mssqlPython: bool)
    requires c.database == base + "{" && AuthHead(c) == []
    ensures var db := "Database=" + base + "{;";
            Lead(c, mssqlPython)
            == if mssqlPython then ("SERVER=" + ServerArg(c)) + (";" + db)
               else ("DRIVER=" + FormatDriver(c.driver)) + (";" + (("SERVER=" + ServerArg(c)) + (";" + db)))
  {
    hide ServerArg, FormatDriver, AuthHead, Assembled, FieldText;
    var driver, server, db := Field("DRIVER", FormatDriver(c.driver)), Field("SERVER", ServerArg(c)), Field("Database", c.database);
    TwoTexts(server, db);
    FrontTexts(c, base);
    var x, y, z := FieldText(driver), FieldText(server), FieldText(db);
    assert (y + ";" + z) + ";" == y + (";" + (z + ";"));
    if mssqlPython {
      assert FrontFields(c, true) == [server, db];
    } else {
      assert FrontFields(c, false) == [driver] + [server, db];
      JoinFields([driver], [server, db]);
      OneText(driver);
      assert (x + ";" + (y + ";" + z)) + ";" == x + (";" + ((y + ";" + z) + ";"));
    }
  }

  lemma FrontTexts(c: Credentials, base: string)
    requires c.database == base + "{"
    ensures FieldText(Field("DRIVER", FormatDriver(c.driver))) == "DRIVER=" + FormatDriver(c.driver)
    ensures FieldText(Field("SERVER", ServerArg(c))) == "SERVER=" + ServerArg(c)
    ensures FieldText(Field("Database", c.database)) + ";" == "Database=" + base + "{;"
  {
    hide ServerArg, FormatDriver;
  }

  lemma OneText(x: Field)
    ensures Assembled([x]) == FieldText(x)
  {
    hide FieldText;
  }

  lemma DatabaseKey(base: string)
    ensures !OpenKeySensitive("Database=" + base + "{;")
  {
    hide NormalizeKey, Strip;
    var o := "Database=" + base + "{;";
    assert o[0] == 'D' && LStrip(o) == o;
    assert o[..8] == "Database" && o[8] == '=';
    KeyEndIs(o, 8);
    StripFixed("Database");
    NormalizedHead("Database");
    NoSensitiveD(NormalizeKey("Database"));
  }

  lemma NoSensitiveD(k: string)
    requires k != [] && k[0] == 'd'
    ensures k !in SENSITIVE_KEYS
  {
  }

  /** What the log shows of the part that such a name opens: the swallowed text, word for word. */
  lemma SwallowedIsLogged(c: Credentials, base: string, mssqlPython: bool, piece: string, rest: string)
    requires OpenDatabase(c, base) && Sends(c)
    requires Assembled(TailFields(c, mssqlPython)) == piece + ";" + rest
    requires '}' in piece && '=' in piece && Whole(piece, true, '}' in rest) && !IsSpace(piece[|piece| - 1])
    ensures var f := FrontOf(c, mssqlPython);
            && AllFields(c, mssqlPython).Ok?
            && RedactedAll(Parts(Assembled(AllFields(c, mssqlPython).value)))
               == RedactedAll(f.parts) + ["Database=" + base + "{;" + piece] + RedactedAll(Parts(rest))
  {
    hide AllFields, Lead, Scan, Parts, UserFor, SecretFor, Whole, Join, TailFields, Strip, LStrip, Redacted, OpenDatabase,
      Assembled, OpenKeySensitive;
    SqlShape(c, base, mssqlPython);
    LeadAndTail(c, mssqlPython);
    OpenDatabaseFront(c, base, mssqlPython);
    var f := FrontOf(c, mssqlPython);
    PartsBehindOpen(Lead(c, mssqlPython), piece, rest);
    BraceAt(base);
    OpenPartText(f.open, piece);
    RedactedOpen(f.open, piece);
    NoLead(base);
    RedactedConcat(f.parts + [f.open + piece], Parts(rest));
    RedactedConcat(f.parts, [f.open + piece]);
    RedactedSingle(f.open + piece);
  }

  lemma SqlShape(c: Credentials, base: string, mssqlPython: bool)
    requires OpenDatabase(c, base)
    ensures AllFields(c, mssqlPython).Ok? && Sends(c)
  {
    SqlLogin(c, mssqlPython);
  }

  lemma BraceAt(base: string)
    ensures '{' in "Database=" + base + "{;"
  {
    var o := "Database=" + base + "{;";
    assert o[|o| - 2] == '{';
  }

  lemma NoLead(base: string)
    ensures LStrip("Database=" + base + "{;") == "Database=" + base + "{;"
  {
    var o := "Database=" + base + "{;";
    assert o[0] == 'D';
  }

  /** With pyodbc, the log of such a profile shows the user, so profiles with different users log
      differently. */
  lemma OpenDatabaseShowsUser(c: Credentials, base: string, other: string)
    requires OpenDatabase(c, base) && TextOf(c.uid) != other
    ensures Logged(c, false).Ok? && "Database=" + base + "{;UID={" + Doubled(TextOf(c.uid), '}') + "}"
                                    in Parts(Logged(c, false).value)
    ensures Logged(c, false) != Logged(c.(uid := Some(other)), false)
  {
    hide AllFields, Parts, Sanitized, Assembled, FrontOf, Redacted, Whole, OpenDatabase, RedactedAll, LogShows;
    var d := c.(uid := Some(other));
    assert OpenDatabase(d, base) by { SameDatabase(c, d, base); }
    UserIsLogged(c, base);
    UserIsLogged(d, base);
    SameFront(c, d, false);
    UndoubledDoubled(TextOf(c.uid), '}');
    UndoubledDoubled(other, '}');
    var x, y := "Database=" + base + "{;" + ("UID=" + Braced(TextOf(c.uid))), "Database=" + base + "{;" + ("UID=" + Braced(other));
    SwallowedDiffer("Database=" + base + "{;", "UID=", Doubled(TextOf(c.uid), '}'), Doubled(other, '}'));
    ShownPartsDiffer(c, d, false, x, y);
    assert x == "Database=" + base + "{;UID={" + Doubled(TextOf(c.uid), '}') + "}";
  }

  /** With mssql-python and a user that needs no braces, it shows the user and the whole password. */
  lemma OpenDatabaseShowsPassword(c: Credentials, base: string, other: string)
    requires OpenDatabase(c, base) && !NeedsBraces(TextOf(c.uid))
    requires NeedsBraces(TextOf(c.pwd)) && NeedsBraces(other) && TextOf(c.pwd) != other
    ensures Logged(c, true).Ok? && "Database=" + base + "{;UID=" + TextOf(c.uid) + ";PWD={" + Doubled(TextOf(c.pwd), '}') + "}"
                                   in Parts(Logged(c, true).value)
    ensures Logged(c, true) != Logged(c.(pwd := Some(other)), true)
  {
    hide AllFields, Parts, Sanitized, Assembled, FrontOf, Redacted, Whole, OpenDatabase, RedactedAll, LogShows, NeedsBraces;
    var d := c.(pwd := Some(other));
    assert OpenDatabase(d, base) by { SameDatabase(c, d, base); }
    PasswordIsLogged(c, base);
    PasswordIsLogged(d, base);
    SameFront(c, d, true);
    UndoubledDoubled(TextOf(c.pwd), '}');
    UndoubledDoubled(other, '}');
    var lead := "UID=" + TextOf(c.uid) + ";PWD=";
    var x, y := "Database=" + base + "{;" + (lead + Braced(TextOf(c.pwd))), "Database=" + base + "{;" + (lead + Braced(other));
    SwallowedDiffer("Database=" + base + "{;", lead, Doubled(TextOf(c.pwd), '}'), Doubled(other, '}'));
    ShownPartsDiffer(c, d, true, x, y);
    assert x == "Database=" + base + "{;UID=" + TextOf(c.uid) + ";PWD={" + Doubled(TextOf(c.pwd), '}') + "}";
  }

  lemma SwallowedDiffer(open: string, lead: string, a: string, b: string)
    requires a != b
    ensures open + (lead + ("{" + a + "}")) != open + (lead + ("{" + b + "}"))
  {
    var x, y := open + (lead + ("{" + a + "}")), open + (lead + ("{" + b + "}"));
    var n := |open| + |lead| + 1;
    assert x[n..|x| - 1] == a && y[n..|y| - 1] == b;
  }

  lemma SameDatabase(c: Credentials, d: Credentials, base: string)
    requires OpenDatabase(c, base) && d == c.(uid := d.uid, pwd := d.pwd)
    ensures OpenDatabase(d, base)
  {
  }

  lemma SameFront(c: Credentials, d: Credentials, mssqlPython: bool)
    requires d == c.(uid := d.uid, pwd := d.pwd)
    ensures FrontOf(c, mssqlPython) == FrontOf(d, mssqlPython)
  {
    hide ServerArg, FormatDriver, Scan, Assembled;
    SameServer(c, d);
  }

  /** The redacted parts of a profile: those of the front, one more, and others. */
  ghost predicate LogShows(c: Credentials, mssqlPython: bool, part: string) {
    && AllFields(c, mssqlPython).Ok?
    && exists more :: RedactedAll(Parts(Assembled(AllFields(c, mssqlPython).value)))
                      == RedactedAll(FrontOf(c, mssqlPython).parts) + [part] + more
  }

  lemma ShownPartsDiffer(c: Credentials, d: Credentials, mssqlPython: bool, x: string, y: string)
    requires LogShows(c, mssqlPython, x) && LogShows(d, mssqlPython, y) && x != y
    requires FrontOf(c, mssqlPython) == FrontOf(d, mssqlPython)
    ensures Logged(c, mssqlPython).Ok? && x in Parts(Logged(c, mssqlPython).value)
    ensures Logged(c, mssqlPython) != Logged(d, mssqlPython)
  {
    hide AllFields, Parts, Sanitized, Assembled, FrontOf, RedactedAll;
    var front := RedactedAll(FrontOf(c, mssqlPython).parts);
    var a :| RedactedAll(Parts(Assembled(AllFields(c, mssqlPython).value))) == front + [x] + a;
    var b :| RedactedAll(Parts(Assembled(AllFields(d, mssqlPython).value))) == front + [y] + b;
    SanitizeKeepsParts(Assembled(AllFields(c, mssqlPython).value));
    assert (front + [x] + a)[|front|] == x;
    MiddleDiffers(front, x, a, y, b);
    if Logged(c, mssqlPython) == Logged(d, mssqlPython) {
      LogFixesParts(c, d, mssqlPython);
    }
  }

  lemma UserIsLogged(c: Credentials, base: string)
    requires OpenDatabase(c, base)
    ensures LogShows(c, false, "Database=" + base + "{;" + ("UID=" + Braced(TextOf(c.uid))))
  {
    hide AllFields, Parts, Assembled, FrontOf, Whole, OpenDatabase, RedactedAll, Braced, TailFields, RestFields, FormatValue;
    assert c.authentication == "sql" && !c.windowsLogin by { IsSqlLogin(c, base); }
    SqlLogin(c, false);
    TailFirst(c, false);
    PyodbcBraces(c.uid);
    var piece, rest := "UID=" + Braced(TextOf(c.uid)), Assembled(RestFields(c, false));
    BracedPiece("UID=", TextOf(c.uid), '}' in rest);
    assert piece[3] == '=';
    SwallowedIsLogged(c, base, false, piece, rest);
  }

  lemma IsSqlLogin(c: Credentials, base: string)
    requires OpenDatabase(c, base)
    ensures c.authentication == "sql" && !c.windowsLogin
  {
  }

  lemma PasswordIsLogged(c: Credentials, base: string)
    requires OpenDatabase(c, base) && !NeedsBraces(TextOf(c.uid)) && NeedsBraces(TextOf(c.pwd))
    ensures LogShows(c, true, "Database=" + base + "{;" + (("UID=" + TextOf(c.uid) + ";PWD=") + Braced(TextOf(c.pwd))))
  {
    hide AllFields, Parts, Assembled, FrontOf, Whole, OpenDatabase, RedactedAll, Braced, TailFields, BackFields;
    assert c.authentication == "sql" && !c.windowsLogin by { IsSqlLogin(c, base); }
    SqlLogin(c, true);
    var lead, rest := "UID=" + TextOf(c.uid) + ";PWD=", Assembled(BackFields(c, true));
    var piece := lead + Braced(TextOf(c.pwd));
    assert Assembled(TailFields(c, true)) == piece + ";" + rest by { TwoFirst(c); }
    assert '}' !in TextOf(c.uid);
    assert '}' !in lead;
    BracedPiece(lead, TextOf(c.pwd), '}' in rest);
    assert piece[3] == '=';
    SwallowedIsLogged(c, base, true, piece, rest);
  }

  lemma TwoFirst(c: Credentials)
    requires UserFor(c) == Some(c.uid) && SecretFor(c) == Some(c.pwd)
    requires !NeedsBraces(TextOf(c.uid)) && NeedsBraces(TextOf(c.pwd))
    ensures Assembled(TailFields(c, true))
         == ("UID=" + TextOf(c.uid) + ";PWD=") + Braced(TextOf(c.pwd)) + ";" + Assembled(BackFields(c, true))
  {
    hide UserFor, SecretFor, NeedsBraces, Braced, BackFields;
    var uid, pwd := Field("UID", TextOf(c.uid)), Field("PWD", Braced(TextOf(c.pwd)));
    assert BackFields(c, true) != [] by { BackNotEmpty(c); }
    assert TailFields(c, true) == [uid, pwd] + BackFields(c, true);
    JoinFields([uid, pwd], BackFields(c, true));
    TwoTexts(uid, pwd);
    var lead := "UID=" + TextOf(c.uid) + ";PWD=";
    assert FieldText(uid) + ";" + FieldText(pwd) == lead + Braced(TextOf(c.pwd));
  }

  lemma TwoTexts(x: Field, y: Field)
    ensures Assembled([x, y]) == FieldText(x) + ";" + FieldText(y)
  {
    hide FieldText;
    assert FieldTexts([x, y]) == [FieldText(x)] + [FieldText(y)];
    JoinCons(FieldText(x), [FieldText(y)], ";");
  }

  lemma BackNotEmpty(c: Credentials)
    ensures BackFields(c, true) != []
  {
  }
}
