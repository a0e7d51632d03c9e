/** Exactly when the logged connection string hides the credentials. */
module CredentialLogging {
  import opened Text
  import opened Quoting
  import opened ConnectionString
  import opened ConnectionPrefix
  import opened ConnectionBuilder

  /** The string a backend connects with. */
  function Assembled(fields: seq<Field>): string {
    Join(FieldTexts(fields), ";")
  }

  /** What is logged for a profile, or the error raised before anything is. */
  function Logged(c: Credentials, mssqlPython: bool): Result<string> {
    match AllFields(c, mssqlPython)
    case Ok(fields) => Ok(Sanitized(Assembled(fields)))
    case Err(message) => Err(message)
  }

  /** Two profiles that differ at most in their credentials, and agree on whether one is given where
      the builders ask that. */
  predicate SameProfile(c: Credentials, d: Credentials, mssqlPython: bool) {
    && d == c.(uid := d.uid, pwd := d.pwd, clientId := d.clientId, clientSecret := d.clientSecret)
    && (c.authentication == "ActiveDirectoryMSI" ==>
          (Truthy(c.uid) <==> Truthy(d.uid)) && (Truthy(c.pwd) <==> Truthy(d.pwd)))
    && (c.authentication == "ActiveDirectoryIntegrated" ==> (Truthy(c.pwd) <==> Truthy(d.pwd)))
    && (mssqlPython && c.windowsLogin
        && !(IsActiveDirectory(c.authentication) && c.authentication != "ActiveDirectoryAccessToken") ==>
          (Truthy(c.uid) <==> Truthy(d.uid)) && (Truthy(c.pwd) <==> Truthy(d.pwd)))
  }

  /** The text in front of the first credential: driver, host, database and the mode. */
  function Lead(c: Credentials, mssqlPython: bool): string {
    Assembled(FrontFields(c, mssqlPython)) + ";"
  }

  /** What the text in front leaves behind, given that a `}` follows it. */
  function FrontOf(c: Credentials, mssqlPython: bool): Front {
    Scan(Lead(c, mssqlPython), true)
  }

  /** The part left open has a sensitive key of its own. */
  predicate OpenKeySensitive(open: string) {
    var o := LStrip(open);
    var e := KeyEnd(o);
    e.Some? && IsSensitive(o[..e.value])
  }

  /** What a caller can check from driver, host, database and mode alone: nothing is sent, or the text
      in front of the credentials closes its braces, or, where credentials are always braced, the part
      it leaves open is redacted itself. */
  predicate Hides(c: Credentials, mssqlPython: bool) {
    || AllFields(c, mssqlPython).Err?
    || !Sends(c)
    || !FrontOf(c, mssqlPython).inBraces
    || (!mssqlPython && OpenKeySensitive(FrontOf(c, mssqlPython).open))
  }

  // ------------------------------------------------------------- the three stretches

  lemma SameEnds(c: Credentials, d: Credentials, mssqlPython: bool)
    requires SameProfile(c, d, mssqlPython)
    ensures FrontFields(c, mssqlPython) == FrontFields(d, mssqlPython)
    ensures BackFields(c, mssqlPython) == BackFields(d, mssqlPython)
  {
    hide IsActiveDirectory, Truthy, FormatDriver, ServerArg;
    SameServer(c, d);
  }

  lemma SameShape(c: Credentials, d: Credentials, mssqlPython: bool)
    requires SameProfile(c, d, mssqlPython)
    ensures AllFields(c, mssqlPython).Ok? <==> AllFields(d, mssqlPython).Ok?
    ensures AllFields(c, mssqlPython).Ok? ==>
              (Sends(c) <==> Sends(d)) && (SecretFor(c).Some? <==> SecretFor(d).Some?)
    ensures FrontFields(c, mssqlPython) == FrontFields(d, mssqlPython)
    ensures BackFields(c, mssqlPython) == BackFields(d, mssqlPython)
  {
    hide FrontFields, BackFields, AllFields, Truthy, IsActiveDirectory;
    SameEnds(c, d, mssqlPython);
    BuilderFailsIff(c, mssqlPython);
    BuilderFailsIff(d, mssqlPython);
  }

  lemma SameServer(c: Credentials, d: Credentials)
    requires c.host == d.host && c.port == d.port
    ensures ServerArg(c) == ServerArg(d)
  {
  }

  lemma SameErrors(c: Credentials, d: Credentials, mssqlPython: bool)
    requires SameProfile(c, d, mssqlPython) && AllFields(c, mssqlPython).Err?
    ensures AllFields(d, mssqlPython) == AllFields(c, mssqlPython)
  {
    hide FormatValue, IsActiveDirectory, Truthy, FormatDriver, ServerArg;
  }

  lemma NothingSent(c: Credentials, d: Credentials, mssqlPython: bool)
    requires SameProfile(c, d, mssqlPython) && AllFields(c, mssqlPython).Ok? && !Sends(c)
    ensures AllFields(d, mssqlPython) == AllFields(c, mssqlPython)
  {
    hide FormatValue, IsActiveDirectory, Truthy, FormatDriver, ServerArg, AuthFields;
    assert ServerArg(c) == ServerArg(d) by { SameServer(c, d); }
    SilentAuth(c, d, mssqlPython);
  }

  lemma SilentAuth(c: Credentials, d: Credentials, mssqlPython: bool)
    requires SameProfile(c, d, mssqlPython) && AuthFields(c, mssqlPython).Ok? && !Sends(c)
    ensures AuthFields(d, mssqlPython) == AuthFields(c, mssqlPython)
  {
    hide FormatValue, IsActiveDirectory, Truthy;
  }

  /** The credentials of a profile and what stands behind them. */
  function TailFields(c: Credentials, mssqlPython: bool): (r: seq<Field>)
    requires Sends(c)
    ensures r != []
  {
    SecretFields(UserFor(c).value, SecretFor(c), mssqlPython) + BackFields(c, mssqlPython)
  }

  lemma JoinFields(x: seq<Field>, y: seq<Field>)
    requires x != [] && y != []
    ensures Assembled(x + y) == Assembled(x) + ";" + Assembled(y)
    decreases |x|
  {
    hide FieldText;
    assert FieldTexts(x + y) == FieldTexts(x) + FieldTexts(y);
    assert FieldTexts(x)[1..] == FieldTexts(x[1..]);
    if |x| == 1 {
      assert FieldTexts(x + y)[1..] == FieldTexts(y);
    } else {
      assert (x + y)[1..] == x[1..] + y;
      assert FieldTexts(x + y)[1..] == FieldTexts(x[1..] + y);
      JoinFields(x[1..], y);
      var head := FieldTexts(x)[0] + ";";
      Assoc(head, Assembled(x[1..]), ";" + Assembled(y));
      assert Assembled(x[1..]) + ";" + Assembled(y) == Assembled(x[1..]) + (";" + Assembled(y));
    }
  }

  lemma LeadAndTail(c: Credentials, mssqlPython: bool)
    requires AllFields(c, mssqlPython).Ok? && Sends(c)
    ensures Assembled(AllFields(c, mssqlPython).value) == Lead(c, mssqlPython) + Assembled(TailFields(c, mssqlPython))
    ensures Ended(Lead(c, mssqlPython))
  {
    hide AllFields, FormatDriver, ServerArg, AuthHead, UserFor, SecretFor, FormatValue, Assembled;
    FieldsSplit(c, mssqlPython);
    var front, secrets, back := FrontFields(c, mssqlPython),
                                SecretFields(UserFor(c).value, SecretFor(c), mssqlPython), BackFields(c, mssqlPython);
    Assoc(front, secrets, back);
    JoinFields(front, secrets + back);
  }

  lemma BackSound(c: Credentials, mssqlPython: bool)
    ensures AllSound(BackFields(c, mssqlPython))
  {
    hide Sound, Plain, CleanKey;
    CommonKeys();
    PyodbcKeys();
    CommonValues();
    PyodbcValues();
    PlainSound("encrypt", YesNo(c.encrypt));
    PlainSound("TrustServerCertificate", YesNo(c.trustCert));
    PlainSound("APP", APP_NAME);
    PlainSound("Pooling", "true");
    PlainSound("SQL_ATTR_TRACE", if c.traceFlag then "SQL_OPT_TRACE_ON" else "SQL_OPT_TRACE_OFF");
    PlainSound("ConnectRetryCount", "3");
    PlainSound("ConnectRetryInterval", "10");
  }

  lemma TailSound(c: Credentials, mssqlPython: bool)
    requires Sends(c)
    ensures AllSound(TailFields(c, mssqlPython))
  {
    hide Sound, FormatValue, BackFields, UserFor, SecretFor, CleanKey;
    AuthKeys();
    BackSound(c, mssqlPython);
    FormattedSound("UID", UserFor(c).value, mssqlPython);
    if SecretFor(c).Some? {
      FormattedSound("PWD", SecretFor(c).value, mssqlPython);
    }
  }

  /** How the credentials and what follows appear in the log: without any value of them. */
  lemma TailShown(c: Credentials, d: Credentials, mssqlPython: bool)
    requires Sends(c) && Sends(d) && (SecretFor(c).Some? <==> SecretFor(d).Some?)
    requires BackFields(c, mssqlPython) == BackFields(d, mssqlPython)
    ensures ShownAll(TailFields(c, mssqlPython)) == ShownAll(TailFields(d, mssqlPython))
  {
    hide FormatValue, BackFields, UserFor, SecretFor, IsSensitive;
    UidPwdSensitive();
  }

  // ------------------------------------------------------------------ closed fronts

  lemma RedactedConcat(x: seq<string>, y: seq<string>)
    ensures RedactedAll(x + y) == RedactedAll(x) + RedactedAll(y)
  {
    hide Redacted;
  }

  /** Behind a closed front the credentials are parts of their own. */
  lemma ClosedParts(c: Credentials, mssqlPython: bool)
    requires AllFields(c, mssqlPython).Ok? && Sends(c) && !FrontOf(c, mssqlPython).inBraces
    ensures Parts(Assembled(AllFields(c, mssqlPython).value))
         == FrontOf(c, mssqlPython).parts + StrippedTexts(FieldTexts(TailFields(c, mssqlPython)))
  {
    hide AllFields, Lead, Assembled, TailFields, Scan, Parts, StrippedTexts, UserFor, AllSound;
    LeadAndTail(c, mssqlPython);
    TailSound(c, mssqlPython);
    TailParts(TailFields(c, mssqlPython));
    var t := Assembled(TailFields(c, mssqlPython));
    ScanClosedSame(Lead(c, mssqlPython));
    PartsBehindClosed(Lead(c, mssqlPython), t);
  }

  lemma TailParts(fields: seq<Field>)
    requires AllSound(fields)
    ensures Parts(Assembled(fields)) == StrippedTexts(FieldTexts(fields))
  {
    hide AllSound, Parts, Join;
    PartsOfFields(fields);
  }

  lemma ClosedHides(c: Credentials, d: Credentials, mssqlPython: bool)
    requires SameProfile(c, d, mssqlPython) && AllFields(c, mssqlPython).Ok?
    requires Sends(c) && !FrontOf(c, mssqlPython).inBraces
    ensures Logged(c, mssqlPython) == Logged(d, mssqlPython)
  {
    hide AllFields, Assembled, TailFields, Scan, Parts, StrippedTexts, UserFor, AllSound, SameProfile, SecretFor,
      RedactedAll, ShownAll, FrontFields, BackFields;
    SameShape(c, d, mssqlPython);
    ClosedParts(c, mssqlPython);
    ClosedParts(d, mssqlPython);
    TailSound(c, mssqlPython);
    TailSound(d, mssqlPython);
    RedactedFields(TailFields(c, mssqlPython));
    RedactedFields(TailFields(d, mssqlPython));
    TailShown(c, d, mssqlPython);
    RedactedConcat(FrontOf(c, mssqlPython).parts, StrippedTexts(FieldTexts(TailFields(c, mssqlPython))));
    RedactedConcat(FrontOf(d, mssqlPython).parts, StrippedTexts(FieldTexts(TailFields(d, mssqlPython))));
  }

  // -------------------------------------------------------------------- open fronts

  lemma {:induction false} LStripAcross(x: string, y: string)
    requires exists i :: 0 <= i < |x| && !IsSpace(x[i])
    ensures LStrip(x + y) == LStrip(x) + y && LStrip(x) != ""
  {
    if IsSpace(x[0]) {
      assert (x + y)[1..] == x[1..] + y;
      var i :| 0 <= i < |x| && !IsSpace(x[i]);
      assert x[1..][i - 1] == x[i];
      LStripAcross(x[1..], y);
    }
  }

  /** The open part keeps everything from its first character to the brace that closes it. */
  lemma OpenPartText(open: string, piece: string)
    requires '{' in open && piece != "" && !IsSpace(piece[|piece| - 1])
    ensures Strip(open + piece) == LStrip(open) + piece && '{' in LStrip(open)
  {
    hide LStrip, RStrip, IsSpace;
    BraceIsNoSpace();
    var i :| 0 <= i < |open| && open[i] == '{';
    LStripAcross(open, piece);
    LStripDrops(open);
    var left := open[..|open| - |LStrip(open)|];
    assert open == left + LStrip(open);
    assert '{' !in left;
    var t := LStrip(open) + piece;
    assert t[|t| - 1] == piece[|piece| - 1];
    NothingBehind(t);
  }

  lemma BraceIsNoSpace()
    ensures !IsSpace('{')
  {
  }

  lemma NothingBehind(t: string)
    requires t != "" && !IsSpace(t[|t| - 1])
    ensures RStrip(t) == t
  {
  }

  /** A key with a brace in it is none of the sensitive ones. */
  lemma BraceKeyNotSensitive(key: string)
    requires '{' in key
    ensures !IsSensitive(key)
  {
    hide Strip, NormalizeKey;
    NonblankSegment(key, '{');
    assert '{' in Strip(key) + MASK;
    if IsSensitive(key) {
      MaskedPart(key);
    }
  }

  /** The open part in the log: masked when its own key is sensitive, and otherwise word for word. */
  lemma RedactedOpen(open: string, piece: string)
    requires '{' in LStrip(open) && piece != "" && '=' in piece
    ensures var o := LStrip(open);
            Redacted(o + piece) == if OpenKeySensitive(open) then Strip(o[..KeyEnd(o).value]) + MASK else o + piece
  {
    hide IsSensitive, Strip, LStrip;
    var o := LStrip(open);
    if KeyEnd(o).Some? {
      var e := KeyEnd(o).value;
      assert (o + piece)[..e] == o[..e];
      KeyEndIs(o + piece, e);
    } else {
      var n := KeyEnd(o + piece).value;
      assert n >= |o|;
      assert o == (o + piece)[..n][..|o|];
      BraceKeyNotSensitive((o + piece)[..n]);
    }
  }

  /** The rest of the tail behind its first field. */
  function RestFields(c: Credentials, mssqlPython: bool): seq<Field>
    requires Sends(c)
  {
    TailFields(c, mssqlPython)[1..]
  }

  /** A braced user behind an open front: the front's last part runs up to the user's closing brace. */
  lemma OpenParts(c: Credentials, mssqlPython: bool)
    requires AllFields(c, mssqlPython).Ok? && Sends(c) && FrontOf(c, mssqlPython).inBraces
    requires FormatValue(UserFor(c).value, mssqlPython) == Braced(TextOf(UserFor(c).value))
    ensures var f := FrontOf(c, mssqlPython);
            && '{' in LStrip(f.open)
            && Parts(Assembled(AllFields(c, mssqlPython).value))
               == f.parts + [LStrip(f.open) + ("UID=" + Braced(TextOf(UserFor(c).value)))]
                  + StrippedTexts(FieldTexts(RestFields(c, mssqlPython)))
  {
    hide AllFields, Lead, Scan, Parts, StrippedTexts, UserFor, SecretFor, BackFields, FormatValue, Braced, Strip, LStrip,
      Whole, Join, AllSound;
    var piece := "UID=" + Braced(TextOf(UserFor(c).value));
    var rest := RestFields(c, mssqlPython);
    TailFirst(c, mssqlPython);
    LeadAndTail(c, mssqlPython);
    TailSound(c, mssqlPython);
    SoundRest(TailFields(c, mssqlPython));
    TailParts(rest);
    BracedPiece("UID=", TextOf(UserFor(c).value), '}' in Assembled(rest));
    PartsBehindOpen(Lead(c, mssqlPython), piece, Assembled(rest));
    OpenHasBrace(Lead(c, mssqlPython), true);
    OpenPartText(FrontOf(c, mssqlPython).open, piece);
  }

  lemma SoundRest(fields: seq<Field>)
    requires AllSound(fields) && fields != []
    ensures AllSound(fields[1..])
  {
    hide Sound;
  }

  lemma TailFirst(c: Credentials, mssqlPython: bool)
    requires Sends(c)
    ensures RestFields(c, mssqlPython) != []
    ensures Assembled(TailFields(c, mssqlPython))
         == "UID=" + FormatValue(UserFor(c).value, mssqlPython) + ";" + Assembled(RestFields(c, mssqlPython))
    ensures Assembled(TailFields(c, mssqlPython))
         == ("UID=" + FormatValue(UserFor(c).value, mssqlPython)) + ";" + Assembled(RestFields(c, mssqlPython))
  {
    hide UserFor, SecretFor, FormatValue;
    var tail := TailFields(c, mssqlPython);
    assert FieldTexts(tail)[1..] == FieldTexts(tail[1..]);
    assert |tail| > 1;
  }

  lemma {:induction false} BareThenWhole(lead: string, t: string, more: bool)
    requires '}' !in lead && Whole(t, true, more)
    ensures Whole(lead + t, true, more)
  {
    if lead == [] {
      assert lead + t == t;
    } else {
      assert (lead + t)[1..] == lead[1..] + t;
      BareThenWhole(lead[1..], t, more);
    }
  }

  /** A braced value read inside braces runs to its own closing brace. */
  lemma BracedPiece(lead: string, text: string, more: bool)
    requires '}' !in lead
    ensures var piece := lead + Braced(text);
            '}' in piece && Whole(piece, true, more) && piece != "" && !IsSpace(piece[|piece| - 1])
  {
    var body := Doubled(text, '}') + "}";
    DoubledWhole(text);
    BareThenWhole(lead + "{", body, true);
    assert (lead + "{") + body == lead + Braced(text);
    var piece := lead + Braced(text);
    if !more {
      WholeWithoutMore(piece, true);
    }
    assert piece[|piece| - 1] == '}';
  }

  lemma PyodbcBraces(value: Option<string>)
    ensures FormatValue(value, false) == Braced(TextOf(value))
  {
  }

  /** With the pyodbc form, an open front whose part is redacted hides the user it swallows. */
  lemma SensitiveOpenHides(c: Credentials, d: Credentials)
    requires SameProfile(c, d, false) && AllFields(c, false).Ok? && Sends(c)
    requires FrontOf(c, false).inBraces && OpenKeySensitive(FrontOf(c, false).open)
    ensures Logged(c, false) == Logged(d, false)
  {
    hide AllFields, Assembled, Scan, Parts, StrippedTexts, UserFor, AllSound, SameProfile, SecretFor, OpenKeySensitive,
      RedactedAll, ShownAll, FrontFields, BackFields, FormatValue, LStrip, KeyEnd, Braced, Strip, TailFields, Redacted;
    SameShape(c, d, false);
    PyodbcBraces(UserFor(c).value);
    PyodbcBraces(UserFor(d).value);
    OpenLogged(c, false);
    OpenLogged(d, false);
    RestShown(c, d, false);
    RedactedOpen(FrontOf(c, false).open, "UID=" + Braced(TextOf(UserFor(c).value)));
    RedactedOpen(FrontOf(d, false).open, "UID=" + Braced(TextOf(UserFor(d).value)));
  }

  lemma RestShown(c: Credentials, d: Credentials, mssqlPython: bool)
    requires Sends(c) && Sends(d) && (SecretFor(c).Some? <==> SecretFor(d).Some?)
    requires BackFields(c, mssqlPython) == BackFields(d, mssqlPython)
    ensures ShownAll(RestFields(c, mssqlPython)) == ShownAll(RestFields(d, mssqlPython))
  {
    hide UserFor, SecretFor, BackFields, Shown;
    TailShown(c, d, mssqlPython);
    var x, y := TailFields(c, mssqlPython), TailFields(d, mssqlPython);
    assert ShownAll(x)[1..] == ShownAll(x[1..]) && ShownAll(y)[1..] == ShownAll(y[1..]);
  }

  lemma OpenLogged(c: Credentials, mssqlPython: bool)
    requires AllFields(c, mssqlPython).Ok? && Sends(c) && FrontOf(c, mssqlPython).inBraces
    requires FormatValue(UserFor(c).value, mssqlPython) == Braced(TextOf(UserFor(c).value))
    ensures var f, piece := FrontOf(c, mssqlPython), "UID=" + Braced(TextOf(UserFor(c).value));
            && '{' in LStrip(f.open)
            && RedactedAll(Parts(Assembled(AllFields(c, mssqlPython).value)))
               == RedactedAll(f.parts) + [Redacted(LStrip(f.open) + piece)] + ShownAll(RestFields(c, mssqlPython))
  {
    hide AllFields, Assembled, Scan, Parts, StrippedTexts, UserFor, AllSound, SecretFor,
      ShownAll, BackFields, FormatValue, LStrip, Braced, TailFields, Redacted, RedactedAll;
    OpenParts(c, mssqlPython);
    TailFirst(c, mssqlPython);
    TailSound(c, mssqlPython);
    SoundRest(TailFields(c, mssqlPython));
    RedactedFields(RestFields(c, mssqlPython));
    var f, piece := FrontOf(c, mssqlPython), "UID=" + Braced(TextOf(UserFor(c).value));
    var rest := StrippedTexts(FieldTexts(RestFields(c, mssqlPython)));
    RedactedConcat(f.parts + [LStrip(f.open) + piece], rest);
    RedactedConcat(f.parts, [LStrip(f.open) + piece]);
    RedactedSingle(LStrip(f.open) + piece);
  }

  lemma RedactedSingle(part: string)
    ensures RedactedAll([part]) == [Redacted(part)]
  {
    hide Redacted;
  }

  // ---------------------------------------------------------------------- witnesses

  /** The profile with other credentials. */
  function With(c: Credentials, user: string, secret: string): Credentials {
    c.(uid := Some(user), clientId := Some(user),
       pwd := if SecretFor(c).Some? then Some(secret) else c.pwd, clientSecret := Some(secret))
  }

  lemma WithIsSame(c: Credentials, user: string, secret: string, mssqlPython: bool)
    requires AllFields(c, mssqlPython).Ok? && Sends(c) && user != ""
    ensures SameProfile(c, With(c, user, secret), mssqlPython)
    ensures UserFor(With(c, user, secret)) == Some(Some(user))
    ensures SecretFor(With(c, user, secret)) == if SecretFor(c).Some? then Some(Some(secret)) else None
  {
    hide FormatValue, IsActiveDirectory, FormatDriver, ServerArg;
    assert |"ActiveDirectoryMSI"| == 18 && |"ActiveDirectoryIntegrated"| == 25 && |"sql"| == 3;
    assert |"ActiveDirectoryPassword"| == 23 && |"ActiveDirectoryServicePrincipal"| == 31;
    assert |"ActiveDirectoryInteractive"| == 26;
  }

  /** Equal logs come from equal redacted parts. */
  lemma LogFixesParts(c: Credentials, d: Credentials, mssqlPython: bool)
    requires AllFields(c, mssqlPython).Ok? && AllFields(d, mssqlPython).Ok?
    requires Logged(c, mssqlPython) == Logged(d, mssqlPython)
    ensures RedactedAll(Parts(Assembled(AllFields(c, mssqlPython).value)))
         == RedactedAll(Parts(Assembled(AllFields(d, mssqlPython).value)))
  {
    hide AllFields, Assembled, Parts, Sanitized, RedactedAll;
    SanitizeKeepsParts(Assembled(AllFields(c, mssqlPython).value));
    SanitizeKeepsParts(Assembled(AllFields(d, mssqlPython).value));
  }

  lemma BracedForms(mssqlPython: bool)
    ensures FormatValue(Some(";"), mssqlPython) == Braced(";") && FormatValue(Some(";;"), mssqlPython) == Braced(";;")
    ensures |Braced(";")| == 3 && |Braced(";;")| == 4
  {
    assert ";;"[1..] == ";" && ";"[1..] == "";
    assert ';' in ";" && ';' in ";;";
  }

  lemma OpenShowsUser(c: Credentials)
    requires AllFields(c, false).Ok? && Sends(c)
    requires FrontOf(c, false).inBraces && !OpenKeySensitive(FrontOf(c, false).open)
    ensures Logged(With(c, ";", ";"), false) != Logged(With(c, ";;", ";"), false)
    ensures SameProfile(c, With(c, ";", ";"), false) && SameProfile(c, With(c, ";;", ";"), false)
  {
    hide AllFields, Assembled, Scan, Parts, StrippedTexts, UserFor, AllSound, SecretFor, RedactedAll, SameProfile,
      ShownAll, FrontFields, BackFields, FormatValue, LStrip, Braced, Redacted, TailFields, OpenKeySensitive, With, Logged;
    var d, e := With(c, ";", ";"), With(c, ";;", ";");
    WithIsSame(c, ";", ";", false);
    WithIsSame(c, ";;", ";", false);
    SameShape(c, d, false);
    SameShape(c, e, false);
    BracedForms(false);
    OpenLogged(d, false);
    OpenLogged(e, false);
    var open := FrontOf(c, false).open;
    RedactedOpen(open, "UID=" + Braced(";"));
    RedactedOpen(open, "UID=" + Braced(";;"));
    MiddleDiffers(RedactedAll(FrontOf(c, false).parts), LStrip(open) + ("UID=" + Braced(";")),
                  ShownAll(RestFields(d, false)), LStrip(open) + ("UID=" + Braced(";;")), ShownAll(RestFields(e, false)));
    if Logged(d, false) == Logged(e, false) {
      LogFixesParts(d, e, false);
    }
  }

  lemma MiddleDiffers(a: seq<string>, x: string, b: seq<string>, y: string, b': seq<string>)
    ensures x != y ==> a + [x] + b != a + [y] + b'
  {
    assert (a + [x] + b)[|a|] == x && (a + [y] + b')[|a|] == y;
  }

  lemma BareForms()
    ensures FormatValue(Some("a"), true) == "a" && FormatValue(Some("b"), true) == "b"
  {
  }

  lemma {:induction false} NoBraceInTexts(fields: seq<Field>)
    requires forall i :: 0 <= i < |fields| ==> '}' !in FieldText(fields[i])
    ensures '}' !in Assembled(fields)
  {
    BraceInJoin(FieldTexts(fields));
  }

  lemma BackHasNoBrace(c: Credentials, mssqlPython: bool)
    ensures forall i :: 0 <= i < |BackFields(c, mssqlPython)| ==> '}' !in FieldText(BackFields(c, mssqlPython)[i])
  {
    hide Whole, CleanKey;
    CommonKeys();
    PyodbcKeys();
    CommonValues();
    PyodbcValues();
    forall i | 0 <= i < |BackFields(c, mssqlPython)|
      ensures '}' !in FieldText(BackFields(c, mssqlPython)[i])
    {
      var f := BackFields(c, mssqlPython)[i];
      assert Plain(f.raw);
      assert CleanKey(f.key);
      PlainField(f);
    }
  }

  lemma PlainField(f: Field)
    requires CleanKey(f.key) && Plain(f.raw)
    ensures '}' !in FieldText(f)
  {
  }

  /** With the mssql-python form, an open front swallows a bare user and whatever follows it. */
  lemma OpenShowsAll(c: Credentials)
    requires AllFields(c, true).Ok? && Sends(c) && FrontOf(c, true).inBraces
    ensures Logged(With(c, ";", "b"), true) != Logged(With(c, "a", "b"), true)
    ensures SameProfile(c, With(c, ";", "b"), true) && SameProfile(c, With(c, "a", "b"), true)
  {
    hide AllFields, Assembled, Scan, Parts, StrippedTexts, UserFor, AllSound, SecretFor, RedactedAll, SameProfile, Lead,
      ShownAll, FrontFields, BackFields, FormatValue, LStrip, Braced, Redacted, TailFields, OpenKeySensitive, With, Logged;
    var d, e := With(c, ";", "b"), With(c, "a", "b");
    WithIsSame(c, ";", "b", true);
    WithIsSame(c, "a", "b", true);
    SameShape(c, d, true);
    SameShape(c, e, true);
    BracedForms(true);
    assert Lead(c, true) == Lead(d, true) == Lead(e, true) by { SameLead(c, d, true); SameLead(c, e, true); }
    OpenParts(d, true);
    BareTail(e);
    LeadAndTail(e, true);
    BareBehindOpen(Lead(e, true), Assembled(TailFields(e, true)));
    TailSound(e, true);
    TailParts(TailFields(e, true));
    TailLengths(d, e);
    if Logged(d, true) == Logged(e, true) {
      LogFixesParts(d, e, true);
    }
  }

  lemma SameLead(c: Credentials, d: Credentials, mssqlPython: bool)
    requires FrontFields(c, mssqlPython) == FrontFields(d, mssqlPython)
    ensures Lead(c, mssqlPython) == Lead(d, mssqlPython)
  {
  }

  lemma TailLengths(d: Credentials, e: Credentials)
    requires Sends(d) && Sends(e) && (SecretFor(d).Some? <==> SecretFor(e).Some?)
    ensures |StrippedTexts(FieldTexts(RestFields(d, true)))| + 1 == |StrippedTexts(FieldTexts(TailFields(e, true)))|
    ensures |StrippedTexts(FieldTexts(RestFields(d, true)))| >= 2
  {
    hide UserFor, SecretFor;
  }

  lemma BareTail(e: Credentials)
    requires UserFor(e) == Some(Some("a")) && (SecretFor(e).Some? ==> SecretFor(e) == Some(Some("b")))
    ensures '}' !in Assembled(TailFields(e, true))
  {
    hide UserFor, SecretFor, BackFields, FormatValue, Assembled;
    BareForms();
    BackHasNoBrace(e, true);
    var fields := TailFields(e, true);
    var n := |fields| - |BackFields(e, true)|;
    forall i | 0 <= i < |fields| ensures '}' !in FieldText(fields[i]) {
      if i >= n {
        assert fields[i] == BackFields(e, true)[i - n];
      } else {
        assert fields[i] == Field("UID", "a") || fields[i] == Field("PWD", "b");
      }
    }
    NoBraceInTexts(fields);
  }

  // ------------------------------------------------------------------ the theorem

  /** For either backend, the log is the same for every choice of credentials exactly when the text in
      front of them hides them. */
  lemma LoggedStringHidesCredentials(c: Credentials, mssqlPython: bool)
    ensures (forall d :: SameProfile(c, d, mssqlPython) ==> Logged(d, mssqlPython) == Logged(c, mssqlPython))
            <==> Hides(c, mssqlPython)
  {
    hide AllFields, Scan, Lead, FrontOf, OpenKeySensitive, SameProfile, Logged, With, Sends;
    if Hides(c, mssqlPython) {
      forall d | SameProfile(c, d, mssqlPython) ensures Logged(d, mssqlPython) == Logged(c, mssqlPython) {
        HidesFrom(c, d, mssqlPython);
      }
    } else if mssqlPython {
      OpenShowsAll(c);
    } else {
      OpenShowsUser(c);
    }
  }

  lemma HidesFrom(c: Credentials, d: Credentials, mssqlPython: bool)
    requires Hides(c, mssqlPython) && SameProfile(c, d, mssqlPython)
    ensures Logged(d, mssqlPython) == Logged(c, mssqlPython)
  {
    hide AllFields, FrontOf, OpenKeySensitive, SameProfile, Sends, Sanitized, Assembled;
    if AllFields(c, mssqlPython).Err? {
      SameErrors(c, d, mssqlPython);
    } else if !Sends(c) {
      NothingSent(c, d, mssqlPython);
    } else if !FrontOf(c, mssqlPython).inBraces {
      ClosedHides(c, d, mssqlPython);
    } else {
      SensitiveOpenHides(c, d);
    }
  }
}
