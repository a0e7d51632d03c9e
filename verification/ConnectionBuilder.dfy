/** Connection-string assembly (`sqlserver_backend.py`) with the value formatting of
    `sqlserver_helpers.py`: the parts survive splitting, and logging shows no credential. */
module ConnectionBuilder {
  import opened Text
  import opened Quoting
  import opened ConnectionString

  // --------------------------------------------------------------- formatting

  /** `"" if value is None else str(value)`. */
  function TextOf(value: Option<string>): string {
    if value.None? then "" else value.value
  }

  predicate NeedsBraces(text: string) {
    || (text != "" && (text[0] == ' ' || text[|text| - 1] == ' '))
    || !Plain(text)
  }

  /** A value in braces, with `}` doubled. */
  function Braced(text: string): string {
    "{" + Doubled(text, '}') + "}"
  }

  /** `escape_connection_string_value`. */
  function EscapeValue(value: Option<string>): string {
    if NeedsBraces(TextOf(value)) then Braced(TextOf(value)) else TextOf(value)
  }

  /** `format_connection_string_value`. */
  function FormatValue(value: Option<string>, mssqlPython: bool): string {
    if mssqlPython then EscapeValue(value) else Braced(TextOf(value))
  }

  /** `format_pyodbc_driver_value`: braces already there are kept, and nothing is doubled. */
  function FormatDriver(value: Option<string>): string {
    var text := TextOf(value);
    if |text| >= 2 && text[0] == '{' && text[|text| - 1] == '}' then text else "{" + text + "}"
  }

  /** Only the mssql-python form writes a value bare, and only one without a brace or `;` and without a space at
      either end. */
  lemma BareIff(value: Option<string>, mssqlPython: bool)
    ensures FormatValue(value, mssqlPython) == TextOf(value)
            <==> && mssqlPython && ';' !in TextOf(value) && '{' !in TextOf(value) && '}' !in TextOf(value)
                 && !(" " <= TextOf(value)) && (TextOf(value) == "" || TextOf(value)[|TextOf(value)| - 1] != ' ')
    ensures FormatValue(value, mssqlPython) != TextOf(value) ==>
              FormatValue(value, mssqlPython) == "{" + Doubled(TextOf(value), '}') + "}"
  {
  }

  // ------------------------------------------------------------------- fields

  /** One `key=raw` part before it is joined. */
  datatype Field = Field(key: string, raw: string)

  function FieldText(f: Field): string {
    f.key + "=" + f.raw
  }

  function FieldTexts(fields: seq<Field>): (r: seq<string>)
    ensures |r| == |fields|
    ensures forall i :: 0 <= i < |r| ==> r[i] == FieldText(fields[i])
  {
    seq(|fields|, i requires 0 <= i < |fields| => FieldText(fields[i]))
  }

  /** A key the splitter and the sanitizer read back: nonempty, trimmed, no `;`, brace or `=`. */
  predicate CleanKey(k: string) {
    k != "" && Stripped(k) && Plain(k) && '=' !in k
  }

  /** A field that stays one part wherever it stands. */
  predicate Sound(f: Field) {
    CleanKey(f.key) && Whole(FieldText(f), false, true)
  }

  ghost predicate AllSound(fields: seq<Field>) {
    forall i :: 0 <= i < |fields| ==> Sound(fields[i])
  }

  lemma {:induction false} DoubledWhole(text: string)
    ensures Whole(Doubled(text, '}') + "}", true, true)
  {
    var s := Doubled(text, '}') + "}";
    if text != [] {
      DoubledWhole(text[1..]);
      var rest := Doubled(text[1..], '}') + "}";
      if text[0] == '}' {
        assert s[2..] == rest;
      } else {
        assert s[1..] == rest;
      }
    }
  }

  lemma {:induction false} OpenTextWhole(text: string)
    requires '}' !in text
    ensures Whole(text + "}", true, true)
  {
    if text != [] {
      assert (text + "}")[1..] == text[1..] + "}";
      OpenTextWhole(text[1..]);
    }
  }

  lemma FieldWhole(key: string, raw: string)
    requires CleanKey(key) && Whole(raw, false, true)
    ensures Sound(Field(key, raw))
  {
    var lead := key + "=";
    assert forall c :: c in lead ==> c in key || c == '=';
    PlainThenWhole(lead, raw, true);
  }

  lemma BracedWhole(body: string)
    requires Whole(body + "}", true, true)
    ensures Whole("{" + body + "}", false, true)
  {
    var s := "{" + body + "}";
    assert s[1..] == body + "}";
    assert s[|s| - 1] == '}';
    assert s[1..][|body|] == '}';
  }

  /** Every formatted value makes a sound field, whatever it contains. */
  lemma FormattedSound(key: string, value: Option<string>, mssqlPython: bool)
    requires CleanKey(key)
    ensures Sound(Field(key, FormatValue(value, mssqlPython)))
  {
    var text := TextOf(value);
    if mssqlPython && !NeedsBraces(text) {
      PlainWhole(text, true);
    } else {
      DoubledWhole(text);
      BracedWhole(Doubled(text, '}'));
    }
    FieldWhole(key, FormatValue(value, mssqlPython));
  }

  // --------------------------------------------------------------- round trip

  function StrippedTexts(texts: seq<string>): (r: seq<string>)
    ensures |r| == |texts|
    ensures forall i :: 0 <= i < |r| ==> r[i] == Strip(texts[i])
  {
    seq(|texts|, i requires 0 <= i < |texts| => Strip(texts[i]))
  }

  lemma SpaceAround(s: string, left: string, t: string, right: string, k: nat)
    requires s == left + t + right && AllSpace(left) && AllSpace(right)
    requires k < |s| && !IsSpace(s[0]) && !IsSpace(s[k])
    ensures left == [] && k < |t| && t == s[..|t|]
  {
  }

  lemma KeySurvives(f: Field)
    requires CleanKey(f.key)
    ensures var t := Strip(FieldText(f));
            && t != "" && KeyEnd(t) == Some(|f.key|) && t[..|f.key|] == f.key
            && (Stripped(FieldText(f)) ==> t == FieldText(f))
  {
    var s := FieldText(f);
    var t := Strip(s);
    var left, right := StripDrops(s);
    assert s[0] == f.key[0] && s[|f.key|] == '=';
    SpaceAround(s, left, t, right, |f.key|);
    assert t == s[..|t|];
    assert t[..|f.key|] == f.key && t[|f.key|] == '=';
    KeyEndIs(t, |f.key|);
    if Stripped(s) {
      StripFixed(s);
    }
  }

  /** Joining sound fields and splitting gives back their texts, stripped. */
  lemma {:induction false} PartsOfFields(fields: seq<Field>)
    requires AllSound(fields)
    ensures Parts(Join(FieldTexts(fields), ";")) == StrippedTexts(FieldTexts(fields))
  {
    hide Strip, Cut, Whole, CleanKey, FieldText;
    var texts := FieldTexts(fields);
    if fields == [] {
      PartsOfNothing();
    } else {
      var p := texts[0];
      KeySurvives(fields[0]);
      assert texts[1..] == FieldTexts(fields[1..]);
      if |fields| == 1 {
        WholeIsCut(p, false, true);
        assert p[..|p|] == p;
        assert StrippedTexts(texts) == [Strip(p)];
      } else {
        var rest := Join(texts[1..], ";");
        PartsOfFields(fields[1..]);
        WholeWithoutMore(p, false);
        CutAfterWhole(p, false, rest);
        var s := p + ";" + rest;
        assert s[..|p|] == p && s[|p| + 1..] == rest;
        assert StrippedTexts(texts) == [Strip(p)] + StrippedTexts(texts[1..]);
      }
    }
  }

  lemma PartsOfNothing()
    ensures Parts("") == []
  {
  }

  /** A setting before formatting. */
  datatype Setting = Setting(key: string, value: Option<string>)

  function Formatted(settings: seq<Setting>, mssqlPython: bool): (r: seq<Field>)
    ensures |r| == |settings|
    ensures forall i :: 0 <= i < |r| ==>
              r[i] == Field(settings[i].key, FormatValue(settings[i].value, mssqlPython))
  {
    seq(|settings|, i requires 0 <= i < |settings| =>
      Field(settings[i].key, FormatValue(settings[i].value, mssqlPython)))
  }

  /** The value keeps its end: only the mssql-python form writes values bare, and the splitter
      strips a bare value that ends in whitespace other than a space. */
  predicate KeepsItsEnd(value: Option<string>, mssqlPython: bool) {
    var text := TextOf(value);
    !mssqlPython || NeedsBraces(text) || text == "" || !IsSpace(text[|text| - 1])
  }

  lemma KeepsItsEndMeaning(s: Setting, mssqlPython: bool)
    requires CleanKey(s.key)
    ensures Stripped(FieldText(Field(s.key, FormatValue(s.value, mssqlPython))))
            <==> KeepsItsEnd(s.value, mssqlPython)
  {
  }

  /** Building and splitting round-trips exactly when every value keeps its end. */
  lemma BuildSplitRoundTrip(settings: seq<Setting>, mssqlPython: bool)
    requires forall i :: 0 <= i < |settings| ==> CleanKey(settings[i].key)
    ensures var texts := FieldTexts(Formatted(settings, mssqlPython));
            Parts(Join(texts, ";")) == texts
            <==> forall i :: 0 <= i < |settings| ==> KeepsItsEnd(settings[i].value, mssqlPython)
  {
    hide CleanKey, KeepsItsEnd, Stripped, Strip, FormatValue, FieldText;
    var fields := Formatted(settings, mssqlPython);
    var texts := FieldTexts(fields);
    forall i | 0 <= i < |settings|
      ensures Sound(fields[i])
      ensures Stripped(texts[i]) <==> KeepsItsEnd(settings[i].value, mssqlPython)
      ensures Strip(texts[i]) == texts[i] <==> Stripped(texts[i])
    {
      FormattedSound(settings[i].key, settings[i].value, mssqlPython);
      KeepsItsEndMeaning(settings[i], mssqlPython);
      StripIdempotent(texts[i]);
      if Stripped(texts[i]) {
        StripFixed(texts[i]);
      }
    }
    PartsOfFields(fields);
    var stripped := StrippedTexts(texts);
    if stripped == texts {
      forall i | 0 <= i < |settings| ensures KeepsItsEnd(settings[i].value, mssqlPython) {
        assert stripped[i] == texts[i];
      }
    }
  }

  /** Read a part back: its key, and its value with braces undone. */
  function ReadPart(part: string): Option<(string, string)> {
    var e := KeyEnd(part);
    if e.None? then None
    else
      var raw := part[e.value + 1..];
      if raw == "" || raw[0] != '{' then Some((part[..e.value], raw))
      else if |raw| < 2 then None
      else
        var body := Undoubled(raw[1..|raw| - 1], '}');
        if body.None? then None else Some((part[..e.value], body.value))
  }

  /** Reading a formatted part gives the original text, runs of braces and semicolons included. */
  lemma ReadFormatted(key: string, value: Option<string>, mssqlPython: bool)
    requires CleanKey(key)
    ensures ReadPart(FieldText(Field(key, FormatValue(value, mssqlPython)))) == Some((key, TextOf(value)))
  {
    var text, raw := TextOf(value), FormatValue(value, mssqlPython);
    var part := key + "=" + raw;
    assert part[..|key|] == key && part[|key|] == '=';
    KeyEndIs(part, |key|);
    assert part[|key| + 1..] == raw;
    if mssqlPython && !NeedsBraces(text) {
      assert text != "" ==> text[0] in text;
    } else {
      assert raw[1..|raw| - 1] == Doubled(text, '}');
      UndoubledDoubled(text, '}');
    }
  }

  // ------------------------------------------------------------------ logging

  /** A field as it appears in the log. */
  function Shown(f: Field): string {
    if IsSensitive(f.key) then f.key + MASK else Strip(FieldText(f))
  }

  function ShownAll(fields: seq<Field>): (r: seq<string>)
    ensures |r| == |fields|
    ensures forall i :: 0 <= i < |r| ==> r[i] == Shown(fields[i])
  {
    seq(|fields|, i requires 0 <= i < |fields| => Shown(fields[i]))
  }

  lemma RedactedFields(fields: seq<Field>)
    requires AllSound(fields)
    ensures RedactedAll(StrippedTexts(FieldTexts(fields))) == ShownAll(fields)
  {
    hide Strip, Whole, IsSensitive, Stripped;
    var r := RedactedAll(StrippedTexts(FieldTexts(fields)));
    forall i | 0 <= i < |fields| ensures r[i] == Shown(fields[i]) {
      KeySurvives(fields[i]);
      StripFixed(fields[i].key);
    }
  }

  /** The logged form of a string of sound fields: sensitive keys keep only their name. */
  lemma SanitizedFields(fields: seq<Field>)
    requires AllSound(fields)
    ensures Sanitized(Join(FieldTexts(fields), ";")) == Join(ShownAll(fields), ";")
  {
    hide Join, Strip, Whole, IsSensitive, Stripped, Parts;
    PartsOfFields(fields);
    RedactedFields(fields);
  }

  /** Same keys, and the same raw text wherever the key is not sensitive. */
  predicate SameButSecrets(x: seq<Field>, y: seq<Field>) {
    && |x| == |y|
    && forall i :: 0 <= i < |x| ==> x[i].key == y[i].key && (IsSensitive(x[i].key) || x[i].raw == y[i].raw)
  }

  /** Values of sensitive keys have no influence on the log. */
  lemma SecretsAreInvisible(x: seq<Field>, y: seq<Field>)
    requires AllSound(x) && AllSound(y)
    requires SameButSecrets(x, y)
    ensures Sanitized(Join(FieldTexts(x), ";")) == Sanitized(Join(FieldTexts(y), ";"))
  {
    hide Sanitized, Join, Strip, IsSensitive;
    SanitizedFields(x);
    SanitizedFields(y);
    assert ShownAll(x) == ShownAll(y);
  }

  // ----------------------------------------------------------------- building

  datatype Result<T> = Ok(value: T) | Err(message: string)

  /** The credential fields the builders read; `authentication` is the normalised label. */
  datatype Credentials = Credentials(
    driver: Option<string>,
    host: string,
    port: Option<nat>,
    database: string,
    authentication: string,
    windowsLogin: bool,
    uid: Option<string>,
    pwd: Option<string>,
    clientId: Option<string>,
    clientSecret: Option<string>,
    encrypt: bool,
    trustCert: bool,
    traceFlag: bool)

  predicate Truthy(value: Option<string>) {
    value.Some? && value.value != ""
  }

  /** `is_active_directory_authentication`. */
  predicate IsActiveDirectory(authentication: string) {
    "activedirectory" <= NormalizeKey(authentication)
  }

  /** A label of one word is an ActiveDirectory mode exactly when it begins so, in any case. */
  lemma ActiveDirectoryIff(authentication: string)
    requires '_' !in authentication && ' ' !in authentication
    ensures IsActiveDirectory(authentication)
            <==> |authentication| >= 15 && Lower(authentication[..15]) == "activedirectory"
  {
    WordFolded(authentication);
    assert |"activedirectory"| == 15;
    if |authentication| >= 15 {
      assert Lower(authentication)[..15] == Lower(authentication[..15]);
    }
  }

  /** `build_server_arg`. */
  function ServerArg(c: Credentials): string {
    var host := Strip(c.host);
    if '\\' in host then host
    else if c.port.Some? && c.port.value != 0 then host + "," + Digits(c.port.value) else host
  }

  /** The server token: the trimmed host, and the port behind a comma unless there is none, it is zero, or the
      host names an instance. */
  lemma ServerArgMeaning(c: Credentials)
    ensures var host, arg := Strip(c.host), ServerArg(c);
            if '\\' in host || c.port.None? || c.port.value == 0 then arg == host
            else
              var port := arg[|host| + 1..];
              && arg == host + "," + port && |port| > 0 && port[0] != '0'
              && (forall i :: 0 <= i < |port| ==> '0' <= port[i] <= '9') && NumberOf(port) == c.port.value
  {
    if c.port.Some? {
      var host := Strip(c.host);
      DigitsReadBack(c.port.value);
      assert (host + "," + Digits(c.port.value))[|host| + 1..] == Digits(c.port.value);
    }
  }

  function YesNo(b: bool): string {
    if b then "Yes" else "No"
  }

  const APP_NAME := "dbt-sqlserver/1.12.0rc3"

  /** The authentication fields, branch by branch. */
  function AuthFields(c: Credentials, mssqlPython: bool): Result<seq<Field>> {
    var auth := c.authentication;
    var uid, pwd := Field("UID", FormatValue(c.uid, mssqlPython)), Field("PWD", FormatValue(c.pwd, mssqlPython));
    if IsActiveDirectory(auth) && auth != "ActiveDirectoryAccessToken" then
      var head := [Field("Authentication", auth)];
      if auth == "ActiveDirectoryPassword" then Ok(head + [uid, pwd])
      else if auth == "ActiveDirectoryServicePrincipal" then
        Ok(head + [Field("UID", FormatValue(c.clientId, mssqlPython)),
                   Field("PWD", FormatValue(c.clientSecret, mssqlPython))])
      else if auth == "ActiveDirectoryInteractive" then Ok(head + [uid])
      else if auth == "ActiveDirectoryMSI" then
        if Truthy(c.pwd) then Err("password is not valid with ActiveDirectoryMSI")
        else Ok(if Truthy(c.uid) then head + [uid] else head)
      else if auth == "ActiveDirectoryIntegrated" && Truthy(c.pwd) then
        Err("password is not valid with ActiveDirectoryIntegrated")
      else Ok(head)
    else if c.windowsLogin then
      if mssqlPython && (Truthy(c.uid) || Truthy(c.pwd)) then
        Err("user/password are not valid with windows_login/trusted_connection")
      else Ok([Field("Trusted_Connection", "yes")])
    else if auth == "sql" then Ok([uid, pwd])
    else Ok([])
  }

  function CommonFields(c: Credentials, mssqlPython: bool): Result<seq<Field>> {
    match AuthFields(c, mssqlPython)
    case Err(message) => Err(message)
    case Ok(auth) =>
      Ok([Field("SERVER", ServerArg(c)), Field("Database", c.database)]
         + auth
         + [Field("encrypt", YesNo(c.encrypt)), Field("TrustServerCertificate", YesNo(c.trustCert))]
         + (if mssqlPython then [] else [Field("APP", APP_NAME)]))
  }

  /** The authentication branches of the builder below. */
  method BuildAuthParts(c: Credentials, mssqlPython: bool) returns (r: Result<seq<string>>)
    ensures r == match AuthFields(c, mssqlPython)
                 case Ok(fields) => Ok(FieldTexts(fields))
                 case Err(message) => Err(message)
  {
    hide FormatValue, IsActiveDirectory, FieldText;
    var conStr: seq<string> := [];
    var auth := c.authentication;
    ghost var goal := AuthFields(c, mssqlPython);
    if IsActiveDirectory(auth) && auth != "ActiveDirectoryAccessToken" {
      conStr := conStr + [FieldText(Field("Authentication", auth))];
      if auth == "ActiveDirectoryPassword" {
        conStr := conStr + [FieldText(Field("UID", FormatValue(c.uid, mssqlPython)))];
        conStr := conStr + [FieldText(Field("PWD", FormatValue(c.pwd, mssqlPython)))];
      } else if auth == "ActiveDirectoryServicePrincipal" {
        conStr := conStr + [FieldText(Field("UID", FormatValue(c.clientId, mssqlPython)))];
        conStr := conStr + [FieldText(Field("PWD", FormatValue(c.clientSecret, mssqlPython)))];
      } else if auth == "ActiveDirectoryInteractive" {
        conStr := conStr + [FieldText(Field("UID", FormatValue(c.uid, mssqlPython)))];
      } else if auth == "ActiveDirectoryMSI" {
        if Truthy(c.pwd) {
          return Err("password is not valid with ActiveDirectoryMSI");
        }
        if Truthy(c.uid) {
          conStr := conStr + [FieldText(Field("UID", FormatValue(c.uid, mssqlPython)))];
        }
      } else if auth == "ActiveDirectoryIntegrated" {
        if Truthy(c.pwd) {
          return Err("password is not valid with ActiveDirectoryIntegrated");
        }
      }
    } else if c.windowsLogin {
      if mssqlPython && (Truthy(c.uid) || Truthy(c.pwd)) {
        return Err("user/password are not valid with windows_login/trusted_connection");
      }
      conStr := conStr + [FieldText(Field("Trusted_Connection", "yes"))];
    } else if auth == "sql" {
      conStr := conStr + [FieldText(Field("UID", FormatValue(c.uid, mssqlPython)))];
      conStr := conStr + [FieldText(Field("PWD", FormatValue(c.pwd, mssqlPython)))];
    }
    assert conStr == FieldTexts(goal.value);
    return Ok(conStr);
  }

  /** `build_common_connection_string_parts`. */
  method BuildCommonParts(c: Credentials, mssqlPython: bool) returns (r: Result<seq<string>>)
    ensures r == match CommonFields(c, mssqlPython)
                 case Ok(fields) => Ok(FieldTexts(fields))
                 case Err(message) => Err(message)
  {
    hide AuthFields, FieldText, ServerArg;
    var conStr := [FieldText(Field("SERVER", ServerArg(c)))];
    conStr := conStr + [FieldText(Field("Database", c.database))];
    var auth := BuildAuthParts(c, mssqlPython);
    if auth.Err? {
      return Err(auth.message);
    }
    conStr := conStr + auth.value;
    conStr := conStr + [FieldText(Field("encrypt", YesNo(c.encrypt)))];
    conStr := conStr + [FieldText(Field("TrustServerCertificate", YesNo(c.trustCert)))];
    if !mssqlPython {
      conStr := conStr + [FieldText(Field("APP", APP_NAME))];
    }
    assert conStr == FieldTexts(CommonFields(c, mssqlPython).value);
    return Ok(conStr);
  }

  /** All fields of the pyodbc string. */
  function PyodbcFields(c: Credentials): Result<seq<Field>> {
    match CommonFields(c, false)
    case Err(message) => Err(message)
    case Ok(fields) =>
      Ok([Field("DRIVER", FormatDriver(c.driver))] + fields
         + [Field("Pooling", "true"),
            Field("SQL_ATTR_TRACE", if c.traceFlag then "SQL_OPT_TRACE_ON" else "SQL_OPT_TRACE_OFF"),
            Field("ConnectRetryCount", "3"), Field("ConnectRetryInterval", "10")])
  }

  /** The profile texts that reach the string unformatted contain no `;` and no brace. */
  predicate PlainProfile(c: Credentials) {
    && Plain(c.host) && Plain(c.database) && Plain(c.authentication)
    && (var d := TextOf(c.driver);
        '}' !in d || (|d| >= 2 && d[0] == '{' && '}' !in d[1..|d| - 1] && d[|d| - 1] == '}'))
  }

  lemma DigitsPlain(n: nat)
    ensures Plain(Digits(n))
  {
  }

  lemma ServerArgPlain(c: Credentials)
    requires Plain(c.host)
    ensures Plain(ServerArg(c))
  {
    var left, right := StripDrops(c.host);
    assert Plain(Strip(c.host));
    if c.port.Some? {
      DigitsPlain(c.port.value);
    }
  }

  lemma PlainSound(key: string, raw: string)
    requires CleanKey(key) && Plain(raw)
    ensures Sound(Field(key, raw))
  {
    PlainWhole(raw, true);
    FieldWhole(key, raw);
  }

  lemma DriverSound(c: Credentials)
    requires PlainProfile(c)
    ensures Sound(Field("DRIVER", FormatDriver(c.driver)))
  {
    var d := TextOf(c.driver);
    var raw := FormatDriver(c.driver);
    var body := if raw == d then d[1..|d| - 1] else d;
    assert raw == "{" + body + "}";
    OpenTextWhole(body);
    BracedWhole(body);
    CommonKeys();
    FieldWhole("DRIVER", raw);
  }

  /** A key of letters and underscores, as all literal keys are. */
  predicate WordKey(k: string) {
    k != "" && forall i :: 0 <= i < |k| ==> KeyChar(k[i]) && k[i] != ' '
  }

  lemma WordKeyClean(k: string)
    requires WordKey(k)
    ensures CleanKey(k)
  {
  }

  lemma AuthKeys()
    ensures CleanKey("UID") && CleanKey("PWD") && CleanKey("Authentication") && CleanKey("Trusted_Connection")
    ensures Plain("yes")
  {
    hide CleanKey;
    WordKeyClean("UID");
    WordKeyClean("PWD");
    WordKeyClean("Authentication");
    WordKeyClean("Trusted_Connection");
  }

  lemma CommonKeys()
    ensures CleanKey("SERVER") && CleanKey("Database") && CleanKey("encrypt")
    ensures CleanKey("TrustServerCertificate") && CleanKey("APP") && CleanKey("DRIVER")
  {
    hide CleanKey;
    WordKeyClean("SERVER");
    WordKeyClean("Database");
    WordKeyClean("encrypt");
    WordKeyClean("TrustServerCertificate");
    WordKeyClean("APP");
    WordKeyClean("DRIVER");
  }

  lemma PyodbcKeys()
    ensures CleanKey("Pooling") && CleanKey("SQL_ATTR_TRACE")
    ensures CleanKey("ConnectRetryCount") && CleanKey("ConnectRetryInterval")
  {
    hide CleanKey;
    WordKeyClean("Pooling");
    WordKeyClean("SQL_ATTR_TRACE");
    WordKeyClean("ConnectRetryCount");
    WordKeyClean("ConnectRetryInterval");
  }

  lemma CommonValues()
    ensures Plain("Yes") && Plain("No") && Plain(APP_NAME)
  {
  }

  lemma PyodbcValues()
    ensures Plain("true") && Plain("3") && Plain("10")
    ensures Plain("SQL_OPT_TRACE_ON") && Plain("SQL_OPT_TRACE_OFF")
  {
  }

  lemma AuthFieldsSound(c: Credentials, mssqlPython: bool)
    requires PlainProfile(c) && AuthFields(c, mssqlPython).Ok?
    ensures AllSound(AuthFields(c, mssqlPython).value)
  {
    hide Sound, FormatValue, IsActiveDirectory, Plain, CleanKey, Truthy;
    AuthKeys();
    FormattedSound("UID", c.uid, mssqlPython);
    FormattedSound("PWD", c.pwd, mssqlPython);
    FormattedSound("UID", c.clientId, mssqlPython);
    FormattedSound("PWD", c.clientSecret, mssqlPython);
    PlainSound("Authentication", c.authentication);
    PlainSound("Trusted_Connection", "yes");
  }

  lemma CommonFieldsSound(c: Credentials, mssqlPython: bool)
    requires PlainProfile(c) && CommonFields(c, mssqlPython).Ok?
    ensures AllSound(CommonFields(c, mssqlPython).value)
  {
    hide Sound, AuthFields, Plain, ServerArg, CleanKey;
    AuthFieldsSound(c, mssqlPython);
    ServerArgPlain(c);
    CommonKeys();
    CommonValues();
    PlainSound("SERVER", ServerArg(c));
    PlainSound("Database", c.database);
    PlainSound("encrypt", YesNo(c.encrypt));
    PlainSound("TrustServerCertificate", YesNo(c.trustCert));
    PlainSound("APP", APP_NAME);
  }

  lemma PyodbcFieldsSound(c: Credentials)
    requires PlainProfile(c) && PyodbcFields(c).Ok?
    ensures AllSound(PyodbcFields(c).value)
  {
    hide Sound, CommonFields, Plain, FormatDriver, CleanKey;
    CommonFieldsSound(c, false);
    DriverSound(c);
    PyodbcKeys();
    PyodbcValues();
    PlainSound("Pooling", "true");
    PlainSound("SQL_ATTR_TRACE", if c.traceFlag then "SQL_OPT_TRACE_ON" else "SQL_OPT_TRACE_OFF");
    PlainSound("ConnectRetryCount", "3");
    PlainSound("ConnectRetryInterval", "10");
  }

  lemma UidPwdSensitive()
    ensures IsSensitive("UID") && IsSensitive("PWD")
  {
    StripFixed("UID");
    StripFixed("PWD");
    assert NormalizeKey("UID") == "uid" by {
      assert "UID"[1..] == "ID" && "ID"[1..] == "D" && "D"[1..] == "";
    }
    assert NormalizeKey("PWD") == "pwd" by {
      assert "PWD"[1..] == "WD" && "WD"[1..] == "D" && "D"[1..] == "";
    }
  }

  // ------------------------------------------------- the string around its secrets

  /** The user the mode sends, if any. */
  function UserFor(c: Credentials): Option<Option<string>> {
    if IsActiveDirectory(c.authentication) && c.authentication != "ActiveDirectoryAccessToken" then
      if c.authentication == "ActiveDirectoryServicePrincipal" then Some(c.clientId)
      else if c.authentication == "ActiveDirectoryPassword" || c.authentication == "ActiveDirectoryInteractive"
              || (c.authentication == "ActiveDirectoryMSI" && Truthy(c.uid)) then Some(c.uid)
      else None
    else if !c.windowsLogin && c.authentication == "sql" then Some(c.uid)
    else None
  }

  /** The secret the mode sends, if any. */
  function SecretFor(c: Credentials): Option<Option<string>> {
    if IsActiveDirectory(c.authentication) && c.authentication != "ActiveDirectoryAccessToken" then
      if c.authentication == "ActiveDirectoryServicePrincipal" then Some(c.clientSecret)
      else if c.authentication == "ActiveDirectoryPassword" then Some(c.pwd)
      else None
    else if !c.windowsLogin && c.authentication == "sql" then Some(c.pwd)
    else None
  }

  /** The mode sends credentials; a user always comes first. */
  predicate Sends(c: Credentials) {
    UserFor(c).Some?
  }

  /** All fields of the string for one backend. */
  function AllFields(c: Credentials, mssqlPython: bool): Result<seq<Field>> {
    if mssqlPython then CommonFields(c, true) else PyodbcFields(c)
  }

  function AuthHead(c: Credentials): seq<Field> {
    if IsActiveDirectory(c.authentication) && c.authentication != "ActiveDirectoryAccessToken"
    then [Field("Authentication", c.authentication)] else []
  }

  /** The fields in front of the credentials. */
  function FrontFields(c: Credentials, mssqlPython: bool): seq<Field> {
    (if mssqlPython then [] else [Field("DRIVER", FormatDriver(c.driver))])
    + [Field("SERVER", ServerArg(c)), Field("Database", c.database)]
    + AuthHead(c)
  }

  function SecretFields(user: Option<string>, secret: Option<Option<string>>, mssqlPython: bool): seq<Field> {
    [Field("UID", FormatValue(user, mssqlPython))]
    + (if secret.None? then [] else [Field("PWD", FormatValue(secret.value, mssqlPython))])
  }

  /** The fields behind the credentials. */
  function BackFields(c: Credentials, mssqlPython: bool): seq<Field> {
    [Field("encrypt", YesNo(c.encrypt)), Field("TrustServerCertificate", YesNo(c.trustCert))]
    + (if mssqlPython then []
       else [Field("APP", APP_NAME), Field("Pooling", "true"),
             Field("SQL_ATTR_TRACE", if c.traceFlag then "SQL_OPT_TRACE_ON" else "SQL_OPT_TRACE_OFF"),
             Field("ConnectRetryCount", "3"), Field("ConnectRetryInterval", "10")])
  }

  lemma AuthSplit(c: Credentials, mssqlPython: bool)
    requires AuthFields(c, mssqlPython).Ok? && Sends(c)
    ensures AuthFields(c, mssqlPython).value
         == AuthHead(c) + SecretFields(UserFor(c).value, SecretFor(c), mssqlPython)
  {
    hide FormatValue, IsActiveDirectory, Truthy;
  }

  /** Where credentials are sent, the string is a front, the credentials and a back. */
  lemma FieldsSplit(c: Credentials, mssqlPython: bool)
    requires AllFields(c, mssqlPython).Ok? && Sends(c)
    ensures AllFields(c, mssqlPython).value
         == FrontFields(c, mssqlPython) + SecretFields(UserFor(c).value, SecretFor(c), mssqlPython)
            + BackFields(c, mssqlPython)
  {
    hide AuthFields, FormatDriver, ServerArg, IsActiveDirectory, UserFor, SecretFor, SecretFields;
    AuthSplit(c, mssqlPython);
  }

  /** The builders raise exactly for a password with a managed identity or integrated login, and, on
      mssql-python, for credentials beside a Windows login. */
  lemma BuilderFailsIff(c: Credentials, mssqlPython: bool)
    ensures AllFields(c, mssqlPython).Err? <==>
              if IsActiveDirectory(c.authentication) && c.authentication != "ActiveDirectoryAccessToken" then
                c.authentication in ["ActiveDirectoryMSI", "ActiveDirectoryIntegrated"] && Truthy(c.pwd)
              else c.windowsLogin && mssqlPython && (Truthy(c.uid) || Truthy(c.pwd))
  {
    hide FormatValue, FormatDriver, ServerArg, IsActiveDirectory, Truthy;
    assert |"ActiveDirectoryMSI"| == 18 && |"ActiveDirectoryIntegrated"| == 25;
    assert |"ActiveDirectoryPassword"| == 23 && |"ActiveDirectoryServicePrincipal"| == 31;
    assert |"ActiveDirectoryInteractive"| == 26;
  }
}
