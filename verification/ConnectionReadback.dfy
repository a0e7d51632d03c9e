/** What a driver reads out of an assembled connection string: the user and the secret that the
    authentication mode calls for, and no others. */
module ConnectionReadback {
  import opened Text
  import opened Quoting
  import opened ConnectionString
  import opened ConnectionPrefix
  import opened ConnectionBuilder
  import opened CredentialLogging

  /** The value of the first part with a given key. */
  function ValueIn(parts: seq<string>, key: string): Option<string> {
    if parts == [] then None
    else
      var read := ReadPart(parts[0]);
      if read.Some? && read.value.0 == key then Some(read.value.1) else ValueIn(parts[1..], key)
  }

  /** The raw text of the first field with a given key. */
  function RawOf(fields: seq<Field>, key: string): Option<string> {
    if fields == [] then None
    else if fields[0].key == key then Some(fields[0].raw)
    else RawOf(fields[1..], key)
  }

  lemma {:induction false} RawOfConcat(x: seq<Field>, y: seq<Field>, key: string)
    ensures RawOf(x + y, key) == if RawOf(x, key).Some? then RawOf(x, key) else RawOf(y, key)
  {
    if x == [] {
      assert x + y == y;
    } else {
      assert (x + y)[1..] == x[1..] + y;
      RawOfConcat(x[1..], y, key);
    }
  }

  /** A stripped field text still has its own key, if it can be read at all. */
  lemma ReadsOwnKey(f: Field)
    requires CleanKey(f.key)
    ensures var read := ReadPart(Strip(FieldText(f)));
            read.Some? ==> read.value.0 == f.key
  {
    hide CleanKey, FieldText, Strip;
    KeySurvives(f);
  }

  lemma {:induction false} NoValueOfFields(fields: seq<Field>, key: string)
    requires AllSound(fields) && RawOf(fields, key).None?
    ensures ValueIn(StrippedTexts(FieldTexts(fields)), key).None?
  {
    hide ReadPart, FieldText, Strip, Whole, CleanKey;
    if fields != [] {
      StrippedTail(fields);
      ReadsOwnKey(fields[0]);
      NoValueOfFields(fields[1..], key);
    }
  }

  lemma StrippedTail(fields: seq<Field>)
    requires fields != []
    ensures StrippedTexts(FieldTexts(fields))[0] == Strip(FieldText(fields[0]))
    ensures StrippedTexts(FieldTexts(fields))[1..] == StrippedTexts(FieldTexts(fields[1..]))
  {
    hide FieldText, Strip;
  }

  lemma {:induction false} NoneOfThese(fields: seq<Field>, key: string)
    requires forall i :: 0 <= i < |fields| ==> fields[i].key != key
    ensures RawOf(fields, key).None?
  {
    if fields != [] {
      NoneOfThese(fields[1..], key);
    }
  }

  /** What reading `key` should give for a value that was sent, or for none. */
  predicate Reads(parts: seq<string>, key: string, value: Option<Option<string>>) {
    ValueIn(parts, key) == if value.None? then None else Some(TextOf(value.value))
  }

  // ------------------------------------------------------------------ the exact condition

  /** Both the user and the secret of the mode are read back, and no others. */
  predicate ReadsBack(c: Credentials, mssqlPython: bool) {
    AllFields(c, mssqlPython).Ok? &&
    var parts := Parts(Assembled(AllFields(c, mssqlPython).value));
    Reads(parts, "UID", UserFor(c)) && Reads(parts, "PWD", SecretFor(c))
  }

  /** The values that are sent keep their end, as all braced ones do. */
  predicate KeepsEnds(c: Credentials, mssqlPython: bool) {
    && (UserFor(c).Some? ==> KeepsItsEnd(UserFor(c).value, mssqlPython))
    && (SecretFor(c).Some? ==> KeepsItsEnd(SecretFor(c).value, mssqlPython))
  }

  /** What a caller can check from driver, host, database and mode alone: the text in front of the
      credentials closes its braces and holds no part named like them. */
  predicate Clear(c: Credentials, mssqlPython: bool) {
    var f := FrontOf(c, mssqlPython);
    !f.inBraces && ValueIn(f.parts, "UID").None? && ValueIn(f.parts, "PWD").None?
  }

  lemma {:induction false} ValueInConcat(x: seq<string>, y: seq<string>, key: string)
    ensures ValueIn(x + y, key) == if ValueIn(x, key).Some? then ValueIn(x, key) else ValueIn(y, key)
  {
    hide ReadPart;
    if x == [] {
      assert x + y == y;
    } else {
      assert (x + y)[1..] == x[1..] + y;
      ValueInConcat(x[1..], y, key);
    }
  }

  /** A formatted field, stripped by the splitter, gives its value back exactly when that keeps its
      end. */
  lemma StrippedReads(key: string, value: Option<string>, mssqlPython: bool)
    requires CleanKey(key)
    ensures var read := ReadPart(Strip(FieldText(Field(key, FormatValue(value, mssqlPython)))));
            && read.Some? && read.value.0 == key
            && (read.value.1 == TextOf(value) <==> KeepsItsEnd(value, mssqlPython))
  {
    hide CleanKey, FormatValue, Strip, FieldText, KeepsItsEnd;
    var f := Field(key, FormatValue(value, mssqlPython));
    KeepsItsEndMeaning(Setting(key, value), mssqlPython);
    if KeepsItsEnd(value, mssqlPython) {
      StripFixed(FieldText(f));
      ReadFormatted(key, value, mssqlPython);
    } else {
      BareStripped(key, value, mssqlPython);
    }
  }

  lemma BareStripped(key: string, value: Option<string>, mssqlPython: bool)
    requires CleanKey(key) && !KeepsItsEnd(value, mssqlPython)
    ensures var read := ReadPart(Strip(FieldText(Field(key, FormatValue(value, mssqlPython)))));
            read.Some? && read.value.0 == key && |read.value.1| < |TextOf(value)|
  {
    hide CleanKey;
    PlainReads(key, TextOf(value));
    var text := TextOf(value);
    assert |RStrip(text)| < |text|;
  }

  lemma {:induction false} RStripAcross(lead: string, raw: string)
    requires lead != "" && !IsSpace(lead[|lead| - 1])
    ensures RStrip(lead + raw) == lead + RStrip(raw)
  {
    if raw == "" {
      assert lead + raw == lead;
    } else if IsSpace(raw[|raw| - 1]) {
      var s := lead + raw;
      assert s[..|s| - 1] == lead + raw[..|raw| - 1];
      RStripAcross(lead, raw[..|raw| - 1]);
    }
  }

  /** A bare value is read without the blanks at its end. */
  lemma PlainReads(key: string, raw: string)
    requires CleanKey(key) && Plain(raw)
    ensures ReadPart(Strip(FieldText(Field(key, raw)))) == Some((key, RStrip(raw)))
  {
    var lead := key + "=";
    RStripAcross(lead, raw);
    RStripDrops(raw);
    var t := lead + RStrip(raw);
    assert (lead + raw)[0] == key[0];
    assert LStrip(lead + raw) == lead + raw;
    assert t[..|key|] == key && t[|key|] == '=';
    KeyEndIs(t, |key|);
    assert t[|key| + 1..] == RStrip(raw);
    assert RStrip(raw) != "" ==> RStrip(raw)[0] == raw[0];
  }

  /** Looking the credentials up behind a clear front. */
  lemma TailLookup(c: Credentials, mssqlPython: bool)
    requires Sends(c)
    ensures var texts := StrippedTexts(FieldTexts(TailFields(c, mssqlPython)));
            && (Reads(texts, "UID", UserFor(c)) <==> KeepsItsEnd(UserFor(c).value, mssqlPython))
            && (Reads(texts, "PWD", SecretFor(c))
                <==> (SecretFor(c).Some? ==> KeepsItsEnd(SecretFor(c).value, mssqlPython)))
  {
    hide UserFor, SecretFor, BackFields, FormatValue, KeepsItsEnd, ReadPart, Strip, FieldText, CleanKey, ValueIn;
    AuthKeys();
    var user, secret := Field("UID", FormatValue(UserFor(c).value, mssqlPython)), SecretFor(c);
    var back := StrippedTexts(FieldTexts(BackFields(c, mssqlPython)));
    StrippedReads("UID", UserFor(c).value, mssqlPython);
    BackHasNone(c, mssqlPython);
    TwoNames();
    var rest := if secret.None? then back
                else [Strip(FieldText(Field("PWD", FormatValue(secret.value, mssqlPython))))] + back;
    assert StrippedTexts(FieldTexts(TailFields(c, mssqlPython))) == [Strip(FieldText(user))] + rest;
    ValueInCons(Strip(FieldText(user)), rest, "UID");
    ValueInCons(Strip(FieldText(user)), rest, "PWD");
    if secret.Some? {
      StrippedReads("PWD", secret.value, mssqlPython);
      ValueInCons(Strip(FieldText(Field("PWD", FormatValue(secret.value, mssqlPython)))), back, "PWD");
    }
  }

  lemma TwoNames()
    ensures "UID" != "PWD"
  {
    assert "UID"[0] == 'U' && "PWD"[0] == 'P';
  }

  lemma ValueInCons(part: string, rest: seq<string>, key: string)
    ensures ValueIn([part] + rest, key)
         == if ReadPart(part).Some? && ReadPart(part).value.0 == key then Some(ReadPart(part).value.1)
            else ValueIn(rest, key)
  {
    hide ReadPart;
    assert ([part] + rest)[1..] == rest;
  }

  lemma BackHasNone(c: Credentials, mssqlPython: bool)
    ensures ValueIn(StrippedTexts(FieldTexts(BackFields(c, mssqlPython))), "UID").None?
    ensures ValueIn(StrippedTexts(FieldTexts(BackFields(c, mssqlPython))), "PWD").None?
  {
    hide ReadPart, Strip, FieldText, ValueIn, Sound;
    BackSound(c, mssqlPython);
    assert "UID"[0] == 'U' && "PWD"[0] == 'P' && "APP"[0] == 'A';
    NoneOfThese(BackFields(c, mssqlPython), "UID");
    NoneOfThese(BackFields(c, mssqlPython), "PWD");
    NoValueOfFields(BackFields(c, mssqlPython), "UID");
    NoValueOfFields(BackFields(c, mssqlPython), "PWD");
  }

  /** Behind a clear front, exactly the values that keep their end are read back. */
  lemma ClearReads(c: Credentials, mssqlPython: bool)
    requires AllFields(c, mssqlPython).Ok? && Sends(c) && Clear(c, mssqlPython)
    ensures ReadsBack(c, mssqlPython) <==> KeepsEnds(c, mssqlPython)
  {
    hide AllFields, FrontOf, TailFields, UserFor, SecretFor, KeepsItsEnd, ValueIn, Parts, Assembled;
    ClosedParts(c, mssqlPython);
    TailLookup(c, mssqlPython);
    var texts := StrippedTexts(FieldTexts(TailFields(c, mssqlPython)));
    ValueInConcat(FrontOf(c, mssqlPython).parts, texts, "UID");
    ValueInConcat(FrontOf(c, mssqlPython).parts, texts, "PWD");
  }

  /** A text different from one that is given. */
  function OtherThan(v: Option<string>): (r: string)
    ensures r != "" && (v.Some? ==> r != v.value) && (r == ";" || r == ";;")
  {
    assert |";"| == 1 && |";;"| == 2;
    if v == Some(";") then ";;" else ";"
  }

  lemma BracedKeepsEnd(text: string, mssqlPython: bool)
    requires text == ";" || text == ";;"
    ensures KeepsItsEnd(Some(text), mssqlPython) && FormatValue(Some(text), mssqlPython) == Braced(text)
  {
    assert text[0] == ';';
  }

  /** The part an open front makes is no `UID` part with a value of one character. */
  lemma SwallowedIsNotUser(o: string)
    requires '{' in o
    ensures var read := ReadPart(o + ("UID=" + Braced(";")));
            read.Some? && read.value.0 == "UID" ==> read.value.1 != ";"
  {
    BracedForms(true);
    var piece := "UID=" + Braced(";");
    var part := o + piece;
    assert |piece| == 7 && piece[3] == '=';
    var e := KeyEnd(part);
    if ReadPart(part).Some? && ReadPart(part).value.0 == "UID" {
      assert e.value == 3;
      assert part[3] == '=';
      if |o| <= 3 {
        ShortFront(o, piece);
      } else {
        LongValue(part);
      }
    }
  }

  lemma ShortFront(o: string, piece: string)
    requires '{' in o && |o| <= 3 && |piece| == 7
    ensures (o + piece)[..3] != "UID"
  {
    var i :| 0 <= i < |o| && o[i] == '{';
    assert (o + piece)[..3][i] == '{';
    assert "UID"[0] == 'U' && "UID"[1] == 'I' && "UID"[2] == 'D';
  }

  lemma LongValue(part: string)
    requires |part| >= 11 && KeyEnd(part) == Some(3)
    ensures ReadPart(part).Some? ==> |ReadPart(part).value.1| > 1
  {
    var raw := part[4..];
    if raw[0] == '{' && ReadPart(part).Some? {
      var inner := raw[1..|raw| - 1];
      DoubledUndoubled(inner, '}');
      DoubledShort(ReadPart(part).value.1);
    }
  }

  lemma {:induction false} DoubledShort(text: string)
    ensures |Doubled(text, '}')| <= 2 * |text|
  {
    if text != [] {
      DoubledShort(text[1..]);
    }
  }

  /** Without a clear front some credentials are not read back. */
  lemma UnclearFails(c: Credentials, mssqlPython: bool)
    requires AllFields(c, mssqlPython).Ok? && Sends(c) && !Clear(c, mssqlPython)
    ensures exists d :: SameProfile(c, d, mssqlPython) && KeepsEnds(d, mssqlPython) && !ReadsBack(d, mssqlPython)
  {
    hide AllFields, UserFor, SecretFor, KeepsItsEnd, ValueIn, Parts, Assembled, SameProfile, With, Lead, Scan, FormatValue,
      FrontFields, BackFields, Braced, ReadsBack;
    var f := FrontOf(c, mssqlPython);
    var user, secret := OtherThan(ValueIn(f.parts, "UID")), OtherThan(ValueIn(f.parts, "PWD"));
    if f.inBraces && ValueIn(f.parts, "UID").None? {
      user := ";";
    }
    var d := With(c, user, secret);
    WithIsSame(c, user, secret, mssqlPython);
    SameShape(c, d, mssqlPython);
    SameLead(c, d, mssqlPython);
    BracedKeepsEnd(user, mssqlPython);
    BracedKeepsEnd(secret, mssqlPython);
    assert KeepsEnds(d, mssqlPython);
    assert FrontOf(d, mssqlPython) == f;
    if f.inBraces {
      OpenMisreads(d, mssqlPython, user);
    } else {
      ClaimedMisreads(d, mssqlPython);
    }
    assert !ReadsBack(d, mssqlPython);
  }

  lemma OpenMisreads(d: Credentials, mssqlPython: bool, user: string)
    requires AllFields(d, mssqlPython).Ok? && Sends(d) && FrontOf(d, mssqlPython).inBraces
    requires UserFor(d) == Some(Some(user)) && FormatValue(Some(user), mssqlPython) == Braced(user)
    requires ValueIn(FrontOf(d, mssqlPython).parts, "UID") != Some(user)
    requires ValueIn(FrontOf(d, mssqlPython).parts, "UID").None? ==> user == ";"
    ensures !ReadsBack(d, mssqlPython)
  {
    hide AllFields, FrontOf, UserFor, SecretFor, ValueIn, Parts, Assembled, FormatValue, RestFields, Braced, LStrip, ReadPart;
    var f := FrontOf(d, mssqlPython);
    OpenParts(d, mssqlPython);
    var part := LStrip(f.open) + ("UID=" + Braced(user));
    var rest := StrippedTexts(FieldTexts(RestFields(d, mssqlPython)));
    ValueInConcat(f.parts + [part], rest, "UID");
    ValueInConcat(f.parts, [part], "UID");
    ValueInCons(part, [], "UID");
    assert [part] + [] == [part];
    NoValueInNothing();
    RestHasNoUser(d, mssqlPython);
    if ValueIn(f.parts, "UID").None? {
      SwallowedIsNotUser(LStrip(f.open));
    }
  }

  lemma NoValueInNothing()
    ensures ValueIn([], "UID").None?
  {
  }

  lemma RestHasNoUser(c: Credentials, mssqlPython: bool)
    requires Sends(c)
    ensures ValueIn(StrippedTexts(FieldTexts(RestFields(c, mssqlPython))), "UID").None?
  {
    hide UserFor, SecretFor, FormatValue, BackFields, ReadPart, Strip, FieldText, ValueIn, Sound;
    TailSound(c, mssqlPython);
    SoundRest(TailFields(c, mssqlPython));
    NamesBehind(c, mssqlPython);
    NoneOfThese(RestFields(c, mssqlPython), "UID");
    NoValueOfFields(RestFields(c, mssqlPython), "UID");
  }

  lemma NamesBehind(c: Credentials, mssqlPython: bool)
    requires Sends(c)
    ensures forall i :: 0 <= i < |RestFields(c, mssqlPython)| ==> RestFields(c, mssqlPython)[i].key != "UID"
  {
    hide UserFor, SecretFor, FormatValue;
    TwoNames();
    assert "APP"[0] == 'A' && "UID"[0] == 'U';
    var back := BackFields(c, mssqlPython);
    forall i | 0 <= i < |back| ensures back[i].key != "UID" {
    }
    var rest := RestFields(c, mssqlPython);
    var k := |rest| - |back|;
    forall i | 0 <= i < |rest| ensures rest[i].key != "UID" {
      if i >= k {
        assert rest[i] == back[i - k];
      }
    }
  }

  lemma ClaimedMisreads(d: Credentials, mssqlPython: bool)
    requires AllFields(d, mssqlPython).Ok? && Sends(d) && !FrontOf(d, mssqlPython).inBraces
    requires var f := FrontOf(d, mssqlPython);
             || (ValueIn(f.parts, "UID").Some? && !Reads(f.parts, "UID", UserFor(d)))
             || (ValueIn(f.parts, "PWD").Some? && !Reads(f.parts, "PWD", SecretFor(d)))
    ensures !ReadsBack(d, mssqlPython)
  {
    hide AllFields, FrontOf, UserFor, SecretFor, ValueIn, Parts, Assembled, TailFields;
    ClosedParts(d, mssqlPython);
    var texts := StrippedTexts(FieldTexts(TailFields(d, mssqlPython)));
    ValueInConcat(FrontOf(d, mssqlPython).parts, texts, "UID");
    ValueInConcat(FrontOf(d, mssqlPython).parts, texts, "PWD");
  }

  /** For either backend and every mode that sends credentials: splitting the assembled string and undoing
      the braces gives back the user and the secret, for every choice of them that keeps its end, exactly
      when the text in front of them is clear; and then it gives back exactly those that keep their end. */
  lemma CredentialsReadBack(c: Credentials, mssqlPython: bool)
    requires AllFields(c, mssqlPython).Ok? && Sends(c)
    ensures (forall d :: SameProfile(c, d, mssqlPython) && KeepsEnds(d, mssqlPython) ==> ReadsBack(d, mssqlPython))
            <==> Clear(c, mssqlPython)
    ensures Clear(c, mssqlPython) ==> (ReadsBack(c, mssqlPython) <==> KeepsEnds(c, mssqlPython))
  {
    hide AllFields, UserFor, SecretFor, KeepsEnds, ReadsBack, SameProfile, Lead, Scan, ValueIn, FrontFields;
    if Clear(c, mssqlPython) {
      ClearReads(c, mssqlPython);
      forall d | SameProfile(c, d, mssqlPython) && KeepsEnds(d, mssqlPython) ensures ReadsBack(d, mssqlPython) {
        SameShape(c, d, mssqlPython);
        SameLead(c, d, mssqlPython);
        ClearReads(d, mssqlPython);
      }
    } else {
      UnclearFails(c, mssqlPython);
    }
  }

  // ------------------------------------------------------------------ plain profiles

  /** Sound fields in front leave nothing open. */
  lemma {:induction false} ScanOfSound(fields: seq<Field>)
    requires AllSound(fields) && fields != []
    ensures Scan(Assembled(fields) + ";", true) == Front(StrippedTexts(FieldTexts(fields)), "", false)
  {
    hide Scan, Whole, Strip, CleanKey, FieldText;
    var p := FieldText(fields[0]);
    KeySurvives(fields[0]);
    assert Segment(p) == [Strip(p)];
    StrippedTail(fields);
    var all := StrippedTexts(FieldTexts(fields));
    assert all == [all[0]] + all[1..];
    if |fields| == 1 {
      ScanWhole(p, "");
      ScanNothing();
      assert Assembled(fields) + ";" == p + (";" + "");
      assert StrippedTexts(FieldTexts(fields[1..])) == [];
    } else {
      var q := Assembled(fields[1..]) + ";";
      ScanOfSound(fields[1..]);
      ScanWhole(p, q);
      assert FieldTexts(fields)[1..] == FieldTexts(fields[1..]);
      assert Assembled(fields) + ";" == p + (";" + q);
    }
  }

  lemma ScanNothing()
    ensures Scan("", true) == Front([], "", false)
  {
  }

  /** A profile whose bare texts hold no separator is clear, so it hides and reads back its credentials. */
  lemma PlainProfileIsClear(c: Credentials, mssqlPython: bool)
    requires PlainProfile(c)
    ensures Clear(c, mssqlPython) && Hides(c, mssqlPython) && SilentClear(c, mssqlPython)
  {
    hide Sound, Plain, ServerArg, FormatDriver, CleanKey, Scan, ValueIn, FieldText, PlainProfile, SilentTail, NamesNone;
    FrontSound(c, mssqlPython);
    ScanOfSound(FrontFields(c, mssqlPython));
    ScanClosedSame(Lead(c, mssqlPython));
    assert "UID"[0] == 'U' && "PWD"[0] == 'P';
    NoneOfThese(FrontFields(c, mssqlPython), "UID");
    NoneOfThese(FrontFields(c, mssqlPython), "PWD");
    NoValueOfFields(FrontFields(c, mssqlPython), "UID");
    NoValueOfFields(FrontFields(c, mssqlPython), "PWD");
  }

  lemma FrontSound(c: Credentials, mssqlPython: bool)
    requires PlainProfile(c)
    ensures AllSound(FrontFields(c, mssqlPython))
  {
    hide Sound, Plain, ServerArg, FormatDriver, CleanKey;
    ServerArgPlain(c);
    CommonKeys();
    AuthKeys();
    DriverSound(c);
    PlainSound("SERVER", ServerArg(c));
    PlainSound("Database", c.database);
    PlainSound("Authentication", c.authentication);
  }

  /** What follows the front in a mode that sends no credentials. */
  function SilentTail(c: Credentials, mssqlPython: bool): seq<Field> {
    (if AuthHead(c) == [] && c.windowsLogin then [Field("Trusted_Connection", "yes")] else [])
    + BackFields(c, mssqlPython)
  }

  /** The part of this text is read as no credential. */
  predicate NamesNone(part: string) {
    ReadPart(part).Some? ==> ReadPart(part).value.0 !in ["UID", "PWD"]
  }

  /** What a caller can check from driver, host, database and mode where none are sent: the text in front names
      no credential, and neither does the part it leaves open, which then runs on to the end. */
  predicate SilentClear(c: Credentials, mssqlPython: bool) {
    var f := Scan(Lead(c, mssqlPython), false);
    && ValueIn(f.parts, "UID").None? && ValueIn(f.parts, "PWD").None?
    && (f.inBraces ==> NamesNone(Strip(f.open + Assembled(SilentTail(c, mssqlPython)))))
  }

  /** The fields that name the target, in front of the authentication. */
  function TargetFields(c: Credentials, mssqlPython: bool): seq<Field> {
    (if mssqlPython then [] else [Field("DRIVER", FormatDriver(c.driver))])
    + [Field("SERVER", ServerArg(c)), Field("Database", c.database)]
  }

  lemma ThreeStretches(c: Credentials, mssqlPython: bool)
    requires AllFields(c, mssqlPython).Ok?
    ensures AuthFields(c, mssqlPython).Ok?
    ensures AllFields(c, mssqlPython).value
         == TargetFields(c, mssqlPython) + AuthFields(c, mssqlPython).value + BackFields(c, mssqlPython)
    ensures FrontFields(c, mssqlPython) == TargetFields(c, mssqlPython) + AuthHead(c)
  {
    hide FormatDriver, ServerArg, AuthFields, AuthHead;
  }

  lemma SilentSplit(c: Credentials, mssqlPython: bool)
    requires AllFields(c, mssqlPython).Ok? && !Sends(c)
    ensures AllFields(c, mssqlPython).value == FrontFields(c, mssqlPython) + SilentTail(c, mssqlPython)
  {
    hide AllFields, TargetFields, FrontFields, BackFields, AuthFields, AuthHead;
    ThreeStretches(c, mssqlPython);
    SilentAuthFields(c, mssqlPython);
    var trusted := if AuthHead(c) == [] && c.windowsLogin then [Field("Trusted_Connection", "yes")] else [];
    Assoc(TargetFields(c, mssqlPython), AuthHead(c), trusted);
    Assoc(TargetFields(c, mssqlPython) + AuthHead(c), trusted, BackFields(c, mssqlPython));
  }

  lemma SilentAuthFields(c: Credentials, mssqlPython: bool)
    requires AuthFields(c, mssqlPython).Ok? && !Sends(c)
    ensures AuthFields(c, mssqlPython).value
         == AuthHead(c) + (if AuthHead(c) == [] && c.windowsLogin then [Field("Trusted_Connection", "yes")] else [])
  {
    hide FormatValue, IsActiveDirectory, Truthy;
  }

  lemma SilentTailBare(c: Credentials, mssqlPython: bool)
    ensures SilentTail(c, mssqlPython) != [] && AllSound(SilentTail(c, mssqlPython))
    ensures '}' !in Assembled(SilentTail(c, mssqlPython))
    ensures ValueIn(StrippedTexts(FieldTexts(SilentTail(c, mssqlPython))), "UID").None?
    ensures ValueIn(StrippedTexts(FieldTexts(SilentTail(c, mssqlPython))), "PWD").None?
  {
    hide Sound, FieldText, ValueIn, ReadPart, Strip, AuthHead, Plain, CleanKey, Assembled, Whole;
    BackSound(c, mssqlPython);
    AuthKeys();
    PlainSound("Trusted_Connection", "yes");
    BackHasNoBrace(c, mssqlPython);
    PlainField(Field("Trusted_Connection", "yes"));
    var fields, back := SilentTail(c, mssqlPython), BackFields(c, mssqlPython);
    var n := |fields| - |back|;
    BackNames(c, mssqlPython);
    forall i | 0 <= i < |fields|
      ensures Sound(fields[i]) && '}' !in FieldText(fields[i]) && fields[i].key != "UID" && fields[i].key != "PWD"
    {
      if i >= n {
        assert fields[i] == back[i - n];
      } else {
        assert fields[i] == Field("Trusted_Connection", "yes");
      }
    }
    NoBraceInTexts(fields);
    NoneOfThese(fields, "UID");
    NoneOfThese(fields, "PWD");
    NoValueOfFields(fields, "UID");
    NoValueOfFields(fields, "PWD");
  }

  lemma BackNames(c: Credentials, mssqlPython: bool)
    ensures BackFields(c, mssqlPython) != []
    ensures forall i :: 0 <= i < |BackFields(c, mssqlPython)| ==>
              BackFields(c, mssqlPython)[i].key != "UID" && BackFields(c, mssqlPython)[i].key != "PWD"
    ensures "Trusted_Connection" != "UID" && "Trusted_Connection" != "PWD"
  {
    assert "UID"[0] == 'U' && "PWD"[0] == 'P' && "APP"[0] == 'A' && |"Trusted_Connection"| == 18;
  }

  /** A mode that sends no credentials puts none into the string exactly when the text in front names none. */
  lemma SilentModeReadsNothing(c: Credentials, mssqlPython: bool)
    requires AllFields(c, mssqlPython).Ok? && !Sends(c)
    ensures ReadsBack(c, mssqlPython) <==> SilentClear(c, mssqlPython)
  {
    hide AllFields, Parts, ValueIn, Scan, Assembled, SilentTail, FrontFields, ReadPart, Strip, Cut, AllSound;
    NoSecretEither(c, mssqlPython);
    SilentSplit(c, mssqlPython);
    SilentTailBare(c, mssqlPython);
    SilentLead(c, mssqlPython);
    var f, t := Scan(Lead(c, mssqlPython), false), Assembled(SilentTail(c, mssqlPython));
    var texts := StrippedTexts(FieldTexts(SilentTail(c, mssqlPython)));
    TailParts(SilentTail(c, mssqlPython));
    if f.inBraces {
      OpenToTheEnd(Lead(c, mssqlPython), t);
      var part := Strip(f.open + t);
      ValueInConcat(f.parts, [part], "UID");
      ValueInConcat(f.parts, [part], "PWD");
      ValueInCons(part, [], "UID");
      ValueInCons(part, [], "PWD");
      assert [part] + [] == [part];
      NoValueInNothing();
      NothingNamed();
    } else {
      PartsBehindClosed(Lead(c, mssqlPython), t);
      ValueInConcat(f.parts, texts, "UID");
      ValueInConcat(f.parts, texts, "PWD");
    }
  }

  lemma NothingNamed()
    ensures ValueIn([], "PWD").None?
  {
  }

  lemma NoSecretEither(c: Credentials, mssqlPython: bool)
    requires !Sends(c)
    ensures UserFor(c).None? && SecretFor(c).None?
  {
    hide IsActiveDirectory, Truthy;
  }

  lemma SilentLead(c: Credentials, mssqlPython: bool)
    requires AllFields(c, mssqlPython).Ok? && SilentTail(c, mssqlPython) != []
    requires AllFields(c, mssqlPython).value == FrontFields(c, mssqlPython) + SilentTail(c, mssqlPython)
    ensures Assembled(AllFields(c, mssqlPython).value) == Lead(c, mssqlPython) + Assembled(SilentTail(c, mssqlPython))
    ensures Ended(Lead(c, mssqlPython))
  {
    hide AllFields, SilentTail, Assembled, FormatDriver, ServerArg, AuthHead;
    JoinFields(FrontFields(c, mssqlPython), SilentTail(c, mssqlPython));
  }

  /** An open front swallows text without a closing brace to its end. */
  lemma OpenToTheEnd(p: string, rest: string)
    requires Ended(p) && Scan(p, false).inBraces && '}' !in rest
    ensures Parts(p + rest) == Scan(p, false).parts + [Strip(Scan(p, false).open + rest)]
  {
    hide Scan, Parts, Cut, Strip;
    PartsAcross(p, rest);
    NoCloseNoCut(rest);
    assert rest[..|rest|] == rest;
    OpenHasBrace(p, false);
    NonblankSegment(Scan(p, false).open + rest, '{');
    assert [Strip(Scan(p, false).open + rest)] + [] == [Strip(Scan(p, false).open + rest)];
  }

  lemma {:induction false} PlainValueOfFields(fields: seq<Field>, key: string, raw: string)
    requires AllSound(fields) && RawOf(fields, key) == Some(raw) && Plain(raw)
    ensures ValueIn(StrippedTexts(FieldTexts(fields)), key) == Some(RStrip(raw))
  {
    hide ReadPart, FieldText, Strip, RStrip, Whole, CleanKey, Stripped, Plain;
    var f := fields[0];
    StrippedTail(fields);
    if f.key == key {
      assert f == Field(key, raw);
      PlainReads(key, raw);
    } else {
      ReadsOwnKey(f);
      PlainValueOfFields(fields[1..], key, raw);
    }
  }

  /** The target settings of a plain profile are read back too: server, database and encryption, each
      under its own key, without blanks at the end. */
  lemma TargetReadsBack(c: Credentials, mssqlPython: bool)
    requires PlainProfile(c) && AllFields(c, mssqlPython).Ok?
    ensures var parts := Parts(Assembled(AllFields(c, mssqlPython).value));
            && ValueIn(parts, "SERVER") == Some(RStrip(ServerArg(c)))
            && ValueIn(parts, "Database") == Some(RStrip(c.database))
            && ValueIn(parts, "encrypt") == Some(if c.encrypt then "Yes" else "No")
            && ValueIn(parts, "TrustServerCertificate") == Some(if c.trustCert then "Yes" else "No")
  {
    hide Sound, Plain, ServerArg, FormatDriver, CleanKey, ValueIn, AllFields, Parts, RawOf, RStrip, FieldText, PlainProfile;
    var fields := AllFields(c, mssqlPython).value;
    assert AllSound(fields) by { AllFieldsSound(c, mssqlPython); }
    TailParts(fields);
    PlainTexts(c);
    TargetRaw(c, mssqlPython);
    PlainValueOfFields(fields, "SERVER", ServerArg(c));
    PlainValueOfFields(fields, "Database", c.database);
    PlainValueOfFields(fields, "encrypt", YesNo(c.encrypt));
    PlainValueOfFields(fields, "TrustServerCertificate", YesNo(c.trustCert));
  }

  lemma AllFieldsSound(c: Credentials, mssqlPython: bool)
    requires PlainProfile(c) && AllFields(c, mssqlPython).Ok?
    ensures AllSound(AllFields(c, mssqlPython).value)
  {
    hide Sound, CommonFields, PyodbcFields, PlainProfile;
    if mssqlPython {
      CommonFieldsSound(c, true);
    } else {
      PyodbcFieldsSound(c);
    }
  }

  lemma PlainTexts(c: Credentials)
    requires PlainProfile(c)
    ensures Plain(ServerArg(c)) && Plain(c.database) && Plain("Yes") && Plain("No")
    ensures RStrip("Yes") == "Yes" && RStrip("No") == "No"
  {
    hide ServerArg;
    ServerArgPlain(c);
    CommonValues();
  }

  lemma TargetRaw(c: Credentials, mssqlPython: bool)
    requires AllFields(c, mssqlPython).Ok?
    ensures var fields := AllFields(c, mssqlPython).value;
            && RawOf(fields, "SERVER") == Some(ServerArg(c)) && RawOf(fields, "Database") == Some(c.database)
            && RawOf(fields, "encrypt") == Some(YesNo(c.encrypt))
            && RawOf(fields, "TrustServerCertificate") == Some(YesNo(c.trustCert))
  {
    hide ServerArg, FormatDriver, AuthFields, RawOf;
    var auth := AuthFields(c, mssqlPython).value;
    var driver := if mssqlPython then [] else [Field("DRIVER", FormatDriver(c.driver))];
    var target := [Field("SERVER", ServerArg(c)), Field("Database", c.database)];
    var back := BackFields(c, mssqlPython);
    assert AllFields(c, mssqlPython).value == driver + (target + (auth + back));
    FirstLetters();
    AuthNames(c, mssqlPython);
    TargetFront(c);
    forall key | key in ["SERVER", "Database", "encrypt", "TrustServerCertificate"]
      ensures RawOf(AllFields(c, mssqlPython).value, key)
           == if RawOf(target, key).Some? then RawOf(target, key) else RawOf(back, key)
    {
      NoneOfThese(driver, key);
      NoneOfThese(auth, key);
      RawOfConcat(driver, target + (auth + back), key);
      RawOfConcat(target, auth + back, key);
      RawOfConcat(auth, back, key);
    }
    TargetBack(c, mssqlPython);
  }

  lemma TargetFront(c: Credentials)
    ensures var target := [Field("SERVER", ServerArg(c)), Field("Database", c.database)];
            && RawOf(target, "SERVER") == Some(ServerArg(c)) && RawOf(target, "Database") == Some(c.database)
            && RawOf(target, "encrypt").None? && RawOf(target, "TrustServerCertificate").None?
  {
    hide ServerArg;
    FirstLetters();
    var server, db := Field("SERVER", ServerArg(c)), Field("Database", c.database);
    assert [server, db][1..] == [db];
    NoneOfThese([server, db], "encrypt");
    NoneOfThese([server, db], "TrustServerCertificate");
  }

  lemma TargetBack(c: Credentials, mssqlPython: bool)
    ensures RawOf(BackFields(c, mssqlPython), "encrypt") == Some(YesNo(c.encrypt))
    ensures RawOf(BackFields(c, mssqlPython), "TrustServerCertificate") == Some(YesNo(c.trustCert))
  {
    FirstLetters();
    var back := BackFields(c, mssqlPython);
    assert back == [back[0]] + ([back[1]] + back[2..]);
    RawOfCons(back[0], [back[1]] + back[2..], "TrustServerCertificate");
  }

  lemma RawOfCons(f: Field, rest: seq<Field>, key: string)
    ensures RawOf([f] + rest, key) == if f.key == key then Some(f.raw) else RawOf(rest, key)
  {
    assert ([f] + rest)[1..] == rest;
  }

  lemma FirstLetters()
    ensures "SERVER"[0] == 'S' && "DRIVER"[0] == 'D' && |"SERVER"| == 6 && |"DRIVER"| == 6 && |"Database"| == 8
    ensures |"encrypt"| == 7 && |"TrustServerCertificate"| == 22
  {
  }

  /** The names of authentication fields are none of the target's. */
  lemma AuthNames(c: Credentials, mssqlPython: bool)
    requires AuthFields(c, mssqlPython).Ok?
    ensures forall i :: 0 <= i < |AuthFields(c, mssqlPython).value| ==>
              AuthFields(c, mssqlPython).value[i].key !in ["SERVER", "Database", "encrypt", "TrustServerCertificate"]
  {
    hide FormatValue, IsActiveDirectory, Truthy;
    FirstLetters();
    assert |"UID"| == 3 && |"PWD"| == 3 && |"Authentication"| == 14 && |"Trusted_Connection"| == 18;
  }

  lemma {:induction false} RawOfAt(fields: seq<Field>, i: nat)
    requires i < |fields| && forall j :: 0 <= j < i ==> fields[j].key != fields[i].key
    ensures RawOf(fields, fields[i].key) == Some(fields[i].raw)
  {
    if i > 0 {
      RawOfAt(fields[1..], i - 1);
    }
  }

  /** The name of a driver without the braces it may come in. */
  function DriverName(c: Credentials): string {
    var d := TextOf(c.driver);
    if |d| >= 2 && d[0] == '{' && d[|d| - 1] == '}' then d[1..|d| - 1] else d
  }

  lemma OtherKeys()
    ensures "Authentication"[0] == 'A' && "Authentication"[1] == 'u' && "APP"[0] == 'A' && |"APP"| == 3
    ensures |"Authentication"| == 14 && "SQL_ATTR_TRACE"[0] == 'S' && |"SQL_ATTR_TRACE"| == 14
    ensures |"Pooling"| == 7 && "Pooling"[0] == 'P' && "encrypt"[0] == 'e'
    ensures |"Trusted_Connection"| == 18 && |"ConnectRetryCount"| == 17 && |"ConnectRetryInterval"| == 20
    ensures |"UID"| == 3 && "UID"[0] == 'U' && |"PWD"| == 3 && "PWD"[0] == 'P'
  {
  }

  /** The fields of the pyodbc string that have fixed values. */
  lemma FixedRaw(c: Credentials)
    requires PyodbcFields(c).Ok?
    ensures var fields := PyodbcFields(c).value;
            && RawOf(fields, "DRIVER") == Some(FormatDriver(c.driver))
            && RawOf(fields, "APP") == Some("dbt-sqlserver/1.12.0rc3") && RawOf(fields, "Pooling") == Some("true")
            && RawOf(fields, "SQL_ATTR_TRACE") == Some(if c.traceFlag then "SQL_OPT_TRACE_ON" else "SQL_OPT_TRACE_OFF")
            && RawOf(fields, "ConnectRetryCount") == Some("3") && RawOf(fields, "ConnectRetryInterval") == Some("10")
  {
    hide ServerArg, FormatDriver, AuthFields, RawOf;
    var fields := PyodbcFields(c).value;
    FirstLetters();
    OtherKeys();
    AuthFieldKeys(c, false);
    var n := |fields|;
    RawOfAt(fields, 0);
    RawOfAt(fields, n - 5);
    RawOfAt(fields, n - 4);
    RawOfAt(fields, n - 3);
    RawOfAt(fields, n - 2);
    RawOfAt(fields, n - 1);
  }

  lemma AuthFieldKeys(c: Credentials, mssqlPython: bool)
    requires AuthFields(c, mssqlPython).Ok?
    ensures forall i :: 0 <= i < |AuthFields(c, mssqlPython).value| ==>
              AuthFields(c, mssqlPython).value[i].key in ["Authentication", "UID", "PWD", "Trusted_Connection"]
  {
    hide FormatValue, IsActiveDirectory, Truthy;
  }

  /** What is left of the pyodbc string for a plain profile: the driver, without braces, and the fixed
      settings. */
  lemma SettingsReadBack(c: Credentials)
    requires PlainProfile(c) && PyodbcFields(c).Ok?
    ensures var parts := Parts(Assembled(PyodbcFields(c).value));
            && ValueIn(parts, "DRIVER") == Some(DriverName(c))
            && ValueIn(parts, "APP") == Some("dbt-sqlserver/1.12.0rc3") && ValueIn(parts, "Pooling") == Some("true")
            && ValueIn(parts, "SQL_ATTR_TRACE") == Some(if c.traceFlag then "SQL_OPT_TRACE_ON" else "SQL_OPT_TRACE_OFF")
            && ValueIn(parts, "ConnectRetryCount") == Some("3") && ValueIn(parts, "ConnectRetryInterval") == Some("10")
  {
    hide Sound, Plain, ServerArg, FormatDriver, CleanKey, ValueIn, PyodbcFields, Parts, RawOf, RStrip, FieldText,
      PlainProfile, DriverName;
    var fields := PyodbcFields(c).value;
    assert AllSound(fields) by { PyodbcFieldsSound(c); }
    TailParts(fields);
    FixedRaw(c);
    PyodbcValues();
    CommonValues();
    FixedStripped();
    PlainValueOfFields(fields, "APP", "dbt-sqlserver/1.12.0rc3");
    PlainValueOfFields(fields, "Pooling", "true");
    PlainValueOfFields(fields, "SQL_ATTR_TRACE", if c.traceFlag then "SQL_OPT_TRACE_ON" else "SQL_OPT_TRACE_OFF");
    PlainValueOfFields(fields, "ConnectRetryCount", "3");
    PlainValueOfFields(fields, "ConnectRetryInterval", "10");
    DriverFirst(c);
  }

  lemma FixedStripped()
    ensures RStrip("dbt-sqlserver/1.12.0rc3") == "dbt-sqlserver/1.12.0rc3" && RStrip("true") == "true"
    ensures RStrip("3") == "3" && RStrip("10") == "10"
    ensures RStrip("SQL_OPT_TRACE_ON") == "SQL_OPT_TRACE_ON" && RStrip("SQL_OPT_TRACE_OFF") == "SQL_OPT_TRACE_OFF"
  {
  }

  /** The driver is the first part, and its braces come off. */
  lemma DriverFirst(c: Credentials)
    requires PlainProfile(c) && PyodbcFields(c).Ok?
    ensures ValueIn(StrippedTexts(FieldTexts(PyodbcFields(c).value)), "DRIVER") == Some(DriverName(c))
  {
    hide Sound, CleanKey, Strip, ValueIn, FieldText, ReadPart, Plain, CommonFields;
    var fields := PyodbcFields(c).value;
    StrippedTail(fields);
    DriverReads(c);
    ValueInCons(Strip(FieldText(fields[0])), StrippedTexts(FieldTexts(fields[1..])), "DRIVER");
    var texts := StrippedTexts(FieldTexts(fields));
    assert texts == [texts[0]] + texts[1..];
  }

  lemma DriverReads(c: Credentials)
    requires PlainProfile(c)
    ensures ReadPart(Strip(FieldText(Field("DRIVER", FormatDriver(c.driver))))) == Some(("DRIVER", DriverName(c)))
  {
    hide CleanKey, Strip, FieldText, ReadPart, PlainProfile, FormatDriver, FormatValue;
    DriverIsFormatted(c);
    CommonKeys();
    StrippedReads("DRIVER", Some(DriverName(c)), false);
  }

  /** A driver without braces in its name is written like any other value. */
  lemma DriverIsFormatted(c: Credentials)
    requires PlainProfile(c)
    ensures FormatDriver(c.driver) == FormatValue(Some(DriverName(c)), false)
  {
    hide Plain, Doubled;
    NothingDoubled(DriverName(c));
  }

  lemma {:induction false} NothingDoubled(text: string)
    requires '}' !in text
    ensures Doubled(text, '}') == text
  {
    if text != "" {
      NothingDoubled(text[1..]);
      assert text == [text[0]] + text[1..];
    }
  }

  /** The mode of a plain profile is read back: the authentication label of the ActiveDirectory modes but the
      access token, a trusted connection for the Windows login, and neither for the others. */
  lemma ModeReadsBack(c: Credentials, mssqlPython: bool)
    requires PlainProfile(c) && AllFields(c, mssqlPython).Ok?
    ensures var parts := Parts(Assembled(AllFields(c, mssqlPython).value));
            var labelled := IsActiveDirectory(c.authentication) && c.authentication != "ActiveDirectoryAccessToken";
            && ValueIn(parts, "Authentication") == (if labelled then Some(RStrip(c.authentication)) else None)
            && ValueIn(parts, "Trusted_Connection") == (if !labelled && c.windowsLogin then Some("yes") else None)
  {
    hide Sound, Plain, ServerArg, FormatDriver, CleanKey, ValueIn, AllFields, Parts, RawOf, RStrip, FieldText,
      IsActiveDirectory, PlainProfile;
    var fields := AllFields(c, mssqlPython).value;
    assert AllSound(fields) by { AllFieldsSound(c, mssqlPython); }
    TailParts(fields);
    ModeRaw(c, mssqlPython);
    YesStripped();
    assert Plain(c.authentication) by { PlainLabel(c); }
    if RawOf(fields, "Authentication").Some? {
      PlainValueOfFields(fields, "Authentication", c.authentication);
    } else {
      NoValueOfFields(fields, "Authentication");
    }
    if RawOf(fields, "Trusted_Connection").Some? {
      PlainValueOfFields(fields, "Trusted_Connection", "yes");
    } else {
      NoValueOfFields(fields, "Trusted_Connection");
    }
  }

  lemma PlainLabel(c: Credentials)
    requires PlainProfile(c)
    ensures Plain(c.authentication)
  {
  }

  lemma YesStripped()
    ensures RStrip("yes") == "yes" && Plain("yes")
  {
  }

  lemma ModeRaw(c: Credentials, mssqlPython: bool)
    requires AllFields(c, mssqlPython).Ok?
    ensures var fields := AllFields(c, mssqlPython).value;
            var labelled := IsActiveDirectory(c.authentication) && c.authentication != "ActiveDirectoryAccessToken";
            && RawOf(fields, "Authentication") == (if labelled then Some(c.authentication) else None)
            && RawOf(fields, "Trusted_Connection") == (if !labelled && c.windowsLogin then Some("yes") else None)
  {
    hide ServerArg, FormatDriver, AuthFields, RawOf, IsActiveDirectory;
    var auth := AuthFields(c, mssqlPython).value;
    var driver := if mssqlPython then [] else [Field("DRIVER", FormatDriver(c.driver))];
    var target := [Field("SERVER", ServerArg(c)), Field("Database", c.database)];
    var back := BackFields(c, mssqlPython);
    assert AllFields(c, mssqlPython).value == driver + (target + (auth + back));
    FirstLetters();
    OtherKeys();
    ModeOfAuth(c, mssqlPython);
    forall key | key in ["Authentication", "Trusted_Connection"]
      ensures RawOf(AllFields(c, mssqlPython).value, key) == RawOf(auth, key)
    {
      NoneOfThese(driver, key);
      NoneOfThese(target, key);
      NoneOfThese(back, key);
      RawOfConcat(driver, target + (auth + back), key);
      RawOfConcat(target, auth + back, key);
      RawOfConcat(auth, back, key);
    }
  }

  lemma ModeOfAuth(c: Credentials, mssqlPython: bool)
    requires AuthFields(c, mssqlPython).Ok?
    ensures var auth := AuthFields(c, mssqlPython).value;
            var labelled := IsActiveDirectory(c.authentication) && c.authentication != "ActiveDirectoryAccessToken";
            && RawOf(auth, "Authentication") == (if labelled then Some(c.authentication) else None)
            && RawOf(auth, "Trusted_Connection") == (if !labelled && c.windowsLogin then Some("yes") else None)
  {
    hide FormatValue, IsActiveDirectory, Truthy, RawOf;
    OtherKeys();
    var auth := AuthFields(c, mssqlPython).value;
    if IsActiveDirectory(c.authentication) && c.authentication != "ActiveDirectoryAccessToken" {
      RawOfAt(auth, 0);
      NoneOfThese(auth, "Trusted_Connection");
    } else if c.windowsLogin {
      RawOfAt(auth, 0);
      NoneOfThese(auth, "Authentication");
    } else {
      NoneOfThese(auth, "Authentication");
      NoneOfThese(auth, "Trusted_Connection");
    }
  }

  // ------------------------------------------------------------------ the builders

  /** The string a builder returns for a profile: what it must give back to a driver, and when it fails. */
  ghost predicate Serves(r: Result<string>, c: Credentials, mssqlPython: bool) {
    && (r.Err? <==> AllFields(c, mssqlPython).Err?)
    && (r.Ok? ==> r.value == Assembled(AllFields(c, mssqlPython).value))
    && (r.Ok? ==> Logged(c, mssqlPython) == Ok(Sanitized(r.value)))
    && (r.Ok? && Sends(c) && Clear(c, mssqlPython) ==>
          (KeepsEnds(c, mssqlPython) <==>
             Reads(Parts(r.value), "UID", UserFor(c)) && Reads(Parts(r.value), "PWD", SecretFor(c))))
    && (r.Ok? && !Sends(c) && SilentClear(c, mssqlPython) ==>
          ValueIn(Parts(r.value), "UID").None? && ValueIn(Parts(r.value), "PWD").None?)
    && (r.Ok? && PlainProfile(c) ==>
          ValueIn(Parts(r.value), "SERVER") == Some(RStrip(ServerArg(c)))
          && ValueIn(Parts(r.value), "Database") == Some(RStrip(c.database)))
  }

  lemma AssembledServes(c: Credentials, mssqlPython: bool)
    ensures AllFields(c, mssqlPython).Ok? ==>
              Serves(Ok(Assembled(AllFields(c, mssqlPython).value)), c, mssqlPython)
    ensures AllFields(c, mssqlPython).Err? ==> forall message :: Serves(Err(message), c, mssqlPython)
  {
    hide AllFields, Assembled, Sanitized, Clear, SilentClear, KeepsEnds, PlainProfile, Parts, ValueIn, ServerArg, RStrip;
    if AllFields(c, mssqlPython).Ok? {
      if Sends(c) {
        CredentialsReadBack(c, mssqlPython);
      } else {
        SilentModeReadsNothing(c, mssqlPython);
        NoSecretEither(c, mssqlPython);
      }
      if PlainProfile(c) {
        TargetReadsBack(c, mssqlPython);
      }
    }
  }

  /** `build_pyodbc_connection_string`. */
  method BuildPyodbcConnectionString(c: Credentials) returns (r: Result<string>)
    ensures Serves(r, c, false)
  {
    hide Join, FormatDriver, CommonFields, FieldText, Serves;
    AssembledServes(c, false);
    var conStr := [FieldText(Field("DRIVER", FormatDriver(c.driver)))];
    var common := BuildCommonParts(c, false);
    if common.Err? {
      return Err(common.message);
    }
    conStr := conStr + common.value;
    conStr := conStr + [
      FieldText(Field("Pooling", "true")),
      FieldText(Field("SQL_ATTR_TRACE", if c.traceFlag then "SQL_OPT_TRACE_ON" else "SQL_OPT_TRACE_OFF")),
      FieldText(Field("ConnectRetryCount", "3")),
      FieldText(Field("ConnectRetryInterval", "10"))];
    assert conStr == FieldTexts(PyodbcFields(c).value);
    return Ok(Join(conStr, ";"));
  }

  /** `build_mssql_python_connection_string`. */
  method BuildMssqlPythonConnectionString(c: Credentials) returns (r: Result<string>)
    ensures Serves(r, c, true)
  {
    hide Join, CommonFields, Serves;
    AssembledServes(c, true);
    var common := BuildCommonParts(c, true);
    if common.Err? {
      return Err(common.message);
    }
    return Ok(Join(common.value, ";"));
  }
}
