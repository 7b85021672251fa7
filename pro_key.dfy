/**
 * Where the Vaadin pro key comes from: the `vaadin.proKey` system property, then the
 * `VAADIN_PRO_KEY` environment variable (both written `email/key`), then the `proKey`
 * file in the user's `.vaadin` folder.
 */
module ProKeys {
  import opened Wrappers
  import opened JavaStrings
  import opened JsonTree

  /** A pro key; either part may be `null`. */
  datatype ProKey = ProKey(username: Option<string>, proKey: Option<string>)

  /** What reading the key file gives: no file, an I/O or parse failure, or a JSON tree. */
  datatype KeyFile = Absent | Unreadable | Readable(content: Json)

  /**
   * `getSystemProperty` / `getEnvironmentVariable`: the value is split on "/" and accepted
   * only when that gives exactly two parts, the login email and the key.
   */
  function ParseProKey(value: Option<string>): (r: Option<ProKey>)
    ensures value.None? ==> r.None?
    ensures value.Some? ==>
              (r.Some? <==> |Split(value.value, '/')| == 2)
    ensures r.Some? ==>
              var parts := Split(value.value, '/');
              r.value == ProKey(Some(parts[0]), Some(parts[1]))
  {
    match value
    case None => None
    case Some(v) =>
      var parts := Split(v, '/');
      if |parts| != 2 then None else Some(ProKey(Some(parts[0]), Some(parts[1])))
  }

  /** `email/key` is read back as the two parts, for any email and non-empty key without "/". */
  lemma {:induction false} ParseProKeyRoundTrip(email: string, key: string)
    requires '/' !in email && '/' !in key && key != ""
    ensures ParseProKey(Some(email + "/" + key)) == Some(ProKey(Some(email), Some(key)))
  {
    var s := email + "/" + key;
    assert s[|email|] == '/';
    FieldsOfJoin(email, key, '/');
    assert s == email + ['/'] + key;
  }

  /** An empty key part is rejected: `email/` splits into one part only. */
  lemma {:induction false} EmptyKeyRejected(email: string)
    requires '/' !in email
    ensures ParseProKey(Some(email + "/")) == None
  {
    var s := email + "/";
    assert s[|email|] == '/';
    FieldsOfJoin(email, "", '/');
    assert s == email + ['/'] + "";
    assert Fields(s, '/') == [email, ""];
    assert StripTrailingEmpty([email, ""]) == StripTrailingEmpty([email]);
  }

  /** A trailing "/" is dropped by the split, so `email/key/` is accepted as `email/key`. */
  lemma {:induction false} TrailingSlashAccepted(email: string, key: string)
    requires '/' !in email && '/' !in key && key != ""
    ensures ParseProKey(Some(email + "/" + key + "/")) == Some(ProKey(Some(email), Some(key)))
  {
    var s := email + "/" + key + "/";
    assert s[|email|] == '/';
    FieldsOfJoinTrailing(email, key, '/');
    assert s == email + ['/'] + key + ['/'];
    assert [email, key, ""][..2] == [email, key];
    assert StripTrailingEmpty([email, key, ""]) == StripTrailingEmpty([email, key]) == [email, key];
  }

  /** A value without "/" is rejected. */
  lemma {:induction false} NoSlashRejected(value: string)
    requires '/' !in value
    ensures ParseProKey(Some(value)) == None
  {
  }

  /** `ProKey.fromFile`: the file's `proKey` field as text, with no user name. */
  function FromFile(content: Json): (p: ProKey)
    ensures p.username.None?
    ensures p.proKey.Some? <==> Has(content, "proKey")
  {
    if Has(content, "proKey") then ProKey(None, Some(AsText(content.fields["proKey"]))) else ProKey(None, None)
  }

  /** `LocalProKey.read`: `null` when there is no file; a failure reading it is `null` to the caller. */
  function ReadKeyFile(file: KeyFile): (r: Option<ProKey>)
    ensures r.Some? <==> file.Readable?
    ensures r.Some? ==> r.value.username.None? && (r.value.proKey.Some? <==> Has(file.content, "proKey"))
  {
    match file
    case Absent => None
    case Unreadable => None
    case Readable(content) => Some(FromFile(content))
  }

  /** `LocalProKey.get`: the first source that yields a key. */
  function GetLocalProKey(systemProperty: Option<string>, environmentVariable: Option<string>, file: KeyFile): (r: Option<ProKey>)
    ensures ParseProKey(systemProperty).Some? ==> r == ParseProKey(systemProperty)
    ensures ParseProKey(systemProperty).None? && ParseProKey(environmentVariable).Some? ==>
              r == ParseProKey(environmentVariable)
    ensures ParseProKey(systemProperty).None? && ParseProKey(environmentVariable).None? ==>
              r == ReadKeyFile(file)
  {
    var fromProperty := ParseProKey(systemProperty);
    if fromProperty.Some? then fromProperty
    else
      var fromEnvironment := ParseProKey(environmentVariable);
      if fromEnvironment.Some? then fromEnvironment
      else ReadKeyFile(file)
  }

  /** A well-formed system property wins over the environment variable and the file. */
  lemma {:induction false} SystemPropertyTakesPrecedence(email: string, key: string,
                                                        environmentVariable: Option<string>, file: KeyFile)
    requires '/' !in email && '/' !in key && key != ""
    ensures GetLocalProKey(Some(email + "/" + key), environmentVariable, file) == Some(ProKey(Some(email), Some(key)))
  {
    ParseProKeyRoundTrip(email, key);
  }

  /** A malformed system property is skipped: a well-formed environment variable wins over the file. */
  lemma {:induction false} EnvironmentVariableTakesPrecedence(property: string, email: string, key: string, file: KeyFile)
    requires '/' !in property
    requires '/' !in email && '/' !in key && key != ""
    ensures GetLocalProKey(Some(property), Some(email + "/" + key), file) == Some(ProKey(Some(email), Some(key)))
  {
    NoSlashRejected(property);
    ParseProKeyRoundTrip(email, key);
  }

  /** The exception `getProKey` lets escape. */
  datatype Failure = NullPointerException

  /**
   * `getProKey` as written: it dereferences what `LocalProKey.get` returns. That is `null`
   * exactly when neither the property nor the variable splits into two parts and the key
   * file is absent or unreadable. A key file without a `proKey` field gives a key object
   * holding `null`, so the result is then `null` and nothing is thrown.
   */
  function GetProKeyAsWritten(systemProperty: Option<string>, environmentVariable: Option<string>, file: KeyFile): (r: Result<Option<string>, Failure>)
    ensures r.Err? <==> GetLocalProKey(systemProperty, environmentVariable, file).None?
    ensures r.Err? <==> ParseProKey(systemProperty).None? && ParseProKey(environmentVariable).None? && !file.Readable?
    ensures r.Err? ==> r.error == NullPointerException
    ensures r.Ok? ==> r.value == GetLocalProKey(systemProperty, environmentVariable, file).value.proKey
  {
    match GetLocalProKey(systemProperty, environmentVariable, file)
    case None => Err(NullPointerException)
    case Some(p) => Ok(p.proKey)
  }

  /** With no property, no variable and no key file, `getProKey` as written throws. */
  lemma {:induction false} GetProKeyThrowsWithoutKey()
    ensures GetProKeyAsWritten(None, None, Absent) == Err(NullPointerException)
  {
  }

  /**
   * A readable key file without a `proKey` field, with no usable property or variable,
   * makes `getProKey` as written return `null` rather than throw.
   */
  lemma {:induction false} KeyFileWithoutProKeyGivesNull(systemProperty: Option<string>, environmentVariable: Option<string>,
                                                         content: Json)
    requires ParseProKey(systemProperty).None? && ParseProKey(environmentVariable).None?
    requires !Has(content, "proKey")
    ensures GetProKeyAsWritten(systemProperty, environmentVariable, Readable(content)) == Ok(None)
  {
  }

  /** `getProKey` as documented: the pro key, or `null` when there is none. */
  function GetProKey(systemProperty: Option<string>, environmentVariable: Option<string>, file: KeyFile): (r: Option<string>)
    ensures GetLocalProKey(systemProperty, environmentVariable, file).None? ==> r.None?
    ensures GetProKeyAsWritten(systemProperty, environmentVariable, file).Ok? ==>
              r == GetProKeyAsWritten(systemProperty, environmentVariable, file).value
  {
    match GetLocalProKey(systemProperty, environmentVariable, file)
    case None => None
    case Some(p) => p.proKey
  }

  /** The documented behaviour never fails and gives the key of the first source that has one. */
  lemma {:induction false} GetProKeyFromProperty(email: string, key: string,
                                                 environmentVariable: Option<string>, file: KeyFile)
    requires '/' !in email && '/' !in key && key != ""
    ensures GetProKey(Some(email + "/" + key), environmentVariable, file) == Some(key)
    ensures GetProKey(None, None, Absent) == None
  {
    SystemPropertyTakesPrecedence(email, key, environmentVariable, file);
  }
}
