/**
 * The pseudonymous project id: a hash of the Maven group and artifact ids, else of the
 * Gradle root project name, else of a fixed default. The hash (MD5 in hex) is a parameter.
 */
module ProjectIds {
  import opened Wrappers
  import opened JavaStrings

  const DEFAULT_PROJECT_ID: string := "default-project-id"

  /** A child node of the POM's document element: its name and its text content. */
  datatype XmlNode = XmlNode(nodeName: string, textContent: string)

  /** What the project folder's `pom.xml` gives: nothing, a parse failure, or the root's children. */
  datatype PomFile = NoPom | UnparsablePom | Pom(children: seq<XmlNode>)

  /**
   * What the project folder's `settings.gradle` gives: nothing, an `IOException` on opening
   * it, content that is not valid UTF-8, or its lines.
   */
  datatype GradleFile = NoGradle | UnreadableGradle | UndecodableGradle | Gradle(lines: seq<string>)

  /**
   * An exception that escapes `generateProjectId`: `Files.lines` reports undecodable
   * content as an `UncheckedIOException`, which the `catch (IOException)` does not catch.
   */
  datatype IdFailure = UncheckedIOException

  /** The text of the first child called `name`, or `null`. */
  function FirstElementText(children: seq<XmlNode>, name: string): (r: Option<string>)
    ensures r.None? <==> forall i :: 0 <= i < |children| ==> children[i].nodeName != name
    ensures r.Some? ==> exists i :: 0 <= i < |children| && children[i].nodeName == name &&
                                    r.value == children[i].textContent &&
                                    forall j :: 0 <= j < i ==> children[j].nodeName != name
    decreases |children|
  {
    if children == [] then None
    else if children[0].nodeName == name then Some(children[0].textContent)
    else
      var r := FirstElementText(children[1..], name);
      assert forall i :: 0 < i < |children| ==> children[i] == children[1..][i - 1];
      r
  }

  /** `getFirstElementTextByName`: an indexed scan of the child nodes. */
  method GetFirstElementTextByName(children: seq<XmlNode>, name: string) returns (r: Option<string>)
    ensures r == FirstElementText(children, name)
  {
    var i := 0;
    while i < |children|
      invariant 0 <= i <= |children|
      invariant FirstElementText(children, name) == FirstElementText(children[i..], name)
    {
      if children[i].nodeName == name {
        return Some(children[i].textContent);
      }
      assert children[i..][1..] == children[i + 1..];
      i := i + 1;
    }
    return None;
  }

  /** Java's string concatenation, which prints `null` as "null". */
  function ConcatNullable(a: Option<string>, b: Option<string>): string
  {
    a.GetOr("null") + b.GetOr("null")
  }

  /** `filter(line -> line.contains(text)).findFirst()`. */
  function FirstLineContaining(lines: seq<string>, text: string): (r: Option<string>)
    ensures r.None? <==> forall i :: 0 <= i < |lines| ==> !Contains(lines[i], text)
    ensures r.Some? ==> exists i :: 0 <= i < |lines| && lines[i] == r.value && Contains(lines[i], text) &&
                                    forall j :: 0 <= j < i ==> !Contains(lines[j], text)
    decreases |lines|
  {
    if lines == [] then None
    else if Contains(lines[0], text) then Some(lines[0])
    else
      var r := FirstLineContaining(lines[1..], text);
      assert forall i :: 0 < i < |lines| ==> lines[i] == lines[1..][i - 1];
      r
  }

  /**
   * The Gradle project name: the first line mentioning `rootProject.name` (or the default
   * id), from its first "=" on, the "=" included.
   */
  function GradleProjectName(lines: seq<string>): (name: string)
    ensures Contains(name, "=") ==> name[0] == '='
    ensures FirstLineContaining(lines, "rootProject.name").None? ==> name == DEFAULT_PROJECT_ID
    ensures FirstLineContaining(lines, "rootProject.name").Some? ==>
              var line := FirstLineContaining(lines, "rootProject.name").value;
              && |name| <= |line| && name == line[|line| - |name|..]
              && ('=' in line ==> name != [] && name[0] == '=' && '=' !in line[..|line| - |name|])
              && ('=' !in line ==> name == line)
  {
    var line := FirstLineContaining(lines, "rootProject.name").GetOr(DEFAULT_PROJECT_ID);
    IndexOfChar(line, '=');
    IndexOfChar(DEFAULT_PROJECT_ID, '=');
    if Contains(line, "=") then
      var name := line[IndexOf(line, "=")..];
      IndexOfChar(name, '=');
      assert line[..|line| - |name|] == line[..IndexOf(line, "=")];
      name
    else line
  }

  /** `generateProjectId`: Maven first, then Gradle, then the default. */
  function GenerateProjectId(pom: PomFile, gradle: GradleFile, hash: string -> string): (r: Result<string, IdFailure>)
    ensures r.Err? <==> !pom.Pom? && gradle.UndecodableGradle?
  {
    match pom
    case Pom(children) =>
      Ok("pom" + hash(ConcatNullable(FirstElementText(children, "groupId"), FirstElementText(children, "artifactId"))))
    case _ =>
      match gradle
      case Gradle(lines) => Ok("gradle" + hash(GradleProjectName(lines)))
      case UndecodableGradle => Err(UncheckedIOException)
      case _ => Ok(hash(DEFAULT_PROJECT_ID))
  }

  /** Folders with no usable project file all get the hash of the default id. */
  lemma {:induction false} MissingProjectsShareDefaultId(pom1: PomFile, gradle1: GradleFile,
                                                         pom2: PomFile, gradle2: GradleFile, hash: string -> string)
    requires !pom1.Pom? && (gradle1.NoGradle? || gradle1.UnreadableGradle?)
    requires !pom2.Pom? && (gradle2.NoGradle? || gradle2.UnreadableGradle?)
    ensures GenerateProjectId(pom1, gradle1, hash) == GenerateProjectId(pom2, gradle2, hash) == Ok(hash(DEFAULT_PROJECT_ID))
  {
  }

  /** A Maven project's id hashes group id then artifact id; a missing element reads "null". */
  lemma {:induction false} MavenProjectId(children: seq<XmlNode>, group: string, artifact: string,
                                          gradle: GradleFile, hash: string -> string)
    requires FirstElementText(children, "groupId") == Some(group)
    ensures FirstElementText(children, "artifactId").Some? ==>
              GenerateProjectId(Pom(children), gradle, hash) ==
              Ok("pom" + hash(group + FirstElementText(children, "artifactId").value))
    ensures FirstElementText(children, "artifactId").None? ==>
              GenerateProjectId(Pom(children), gradle, hash) == Ok("pom" + hash(group + "null"))
  {
  }

  /**
   * The Gradle id uses the first `rootProject.name` line, cut at its first "=", or the
   * whole line when it has no "=".
   */
  lemma {:induction false} GradleProjectId(pom: PomFile, lines: seq<string>, i: nat, hash: string -> string)
    requires !pom.Pom? && i < |lines|
    requires Contains(lines[i], "rootProject.name")
    requires forall j :: 0 <= j < i ==> !Contains(lines[j], "rootProject.name")
    ensures Contains(lines[i], "=") ==>
              GenerateProjectId(pom, Gradle(lines), hash) == Ok("gradle" + hash(lines[i][IndexOf(lines[i], "=")..]))
    ensures !Contains(lines[i], "=") ==>
              GenerateProjectId(pom, Gradle(lines), hash) == Ok("gradle" + hash(lines[i]))
  {
    var r := FirstLineContaining(lines, "rootProject.name");
    var k :| 0 <= k < |lines| && lines[k] == r.value && Contains(lines[k], "rootProject.name") &&
             forall j :: 0 <= j < k ==> !Contains(lines[j], "rootProject.name");
    assert k == i;
  }

  /** A Gradle file without a `rootProject.name` line hashes the default id, but with the Gradle prefix. */
  lemma {:induction false} GradleWithoutRootProjectName(pom: PomFile, lines: seq<string>, hash: string -> string)
    requires !pom.Pom?
    requires forall j :: 0 <= j < |lines| ==> !Contains(lines[j], "rootProject.name")
    ensures GenerateProjectId(pom, Gradle(lines), hash) == Ok("gradle" + hash(DEFAULT_PROJECT_ID))
  {
    IndexOfChar(DEFAULT_PROJECT_ID, '=');
  }

  /** With an injective hash, Gradle projects with different names get different ids. */
  lemma {:induction false} DifferentGradleNamesDifferentIds(lines1: seq<string>, lines2: seq<string>, hash: string -> string)
    requires forall a, b :: hash(a) == hash(b) ==> a == b
    requires GradleProjectName(lines1) != GradleProjectName(lines2)
    ensures GenerateProjectId(NoPom, Gradle(lines1), hash) != GenerateProjectId(NoPom, Gradle(lines2), hash)
  {
    var id1 := GenerateProjectId(NoPom, Gradle(lines1), hash).value;
    var id2 := GenerateProjectId(NoPom, Gradle(lines2), hash).value;
    assert id1[6..] == hash(GradleProjectName(lines1));
    assert id2[6..] == hash(GradleProjectName(lines2));
  }

  /**
   * With an injective hash, Maven projects get different ids when their group id and
   * artifact id, written one after the other, read differently.
   */
  lemma {:induction false} DifferentMavenCoordinatesDifferentIds(children1: seq<XmlNode>, children2: seq<XmlNode>,
                                                                 gradle1: GradleFile, gradle2: GradleFile, hash: string -> string)
    requires forall a, b :: hash(a) == hash(b) ==> a == b
    requires ConcatNullable(FirstElementText(children1, "groupId"), FirstElementText(children1, "artifactId")) !=
             ConcatNullable(FirstElementText(children2, "groupId"), FirstElementText(children2, "artifactId"))
    ensures GenerateProjectId(Pom(children1), gradle1, hash) != GenerateProjectId(Pom(children2), gradle2, hash)
  {
    var id1 := GenerateProjectId(Pom(children1), gradle1, hash).value;
    var id2 := GenerateProjectId(Pom(children2), gradle2, hash).value;
    assert id1[3..] == hash(ConcatNullable(FirstElementText(children1, "groupId"), FirstElementText(children1, "artifactId")));
    assert id2[3..] == hash(ConcatNullable(FirstElementText(children2, "groupId"), FirstElementText(children2, "artifactId")));
  }

  /**
   * Group id and artifact id are joined without a separator, so different coordinates can
   * share an id: `com.ex`/`ample` and `com.exa`/`mple` are both hashed as `com.example`.
   */
  lemma {:induction false} MavenCoordinatesCanCollide(hash: string -> string)
    ensures var children1 := [XmlNode("groupId", "com.ex"), XmlNode("artifactId", "ample")];
            var children2 := [XmlNode("groupId", "com.exa"), XmlNode("artifactId", "mple")];
            && FirstElementText(children1, "groupId") != FirstElementText(children2, "groupId")
            && GenerateProjectId(Pom(children1), NoGradle, hash) == GenerateProjectId(Pom(children2), NoGradle, hash)
  {
    var children1 := [XmlNode("groupId", "com.ex"), XmlNode("artifactId", "ample")];
    var children2 := [XmlNode("groupId", "com.exa"), XmlNode("artifactId", "mple")];
    assert FirstElementText(children1, "groupId") == Some("com.ex");
    assert FirstElementText(children2, "groupId") == Some("com.exa");
    assert children1[1..][0] == XmlNode("artifactId", "ample");
    assert children2[1..][0] == XmlNode("artifactId", "mple");
    assert FirstElementText(children1, "artifactId") == Some("ample");
    assert FirstElementText(children2, "artifactId") == Some("mple");
    assert "com.ex" + "ample" == "com.exa" + "mple";
  }

  /**
   * A `settings.gradle` that is not valid UTF-8 makes `generateProjectId` throw, whatever
   * the hash; a missing or unopenable one gives the default id.
   */
  lemma {:induction false} UndecodableGradleThrows(pom: PomFile, hash: string -> string)
    requires !pom.Pom?
    ensures GenerateProjectId(pom, UndecodableGradle, hash) == Err(UncheckedIOException)
    ensures GenerateProjectId(pom, UnreadableGradle, hash) == Ok(hash(DEFAULT_PROJECT_ID))
  {
  }

  /** A POM that cannot be parsed is passed over in favour of the Gradle file. */
  lemma {:induction false} UnparsablePomFallsBackToGradle(gradle: GradleFile, hash: string -> string)
    ensures GenerateProjectId(UnparsablePom, gradle, hash) == GenerateProjectId(NoPom, gradle, hash)
  {
  }
}
