/** Source-path handling: separator normalisation and the three paths the recipe recognises. */
module Paths {

  const PomXmlPath: string := "pom.xml"
  const ExtensionsXmlPath: string := ".mvn/extensions.xml"
  const GradleEnterpriseXmlPath: string := ".mvn/gradle-enterprise.xml"

  /** One character of a normalised path: a backslash becomes a forward slash. */
  function UnixChar(c: char): char {
    if c == '\\' then '/' else c
  }

  /** Separator normalisation: every backslash becomes a forward slash, nothing else changes. */
  function ToUnix(s: string): (r: string)
    ensures |r| == |s|
    ensures forall i :: 0 <= i < |s| ==> (if s[i] == '\\' then r[i] == '/' else r[i] == s[i])
    ensures forall i :: 0 <= i < |r| ==> r[i] != '\\'
  {
    seq(|s|, i requires 0 <= i < |s| => UnixChar(s[i]))
  }

  /**
   * Two paths name the same file once their separators are normalised: they have the same
   * length and agree at every position, a backslash counting as a forward slash.
   */
  predicate EqualIgnoringSeparators(a: string, b: string)
    ensures EqualIgnoringSeparators(a, b) <==>
      |a| == |b| && forall i :: 0 <= i < |a| ==> UnixChar(a[i]) == UnixChar(b[i])
  {
    ToUnix(a) == ToUnix(b)
  }

  /** What the scanner makes of a source path. */
  datatype FileKind = Pom | ExtensionsXml | GradleEnterpriseXml | Other

  /**
   * The scanner's switch on the normalised path: each recognised path gives its own kind,
   * every other path gives Other.
   */
  function Classify(path: string): (r: FileKind)
    ensures r == Pom <==> ToUnix(path) == PomXmlPath
    ensures r == ExtensionsXml <==> ToUnix(path) == ExtensionsXmlPath
    ensures r == GradleEnterpriseXml <==> ToUnix(path) == GradleEnterpriseXmlPath
    ensures r == Other <==> ToUnix(path) !in {PomXmlPath, ExtensionsXmlPath, GradleEnterpriseXmlPath}
  {
    var p := ToUnix(path);
    if p == PomXmlPath then Pom
    else if p == ExtensionsXmlPath then ExtensionsXml
    else if p == GradleEnterpriseXmlPath then GradleEnterpriseXml
    else Other
  }

  /** The recognised path of each kind other than Other. */
  function PathOf(k: FileKind): string
    requires k != Other
  {
    match k
    case Pom => PomXmlPath
    case ExtensionsXml => ExtensionsXmlPath
    case GradleEnterpriseXml => GradleEnterpriseXmlPath
  }

  /** A path without backslashes is already normalised. */
  lemma ToUnixFixesPlainPaths(s: string)
    requires forall i :: 0 <= i < |s| ==> s[i] != '\\'
    ensures ToUnix(s) == s
  {
  }

  /** The three recognised paths contain no backslash, so normalisation leaves them alone. */
  lemma RecognisedPathsNormalised()
    ensures ToUnix(PomXmlPath) == PomXmlPath
    ensures ToUnix(ExtensionsXmlPath) == ExtensionsXmlPath
    ensures ToUnix(GradleEnterpriseXmlPath) == GradleEnterpriseXmlPath
  {
    ToUnixFixesPlainPaths(PomXmlPath);
    ToUnixFixesPlainPaths(ExtensionsXmlPath);
    ToUnixFixesPlainPaths(GradleEnterpriseXmlPath);
  }

  /** A path is classified as kind k exactly when it equals k's path up to separators. */
  lemma ClassifyMeansEqualIgnoringSeparators(path: string, k: FileKind)
    requires k != Other
    ensures Classify(path) == k <==> EqualIgnoringSeparators(path, PathOf(k))
  {
    RecognisedPathsNormalised();
  }

  /** Each recognised path is classified as its own kind. */
  lemma ClassifyPathOf(k: FileKind)
    requires k != Other
    ensures Classify(PathOf(k)) == k
  {
    RecognisedPathsNormalised();
  }
}
