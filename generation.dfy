/** The generation phase: which new files the recipe creates once scanning is done. */
module Generation {
  import opened Wrappers
  import opened Paths
  import opened Xml
  import opened Scanner
  import opened Configuration

  /** What a new file holds; the exact bytes the writer produces are not modelled. */
  datatype ContentKind =
    | GradleEnterpriseContent(root: Tag, newline: string)  // the written configuration and its line separator
    | EmptyExtensionsContent(root: Tag)                    // the fixed text of an `extensions` file, parsed

  datatype GeneratedFile = GeneratedFile(path: string, content: ContentKind)

  /** A generated file as the document the edit phase later visits. */
  function AsDocument(f: GeneratedFile): Document {
    Document(f.path, f.content.root)
  }

  /**
   * The content of `.mvn/gradle-enterprise.xml`: an element tree from which the options'
   * configuration can be read back, written with CRLF line separators exactly when the
   * project uses them.
   */
  function GradleEnterpriseConfigurationXml(o: Options, useCRLFNewLines: bool): (r: ContentKind)
    ensures r.GradleEnterpriseContent?
    ensures ReadConfiguration(r.root) == Some(ConfigurationOf(o))
    ensures r.newline == "\r\n" <==> useCRLFNewLines
    ensures r.newline == "\n" <==> !useCRLFNewLines
  {
    ConfigurationRoundTrip(ConfigurationOf(o));
    GradleEnterpriseContent(ConfigurationTree(ConfigurationOf(o)), NewLine(useCRLFNewLines))
  }

  /**
   * The root tag of the fixed text written to a new `.mvn/extensions.xml`, once parsed: an
   * `extensions` element without any entry. Its line breaks are always LF.
   */
  function EmptyExtensionsRoot(): (r: Tag)
    ensures r.name == "extensions" && r.value.None? && |r.children| == 0
  {
    Tag("extensions", None, [])
  }

  /**
   * Nothing is created for a project without `pom.xml` or one that already has
   * `.mvn/gradle-enterprise.xml`. Otherwise `.mvn/gradle-enterprise.xml` comes first, and an
   * empty `.mvn/extensions.xml` follows as the second and last file exactly when none exists.
   * No file is created whose kind was recorded as existing.
   */
  method Generate(acc: AccumulatorValue, o: Options) returns (newFiles: seq<GeneratedFile>)
    ensures newFiles == [] <==> !acc.isMavenProject || acc.gradleEnterpriseXmlExists
    ensures newFiles != [] ==>
      newFiles[0] == GeneratedFile(GradleEnterpriseXmlPath, GradleEnterpriseConfigurationXml(o, acc.useCRLFNewLines))
    ensures newFiles != [] ==> (|newFiles| == 2 <==> !acc.extensionsXmlExists)
    ensures |newFiles| <= 2
    ensures |newFiles| == 2 ==> newFiles[1] == GeneratedFile(ExtensionsXmlPath, EmptyExtensionsContent(EmptyExtensionsRoot()))
    ensures forall k :: 0 <= k < |newFiles| ==>
      Classify(newFiles[k].path) != Other && !Recorded(acc, Classify(newFiles[k].path))
  {
    if !acc.isMavenProject || acc.gradleEnterpriseXmlExists {
      return [];
    }
    ClassifyPathOf(GradleEnterpriseXml);
    ClassifyPathOf(ExtensionsXml);
    newFiles := [];
    newFiles := newFiles + [GeneratedFile(GradleEnterpriseXmlPath, GradleEnterpriseConfigurationXml(o, acc.useCRLFNewLines))];
    if !acc.extensionsXmlExists {
      newFiles := newFiles + [GeneratedFile(ExtensionsXmlPath, EmptyExtensionsContent(EmptyExtensionsRoot()))];
    }
  }
}
