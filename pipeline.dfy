/** The phases together: scan every file, then generate, then edit. */
module Pipeline {
  import opened Wrappers
  import opened Paths
  import opened Xml
  import opened Scanner
  import opened Configuration
  import opened Generation
  import opened Editing

  /**
   * A recognised path whose flag the scan left unset names none of the scanned files,
   * up to separators.
   */
  lemma UnrecordedPathIsNew(acc: AccumulatorValue, files: seq<SourceFile>, path: string)
    requires Classify(path) != Other
    requires !Recorded(ScanAll(acc, files), Classify(path))
    ensures forall i :: 0 <= i < |files| ==> !EqualIgnoringSeparators(files[i].path, path)
  {
    ScanAllRecorded(acc, files, Classify(path));
  }

  /**
   * Scan every source file into a fresh accumulator, then generate. Files are generated
   * exactly when a `pom.xml` and no `.mvn/gradle-enterprise.xml` was scanned, and
   * `.mvn/extensions.xml` is among them exactly when none was scanned. No generated file has
   * the path of a scanned file, up to separators. When the edit phase then visits the
   * generated files, it leaves `.mvn/gradle-enterprise.xml` alone and gives the new
   * `.mvn/extensions.xml` the entry as its only child.
   */
  method ScanThenGenerate(files: seq<SourceFile>, o: Options) returns (newFiles: seq<GeneratedFile>)
    ensures newFiles != [] <==> Occurs(files, Pom) && !Occurs(files, GradleEnterpriseXml)
    ensures newFiles != [] ==> (|newFiles| == 2 <==> !Occurs(files, ExtensionsXml))
    ensures forall k, i :: 0 <= k < |newFiles| && 0 <= i < |files| ==>
      !EqualIgnoringSeparators(files[i].path, newFiles[k].path)
    ensures newFiles != [] ==> VisitDocument(AsDocument(newFiles[0]), o.version) == AsDocument(newFiles[0])
    ensures |newFiles| == 2 ==>
      var edited := VisitDocument(AsDocument(newFiles[1]), o.version);
      edited.root.children == [EnterpriseTag(o.version)] && HasEnterpriseExtension(edited.root)
  {
    var acc := new Accumulator();
    var n := 0;
    while n < |files|
      invariant 0 <= n <= |files|
      invariant acc.Value() == ScanAll(Initial, files[..n])
    {
      acc.Scan(files[n].path, files[n].crlfStyle);
      assert files[..n + 1][..n] == files[..n];
      n := n + 1;
    }
    assert files[..n] == files;
    var scanned := acc.Value();
    newFiles := Generate(scanned, o);
    ScanAllRecorded(Initial, files, Pom);
    ScanAllRecorded(Initial, files, GradleEnterpriseXml);
    ScanAllRecorded(Initial, files, ExtensionsXml);
    if newFiles != [] {
      GeneratedConfigurationNotEdited(newFiles[0].content, o.version);
    }
    if |newFiles| == 2 {
      NewExtensionsXmlGetsEntry(o.version);
    }
    forall k | 0 <= k < |newFiles|
      ensures forall i :: 0 <= i < |files| ==> !EqualIgnoringSeparators(files[i].path, newFiles[k].path)
    {
      UnrecordedPathIsNew(Initial, files, newFiles[k].path);
    }
  }

  /**
   * A newly generated `.mvn/extensions.xml`, visited by the edit phase, ends up with the
   * entry as its only child, and then declares the extension.
   */
  lemma NewExtensionsXmlGetsEntry(version: Option<string>)
    ensures var generated := GeneratedFile(ExtensionsXmlPath, EmptyExtensionsContent(EmptyExtensionsRoot()));
      var edited := VisitDocument(AsDocument(generated), version);
      edited.root.children == [EnterpriseTag(version)] && HasEnterpriseExtension(edited.root)
  {
    var d := AsDocument(GeneratedFile(ExtensionsXmlPath, EmptyExtensionsContent(EmptyExtensionsRoot())));
    RecognisedPathsNormalised();
    assert IsExtensionsXml(d);
    EditedIsDetected(d, version);
  }

  /** The edit phase leaves a generated `.mvn/gradle-enterprise.xml` unchanged. */
  lemma GeneratedConfigurationNotEdited(content: ContentKind, version: Option<string>)
    ensures var d := AsDocument(GeneratedFile(GradleEnterpriseXmlPath, content));
      VisitDocument(d, version) == d
  {
    ClassifyPathOf(GradleEnterpriseXml);
    ClassifyMeansEqualIgnoringSeparators(GradleEnterpriseXmlPath, ExtensionsXml);
  }
}
