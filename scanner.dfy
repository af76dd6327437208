/**
 * The scanning phase: every source file of the project is visited once and four facts
 * about the project are recorded in the accumulator.
 */
module Scanner {
  import opened Wrappers
  import opened Paths

  /** The accumulator's four facts as a value. */
  datatype AccumulatorValue = AccumulatorValue(
    isMavenProject: bool,
    useCRLFNewLines: bool,
    extensionsXmlExists: bool,
    gradleEnterpriseXmlExists: bool)

  /** A freshly created accumulator: every fact is false. */
  const Initial: AccumulatorValue := AccumulatorValue(false, false, false, false)

  /**
   * What the scanner sees of a source file: its path and, when a general format style is
   * attached to it, that style's CRLF flag.
   */
  datatype SourceFile = SourceFile(path: string, crlfStyle: Option<bool>)

  /** The existence flag recording that a file of kind k was seen (false for Other). */
  predicate Recorded(acc: AccumulatorValue, k: FileKind) {
    match k
    case Pom => acc.isMavenProject
    case ExtensionsXml => acc.extensionsXmlExists
    case GradleEnterpriseXml => acc.gradleEnterpriseXmlExists
    case Other => false
  }

  /**
   * The effect of visiting one source file: `pom.xml` sets the Maven flag and takes the CRLF
   * flag from the file's style (false without one); each `.mvn` file sets only its own flag;
   * any other file changes nothing.
   */
  function Observe(acc: AccumulatorValue, f: SourceFile): (r: AccumulatorValue)
    ensures Classify(f.path) == Pom ==>
      r.isMavenProject && r.useCRLFNewLines == f.crlfStyle.GetOr(false) &&
      r.extensionsXmlExists == acc.extensionsXmlExists && r.gradleEnterpriseXmlExists == acc.gradleEnterpriseXmlExists
    ensures Classify(f.path) == ExtensionsXml ==>
      r.extensionsXmlExists && r.isMavenProject == acc.isMavenProject &&
      r.useCRLFNewLines == acc.useCRLFNewLines && r.gradleEnterpriseXmlExists == acc.gradleEnterpriseXmlExists
    ensures Classify(f.path) == GradleEnterpriseXml ==>
      r.gradleEnterpriseXmlExists && r.isMavenProject == acc.isMavenProject &&
      r.useCRLFNewLines == acc.useCRLFNewLines && r.extensionsXmlExists == acc.extensionsXmlExists
    ensures Classify(f.path) == Other ==> r == acc
  {
    match Classify(f.path)
    case Pom => acc.(isMavenProject := true, useCRLFNewLines := f.crlfStyle.GetOr(false))
    case ExtensionsXml => acc.(extensionsXmlExists := true)
    case GradleEnterpriseXml => acc.(gradleEnterpriseXmlExists := true)
    case Other => acc
  }

  /**
   * The accumulator after visiting `files` in order, the last one last: no existence flag
   * is ever cleared, and files of no recognised kind change nothing.
   */
  function ScanAll(acc: AccumulatorValue, files: seq<SourceFile>): (r: AccumulatorValue)
    ensures forall k :: Recorded(acc, k) ==> Recorded(r, k)
    ensures (forall i :: 0 <= i < |files| ==> Classify(files[i].path) == Other) ==> r == acc
    decreases |files|
  {
    if files == [] then acc
    else Observe(ScanAll(acc, files[..|files| - 1]), files[|files| - 1])
  }

  /** Files of one kind occur in `files`. */
  predicate Occurs(files: seq<SourceFile>, k: FileKind) {
    exists i :: 0 <= i < |files| && Classify(files[i].path) == k
  }

  /** Index i holds the last `pom.xml` of `files`. */
  predicate LastPomAt(files: seq<SourceFile>, i: int) {
    0 <= i < |files| && Classify(files[i].path) == Pom &&
    forall j :: i < j < |files| ==> Classify(files[j].path) != Pom
  }

  /** Visiting a file never clears an existence flag, and sets the flag of the file's own kind. */
  lemma ObserveMonotone(acc: AccumulatorValue, f: SourceFile)
    ensures forall k :: Recorded(acc, k) ==> Recorded(Observe(acc, f), k)
    ensures Classify(f.path) != Other ==> Recorded(Observe(acc, f), Classify(f.path))
  {
  }

  /**
   * After a scan, the flag of kind k is set exactly when it was set before or some scanned
   * file is of kind k: the flags are only ever switched on.
   */
  lemma {:induction false} ScanAllRecorded(acc: AccumulatorValue, files: seq<SourceFile>, k: FileKind)
    requires k != Other
    ensures Recorded(ScanAll(acc, files), k) <==> Recorded(acc, k) || Occurs(files, k)
    decreases |files|
  {
    if files != [] {
      var n := |files| - 1;
      var init := files[..n];
      ScanAllRecorded(acc, init, k);
      assert forall i :: 0 <= i < n ==> init[i] == files[i];
      if Occurs(files, k) && !Occurs(init, k) {
        var i :| 0 <= i < |files| && Classify(files[i].path) == k;
        assert i == n;
      }
      if Occurs(init, k) {
        var i :| 0 <= i < |init| && Classify(init[i].path) == k;
        assert Classify(files[i].path) == k;
      }
    }
  }

  /**
   * The three existence flags depend only on which files are scanned, not on the order
   * or on repetitions.
   */
  lemma ScanFlagsOrderIndependent(acc: AccumulatorValue, fs: seq<SourceFile>, gs: seq<SourceFile>)
    requires forall f :: f in fs <==> f in gs
    ensures ScanAll(acc, fs).isMavenProject == ScanAll(acc, gs).isMavenProject
    ensures ScanAll(acc, fs).extensionsXmlExists == ScanAll(acc, gs).extensionsXmlExists
    ensures ScanAll(acc, fs).gradleEnterpriseXmlExists == ScanAll(acc, gs).gradleEnterpriseXmlExists
  {
    forall k | k != Other
      ensures Recorded(ScanAll(acc, fs), k) == Recorded(ScanAll(acc, gs), k)
    {
      ScanAllRecorded(acc, fs, k);
      ScanAllRecorded(acc, gs, k);
      SameFilesSameKinds(fs, gs, k);
    }
    assert Recorded(ScanAll(acc, fs), Pom) == Recorded(ScanAll(acc, gs), Pom);
    assert Recorded(ScanAll(acc, fs), ExtensionsXml) == Recorded(ScanAll(acc, gs), ExtensionsXml);
    assert Recorded(ScanAll(acc, fs), GradleEnterpriseXml) == Recorded(ScanAll(acc, gs), GradleEnterpriseXml);
  }

  lemma SameFilesSameKinds(fs: seq<SourceFile>, gs: seq<SourceFile>, k: FileKind)
    requires forall f :: f in fs <==> f in gs
    ensures Occurs(fs, k) <==> Occurs(gs, k)
  {
    if Occurs(fs, k) {
      var i :| 0 <= i < |fs| && Classify(fs[i].path) == k;
      assert fs[i] in gs;
    }
    if Occurs(gs, k) {
      var i :| 0 <= i < |gs| && Classify(gs[i].path) == k;
      assert gs[i] in fs;
    }
  }

  /** Visiting a file other than `pom.xml` leaves the CRLF flag alone. */
  lemma ObserveKeepsNewLines(acc: AccumulatorValue, f: SourceFile)
    requires Classify(f.path) != Pom
    ensures Observe(acc, f).useCRLFNewLines == acc.useCRLFNewLines
  {
  }

  /** With no `pom.xml` among the scanned files, the CRLF flag is left as it was. */
  lemma {:induction false} ScanWithoutPomKeepsNewLines(acc: AccumulatorValue, files: seq<SourceFile>)
    requires !Occurs(files, Pom)
    ensures ScanAll(acc, files).useCRLFNewLines == acc.useCRLFNewLines
    decreases |files|
  {
    if files != [] {
      var n := |files| - 1;
      assert Classify(files[n].path) != Pom;
      assert forall i :: 0 <= i < n ==> files[..n][i] == files[i];
      ScanWithoutPomKeepsNewLines(acc, files[..n]);
      ObserveKeepsNewLines(ScanAll(acc, files[..n]), files[n]);
    }
  }

  /** The CRLF flag comes from the last `pom.xml` scanned, and is false when that file carries no style. */
  lemma {:induction false} ScanTakesNewLinesFromLastPom(acc: AccumulatorValue, files: seq<SourceFile>, i: int)
    requires LastPomAt(files, i)
    ensures ScanAll(acc, files).useCRLFNewLines == files[i].crlfStyle.GetOr(false)
    decreases |files|
  {
    var n := |files| - 1;
    if i < n {
      assert files[..n][i] == files[i];
      assert forall j :: i < j < n ==> files[..n][j] == files[j];
      assert LastPomAt(files[..n], i);
      ScanTakesNewLinesFromLastPom(acc, files[..n], i);
      ObserveKeepsNewLines(ScanAll(acc, files[..n]), files[n]);
    }
  }

  /**
   * When each scan sees at most one `pom.xml`, the whole accumulator depends only on which
   * files are scanned.
   */
  lemma ScanOrderIndependent(acc: AccumulatorValue, fs: seq<SourceFile>, gs: seq<SourceFile>)
    requires forall f :: f in fs <==> f in gs
    requires forall i, j :: 0 <= i < j < |fs| ==> !(Classify(fs[i].path) == Pom && Classify(fs[j].path) == Pom)
    requires forall i, j :: 0 <= i < j < |gs| ==> !(Classify(gs[i].path) == Pom && Classify(gs[j].path) == Pom)
    ensures ScanAll(acc, fs) == ScanAll(acc, gs)
  {
    ScanFlagsOrderIndependent(acc, fs, gs);
    SameFilesSameKinds(fs, gs, Pom);
    if Occurs(fs, Pom) {
      var i :| 0 <= i < |fs| && Classify(fs[i].path) == Pom;
      assert fs[i] in gs;
      var j :| 0 <= j < |gs| && gs[j] == fs[i];
      ScanTakesNewLinesFromLastPom(acc, fs, i);
      ScanTakesNewLinesFromLastPom(acc, gs, j);
    } else {
      ScanWithoutPomKeepsNewLines(acc, fs);
      ScanWithoutPomKeepsNewLines(acc, gs);
    }
  }

  /** The accumulator the recipe updates in place while it scans. */
  class Accumulator {
    var isMavenProject: bool
    var useCRLFNewLines: bool
    var extensionsXmlExists: bool
    var gradleEnterpriseXmlExists: bool

    /** The four facts as a value. */
    function Value(): AccumulatorValue
      reads this
    {
      AccumulatorValue(isMavenProject, useCRLFNewLines, extensionsXmlExists, gradleEnterpriseXmlExists)
    }

    constructor ()
      ensures Value() == Initial
    {
      isMavenProject := false;
      useCRLFNewLines := false;
      extensionsXmlExists := false;
      gradleEnterpriseXmlExists := false;
    }

    /** Visit one source file: classify its normalised path and record what it tells. */
    method Scan(path: string, crlfStyle: Option<bool>)
      modifies this
      ensures Value() == Observe(old(Value()), SourceFile(path, crlfStyle))
      ensures ToUnix(path) == PomXmlPath ==>
        isMavenProject && useCRLFNewLines == crlfStyle.GetOr(false) &&
        extensionsXmlExists == old(extensionsXmlExists) && gradleEnterpriseXmlExists == old(gradleEnterpriseXmlExists)
      ensures ToUnix(path) == ExtensionsXmlPath ==>
        extensionsXmlExists && isMavenProject == old(isMavenProject) &&
        useCRLFNewLines == old(useCRLFNewLines) && gradleEnterpriseXmlExists == old(gradleEnterpriseXmlExists)
      ensures ToUnix(path) == GradleEnterpriseXmlPath ==>
        gradleEnterpriseXmlExists && isMavenProject == old(isMavenProject) &&
        useCRLFNewLines == old(useCRLFNewLines) && extensionsXmlExists == old(extensionsXmlExists)
      ensures ToUnix(path) !in {PomXmlPath, ExtensionsXmlPath, GradleEnterpriseXmlPath} ==> Value() == old(Value())
      ensures old(isMavenProject) ==> isMavenProject
      ensures old(extensionsXmlExists) ==> extensionsXmlExists
      ensures old(gradleEnterpriseXmlExists) ==> gradleEnterpriseXmlExists
    {
      var sourcePath := ToUnix(path);
      if sourcePath == PomXmlPath {
        isMavenProject := true;
        useCRLFNewLines := crlfStyle.GetOr(false);
      } else if sourcePath == ExtensionsXmlPath {
        extensionsXmlExists := true;
      } else if sourcePath == GradleEnterpriseXmlPath {
        gradleEnterpriseXmlExists := true;
      }
    }
  }
}
