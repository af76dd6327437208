/**
 * The edit phase on `.mvn/extensions.xml`: detecting an existing Gradle Enterprise
 * extension entry, the tag template for a new entry, and the visitor that inserts it.
 */
module Editing {
  import opened Wrappers
  import opened Paths
  import opened Xml

  const ArtifactId: string := "gradle-enterprise-maven-extension"
  const GroupId: string := "com.gradle"

  /** The absolute path `/extensions/extension/artifactId`, one tag name per step. */
  const ArtifactIdXPath: seq<string> := ["extensions", "extension", "artifactId"]

  // --- What "the extension is already declared" means ---

  /** An `extension` tag with an `artifactId` child whose value is the Gradle Enterprise artifact id. */
  predicate IsEnterpriseEntry(t: Tag) {
    t.name == "extension" &&
    exists j :: 0 <= j < |t.children| && t.children[j].name == "artifactId" && t.children[j].value == Some(ArtifactId)
  }

  /** The root is `extensions` and one of its children is an enterprise entry. */
  predicate HasEnterpriseExtension(root: Tag) {
    root.name == "extensions" && exists i :: 0 <= i < |root.children| && IsEnterpriseEntry(root.children[i])
  }

  // --- The visitor's view: a tag at a cursor, given by the names of its ancestors ---

  /** Tag t, below the tags named by `ancestors`, matches the XPath and holds the artifact id. */
  predicate IsMatch(t: Tag, ancestors: seq<string>) {
    ancestors + [t.name] == ArtifactIdXPath && t.value == Some(ArtifactId)
  }

  /** Some tag in the subtree of t matches. */
  predicate MatchesInSubtree(t: Tag, ancestors: seq<string>)
    decreases t
  {
    IsMatch(t, ancestors) ||
    exists i :: 0 <= i < |t.children| && MatchesInSubtree(t.children[i], ancestors + [t.name])
  }

  /** A cursor already three tags deep never matches the three-step path. */
  lemma {:induction false} TooDeepNeverMatches(t: Tag, ancestors: seq<string>)
    requires |ancestors| >= 3
    ensures !MatchesInSubtree(t, ancestors)
    decreases t
  {
    forall i | 0 <= i < |t.children|
      ensures !MatchesInSubtree(t.children[i], ancestors + [t.name])
    {
      TooDeepNeverMatches(t.children[i], ancestors + [t.name]);
    }
  }

  /** A tag at depth two has a match in its subtree iff it is itself a match. */
  lemma DepthTwoMatches(g: Tag, ancestors: seq<string>)
    requires |ancestors| == 2
    ensures MatchesInSubtree(g, ancestors) <==> IsMatch(g, ancestors)
  {
    forall k | 0 <= k < |g.children|
      ensures !MatchesInSubtree(g.children[k], ancestors + [g.name])
    {
      TooDeepNeverMatches(g.children[k], ancestors + [g.name]);
    }
  }

  /** A child c of the root r matches below iff r is `extensions`, c is an enterprise entry. */
  lemma DepthOneMatches(c: Tag, rootName: string)
    ensures MatchesInSubtree(c, [rootName]) <==> rootName == "extensions" && IsEnterpriseEntry(c)
  {
    var anc := [rootName] + [c.name];
    forall j | 0 <= j < |c.children|
      ensures MatchesInSubtree(c.children[j], anc) <==> IsMatch(c.children[j], anc)
    {
      DepthTwoMatches(c.children[j], anc);
    }
    forall j | 0 <= j < |c.children|
      ensures IsMatch(c.children[j], anc) <==>
        rootName == "extensions" && c.name == "extension" &&
        c.children[j].name == "artifactId" && c.children[j].value == Some(ArtifactId)
    {
      assert anc + [c.children[j].name] == [rootName, c.name, c.children[j].name];
    }
    assert !IsMatch(c, [rootName]);
  }

  /**
   * Searching the whole tree for a match of `/extensions/extension/artifactId` holding the
   * artifact id finds one exactly when the document declares the extension: a matching
   * value at any other depth or path does not count.
   */
  lemma DetectionMeansDeclared(root: Tag)
    ensures MatchesInSubtree(root, []) <==> HasEnterpriseExtension(root)
  {
    assert [] + [root.name] == [root.name];
    forall i | 0 <= i < |root.children|
      ensures MatchesInSubtree(root.children[i], [root.name]) <==>
        root.name == "extensions" && IsEnterpriseEntry(root.children[i])
    {
      DepthOneMatches(root.children[i], root.name);
    }
    assert !IsMatch(root, []);
  }

  /**
   * One step of the visitor: if the shared flag is already set the tag is skipped;
   * otherwise its children are visited in order, and then the tag itself is tested.
   */
  method VisitTag(t: Tag, ancestors: seq<string>, found: bool) returns (r: bool)
    ensures r <==> found || MatchesInSubtree(t, ancestors)
    decreases t
  {
    if found {
      return true;
    }
    r := false;
    var cursor := ancestors + [t.name];
    var i := 0;
    while i < |t.children|
      invariant 0 <= i <= |t.children|
      invariant r <==> exists k :: 0 <= k < i && MatchesInSubtree(t.children[k], cursor)
    {
      r := VisitTag(t.children[i], cursor, r);
      i := i + 1;
    }
    if cursor == ArtifactIdXPath && t.value == Some(ArtifactId) {
      r := true;
    }
  }

  /** Whether `.mvn/extensions.xml` already declares the Gradle Enterprise extension. */
  method FindExistingEnterpriseExtension(extensionsXml: Document) returns (found: bool)
    ensures found <==> HasEnterpriseExtension(extensionsXml.root)
  {
    found := VisitTag(extensionsXml.root, [], false);
    DetectionMeansDeclared(extensionsXml.root);
  }

  // --- The entry to insert and the edit ---

  /** The entry template with a version element. */
  function EnterpriseTagWithVersion(version: string): Tag {
    Tag("extension", None, [Leaf("groupId", GroupId), Leaf("artifactId", ArtifactId), Leaf("version", version)])
  }

  /** The entry template without a version element. */
  function EnterpriseTagWithoutVersion(): Tag {
    Tag("extension", None, [Leaf("groupId", GroupId), Leaf("artifactId", ArtifactId)])
  }

  /**
   * The entry to insert: its group id is `com.gradle`, its artifact id the Gradle Enterprise
   * one, and it has a version element, holding the given text, exactly when a version is set.
   */
  function EnterpriseTag(version: Option<string>): (r: Tag)
    ensures r.name == "extension"
    ensures IsEnterpriseEntry(r)
    ensures ChildValue(r, "groupId") == Some(GroupId)
    ensures ChildValue(r, "artifactId") == Some(ArtifactId)
    ensures ChildValue(r, "version") == version
    ensures FindChild(r.children, "version").Some? <==> version.Some?
  {
    var tag := match version case Some(v) => EnterpriseTagWithVersion(v) case None => EnterpriseTagWithoutVersion();
    var common := EnterpriseTagWithoutVersion().children;
    assert common[1].name == "artifactId";
    assert FindChild(common, "version").None?;
    FindChildAppend(common, tag.children[2..], "version");
    FindChildAppend(common, tag.children[2..], "groupId");
    FindChildAppend(common, tag.children[2..], "artifactId");
    assert tag.children == common + tag.children[2..];
    tag
  }

  /** Add the entry as the last child of the document's root; everything else is kept. */
  function AddEnterpriseExtension(extensionsXml: Document, version: Option<string>): (r: Document)
    ensures r.path == extensionsXml.path
    ensures r.root.name == extensionsXml.root.name && r.root.value == extensionsXml.root.value
    ensures |r.root.children| == |extensionsXml.root.children| + 1
    ensures r.root.children[..|extensionsXml.root.children|] == extensionsXml.root.children
    ensures r.root.children[|extensionsXml.root.children|] == EnterpriseTag(version)
  {
    var root := extensionsXml.root;
    extensionsXml.(root := root.(children := root.children + [EnterpriseTag(version)]))
  }

  /** Whether the visitor edits a document: its path is `.mvn/extensions.xml` up to separators. */
  predicate IsExtensionsXml(d: Document) {
    EqualIgnoringSeparators(d.path, ExtensionsXmlPath)
  }

  /**
   * The edit visitor: every document other than `.mvn/extensions.xml` is returned unchanged;
   * that one always gets the entry, whether or not it already declares the extension.
   */
  function VisitDocument(document: Document, version: Option<string>): (r: Document)
    ensures r == document <==> !IsExtensionsXml(document)
    ensures IsExtensionsXml(document) ==> r == AddEnterpriseExtension(document, version)
  {
    if !IsExtensionsXml(document) then document
    else
      var r := AddEnterpriseExtension(document, version);
      assert |r.root.children| != |document.root.children|;
      r
  }

  // --- Counting entries: each edit adds one ---

  /** The number of enterprise entries in a list of tags. */
  function CountEntries(s: seq<Tag>): nat {
    if s == [] then 0 else (if IsEnterpriseEntry(s[|s| - 1]) then 1 else 0) + CountEntries(s[..|s| - 1])
  }

  /** There is an enterprise entry in `s` iff the count is positive. */
  lemma {:induction false} CountEntriesPositive(s: seq<Tag>)
    ensures CountEntries(s) > 0 <==> exists i :: 0 <= i < |s| && IsEnterpriseEntry(s[i])
  {
    if s != [] {
      var n := |s| - 1;
      CountEntriesPositive(s[..n]);
      assert forall i :: 0 <= i < n ==> s[..n][i] == s[i];
    }
  }

  /** After the edit the document declares the extension iff its root is `extensions`. */
  lemma EditedIsDetected(document: Document, version: Option<string>)
    requires IsExtensionsXml(document)
    ensures HasEnterpriseExtension(VisitDocument(document, version).root) <==> document.root.name == "extensions"
  {
    var r := VisitDocument(document, version);
    assert IsEnterpriseEntry(r.root.children[|document.root.children|]);
  }

  /**
   * Each visit of `.mvn/extensions.xml` adds exactly one enterprise entry, even when the
   * document already declares the extension.
   */
  lemma EditAddsOneEntry(document: Document, version: Option<string>)
    requires IsExtensionsXml(document)
    ensures CountEntries(VisitDocument(document, version).root.children) == CountEntries(document.root.children) + 1
  {
    var kids := VisitDocument(document, version).root.children;
    assert kids[..|kids| - 1] == document.root.children;
  }

  /**
   * The edit is not idempotent: visiting the edited document again changes it once more,
   * adding a second entry.
   */
  lemma EditTwiceAddsTwoEntries(document: Document, version: Option<string>)
    requires IsExtensionsXml(document)
    ensures var once := VisitDocument(document, version);
      var twice := VisitDocument(once, version);
      twice != once &&
      CountEntries(twice.root.children) == CountEntries(document.root.children) + 2
  {
    var once := VisitDocument(document, version);
    EditAddsOneEntry(document, version);
    assert IsExtensionsXml(once);
    EditAddsOneEntry(once, version);
  }

  /** A document that already declares the extension holds at least two entries after the edit. */
  lemma EditIgnoresExistingEntry(document: Document, version: Option<string>)
    requires IsExtensionsXml(document) && HasEnterpriseExtension(document.root)
    ensures CountEntries(VisitDocument(document, version).root.children) >= 2
  {
    CountEntriesPositive(document.root.children);
    EditAddsOneEntry(document, version);
  }

  /**
   * An `extensions` document whose only entry holds the artifact id is detected; the same
   * value directly under the root is not.
   */
  lemma DetectionExamples()
    ensures HasEnterpriseExtension(Tag("extensions", None, [Tag("extension", None, [Leaf("artifactId", ArtifactId)])]))
    ensures !HasEnterpriseExtension(Tag("extensions", None, [Leaf("artifactId", ArtifactId)]))
    ensures !HasEnterpriseExtension(Tag("extensions", None, [Tag("extension", None, [Leaf("artifactId", "other")])]))
  {
    var entry := Tag("extension", None, [Leaf("artifactId", ArtifactId)]);
    assert IsEnterpriseEntry(entry) by {
      assert entry.children[0].name == "artifactId";
    }
    assert Tag("extensions", None, [entry]).children[0] == entry;
    assert ArtifactId != "other";
  }
}
