/**
 * The recipe's options and the configuration records built from them for
 * `.mvn/gradle-enterprise.xml`, with the element tree the writer produces when it
 * leaves out every absent (null) field.
 */
module Configuration {
  import opened Wrappers
  import opened Xml

  datatype PublishCriteria = Always | Failure | Demand

  /** The name each publish criterion has in the configuration file. */
  function XmlName(p: PublishCriteria): (r: string)
    ensures p == Always <==> r == "ALWAYS"
    ensures p == Failure <==> r == "ON_FAILURE"
    ensures p == Demand <==> r == "ON_DEMAND"
  {
    match p
    case Always => "ALWAYS"
    case Failure => "ON_FAILURE"
    case Demand => "ON_DEMAND"
  }

  /** The recipe's options; every nullable one is an Option. */
  datatype Options = Options(
    version: Option<string>,
    server: string,
    allowUntrustedServer: Option<bool>,
    captureGoalInputFiles: Option<bool>,
    uploadInBackground: Option<bool>,
    publishCriteria: Option<PublishCriteria>)

  datatype ServerConfiguration = ServerConfiguration(url: string, allowUntrusted: Option<bool>)

  datatype Capture = Capture(goalInputFiles: bool)

  datatype BuildScanConfiguration = BuildScanConfiguration(
    backgroundBuildScanUpload: Option<bool>,
    publish: Option<string>,
    capture: Option<Capture>)

  datatype GradleEnterpriseConfiguration = GradleEnterpriseConfiguration(
    server: ServerConfiguration,
    buildScan: Option<BuildScanConfiguration>)

  /**
   * The build-scan record: absent when none of its three options is set; otherwise it
   * carries the upload flag as given, the publish criterion's file name, and a capture
   * record exactly when goal-input capture is set.
   */
  function BuildScanConfigurationOf(o: Options): (r: Option<BuildScanConfiguration>)
    ensures r.None? <==> o.uploadInBackground.None? && o.publishCriteria.None? && o.captureGoalInputFiles.None?
    ensures r.Some? ==> r.value.backgroundBuildScanUpload == o.uploadInBackground
    ensures r.Some? ==> (r.value.publish.Some? <==> o.publishCriteria.Some?)
    ensures r.Some? && o.publishCriteria.Some? ==> r.value.publish == Some(XmlName(o.publishCriteria.value))
    ensures r.Some? ==> (r.value.capture.Some? <==> o.captureGoalInputFiles.Some?)
    ensures r.Some? && o.captureGoalInputFiles.Some? ==> r.value.capture.value.goalInputFiles == o.captureGoalInputFiles.value
  {
    if o.uploadInBackground.Some? || o.publishCriteria.Some? || o.captureGoalInputFiles.Some? then
      Some(BuildScanConfiguration(
        o.uploadInBackground,
        match o.publishCriteria case Some(p) => Some(XmlName(p)) case None => None,
        match o.captureGoalInputFiles case Some(b) => Some(Capture(b)) case None => None))
    else
      None
  }

  /** The whole configuration: the server block always, the build-scan block when there is one. */
  function ConfigurationOf(o: Options): (r: GradleEnterpriseConfiguration)
    ensures r.server.url == o.server
    ensures r.server.allowUntrusted == o.allowUntrustedServer
    ensures r.buildScan == BuildScanConfigurationOf(o)
  {
    GradleEnterpriseConfiguration(ServerConfiguration(o.server, o.allowUntrustedServer), BuildScanConfigurationOf(o))
  }

  /** The line separator the writer uses: CRLF when the project uses CRLF, LF otherwise. */
  function NewLine(useCRLFNewLines: bool): (r: string)
    ensures r == "\r\n" <==> useCRLFNewLines
    ensures r == "\n" <==> !useCRLFNewLines
  {
    if useCRLFNewLines then "\r\n" else "\n"
  }

  // --- The element tree written for a configuration; absent fields produce no element ---

  function BoolText(b: bool): string {
    if b then "true" else "false"
  }

  function OptionalBool(name: string, v: Option<bool>): seq<Tag> {
    match v
    case Some(b) => [Leaf(name, BoolText(b))]
    case None => []
  }

  function OptionalText(name: string, v: Option<string>): seq<Tag> {
    match v
    case Some(s) => [Leaf(name, s)]
    case None => []
  }

  /** The written `server` element: the URL always, `allowUntrusted` only when it is set. */
  function ServerTree(s: ServerConfiguration): (r: Tag)
    ensures r.name == "server"
    ensures ChildValue(r, "url") == Some(s.url)
    ensures FindChild(r.children, "allowUntrusted") ==
      match s.allowUntrusted case Some(a) => Some(Leaf("allowUntrusted", BoolText(a))) case None => None
  {
    var allow := OptionalBool("allowUntrusted", s.allowUntrusted);
    FindChildAppend([Leaf("url", s.url)], allow, "url");
    FindChildAppend([Leaf("url", s.url)], allow, "allowUntrusted");
    FindOptionalBool("allowUntrusted", s.allowUntrusted, "url");
    FindOptionalBool("allowUntrusted", s.allowUntrusted, "allowUntrusted");
    Tag("server", None, [Leaf("url", s.url)] + allow)
  }

  /** The written `capture` element, holding the goal-input flag. */
  function CaptureTree(c: Capture): (r: Tag)
    ensures r.name == "capture"
    ensures FindChild(r.children, "goalInputFiles") == Some(Leaf("goalInputFiles", BoolText(c.goalInputFiles)))
  {
    Tag("capture", None, [Leaf("goalInputFiles", BoolText(c.goalInputFiles))])
  }

  /** The written `buildScan` element: each of its three fields appears only when it is set. */
  function BuildScanTree(b: BuildScanConfiguration): (r: Tag)
    ensures r.name == "buildScan"
    ensures FindChild(r.children, "backgroundBuildScanUpload") ==
      match b.backgroundBuildScanUpload case Some(u) => Some(Leaf("backgroundBuildScanUpload", BoolText(u))) case None => None
    ensures FindChild(r.children, "publish") ==
      match b.publish case Some(p) => Some(Leaf("publish", p)) case None => None
    ensures FindChild(r.children, "capture") ==
      match b.capture case Some(c) => Some(CaptureTree(c)) case None => None
  {
    var up := OptionalBool("backgroundBuildScanUpload", b.backgroundBuildScanUpload);
    var pub := OptionalText("publish", b.publish);
    var cap: seq<Tag> := match b.capture case Some(c) => [CaptureTree(c)] case None => [];
    FindChildAppend(up + pub, cap, "backgroundBuildScanUpload");
    FindChildAppend(up + pub, cap, "publish");
    FindChildAppend(up + pub, cap, "capture");
    FindChildAppend(up, pub, "backgroundBuildScanUpload");
    FindChildAppend(up, pub, "publish");
    FindChildAppend(up, pub, "capture");
    FindOptionalBool("backgroundBuildScanUpload", b.backgroundBuildScanUpload, "backgroundBuildScanUpload");
    FindOptionalBool("backgroundBuildScanUpload", b.backgroundBuildScanUpload, "publish");
    FindOptionalBool("backgroundBuildScanUpload", b.backgroundBuildScanUpload, "capture");
    FindOptionalText("publish", b.publish, "backgroundBuildScanUpload");
    FindOptionalText("publish", b.publish, "publish");
    FindOptionalText("publish", b.publish, "capture");
    Tag("buildScan", None, up + pub + cap)
  }

  /**
   * The element tree written for a configuration, absent (null) fields left out: the root
   * `gradleEnterprise` always holds the `server` element, and a `buildScan` element exactly
   * when there is a build-scan record.
   */
  function ConfigurationTree(c: GradleEnterpriseConfiguration): (r: Tag)
    ensures r.name == "gradleEnterprise"
    ensures FindChild(r.children, "server") == Some(ServerTree(c.server))
    ensures FindChild(r.children, "buildScan") ==
      match c.buildScan case Some(b) => Some(BuildScanTree(b)) case None => None
  {
    var scan: seq<Tag> := match c.buildScan case Some(b) => [BuildScanTree(b)] case None => [];
    FindChildAppend([ServerTree(c.server)], scan, "server");
    FindChildAppend([ServerTree(c.server)], scan, "buildScan");
    Tag("gradleEnterprise", None, [ServerTree(c.server)] + scan)
  }

  // --- Reading a configuration back from its element tree ---

  function ParseBool(s: string): Option<bool> {
    if s == "true" then Some(true) else if s == "false" then Some(false) else None
  }

  /** An optional boolean element: absent gives None, present must hold a boolean. */
  function ReadOptionalBool(t: Tag, name: string): Option<Option<bool>> {
    match FindChild(t.children, name)
    case None => Some(None)
    case Some(c) =>
      match c.value
      case None => None
      case Some(s) => match ParseBool(s) case Some(b) => Some(Some(b)) case None => None
  }

  /** An optional text element: absent gives None, present must hold a text. */
  function ReadOptionalText(t: Tag, name: string): Option<Option<string>> {
    match FindChild(t.children, name)
    case None => Some(None)
    case Some(c) => if c.value.Some? then Some(c.value) else None
  }

  function ReadServer(t: Tag): Option<ServerConfiguration> {
    match ChildValue(t, "url")
    case None => None
    case Some(url) =>
      match ReadOptionalBool(t, "allowUntrusted")
      case None => None
      case Some(allow) => Some(ServerConfiguration(url, allow))
  }

  function ReadCapture(t: Tag): Option<Capture> {
    match ReadOptionalBool(t, "goalInputFiles")
    case Some(Some(b)) => Some(Capture(b))
    case _ => None
  }

  function ReadBuildScan(t: Tag): Option<BuildScanConfiguration> {
    match ReadOptionalBool(t, "backgroundBuildScanUpload")
    case None => None
    case Some(upload) =>
      match ReadOptionalText(t, "publish")
      case None => None
      case Some(publish) =>
        match FindChild(t.children, "capture")
        case None => Some(BuildScanConfiguration(upload, publish, None))
        case Some(c) =>
          match ReadCapture(c)
          case None => None
          case Some(cap) => Some(BuildScanConfiguration(upload, publish, Some(cap)))
  }

  /** The configuration an element tree describes, if it describes one. */
  function ReadConfiguration(t: Tag): Option<GradleEnterpriseConfiguration> {
    if t.name != "gradleEnterprise" then None
    else
      match FindChild(t.children, "server")
      case None => None
      case Some(s) =>
        match ReadServer(s)
        case None => None
        case Some(server) =>
          match FindChild(t.children, "buildScan")
          case None => Some(GradleEnterpriseConfiguration(server, None))
          case Some(b) =>
            match ReadBuildScan(b)
            case None => None
            case Some(scan) => Some(GradleEnterpriseConfiguration(server, Some(scan)))
  }

  lemma ParseBoolText(b: bool)
    ensures ParseBool(BoolText(b)) == Some(b)
  {
  }

  /** Looking a name up among the at most one element an optional boolean field writes. */
  lemma FindOptionalBool(name: string, v: Option<bool>, query: string)
    ensures FindChild(OptionalBool(name, v), query) ==
      if v.Some? && query == name then Some(Leaf(name, BoolText(v.value))) else None
  {
  }

  /** Looking a name up among the at most one element an optional text field writes. */
  lemma FindOptionalText(name: string, v: Option<string>, query: string)
    ensures FindChild(OptionalText(name, v), query) ==
      if v.Some? && query == name then Some(Leaf(name, v.value)) else None
  {
  }

  lemma ServerRoundTrip(s: ServerConfiguration)
    ensures ReadServer(ServerTree(s)) == Some(s)
  {
    if s.allowUntrusted.Some? {
      ParseBoolText(s.allowUntrusted.value);
    }
  }

  lemma CaptureRoundTrip(c: Capture)
    ensures ReadCapture(CaptureTree(c)) == Some(c)
  {
    ParseBoolText(c.goalInputFiles);
  }

  lemma BuildScanRoundTrip(b: BuildScanConfiguration)
    ensures ReadBuildScan(BuildScanTree(b)) == Some(b)
  {
    var t := BuildScanTree(b);
    if b.backgroundBuildScanUpload.Some? {
      ParseBoolText(b.backgroundBuildScanUpload.value);
    }
    assert ReadOptionalBool(t, "backgroundBuildScanUpload") == Some(b.backgroundBuildScanUpload);
    assert ReadOptionalText(t, "publish") == Some(b.publish);
    match b.capture
    case None =>
      assert FindChild(t.children, "capture") == None;
      assert ReadBuildScan(t) == Some(BuildScanConfiguration(b.backgroundBuildScanUpload, b.publish, None));
    case Some(c) =>
      CaptureRoundTrip(c);
      assert FindChild(t.children, "capture") == Some(CaptureTree(c));
      assert ReadBuildScan(t) == Some(BuildScanConfiguration(b.backgroundBuildScanUpload, b.publish, Some(c)));
  }

  /**
   * Leaving absent fields out loses nothing: the configuration can be read back from
   * the element tree written for it.
   */
  lemma ConfigurationRoundTrip(c: GradleEnterpriseConfiguration)
    ensures ReadConfiguration(ConfigurationTree(c)) == Some(c)
  {
    ServerRoundTrip(c.server);
    if c.buildScan.Some? {
      BuildScanRoundTrip(c.buildScan.value);
    }
  }

  /**
   * What the written configuration shows of the options: the server URL always; an
   * `allowUntrusted` element only when that option is set; a `buildScan` element only when
   * one of its three options is set, and within it a `capture` element only when
   * goal-input capture is set and a `publish` element holding the criterion's name only
   * when a criterion is set.
   */
  lemma WrittenConfigurationShape(o: Options)
    ensures var root := ConfigurationTree(ConfigurationOf(o));
      var server := FindChild(root.children, "server");
      var scan := FindChild(root.children, "buildScan");
      && root.name == "gradleEnterprise"
      && server.Some? && ChildValue(server.value, "url") == Some(o.server)
      && (FindChild(server.value.children, "allowUntrusted").Some? <==> o.allowUntrustedServer.Some?)
      && (scan.Some? <==> o.uploadInBackground.Some? || o.publishCriteria.Some? || o.captureGoalInputFiles.Some?)
      && (scan.Some? ==> (FindChild(scan.value.children, "capture").Some? <==> o.captureGoalInputFiles.Some?))
      && (scan.Some? ==> (FindChild(scan.value.children, "backgroundBuildScanUpload").Some? <==> o.uploadInBackground.Some?))
      && (scan.Some? ==> (FindChild(scan.value.children, "publish").Some? <==> o.publishCriteria.Some?))
      && (scan.Some? ==> ChildValue(scan.value, "publish") == match o.publishCriteria case Some(p) => Some(XmlName(p)) case None => None)
  {
  }
}
