/** Image references, the helm arguments of an upgrade, and the status read back from a release. */
module Deploy {
  import opened Options
  import opened Strings

  datatype ImageRef = ImageRef(repository: string, tag: Option<string>, digest: Option<string>)

  // ---------- parsing and printing ----------

  datatype Cut = Cut(front: string, back: Option<string>)

  /** Cuts at the first @. */
  function CutDigest(image: string): (r: Cut)
    ensures '@' !in r.front
    ensures r.back.None? ==> r.front == image
    ensures r.back.Some? ==> image == r.front + "@" + r.back.value
  {
    match Find(image, '@')
    case None => Cut(image, None)
    case Some(i) =>
      assert image == image[..i] + [image[i]] + image[i + 1..];
      Cut(image[..i], Some(image[i + 1..]))
  }

  /** A tag: no slash and no colon, so that it can only be what follows the last colon of the last segment. */
  predicate IsTag(tag: string) {
    '/' !in tag && ':' !in tag
  }

  /** Cuts at the last colon, unless a slash follows it: then it belongs to a registry port. */
  function CutTag(name: string): (r: Cut)
    ensures r.back.None? ==> r.front == name
    ensures r.back.Some? ==> name == r.front + ":" + r.back.value && IsTag(r.back.value)
  {
    var start := match FindLast(name, '/') case None => 0 case Some(i) => i + 1;
    match FindLast(name[start..], ':')
    case None => Cut(name, None)
    case Some(i) =>
      ColonSplits(name, start, i);
      Cut(name[..start + i], Some(name[start + i + 1..]))
  }

  lemma ColonSplits(name: string, start: nat, i: nat)
    requires start <= |name| && '/' !in name[start..]
    requires i < |name| - start && name[start..][i] == ':' && ':' !in name[start..][i + 1..]
    ensures name == name[..start + i] + ":" + name[start + i + 1..] && IsTag(name[start + i + 1..])
  {
    var tag := name[start + i + 1..];
    assert tag == name[start..][i + 1..];
    assert forall k | 0 <= k < |tag| :: tag[k] == name[start..][i + 1 + k];
  }

  /** Parses repo[:tag][@digest]. */
  function Parse(image: string): ImageRef {
    var cut := CutDigest(image);
    var name := CutTag(cut.front);
    ImageRef(name.front, name.back, cut.back)
  }

  function Print(image: ImageRef): string {
    match (image.digest, image.tag)
    case (Some(digest), _) => image.repository + "@" + digest
    case (None, Some(tag)) => image.repository + ":" + tag
    case (None, None) => image.repository
  }

  /** The name carries no tag. */
  predicate Untagged(name: string) {
    CutTag(name).back.None?
  }

  lemma SumsEqual(a: string, b: string, c: string, d: string)
    requires '@' !in a && '@' !in c
    ensures a + "@" + b == c + "@" + d <==> a == c && b == d
  {
    var s, t := a + "@" + b, c + "@" + d;
    assert s[|a|] == '@' && t[|c|] == '@';
    assert |a| < |c| ==> t[|a|] == c[|a|];
    assert |c| < |a| ==> s[|c|] == a[|c|];
    assert a == s[..|a|] && c == t[..|c|];
    assert b == s[|a| + 1..] && d == t[|c| + 1..];
  }

  lemma HoldsAt(a: string, b: string)
    ensures '@' in a + "@" + b
  {
    assert (a + "@" + b)[|a|] == '@';
  }

  lemma CutDigestOf(name: string, digest: string)
    requires '@' !in name
    ensures CutDigest(name) == Cut(name, None)
    ensures CutDigest(name + "@" + digest) == Cut(name, Some(digest))
  {
    var bare := CutDigest(name);
    HoldsAt(bare.front, bare.back.GetOr([]));
    var cut := CutDigest(name + "@" + digest);
    HoldsAt(name, digest);
    if cut.back.Some? { SumsEqual(name, digest, cut.front, cut.back.value); }
  }

  /** Where a tag is cut off is determined by the text. */
  lemma TagsEqual(a: string, b: string, c: string, d: string)
    requires IsTag(b) && IsTag(d)
    ensures a + ":" + b == c + ":" + d <==> a == c && b == d
  {
    var s, t := a + ":" + b, c + ":" + d;
    assert s[|a|] == ':' && t[|c|] == ':';
    assert |a| < |c| < |s| ==> s[|c|] == b[|c| - |a| - 1];
    assert |c| < |a| < |t| ==> t[|a|] == d[|a| - |c| - 1];
    assert a == s[..|a|] && c == t[..|c|];
    assert b == s[|a| + 1..] && d == t[|c| + 1..];
  }

  lemma NoSlashBehind(name: string, tag: string, i: nat)
    requires IsTag(tag) && |name| <= i < |name + ":" + tag|
    ensures (name + ":" + tag)[i] != '/'
  {
    if i > |name| { assert (name + ":" + tag)[i] == tag[i - |name| - 1]; }
  }

  lemma CutTagOf(name: string, tag: string)
    requires IsTag(tag)
    ensures CutTag(name + ":" + tag) == Cut(name, Some(tag))
  {
    var text := name + ":" + tag;
    var slash := FindLast(text, '/');
    if slash.Some? && slash.value >= |name| { NoSlashBehind(name, tag, slash.value); }
    var start := match slash case None => 0 case Some(i) => i + 1;
    assert start <= |name|;
    assert text[start..][|name| - start] == ':';
    var cut := CutTag(text);
    TagsEqual(name, tag, cut.front, cut.back.value);
  }

  /** Printing what was parsed gives the text back exactly when it has no @, or no tag in front of the first one:
      a tag next to a digest is dropped. */
  lemma PrintOfParse(image: string)
    ensures Print(Parse(image)) == image <==> CutDigest(image).back.None? || Untagged(CutDigest(image).front)
  {
    var cut := CutDigest(image);
    if cut.back.Some? {
      var name := CutTag(cut.front);
      FrontClean(cut.front);
      SumsEqual(name.front, cut.back.value, cut.front, cut.back.value);
    }
  }

  lemma FrontClean(name: string)
    requires '@' !in name
    ensures '@' !in CutTag(name).front && |CutTag(name).front| <= |name|
    ensures CutTag(name).front == name <==> Untagged(name)
  {
    var cut := CutTag(name);
    assert forall i | 0 <= i < |cut.front| :: cut.front[i] == name[i];
  }

  // ---------- deploying ----------

  /** What the lock asks for, and where it is installed. */
  datatype DeployValues = DeployValues(image: string, version: string, release: string, namespace: string,
                                       chart: string, valuesFiles: seq<string>, timeout: nat)

  /** One flag of `helm upgrade --install`, with its operand. */
  datatype HelmArg =
    | Release(name: string)
    | Chart(path: string)
    | ValuesFile(file: string)
    | Namespace(name: string)
    | SetString(key: string, value: string)
    | Wait
    | Timeout(seconds: nat)
    | Atomic
    | CleanupOnFail

  /** The image to run; the version serves as the tag when the lock's image has neither tag nor digest. */
  function Wanted(v: DeployValues): (r: ImageRef)
    ensures r.tag.Some? || r.digest.Some?
  {
    var image := Parse(v.image);
    if image.digest.None? && image.tag.None? then image.(tag := Some(v.version)) else image
  }

  function FileArgs(files: seq<string>): seq<HelmArg> {
    seq(|files|, i requires 0 <= i < |files| => ValuesFile(files[i]))
  }

  /** The one setting that picks the image: its digest when pinned, else its tag. */
  function Pin(image: ImageRef): HelmArg
    requires image.tag.Some? || image.digest.Some?
  {
    if image.digest.Some? then SetString("image.digest", image.digest.value)
    else SetString("image.tag", image.tag.value)
  }

  function SettingsFor(v: DeployValues): seq<HelmArg> {
    [SetString("image.repository", Wanted(v).repository), Pin(Wanted(v)), SetString("image.version", v.version)]
  }

  function ArgsFor(v: DeployValues): seq<HelmArg> {
    [Release(v.release), Chart(v.chart)] + FileArgs(v.valuesFiles) + [Namespace(v.namespace)]
    + SettingsFor(v) + [Wait, Timeout(v.timeout), Atomic, CleanupOnFail]
  }

  method HelmUpgradeArgs(v: DeployValues) returns (args: seq<HelmArg>)
    ensures args == ArgsFor(v)
  {
    args := [Release(v.release), Chart(v.chart)];
    for i := 0 to |v.valuesFiles|
      invariant args == [Release(v.release), Chart(v.chart)] + FileArgs(v.valuesFiles[..i])
    {
      assert FileArgs(v.valuesFiles[..i + 1]) == FileArgs(v.valuesFiles[..i]) + [ValuesFile(v.valuesFiles[i])];
      args := args + [ValuesFile(v.valuesFiles[i])];
    }
    assert v.valuesFiles[..|v.valuesFiles|] == v.valuesFiles;
    args := args + [Namespace(v.namespace)];
    ghost var head := args;
    var image := Wanted(v);
    args := args + [SetString("image.repository", image.repository)];
    match (image.digest, image.tag) {
      case (Some(digest), _) => args := args + [SetString("image.digest", digest)];
      case (None, Some(tag)) => args := args + [SetString("image.tag", tag)];
    }
    args := args + [SetString("image.version", v.version)];
    assert args == head + SettingsFor(v);
    args := args + [Wait, Timeout(v.timeout), Atomic, CleanupOnFail];
  }

  // ---------- the release ----------

  /** A chart value under `image`. */
  datatype Json = JString(text: string) | JNumber(repr: string) | JOther

  /** The values a release was installed with, by dotted key. */
  type Values = map<string, Json>

  /** What the flags do to the values of the chart and its files: --set-string puts a text, the rest put nothing. */
  function Applied(values: Values, args: seq<HelmArg>): Values {
    if args == [] then values
    else
      var last := args[|args| - 1];
      var before := Applied(values, args[..|args| - 1]);
      if last.SetString? then before[last.key := JString(last.value)] else before
  }

  function NonEmpty(values: Values, key: string): Option<string> {
    if key in values && values[key].JString? && values[key].text != [] then Some(values[key].text) else None
  }

  function ImageFromValues(values: Values): Option<ImageRef> {
    match NonEmpty(values, "image.repository")
    case None => None
    case Some(repository) =>
      Some(ImageRef(repository, NonEmpty(values, "image.tag"), NonEmpty(values, "image.digest")))
  }

  function VersionAt(values: Values, key: string): Option<string> {
    if key !in values then None
    else match values[key]
      case JString(text) => if text != [] then Some(text) else None
      case JNumber(repr) => Some(repr)
      case JOther => None
  }

  function VersionFromValues(values: Values): Option<string> {
    if VersionAt(values, "image.version").Some? then VersionAt(values, "image.version")
    else VersionAt(values, "image.tag")
  }

  function RunningImage(values: Values): Option<string> {
    match ImageFromValues(values) case None => None case Some(image) => Some(Print(image))
  }

  predicate IsRunning(v: DeployValues, running: Option<string>) {
    running.Some? && Print(Parse(running.value)) == Print(Wanted(v))
  }

  datatype Health = Healthy | Unhealthy | Degraded | NotDeployed

  function StatusOf(running: Option<string>, desired: Option<DeployValues>): Health {
    match (running, desired)
    case (None, None) => NotDeployed
    case (None, Some(_)) => Unhealthy
    case (Some(_), Some(want)) => if IsRunning(want, running) then Healthy else Degraded
    case (Some(_), None) => Degraded
  }

  /** The values of the release right after deploying v over a chart with the given values. */
  function Deployed(base: Values, v: DeployValues): Values {
    Applied(base, ArgsFor(v))
  }

  // ---------- deploy, then status ----------

  /** An @ in a tag reads back as the start of a digest, which keeps the text only if the name before it then
      carries no tag. */
  predicate TagReadsBack(repository: string, tag: string) {
    CutDigest(tag).back.Some? ==> Untagged(repository + ":" + CutDigest(tag).front)
  }

  /** A tag ending in its only @ which reads back as the repository with an empty digest. */
  predicate TagReadsAsEmptyDigest(repository: string, tag: string) {
    CutDigest(tag).back == Some([]) && CutTag(repository + ":" + CutDigest(tag).front).front == repository
  }

  function Set(text: string): Option<string> {
    if text == [] then None else Some(text)
  }

  /** The image the values render after a deploy: what was set, and the chart's own values elsewhere. */
  function ImageAfter(base: Values, wanted: ImageRef): Option<ImageRef>
    requires wanted.tag.Some? || wanted.digest.Some?
  {
    if wanted.repository == [] then None
    else Some(match wanted.digest
      case Some(digest) => ImageRef(wanted.repository, NonEmpty(base, "image.tag"), Set(digest))
      case None => ImageRef(wanted.repository, Set(wanted.tag.value), NonEmpty(base, "image.digest")))
  }

  lemma {:induction false} AppliedInTurn(values: Values, a: seq<HelmArg>, b: seq<HelmArg>)
    ensures Applied(values, a + b) == Applied(Applied(values, a), b)
  {
    if b == [] {
      assert a + b == a;
    } else {
      AppliedInTurn(values, a, b[..|b| - 1]);
      assert (a + b)[..|a + b| - 1] == a + b[..|b| - 1];
    }
  }

  lemma {:induction false} AppliedNothing(values: Values, args: seq<HelmArg>)
    requires forall i | 0 <= i < |args| :: !args[i].SetString?
    ensures Applied(values, args) == values
  {
    if args != [] { AppliedNothing(values, args[..|args| - 1]); }
  }

  lemma AppliedOne(values: Values, arg: HelmArg)
    requires arg.SetString?
    ensures Applied(values, [arg]) == values[arg.key := JString(arg.value)]
  {
    assert [arg][..0] == [];
  }

  function Put(values: Values, arg: HelmArg): Values
    requires arg.SetString?
  {
    values[arg.key := JString(arg.value)]
  }

  /** Only the three image settings change the values. */
  lemma DeployedValues(base: Values, v: DeployValues)
    ensures Deployed(base, v) == Put(Put(Put(base, SettingsFor(v)[0]), SettingsFor(v)[1]), SettingsFor(v)[2])
  {
    var front := [Release(v.release), Chart(v.chart)] + FileArgs(v.valuesFiles) + [Namespace(v.namespace)];
    var back := [Wait, Timeout(v.timeout), Atomic, CleanupOnFail];
    var settings := SettingsFor(v);
    AppliedNothing(base, front);
    AppliedInTurn(base, front, settings);
    AppliedNothing(Applied(base, settings), back);
    AppliedInTurn(base, front + settings, back);
    AppliedOne(base, settings[0]);
    AppliedInTurn(base, [settings[0]], [settings[1]]);
    AppliedOne(Put(base, settings[0]), settings[1]);
    AppliedInTurn(base, [settings[0], settings[1]], [settings[2]]);
    AppliedOne(Put(Put(base, settings[0]), settings[1]), settings[2]);
    assert [settings[0]] + [settings[1]] == [settings[0], settings[1]];
    assert [settings[0], settings[1]] + [settings[2]] == settings;
  }

  lemma PutReads(values: Values, arg: HelmArg, key: string)
    requires arg.SetString?
    ensures NonEmpty(Put(values, arg), key) == if key == arg.key then Set(arg.value) else NonEmpty(values, key)
  {
  }

  /** How one key reads after the three settings. */
  lemma DeployedReads(base: Values, v: DeployValues, key: string)
    requires key != "image.version"
    ensures NonEmpty(Deployed(base, v), key)
         == if key == Pin(Wanted(v)).key then Set(Pin(Wanted(v)).value)
            else if key == "image.repository" then Set(Wanted(v).repository)
            else NonEmpty(base, key)
  {
    var settings := SettingsFor(v);
    DeployedValues(base, v);
    PutReads(base, settings[0], key);
    PutReads(Put(base, settings[0]), settings[1], key);
    PutReads(Put(Put(base, settings[0]), settings[1]), settings[2], key);
  }

  lemma DeployedImage(base: Values, v: DeployValues)
    ensures ImageFromValues(Deployed(base, v)) == ImageAfter(base, Wanted(v))
  {
    DeployedReads(base, v, "image.repository");
    DeployedReads(base, v, "image.tag");
    DeployedReads(base, v, "image.digest");
  }

  lemma WantedRepositoryClean(v: DeployValues)
    ensures '@' !in Wanted(v).repository
  {
    FrontClean(CutDigest(v.image).front);
  }

  predicate SamePrint(running: ImageRef, wanted: ImageRef) {
    Print(Parse(Print(running))) == Print(wanted)
  }

  /** A pinned repository whose own last segment has a colon loses what follows it when read back. */
  lemma PinnedBack(repository: string, tag: Option<string>, wantedTag: Option<string>, digest: string)
    requires '@' !in repository
    ensures SamePrint(ImageRef(repository, tag, Some(digest)), ImageRef(repository, wantedTag, Some(digest)))
       <==> Untagged(repository)
  {
    CutDigestOf(repository, digest);
    FrontClean(repository);
    SumsEqual(CutTag(repository).front, digest, repository, digest);
  }

  /** The parts of a tagged reference whose tag holds an @. */
  lemma TagCut(repository: string, tag: string)
    requires '@' !in repository
    ensures CutDigest(repository + ":" + tag) == Cut(repository + ":" + CutDigest(tag).front, CutDigest(tag).back)
  {
    var cut := CutDigest(tag);
    var name := repository + ":" + cut.front;
    NamedClean(repository, cut.front);
    CutDigestOf(name, cut.back.GetOr([]));
    if cut.back.Some? { TagSplits(repository, cut.front, cut.back.value); }
  }

  lemma NamedClean(repository: string, tag: string)
    requires '@' !in repository && '@' !in tag
    ensures '@' !in repository + ":" + tag
  {
  }

  lemma TagSplits(repository: string, front: string, back: string)
    ensures repository + ":" + (front + "@" + back) == repository + ":" + front + "@" + back
  {
  }

  lemma EmptyDigestBack(repository: string, tag: string, wantedTag: Option<string>)
    requires '@' !in repository
    ensures SamePrint(ImageRef(repository, Some(tag), None), ImageRef(repository, wantedTag, Some([])))
       <==> TagReadsAsEmptyDigest(repository, tag)
  {
    var wanted := repository + "@" + [];
    var cut := CutDigest(tag);
    var name := repository + ":" + cut.front;
    assert wanted[|repository|] == '@';
    TagCut(repository, tag);
    FrontClean(name);
    if cut.back.Some? {
      SumsEqual(CutTag(name).front, cut.back.value, repository, []);
    } else {
      PrintOfParse(name);
    }
  }

  lemma BareBack(repository: string, wantedTag: Option<string>)
    requires '@' !in repository
    ensures !SamePrint(ImageRef(repository, None, None), ImageRef(repository, wantedTag, Some([])))
    ensures !SamePrint(ImageRef(repository, None, None), ImageRef(repository, Some([]), None))
  {
    CutDigestOf(repository, []);
    PrintOfParse(repository);
    assert |repository + "@" + []| == |repository| + 1 == |repository + ":" + []|;
  }

  lemma TaggedBack(repository: string, tag: string)
    requires '@' !in repository
    ensures SamePrint(ImageRef(repository, Some(tag), None), ImageRef(repository, Some(tag), None))
       <==> TagReadsBack(repository, tag)
  {
    TagCut(repository, tag);
    PrintOfParse(repository + ":" + tag);
  }

  /** A digest left in the chart's own values wins over the tag, so the tagged image is not what runs. */
  lemma StaleDigestBack(repository: string, tag: string, stale: string, shown: Option<string>)
    requires '@' !in repository
    ensures !SamePrint(ImageRef(repository, shown, Some(stale)), ImageRef(repository, Some(tag), None))
  {
    CutDigestOf(repository, stale);
    FrontClean(repository);
    var front := CutTag(repository).front;
    var running := front + "@" + stale;
    CutDigestOf(front, stale);
    TagCut(repository, tag);
    assert |CutDigest(running).front| <= |repository| < |CutDigest(repository + ":" + tag).front|;
  }

  /** Deploying a lock entry and asking for its status reports healthy exactly when the image reads back. */
  lemma DeployThenStatus(base: Values, v: DeployValues)
    ensures StatusOf(RunningImage(Deployed(base, v)), Some(v)) == Healthy <==> ReadsBack(base, Wanted(v))
  {
    DeployedImage(base, v);
    WantedRepositoryClean(v);
    ReadBack(base, Wanted(v));
  }

  /** When status after a deploy is healthy, read off the wanted image and the chart's own values. */
  predicate ReadsBack(base: Values, wanted: ImageRef)
    requires wanted.tag.Some? || wanted.digest.Some?
  {
    && wanted.repository != []
    && match wanted.digest
       case Some(digest) =>
         if digest != [] then Untagged(wanted.repository)
         else
           NonEmpty(base, "image.tag").Some?
           && TagReadsAsEmptyDigest(wanted.repository, NonEmpty(base, "image.tag").value)
       case None =>
         && NonEmpty(base, "image.digest").None?
         && wanted.tag.value != []
         && TagReadsBack(wanted.repository, wanted.tag.value)
  }

  lemma ReadBack(base: Values, wanted: ImageRef)
    requires (wanted.tag.Some? || wanted.digest.Some?) && '@' !in wanted.repository
    ensures ImageAfter(base, wanted).Some? && SamePrint(ImageAfter(base, wanted).value, wanted)
       <==> ReadsBack(base, wanted)
  {
    var r := wanted.repository;
    var shown, stale := NonEmpty(base, "image.tag"), NonEmpty(base, "image.digest");
    if wanted.digest.Some? {
      if wanted.digest.value != [] {
        PinnedBack(r, shown, wanted.tag, wanted.digest.value);
      } else if shown.Some? {
        EmptyDigestBack(r, shown.value, wanted.tag);
      } else {
        BareBack(r, wanted.tag);
      }
    } else if stale.Some? {
      StaleDigestBack(r, wanted.tag.value, stale.value, Set(wanted.tag.value));
    } else if wanted.tag.value == [] {
      BareBack(r, wanted.tag);
    } else {
      TaggedBack(r, wanted.tag.value);
    }
  }

  /** Right after a deploy the release reports the lock's version, or without one the tag. */
  lemma VersionReported(base: Values, v: DeployValues)
    ensures v.version != [] ==> VersionFromValues(Deployed(base, v)) == Some(v.version)
    ensures v.version == [] && Wanted(v).digest.None? && Wanted(v).tag.value != [] ==>
              VersionFromValues(Deployed(base, v)) == Wanted(v).tag
  {
    DeployedValues(base, v);
  }

  /** A name, optionally a tag, optionally a digest: the references locks hold. */
  predicate IsReference(name: string, tag: Option<string>, digest: Option<string>) {
    && name != [] && '@' !in name && Untagged(name)
    && (tag.Some? ==> tag.value != [] && '@' !in tag.value && IsTag(tag.value))
    && (digest.Some? ==> digest.value != [])
  }

  /** Parsing undoes printing for every reference that has not both a tag and a digest. */
  lemma ParseOfPrint(name: string, tag: Option<string>, digest: Option<string>)
    requires IsReference(name, tag, digest) && (tag.None? || digest.None?)
    ensures Parse(Print(ImageRef(name, tag, digest))) == ImageRef(name, tag, digest)
  {
    CutDigestOf(name, digest.GetOr([]));
    if tag.Some? {
      CutTagOf(name, tag.value);
      CutDigestOf(name + ":" + tag.value, []);
    }
  }

  /** For an ordinary lock entry (a repository with a tag, or pinned by digest, or bare with a plain version) over a
      chart whose own values pin no digest, status after the deploy is healthy. */
  lemma OrdinaryDeployHealthy(base: Values, v: DeployValues, name: string, tag: Option<string>, digest: Option<string>)
    requires IsReference(name, tag, digest) && (tag.None? || digest.None?)
    requires v.image == Print(ImageRef(name, tag, digest))
    requires tag.None? && digest.None? ==> v.version != [] && '@' !in v.version
    requires digest.None? ==> NonEmpty(base, "image.digest").None?
    ensures StatusOf(RunningImage(Deployed(base, v)), Some(v)) == Healthy
  {
    ParseOfPrint(name, tag, digest);
    DeployThenStatus(base, v);
    var text := Wanted(v).tag.GetOr([]);
    assert '@' !in text;
    CutDigestOf(text, []);
  }

  /** With two colons in the last segment of a pinned image, only the last one is taken for the tag's; the status is
      then degraded although exactly that image was deployed. */
  lemma TwoColonsDegraded(base: Values, v: DeployValues, name: string, inner: string, tag: string, digest: string)
    requires v.image == name + ":" + inner + ":" + tag + "@" + digest
    requires '@' !in name && '@' !in inner && '@' !in tag && IsTag(inner) && IsTag(tag) && digest != []
    ensures StatusOf(RunningImage(Deployed(base, v)), Some(v)) == Degraded
  {
    var repository := name + ":" + inner;
    CutDigestOf(repository + ":" + tag, digest);
    CutTagOf(repository, tag);
    CutTagOf(name, inner);
    DeployedImage(base, v);
    DeployThenStatus(base, v);
  }
}
