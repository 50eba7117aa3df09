/** What a deploy sets, what then runs, and what its status means, for the references that locks hold. */
module DeployStatus {
  import opened Options
  import opened Deploy

  /** The lock's image is an ordinary reference: a repository with a tag, a digest or neither. */
  predicate Locks(v: DeployValues, name: string, tag: Option<string>, digest: Option<string>) {
    && IsReference(name, tag, digest) && (tag.None? || digest.None?)
    && v.image == (if tag.Some? then name + ":" + tag.value
                   else if digest.Some? then name + "@" + digest.value else name)
  }

  lemma LockedParses(v: DeployValues, name: string, tag: Option<string>, digest: Option<string>)
    requires Locks(v, name, tag, digest)
    ensures Wanted(v) == ImageRef(name, if tag.None? && digest.None? then Some(v.version) else tag, digest)
  {
    assert v.image == Print(ImageRef(name, tag, digest));
    ParseOfPrint(name, tag, digest);
  }

  /** The image by repository and digest, or else by repository and tag (the version where the image has none), then
      the version and the flags that make the upgrade wait and be atomic. */
  function Behind(v: DeployValues, name: string, tag: Option<string>, digest: Option<string>): seq<HelmArg> {
    var pin := if digest.Some? then SetString("image.digest", digest.value)
               else SetString("image.tag", if tag.Some? then tag.value else v.version);
    [Namespace(v.namespace), SetString("image.repository", name), pin, SetString("image.version", v.version),
     Wait, Timeout(v.timeout), Atomic, CleanupOnFail]
  }

  function EachFile(files: seq<string>): seq<HelmArg> {
    if files == [] then [] else [ValuesFile(files[0])] + EachFile(files[1..])
  }

  lemma {:induction false} FilesInTurn(files: seq<string>)
    ensures FileArgs(files) == EachFile(files)
  {
    if files != [] {
      FilesInTurn(files[1..]);
      assert FileArgs(files) == [ValuesFile(files[0])] + FileArgs(files[1..]);
    }
  }

  lemma BehindIs(v: DeployValues, name: string, tag: Option<string>, digest: Option<string>)
    requires Locks(v, name, tag, digest)
    ensures [Namespace(v.namespace)] + SettingsFor(v) + [Wait, Timeout(v.timeout), Atomic, CleanupOnFail]
         == Behind(v, name, tag, digest)
  {
    LockedParses(v, name, tag, digest);
    InOneList(Namespace(v.namespace), SetString("image.repository", name), Pin(Wanted(v)),
              SetString("image.version", v.version), Timeout(v.timeout));
  }

  lemma InOneList(a: HelmArg, b: HelmArg, c: HelmArg, d: HelmArg, e: HelmArg)
    ensures [a] + [b, c, d] + [Wait, e, Atomic, CleanupOnFail] == [a, b, c, d, Wait, e, Atomic, CleanupOnFail]
  {
  }

  /** The upgrade's arguments: release and chart, the values files in order, and what comes behind them. */
  lemma UpgradeArgs(v: DeployValues, name: string, tag: Option<string>, digest: Option<string>)
    requires Locks(v, name, tag, digest)
    ensures ArgsFor(v) == [Release(v.release), Chart(v.chart)] + EachFile(v.valuesFiles) + Behind(v, name, tag, digest)
  {
    FilesInTurn(v.valuesFiles);
    BehindIs(v, name, tag, digest);
    Regrouped([Release(v.release), Chart(v.chart)], FileArgs(v.valuesFiles), [Namespace(v.namespace)], SettingsFor(v),
              [Wait, Timeout(v.timeout), Atomic, CleanupOnFail]);
  }

  lemma Regrouped(a: seq<HelmArg>, b: seq<HelmArg>, c: seq<HelmArg>, d: seq<HelmArg>, e: seq<HelmArg>)
    ensures a + b + c + d + e == a + b + (c + d + e)
  {
  }

  /** Over a chart whose own values pin no digest (unless the lock does), what runs after a deploy is exactly the lock's
      image, with the version as its tag if it has neither tag nor digest. */
  lemma RunsWhatIsLocked(base: Values, v: DeployValues, name: string, tag: Option<string>, digest: Option<string>)
    requires Locks(v, name, tag, digest) && (tag.None? && digest.None? ==> v.version != [])
    requires digest.None? ==> "image.digest" !in base || base["image.digest"] == JString([])
    ensures RunningImage(Deployed(base, v))
         == Some(if tag.None? && digest.None? then name + ":" + v.version else v.image)
  {
    LockedParses(v, name, tag, digest);
    DeployedImage(base, v);
  }

  /** The value under the key is this text, and not an empty one. */
  predicate HoldsText(values: Values, key: string, text: string) {
    key in values && values[key] == JString(text) && text != []
  }

  /** The image a release runs: its repository, and its tag and digest where they are non-empty texts. */
  lemma ImageReadExactly(values: Values, image: ImageRef)
    ensures ImageFromValues(values) == Some(image)
       <==> && HoldsText(values, "image.repository", image.repository)
            && (forall tag: string :: image.tag == Some(tag) <==> HoldsText(values, "image.tag", tag))
            && (forall digest: string :: image.digest == Some(digest) <==> HoldsText(values, "image.digest", digest))
  {
    forall key: string, text: string ensures NonEmpty(values, key) == Some(text) <==> HoldsText(values, key, text) {}
  }

  predicate Shows(values: Values, key: string, text: string) {
    HoldsText(values, key, text) || (key in values && values[key] == JNumber(text))
  }

  /** The version a release reports: a text or number under version, or if there is none, under tag. */
  lemma VersionReadExactly(values: Values, version: string)
    ensures VersionFromValues(values) == Some(version)
       <==> || Shows(values, "image.version", version)
            || ((forall other :: !Shows(values, "image.version", other)) && Shows(values, "image.tag", version))
  {
    forall key: string, text: string ensures VersionAt(values, key) == Some(text) <==> Shows(values, key, text) {}
  }

  /** A text that reads back as itself: without a digest, or without a tag next to one. */
  predicate Plain(running: string) {
    CutDigest(running).back.None? || Untagged(CutDigest(running).front)
  }

  /** The status of a service: not deployed when nothing runs and nothing is wanted, unhealthy when what is wanted does
      not run, degraded when what runs is not wanted; and healthy exactly when the very image wanted runs. */
  lemma StatusExactly(running: Option<string>, desired: Option<DeployValues>, name: string, tag: Option<string>,
                      digest: Option<string>)
    requires desired.Some? ==> Locks(desired.value, name, tag, digest)
    requires running.Some? ==> Plain(running.value)
    ensures StatusOf(running, desired) == NotDeployed <==> running.None? && desired.None?
    ensures StatusOf(running, desired) == Unhealthy <==> running.None? && desired.Some?
    ensures StatusOf(running, desired) == Healthy
       <==> && running.Some? && desired.Some?
            && running.value == if tag.None? && digest.None? then name + ":" + desired.value.version
                                else desired.value.image
  {
    if running.Some? { PrintOfParse(running.value); }
    if desired.Some? { LockedParses(desired.value, name, tag, digest); }
  }
}
