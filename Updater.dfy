/**
 * The self-update flow of the Electron main process (main.js): the
 * `check-for-update` handler, which picks the installer asset of the latest
 * release, downloads it into the temp directory and answers with a uniform
 * `{version, notes, path} | {error}` object; the status and cleanup rules of
 * `downloadFile`; and `run-updater`, which opens the installer and quits.
 *
 * The network is not modelled: what `getLatestRelease` settles to and what
 * the download request receives are inputs. The file system and the calls
 * into the host (`shell.openPath`, `app.quit`) are the state of `Host`.
 */
module Updater {
  import opened Wrappers
  import opened Text

  const InstallerSuffix := ".exe"
  const OkStatus: nat := 200
  /** Windows: the installer is an `.exe`, so `path.join` uses the backslash. */
  const PathSeparator := '\\'

  const NoReleaseMessage := "No release found"
  const NoInstallerMessage := "No installer found in release"
  const DownloadFailedPrefix := "Failed to download: "
  /**
   * The TypeError V8 raises for `latest.assets.find` when `assets` is
   * missing, in the wording of V8 9.3 and later (older engines say
   * "Cannot read property 'find' of undefined").
   */
  const MissingAssetsMessage := "Cannot read properties of undefined (reading 'find')"
  /** The TypeError V8 raises for `a.name.endsWith` when an asset has no `name`, in the same newer wording. */
  const MissingNameMessage := "Cannot read properties of undefined (reading 'endsWith')"

  newtype byte = b: int | 0 <= b < 256

  /** One element of the release's `assets`; `name` is absent when the JSON lacks it. */
  datatype Asset = Asset(name: Option<string>, downloadUrl: string)

  /**
   * A truthy value parsed from the release feed. Fields the JSON does not
   * carry are `None`: an error document such as `{"message": "Not Found"}`
   * is a `Release` with no tag, no body and no assets.
   */
  datatype Release = Release(tagName: Option<string>, body: Option<string>, assets: Option<seq<Asset>>)

  /**
   * How `getLatestRelease` settles: rejected (transport error or a body that
   * is not JSON) with the error's message, or resolved with the parsed value,
   * `None` standing for a falsy one (`null`, `false`, `0`, `""`).
   */
  datatype FetchOutcome = FetchRejected(message: string) | FetchResolved(release: Option<Release>)

  /** What the download request gets: a response with its status and body, or a transport error. */
  datatype DownloadResponse = Responded(status: nat, body: seq<byte>) | TransportError(message: string)

  /** How the promise returned by `downloadFile` settles. */
  datatype Settled = Resolved | Rejected(message: string)

  /** The handler's answer to the renderer. */
  datatype UpdateResult = Ready(version: Option<string>, notes: Option<string>, path: string) | Failure(message: string)

  /** The same answer as the renderer sees it: a plain object whose properties may be undefined. */
  datatype ResultObject = ResultObject(error: Option<string>, version: Option<string>, notes: Option<string>, path: Option<string>)

  /** What the main process asks of its host, in order. */
  datatype Effect = DownloadRequest(url: string, dest: string) | OpenPath(path: string) | Quit

  function AsObject(r: UpdateResult): (o: ResultObject)
    ensures r.Failure? ==> o.error == Some(r.message) && o.version.None? && o.notes.None? && o.path.None?
    ensures r.Ready? ==> o.error.None? && o.version == r.version && o.notes == r.notes && o.path == Some(r.path)
  {
    match r
    case Ready(v, n, p) => ResultObject(None, v, n, Some(p))
    case Failure(m) => ResultObject(Some(m), None, None, None)
  }

  // ---------------------------------------------------------------------------
  // Choosing the installer: `latest.assets.find(a => a.name.endsWith('.exe'))`

  predicate IsInstaller(a: Asset) {
    a.name.Some? && EndsWith(a.name.value, InstallerSuffix)
  }

  /** An asset `find` looks at and moves past: it has a name, and not an installer's. */
  predicate PassedOver(a: Asset) {
    a.name.Some? && !EndsWith(a.name.value, InstallerSuffix)
  }

  /** `find` reaches index `i`: every asset before it is passed over. */
  predicate ScannedUpTo(assets: seq<Asset>, i: nat) {
    i <= |assets| && forall k :: 0 <= k < i ==> PassedOver(assets[k])
  }

  /** Where `find` stops: at the first installer, at an asset without a name (it throws there), or at the end. */
  datatype Selection = Selected(index: nat) | NameMissing(index: nat) | NoInstaller

  function SelectInstaller(assets: seq<Asset>): (r: Selection)
    ensures r.Selected? ==> r.index < |assets| && ScannedUpTo(assets, r.index) && IsInstaller(assets[r.index])
    ensures r.NameMissing? ==> r.index < |assets| && ScannedUpTo(assets, r.index) && assets[r.index].name.None?
    ensures r.NoInstaller? ==> ScannedUpTo(assets, |assets|)
  {
    if assets == [] then NoInstaller
    else if assets[0].name.None? then NameMissing(0)
    else if IsInstaller(assets[0]) then Selected(0)
    else
      match SelectInstaller(assets[1..])
      case Selected(i) => Selected(i + 1)
      case NameMissing(i) => NameMissing(i + 1)
      case NoInstaller => NoInstaller
  }

  /** The selected installer is the first one in list order: no earlier asset is an installer. */
  lemma SelectedIsFirst(assets: seq<Asset>, k: nat)
    requires SelectInstaller(assets).Selected? && k < SelectInstaller(assets).index
    ensures !IsInstaller(assets[k])
  {
    assert PassedOver(assets[k]);
  }

  /** `path.join(app.getPath('temp'), asset.name)`, without `path.join`'s normalisation of `..` and doubled separators. */
  function TempPath(tempDir: string, name: string): (p: string)
    ensures StartsWith(p, tempDir) && EndsWith(p, name)
    ensures |p| == |tempDir| + 1 + |name| && p[|tempDir|] == PathSeparator
  {
    var p := tempDir + [PathSeparator] + name;
    assert p[..|tempDir|] == tempDir;
    assert p[|p| - |name|..] == name;
    p
  }

  // ---------------------------------------------------------------------------
  // The `check-for-update` handler

  /** The resolved value has an `assets` list (`latest.assets.find` does not throw on `assets`). */
  predicate HasAssets(fetched: FetchOutcome) {
    fetched.FetchResolved? && fetched.release.Some? && fetched.release.value.assets.Some?
  }

  function Assets(fetched: FetchOutcome): seq<Asset>
    requires HasAssets(fetched)
  {
    fetched.release.value.assets.value
  }

  /** The handler either answers straight away or first downloads `url` to `dest`. */
  datatype Plan = Answer(result: UpdateResult) | Fetch(url: string, dest: string, version: Option<string>, notes: Option<string>)

  /** The handler up to the download: every early return and every exception caught before it. */
  function PlanUpdate(fetched: FetchOutcome, tempDir: string): (p: Plan)
    ensures fetched.FetchRejected? ==> p == Answer(Failure(fetched.message))
    ensures fetched == FetchResolved(None) ==> p == Answer(Failure(NoReleaseMessage))
    ensures fetched.FetchResolved? && fetched.release.Some? && fetched.release.value.assets.None? ==>
              p == Answer(Failure(MissingAssetsMessage))
    ensures p.Fetch? <==> HasAssets(fetched) && SelectInstaller(Assets(fetched)).Selected?
    ensures p.Fetch? ==>
              var a := Assets(fetched)[SelectInstaller(Assets(fetched)).index];
              p.url == a.downloadUrl && p.dest == TempPath(tempDir, a.name.value) &&
              p.version == fetched.release.value.tagName && p.notes == fetched.release.value.body
    ensures HasAssets(fetched) && SelectInstaller(Assets(fetched)).NoInstaller? ==> p == Answer(Failure(NoInstallerMessage))
    ensures HasAssets(fetched) && SelectInstaller(Assets(fetched)).NameMissing? ==> p == Answer(Failure(MissingNameMessage))
    ensures p.Answer? ==> p.result.Failure?
  {
    match fetched
    case FetchRejected(m) => Answer(Failure(m))
    case FetchResolved(None) => Answer(Failure(NoReleaseMessage))
    case FetchResolved(Some(latest)) =>
      match latest.assets
      case None => Answer(Failure(MissingAssetsMessage))
      case Some(assets) =>
        match SelectInstaller(assets)
        case NoInstaller => Answer(Failure(NoInstallerMessage))
        case NameMissing(_) => Answer(Failure(MissingNameMessage))
        case Selected(i) =>
          Fetch(assets[i].downloadUrl, TempPath(tempDir, assets[i].name.value), latest.tagName, latest.body)
  }

  /** How `downloadFile` settles for a given response. */
  function DownloadSettles(response: DownloadResponse): (s: Settled)
    ensures s.Resolved? <==> response.Responded? && response.status == OkStatus
    ensures response.Responded? && response.status != OkStatus ==>
              s == Rejected(DownloadFailedPrefix + DecimalString(response.status))
    ensures response.TransportError? ==> s == Rejected(response.message)
  {
    match response
    case Responded(status, _) =>
      if status != OkStatus then Rejected(DownloadFailedPrefix + DecimalString(status)) else Resolved
    case TransportError(m) => Rejected(m)
  }

  /**
   * The files after `downloadFile(url, dest)`: `createWriteStream` creates
   * (or truncates) `dest`; a 200 response fills it with the body; any other
   * status leaves it empty and in place; a transport error unlinks it.
   */
  function DownloadedFiles(files: map<string, seq<byte>>, dest: string, response: DownloadResponse): (r: map<string, seq<byte>>)
    ensures dest in r <==> response.Responded?
    ensures response.Responded? ==> r[dest] == if response.status == OkStatus then response.body else []
    ensures forall p :: p != dest ==> (p in r <==> p in files)
    ensures forall p :: p != dest && p in r ==> r[p] == files[p]
  {
    match response
    case Responded(status, body) => files[dest := if status == OkStatus then body else []]
    case TransportError(_) => files - {dest}
  }

  /**
   * The whole handler as a total function of what the fetch and the
   * download settle to: it never rejects; every failure is an `{error}`.
   */
  function CheckForUpdateResult(fetched: FetchOutcome, tempDir: string, response: DownloadResponse): (r: UpdateResult)
    ensures r.Ready? <==> PlanUpdate(fetched, tempDir).Fetch? && response.Responded? && response.status == OkStatus
    ensures r.Ready? ==>
              var p := PlanUpdate(fetched, tempDir);
              r.version == p.version && r.notes == p.notes && r.path == p.dest
    ensures PlanUpdate(fetched, tempDir).Answer? ==> r == PlanUpdate(fetched, tempDir).result
  {
    match PlanUpdate(fetched, tempDir)
    case Answer(r) => r
    case Fetch(_, dest, version, notes) =>
      match DownloadSettles(response)
      case Resolved => Ready(version, notes, dest)
      case Rejected(m) => Failure(m)
  }

  /**
   * The handler reports an update exactly when a release with an installer
   * was found and its download got a 200 response; the answer then carries
   * the release's tag and notes and the temp-directory path of that installer.
   */
  lemma ReadyExactlyAfterDownload(fetched: FetchOutcome, tempDir: string, response: DownloadResponse)
    ensures CheckForUpdateResult(fetched, tempDir, response).Ready? <==>
              HasAssets(fetched) && SelectInstaller(Assets(fetched)).Selected? &&
              response.Responded? && response.status == OkStatus
    ensures CheckForUpdateResult(fetched, tempDir, response).Ready? ==>
              var a := Assets(fetched)[SelectInstaller(Assets(fetched)).index];
              CheckForUpdateResult(fetched, tempDir, response) ==
                Ready(fetched.release.value.tagName, fetched.release.value.body, TempPath(tempDir, a.name.value))
  {
  }

  /**
   * A redirect is not followed: a download URL answered with status 302
   * ends the check in "Failed to download: 302" and leaves an empty file at
   * the installer's temp path.
   */
  lemma RedirectFails(fetched: FetchOutcome, tempDir: string, body: seq<byte>, files: map<string, seq<byte>>)
    requires PlanUpdate(fetched, tempDir).Fetch?
    ensures CheckForUpdateResult(fetched, tempDir, Responded(302, body)) == Failure("Failed to download: 302")
    ensures var dest := PlanUpdate(fetched, tempDir).dest;
            dest in DownloadedFiles(files, dest, Responded(302, body)) &&
            DownloadedFiles(files, dest, Responded(302, body))[dest] == []
  {
    assert DecimalString(302) == "302" by {
      assert DecimalString(3) == "3";
      assert DecimalString(30) == "30";
    }
  }

  /** A failed download is reported with `downloadFile`'s own message. */
  lemma DownloadFailureReported(fetched: FetchOutcome, tempDir: string, response: DownloadResponse)
    requires PlanUpdate(fetched, tempDir).Fetch?
    ensures response.Responded? && response.status != OkStatus ==>
              CheckForUpdateResult(fetched, tempDir, response) == Failure(DownloadFailedPrefix + DecimalString(response.status))
    ensures response.TransportError? ==>
              CheckForUpdateResult(fetched, tempDir, response) == Failure(response.message)
  {
  }

  /**
   * A truthy feed value without `assets` (an error document, say) is not
   * "No release found": the handler answers with the TypeError's message,
   * whatever the download would have done, and downloads nothing.
   */
  lemma ReleaseWithoutAssets(tagName: Option<string>, body: Option<string>, tempDir: string, response: DownloadResponse)
    ensures var fetched := FetchResolved(Some(Release(tagName, body, None)));
            !PlanUpdate(fetched, tempDir).Fetch? &&
            CheckForUpdateResult(fetched, tempDir, response) == Failure(MissingAssetsMessage) &&
            MissingAssetsMessage != NoReleaseMessage
  {
  }

  /** The release from the end-to-end scenario: one installer asset, downloaded into the temp directory. */
  lemma OneInstallerScenario(tempDir: string, installer: seq<byte>)
    ensures var fetched := FetchResolved(Some(Release(Some("v2.0"), Some("fixes"),
                             Some([Asset(Some("app-v2.0.exe"), "https://example/app.exe")]))));
            PlanUpdate(fetched, tempDir) == Fetch("https://example/app.exe", tempDir + "\\app-v2.0.exe", Some("v2.0"), Some("fixes")) &&
            CheckForUpdateResult(fetched, tempDir, Responded(200, installer)) ==
              Ready(Some("v2.0"), Some("fixes"), tempDir + "\\app-v2.0.exe")
  {
    var assets := [Asset(Some("app-v2.0.exe"), "https://example/app.exe")];
    assert IsInstaller(assets[0]) by {
      assert "app-v2.0.exe"[|"app-v2.0.exe"| - |InstallerSuffix|..] == InstallerSuffix;
    }
    assert tempDir + [PathSeparator] + "app-v2.0.exe" == tempDir + "\\app-v2.0.exe";
  }

  // ---------------------------------------------------------------------------
  // The host: its files and the effects asked of it

  class Host {
    var files: map<string, seq<byte>>
    var effects: seq<Effect>

    constructor (files: map<string, seq<byte>>)
      ensures this.files == files && effects == []
    {
      this.files := files;
      effects := [];
    }

    /** `downloadFile(url, dest)` for a request that receives `response`. */
    method DownloadFile(url: string, dest: string, response: DownloadResponse) returns (s: Settled)
      modifies this
      ensures s == DownloadSettles(response)
      ensures files == DownloadedFiles(old(files), dest, response)
      ensures effects == old(effects) + [DownloadRequest(url, dest)]
    {
      files := files[dest := []];
      effects := effects + [DownloadRequest(url, dest)];
      match response {
        case Responded(status, body) =>
          if status != OkStatus {
            s := Rejected(DownloadFailedPrefix + DecimalString(status));
            return;
          }
          files := files[dest := body];
          s := Resolved;
        case TransportError(m) =>
          files := files - {dest};
          s := Rejected(m);
      }
    }

    /**
     * The `check-for-update` handler. A download is requested only when an
     * installer was selected; otherwise neither files nor effects change.
     */
    method CheckForUpdate(fetched: FetchOutcome, tempDir: string, response: DownloadResponse) returns (r: UpdateResult)
      modifies this
      ensures r == CheckForUpdateResult(fetched, tempDir, response)
      ensures var p := PlanUpdate(fetched, tempDir);
              if p.Fetch? then
                files == DownloadedFiles(old(files), p.dest, response) &&
                effects == old(effects) + [DownloadRequest(p.url, p.dest)]
              else
                files == old(files) && effects == old(effects)
    {
      var plan := PlanUpdate(fetched, tempDir);
      match plan {
        case Answer(result) =>
          r := result;
        case Fetch(url, dest, version, notes) =>
          var s := DownloadFile(url, dest, response);
          r := if s.Resolved? then Ready(version, notes, dest) else Failure(s.message);
      }
    }

    /** `run-updater`: open the installer, then quit, without looking at what opening returned. */
    method RunUpdater(exePath: string)
      modifies this
      ensures effects == old(effects) + [OpenPath(exePath), Quit]
      ensures files == old(files)
    {
      effects := effects + [OpenPath(exePath)];
      effects := effects + [Quit];
    }
  }
}
