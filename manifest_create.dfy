/**
 * `golem-sdk manifest create` (src/manifest/manifest-create.action.ts): classifying the
 * image argument, building the image URL and hash, validating them, back-filling the
 * metadata from package.json and assembling the manifest.  The registry lookup, URL
 * parsing, the package.json search and the file system are inputs.
 */
module ManifestCreate {
  import opened Wrappers
  import opened Text

  const RepoUrl := "https://registry.golem.network"
  const DownloadPrefix := RepoUrl + "/v1/image/download?"
  /** `ManifestVersions.GAP_5`. */
  const ManifestFormat := "0.1.0"
  const ExpiryDays := 90
  const HashLength := 56

  datatype ImageInfo = ImageInfo(url: string, hash: Option<string>)

  /** How the action stops early: `process.exit(1)` after a message, or an exception. */
  datatype Stop = ExitWith(message: string) | Thrown(message: string)

  predicate LowerAlnumWord(s: string) {
    |s| > 0 && forall k :: 0 <= k < |s| ==> IsLowerAlnum(s[k])
  }

  /** `/^[a-z0-9]{56}$/`. */
  predicate HashSpec(s: string) {
    LowerAlnumWord(s) && |s| == HashLength
  }

  /** The characters JavaScript's `.` does not match. */
  predicate LineBreak(c: char) {
    c == '\n' || c == '\r' || c == '\U{2028}' || c == '\U{2029}'
  }

  /** `/^(.*?)\/(.*?):(.*)$/`: no line break, and a ':' somewhere after the first '/'. */
  predicate TagSpec(s: string) {
    (forall k :: 0 <= k < |s| ==> !LineBreak(s[k])) && '/' in s && ':' in After(s, '/')
  }

  /** The tag rule is the regular expression's: some '/' followed, later, by some ':'. */
  lemma TagSpecMeansSlashThenColon(s: string)
    ensures TagSpec(s) <==> (forall k :: 0 <= k < |s| ==> !LineBreak(s[k]))
                            && exists i, j :: 0 <= i < j < |s| && s[i] == '/' && s[j] == ':'
  {
    if TagSpec(s) {
      var i := IndexOf(s, '/');
      var rest := After(s, '/');
      var j := IndexOf(rest, ':');
      assert s[i + 1 + j] == rest[j];
    }
    if (forall k :: 0 <= k < |s| ==> !LineBreak(s[k])) && exists i, j :: 0 <= i < j < |s| && s[i] == '/' && s[j] == ':' {
      var i, j :| 0 <= i < j < |s| && s[i] == '/' && s[j] == ':';
      var f := IndexOf(s, '/');
      assert After(s, '/')[j - f - 1] == ':';
    }
  }

  /** A tag always holds a '/', so it never looks like a hash. */
  lemma TagIsNotHashLike(s: string)
    requires TagSpec(s)
    ensures !LowerAlnumWord(s)
  {
    assert s[IndexOf(s, '/')] == '/';
  }

  /** `getImageUrlFromHash`. */
  function FromHash(hash: string): (r: ImageInfo)
    ensures r.hash == Some("sha3:" + hash)
  {
    ImageInfo(RepoUrl + "/v1/image/download?hash=" + hash + "&https=true", Some("sha3:" + hash))
  }

  /** `getImageUrlFromTag`; `resolve` is the registry lookup `resolveTaskPackageUrl`. */
  function FromTag(tag: string, providedHash: Option<string>, resolve: string -> Result<ImageInfo, Stop>): Result<ImageInfo, Stop> {
    if Truthy(providedHash) then Success(ImageInfo(RepoUrl + "/v1/image/download?tag=" + tag + "&https=true", providedHash))
    else resolve(tag)
  }

  /** `getImageUrlFromUrl`; `queryHash` is the `hash` search parameter of the parsed URL. */
  function FromUrl(url: string, queryHash: string -> Option<string>): ImageInfo {
    if !StartsWith(url, DownloadPrefix) then ImageInfo(url, None)
    else if Truthy(queryHash(url)) then FromHash(queryHash(url).value)
    else ImageInfo(url, None)
  }

  /** `getImage`. */
  function GetImage(spec: string, providedHash: Option<string>, resolve: string -> Result<ImageInfo, Stop>,
                    queryHash: string -> Option<string>): Result<ImageInfo, Stop>
  {
    if LowerAlnumWord(spec) then
      if !HashSpec(spec) then
        Failure(ExitWith("Error: Image name " + spec + " looks like a hash, but has invalid length. Please make sure it is a valid SHA3 hash."))
      else Success(FromHash(spec))
    else if TagSpec(spec) then FromTag(spec, providedHash, resolve)
    else if Truthy(providedHash) then Success(ImageInfo(spec, providedHash))
    else Success(FromUrl(spec, queryHash))
  }

  /** A hash-like spec of the wrong length exits. */
  lemma ShortHashExits(spec: string, providedHash: Option<string>, resolve: string -> Result<ImageInfo, Stop>,
                       queryHash: string -> Option<string>)
    requires LowerAlnumWord(spec) && |spec| != HashLength
    ensures GetImage(spec, providedHash, resolve, queryHash).Failure?
    ensures GetImage(spec, providedHash, resolve, queryHash).error.ExitWith?
  {
  }

  /** A 56-character hash names the registry download by hash, with a `sha3:` hash that passes validation. */
  lemma HashSpecImage(spec: string, providedHash: Option<string>, resolve: string -> Result<ImageInfo, Stop>,
                      queryHash: string -> Option<string>)
    requires HashSpec(spec)
    ensures GetImage(spec, providedHash, resolve, queryHash)
         == Success(ImageInfo(RepoUrl + "/v1/image/download?hash=" + spec + "&https=true", Some("sha3:" + spec)))
    ensures ValidHashWithFunction("sha3:" + spec)
  {
    var h := "sha3:" + spec;
    assert h[..5] == "sha3:";
    assert forall k :: 5 <= k < |h| ==> h[k] == spec[k - 5];
  }

  /** A tag with a provided hash names the registry download by tag and keeps the hash. */
  lemma TagWithHash(spec: string, providedHash: Option<string>, resolve: string -> Result<ImageInfo, Stop>,
                    queryHash: string -> Option<string>)
    requires TagSpec(spec) && Truthy(providedHash)
    ensures GetImage(spec, providedHash, resolve, queryHash)
         == Success(ImageInfo(RepoUrl + "/v1/image/download?tag=" + spec + "&https=true", providedHash))
  {
    TagIsNotHashLike(spec);
  }

  /** A tag without a hash is resolved by the registry. */
  lemma TagWithoutHash(spec: string, providedHash: Option<string>, resolve: string -> Result<ImageInfo, Stop>,
                       queryHash: string -> Option<string>)
    requires TagSpec(spec) && !Truthy(providedHash)
    ensures GetImage(spec, providedHash, resolve, queryHash) == resolve(spec)
  {
    TagIsNotHashLike(spec);
  }

  /** Anything else with a provided hash is used as it is. */
  lemma UrlWithHash(spec: string, providedHash: Option<string>, resolve: string -> Result<ImageInfo, Stop>,
                    queryHash: string -> Option<string>)
    requires !LowerAlnumWord(spec) && !TagSpec(spec) && Truthy(providedHash)
    ensures GetImage(spec, providedHash, resolve, queryHash) == Success(ImageInfo(spec, providedHash))
  {
  }

  /**
   * A URL outside the registry's download endpoint has no hash; one inside it with a
   * `hash` parameter is the download by that hash.
   */
  lemma UrlWithoutHash(spec: string, resolve: string -> Result<ImageInfo, Stop>, queryHash: string -> Option<string>)
    requires !LowerAlnumWord(spec) && !TagSpec(spec)
    ensures var r := GetImage(spec, None, resolve, queryHash);
      r.Success? && r.value.url == (if StartsWith(spec, DownloadPrefix) && Truthy(queryHash(spec))
                                    then FromHash(queryHash(spec).value).url else spec)
    ensures !StartsWith(spec, DownloadPrefix) ==> GetImage(spec, None, resolve, queryHash) == Success(ImageInfo(spec, None))
    ensures StartsWith(spec, DownloadPrefix) && Truthy(queryHash(spec))
            ==> GetImage(spec, None, resolve, queryHash) == Success(FromHash(queryHash(spec).value))
  {
  }

  /** `/^sha3:[a-z0-9]{56}$/`. */
  predicate ValidHashWithFunction(h: string) {
    |h| == 5 + HashLength && h[..5] == "sha3:" && forall k :: 5 <= k < |h| ==> IsLowerAlnum(h[k])
  }

  function HashText(hash: Option<string>): string {
    if hash.Some? then hash.value else "undefined"
  }

  /** `validateImageInfo`: `None` when it passes, else the message printed before exiting. */
  function ValidateImageInfo(info: ImageInfo, urlError: string -> Option<string>): Option<string> {
    if urlError(info.url).Some? then Some("Error: Failed to parse xx image URL " + info.url + ": " + urlError(info.url).value)
    else if !ValidHashWithFunction(info.hash.GetOr("")) then Some("Error: Invalid image hash " + HashText(info.hash) + ".")
    else None
  }

  /** Validation passes exactly for a parseable URL with a `sha3:` hash of 56 characters; a missing hash fails. */
  lemma ValidationRule(info: ImageInfo, urlError: string -> Option<string>)
    ensures ValidateImageInfo(info, urlError).None?
        <==> urlError(info.url).None? && info.hash.Some? && ValidHashWithFunction(info.hash.value)
  {
    if info.hash.None? {
      assert !ValidHashWithFunction("");
    }
  }

  /** The package.json fields the manifest's metadata may come from. */
  datatype Metadata = Metadata(manifestVersion: Option<string>, name: Option<string>, description: Option<string>)

  datatype PackageSource = ReadFails(error: string) | ParseFails(error: string)
                         | Parsed(version: Option<string>, name: Option<string>, description: Option<string>)

  predicate Complete(m: Metadata) {
    m.manifestVersion.Some? && m.name.Some? && m.description.Some?
  }

  const NoPackageJson := "Error: Cannot find package.json. Use \"--package-json\" option to specify its path or make sure --name, --description and --manifest-version are set."

  /**
   * `fillOptionsWithPackageJson` on the metadata: `discovered` is the first package.json
   * found from the current directory, `read` reads and parses a file.
   */
  function FillMetadata(m: Metadata, packageJson: Option<string>, discovered: Option<string>,
                        read: string -> PackageSource): Result<Metadata, string>
  {
    if Complete(m) then Success(m)
    else
      var path := if Truthy(packageJson) then packageJson else discovered;
      if !Truthy(path) then Failure(NoPackageJson)
      else
        match read(path.value)
        case ReadFails(e) => Failure("Error: Cannot read " + path.value + ": " + e)
        case ParseFails(e) => Failure("Error: Cannot parse " + path.value + ": " + e)
        case Parsed(version, name, description) =>
          Success(Metadata(if m.manifestVersion.Some? then m.manifestVersion else version,
                           if m.name.Some? then m.name else name,
                           if m.description.Some? then m.description else description))
  }

  /**
   * A field given as an option is never overwritten; a missing one comes from package.json;
   * with all three given, no package.json is looked for or read.
   */
  lemma FillKeepsGivenFields(m: Metadata, packageJson: Option<string>, discovered: Option<string>,
                             read: string -> PackageSource)
    ensures var r := FillMetadata(m, packageJson, discovered, read);
      r.Success? ==>
        (m.manifestVersion.Some? ==> r.value.manifestVersion == m.manifestVersion)
        && (m.name.Some? ==> r.value.name == m.name)
        && (m.description.Some? ==> r.value.description == m.description)
    ensures var r := FillMetadata(m, packageJson, discovered, read);
      r.Success? && !Complete(m) ==>
        var path := if Truthy(packageJson) then packageJson.value else discovered.value;
        read(path).Parsed?
        && (m.manifestVersion.None? ==> r.value.manifestVersion == read(path).version)
        && (m.name.None? ==> r.value.name == read(path).name)
        && (m.description.None? ==> r.value.description == read(path).description)
    ensures Complete(m) ==> FillMetadata(m, packageJson, discovered, read) == Success(m)
  {
  }

  /** The options of `manifest create` that the action reads; the three metadata fields are filled in place. */
  class CreateOptions {
    var manifestVersion: Option<string>
    var name: Option<string>
    var description: Option<string>
    const manifest: string
    const overwrite: bool
    const imageHash: Option<string>
    const packageJson: Option<string>

    function Meta(): Metadata
      reads this
    {
      Metadata(manifestVersion, name, description)
    }

    constructor (m: Metadata, manifest: string, overwrite: bool, imageHash: Option<string>, packageJson: Option<string>)
      ensures Meta() == m && this.manifest == manifest && this.overwrite == overwrite
      ensures this.imageHash == imageHash && this.packageJson == packageJson
    {
      manifestVersion, name, description := m.manifestVersion, m.name, m.description;
      this.manifest, this.overwrite, this.imageHash, this.packageJson := manifest, overwrite, imageHash, packageJson;
    }

    /** `fillOptionsWithPackageJson`: `Some(message)` is the error printed before exiting. */
    method FillWithPackageJson(discovered: Option<string>, read: string -> PackageSource) returns (error: Option<string>)
      modifies this
      ensures var r := FillMetadata(old(Meta()), packageJson, discovered, read);
        if r.Success? then error.None? && Meta() == r.value else error == Some(r.error) && Meta() == old(Meta())
    {
      if manifestVersion.Some? && name.Some? && description.Some? {
        return None;
      }
      var path := if Truthy(packageJson) then packageJson else discovered;
      if !Truthy(path) {
        return Some(NoPackageJson);
      }
      var source := read(path.value);
      match source {
        case ReadFails(e) =>
          return Some("Error: Cannot read " + path.value + ": " + e);
        case ParseFails(e) =>
          return Some("Error: Cannot parse " + path.value + ": " + e);
        case Parsed(version, pkgName, pkgDescription) =>
          if manifestVersion.None? {
            manifestVersion := version;
          }
          if name.None? {
            name := pkgName;
          }
          if description.None? {
            description := pkgDescription;
          }
          return None;
      }
    }
  }

  datatype Payload = Payload(os: string, arch: string, hash: Option<string>, urls: seq<string>)

  /** The manifest written; instants are day numbers. */
  datatype Manifest = Manifest(version: string, createdAt: int, expiresAt: int, metadata: Metadata, payload: seq<Payload>)

  datatype Line = Out(text: string) | Err(text: string)
  datatype CreateRun = CreateRun(lines: seq<Line>, written: Option<Manifest>, stopped: Option<Stop>)

  /**
   * The environment of one run: the registry, URL parsing, package.json, the existing
   * files, and the error `writeFile` rejects with, if any.
   */
  datatype CreateWorld = CreateWorld(resolve: string -> Result<ImageInfo, Stop>, queryHash: string -> Option<string>,
                                     urlError: string -> Option<string>, discovered: Option<string>,
                                     read: string -> PackageSource, existing: set<string>, today: int,
                                     writeError: Option<string>)

  const NoHashWarning := "Warning: " + "Image hash is not specified. You won't be able to start an activity before you fill it out."

  function BuildManifest(image: ImageInfo, m: Metadata, today: int): Manifest {
    Manifest(ManifestFormat, today, today + ExpiryDays, m, [Payload("linux", "x86_64", image.hash, [image.url])])
  }

  /** `manifestCreateAction`, with the options as values. */
  function ManifestCreateAction(image: string, m: Metadata, manifest: string, overwrite: bool,
                                imageHash: Option<string>, packageJson: Option<string>, w: CreateWorld): CreateRun
  {
    match GetImage(image, imageHash, w.resolve, w.queryHash)
    case Failure(stop) =>
      CreateRun(if stop.ExitWith? then [Err(stop.message)] else [], None, Some(stop))
    case Success(info) =>
      match ValidateImageInfo(info, w.urlError)
      case Some(e) => CreateRun([Err(e)], None, Some(ExitWith(e)))
      case None =>
        match FillMetadata(m, packageJson, w.discovered, w.read)
        case Failure(e) => CreateRun([Err(e)], None, Some(ExitWith(e)))
        case Success(filled) =>
          if manifest in w.existing && !overwrite then
            var e := "Error: Manifest file already exists at " + manifest + ". Use --overwrite option if you want to overwrite it.";
            CreateRun([Err(e)], None, Some(ExitWith(e)))
          else if w.writeError.Some? then
            CreateRun([], None, Some(Thrown(w.writeError.value)))
          else
            var warning := if info.hash.None? then [Out(NoHashWarning)] else [];
            CreateRun(warning + [Out("Created manifest in " + manifest + " file")],
                      Some(BuildManifest(info, filled, w.today)), None)
  }

  /**
   * A written manifest has format 0.1.0, expires 90 days after its creation and holds
   * one linux/x86_64 payload with the image's URL and a validated hash; its metadata is
   * the filled one; an existing file is replaced only with `--overwrite`.
   */
  lemma WrittenManifest(image: string, m: Metadata, manifest: string, overwrite: bool,
                        imageHash: Option<string>, packageJson: Option<string>, w: CreateWorld)
    ensures var run := ManifestCreateAction(image, m, manifest, overwrite, imageHash, packageJson, w);
      run.written.Some? ==>
        var man := run.written.value;
        var info := GetImage(image, imageHash, w.resolve, w.queryHash);
        info.Success?
        && man.version == ManifestFormat && man.createdAt == w.today && man.expiresAt == w.today + ExpiryDays
        && |man.payload| == 1 && man.payload[0].os == "linux" && man.payload[0].arch == "x86_64"
        && man.payload[0].urls == [info.value.url] && man.payload[0].hash == info.value.hash
        && man.payload[0].hash.Some? && ValidHashWithFunction(man.payload[0].hash.value)
        && FillMetadata(m, packageJson, w.discovered, w.read) == Success(man.metadata)
        && (manifest in w.existing ==> overwrite)
        && w.writeError.None?
    ensures var run := ManifestCreateAction(image, m, manifest, overwrite, imageHash, packageJson, w);
      run.written.Some? <==> run.stopped.None?
  {
    var info := GetImage(image, imageHash, w.resolve, w.queryHash);
    if info.Success? {
      ValidationRule(info.value, w.urlError);
    }
  }

  /**
   * A rejected `writeFile` throws its error after every check has passed: nothing is
   * written and "Created manifest in ... file" is not printed; the checks' own exits
   * come first.
   */
  lemma FailedWriteThrows(image: string, m: Metadata, manifest: string, overwrite: bool,
                          imageHash: Option<string>, packageJson: Option<string>, w: CreateWorld)
    requires w.writeError.Some?
    ensures var run := ManifestCreateAction(image, m, manifest, overwrite, imageHash, packageJson, w);
      run.written.None? && run.stopped.Some? && Out("Created manifest in " + manifest + " file") !in run.lines
    ensures var run := ManifestCreateAction(image, m, manifest, overwrite, imageHash, packageJson, w);
      var info := GetImage(image, imageHash, w.resolve, w.queryHash);
      info.Success? && ValidateImageInfo(info.value, w.urlError).None?
      && FillMetadata(m, packageJson, w.discovered, w.read).Success? && (manifest in w.existing ==> overwrite)
      ==> run == CreateRun([], None, Some(Thrown(w.writeError.value)))
  {
  }

  /** The missing-hash warning is never printed: validation already exits on a missing hash. */
  lemma NoHashWarningUnreachable(image: string, m: Metadata, manifest: string, overwrite: bool,
                                 imageHash: Option<string>, packageJson: Option<string>, w: CreateWorld)
    ensures Out(NoHashWarning) !in ManifestCreateAction(image, m, manifest, overwrite, imageHash, packageJson, w).lines
  {
    var info := GetImage(image, imageHash, w.resolve, w.queryHash);
    var filled := FillMetadata(m, packageJson, w.discovered, w.read);
    if info.Success? && ValidateImageInfo(info.value, w.urlError).None? && filled.Success?
       && !(manifest in w.existing && !overwrite) && w.writeError.None? {
      ValidationRule(info.value, w.urlError);
      var created := "Created manifest in " + manifest + " file";
      assert ManifestCreateAction(image, m, manifest, overwrite, imageHash, packageJson, w).lines == [Out(created)];
      assert created != NoHashWarning by {
        assert created[0] == 'C';
        assert NoHashWarning[0] == 'W';
      }
    }
  }
}
