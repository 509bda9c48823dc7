/**
 The pure decisions of the dependency installer: which prebuilt dependency
 bundle fits the host, where to download it from, which Conan profile to use,
 and which build types to generate. The host's `platform.system()` and
 `platform.machine()` answers are parameters.
 */
module MakeDeps {
  import opened Wrappers
  import Text

  /** Platform name to the name of the CI runner that built its bundle. */
  const URL_SUFFIXES: map<string, string> := map[
    "Linux-X64" := "ubuntu-latest",
    "Windows-X64" := "windows-latest",
    "macOS-ARM64" := "macos-14",
    "macOS-X64" := "macos-13"
  ]

  /** The GitHub account used when the settings name none. */
  const DEFAULT_USER: string := "LuxCoreRender"

  /** The two `RuntimeError`s `find_platform` raises. */
  datatype PlatformError =
    | UnknownMachine(machine: string)
    | UnknownSystem(system: string)

  /** The hosts a dependency bundle exists for. */
  predicate IsSupportedHost(system: string, machine: string)
  {
    system == "Linux" || system == "Windows"
    || (system == "Darwin" && (machine == "arm64" || machine == "x86_64"))
  }

  /** `find_platform`: the platform name of the host, or why there is none. */
  function FindPlatform(system: string, machine: string): (r: Result<string, PlatformError>)
    ensures r.Success? <==> IsSupportedHost(system, machine)
    ensures r.Success? ==> r.value in URL_SUFFIXES
    ensures system == "Linux" ==> r == Success("Linux-X64")
    ensures system == "Windows" ==> r == Success("Windows-X64")
    ensures system == "Darwin" && machine == "arm64" ==> r == Success("macOS-ARM64")
    ensures system == "Darwin" && machine == "x86_64" ==> r == Success("macOS-X64")
    ensures r.Failure? && system == "Darwin" ==> r.error == UnknownMachine(machine)
    ensures r.Failure? && system != "Darwin" ==> r.error == UnknownSystem(system)
  {
    if system == "Linux" then Success("Linux-X64")
    else if system == "Windows" then Success("Windows-X64")
    else if system == "Darwin" then
      if machine == "arm64" then Success("macOS-ARM64")
      else if machine == "x86_64" then Success("macOS-X64")
      else Failure(UnknownMachine(machine))
    else Failure(UnknownSystem(system))
  }

  /** The operating system a platform name stands for, as `platform.system()` reports it. */
  function SystemOf(platformName: string): string
  {
    if platformName == "Linux-X64" then "Linux"
    else if platformName == "Windows-X64" then "Windows"
    else "Darwin"
  }

  /** The platform name determines the host system, and on macOS the machine as well. */
  lemma FindPlatformInverse(system: string, machine: string)
    requires FindPlatform(system, machine).Success?
    ensures SystemOf(FindPlatform(system, machine).value) == system
    ensures system == "Darwin" ==>
      (FindPlatform(system, machine).value == "macOS-ARM64" <==> machine == "arm64")
  {
  }

  /** The user actually used: the configured one unless it is missing or empty (falsy). */
  function EffectiveUser(user: Option<string>): (u: string)
    ensures u != ""
    ensures user.Some? && user.value != "" ==> u == user.value
    ensures user.None? || user.value == "" ==> u == DEFAULT_USER
  {
    if user.None? || user.value == "" then DEFAULT_USER else user.value
  }

  /** The path segments `build_url` joins with `/`. */
  function UrlSegments(user: Option<string>, release: string, suffix: string): seq<string>
  {
    [ "https://github.com", EffectiveUser(user), "LuxCoreDeps", "releases", "download",
      "v" + release, "luxcore-deps-" + suffix + ".zip" ]
  }

  /**
   `build_url`: the download URL of the bundle for this host. The platform is
   looked up first, so an unknown host fails whatever the user is.
   */
  function BuildUrl(user: Option<string>, release: string, system: string, machine: string)
    : (r: Result<string, PlatformError>)
    ensures r.Failure? <==> FindPlatform(system, machine).Failure?
    ensures r.Failure? ==> r.error == FindPlatform(system, machine).error
    ensures r.Success? ==>
      r.value == "https://github.com/" + EffectiveUser(user) + "/LuxCoreDeps/releases/download/v"
                 + release + "/luxcore-deps-" + URL_SUFFIXES[FindPlatform(system, machine).value] + ".zip"
  {
    match FindPlatform(system, machine)
    case Failure(e) => Failure(e)
    case Success(platformName) =>
      var suffix := URL_SUFFIXES[platformName];
      JoinUrlSegments(user, release, suffix);
      Success(Text.Join(UrlSegments(user, release, suffix), '/'))
  }

  /** Joining the segments gives the flat URL text. */
  lemma JoinUrlSegments(user: Option<string>, release: string, suffix: string)
    ensures Text.Join(UrlSegments(user, release, suffix), '/')
            == "https://github.com/" + EffectiveUser(user) + "/LuxCoreDeps/releases/download/v"
               + release + "/luxcore-deps-" + suffix + ".zip"
  {
    var u, file := EffectiveUser(user), "luxcore-deps-" + suffix + ".zip";
    var l5 := ["v" + release, file];
    var j5 := "v" + release + "/" + file;
    Text.JoinCons("v" + release, [file], '/');
    var l4, j4 := ["download"] + l5, "download" + "/" + j5;
    Text.JoinCons("download", l5, '/');
    var l3, j3 := ["releases"] + l4, "releases" + "/" + j4;
    Text.JoinCons("releases", l4, '/');
    var l2, j2 := ["LuxCoreDeps"] + l3, "LuxCoreDeps" + "/" + j3;
    Text.JoinCons("LuxCoreDeps", l3, '/');
    var l1, j1 := [u] + l2, u + "/" + j2;
    Text.JoinCons(u, l2, '/');
    Text.JoinCons("https://github.com", l1, '/');
    assert UrlSegments(user, release, suffix) == ["https://github.com"] + l1;
    UrlText(u, release, suffix);
  }

  /** The URL text, regrouped from the nesting `Join` produces. */
  lemma UrlText(u: string, release: string, suffix: string)
    ensures "https://github.com" + "/" + (u + "/" + ("LuxCoreDeps" + "/" + ("releases" + "/"
              + ("download" + "/" + ("v" + release + "/" + ("luxcore-deps-" + suffix + ".zip"))))))
            == "https://github.com/" + u + "/LuxCoreDeps/releases/download/v"
               + release + "/luxcore-deps-" + suffix + ".zip"
  {
  }

  /** A successful `build_url` is the `/`-join of its segments. */
  lemma BuildUrlIsJoin(user: Option<string>, release: string, system: string, machine: string)
    requires FindPlatform(system, machine).Success?
    ensures BuildUrl(user, release, system, machine)
            == Success(Text.Join(UrlSegments(user, release, URL_SUFFIXES[FindPlatform(system, machine).value]), '/'))
  {
  }

  /**
   When neither the user nor the release contains `/`, splitting the URL at `/`
   gives back exactly the scheme, host, user, repository, release tag and file name.
   */
  lemma BuildUrlSegments(user: Option<string>, release: string, system: string, machine: string)
    requires BuildUrl(user, release, system, machine).Success?
    requires '/' !in EffectiveUser(user) && '/' !in release
    ensures Text.Split(BuildUrl(user, release, system, machine).value, '/')
            == ["https:", "", "github.com"]
               + [EffectiveUser(user), "LuxCoreDeps", "releases", "download", "v" + release,
                  "luxcore-deps-" + URL_SUFFIXES[FindPlatform(system, machine).value] + ".zip"]
  {
    var suffix := URL_SUFFIXES[FindPlatform(system, machine).value];
    SuffixHasNoSlash(FindPlatform(system, machine).value);
    BuildUrlIsJoin(user, release, system, machine);
    SplitUrlSegments(user, release, suffix);
  }

  /** No bundle suffix contains `/`. */
  lemma SuffixHasNoSlash(platformName: string)
    requires platformName in URL_SUFFIXES
    ensures '/' !in URL_SUFFIXES[platformName]
  {
  }

  /** Splitting the joined segments undoes the join, with the scheme-and-host segment split too. */
  lemma SplitUrlSegments(user: Option<string>, release: string, suffix: string)
    requires '/' !in EffectiveUser(user) && '/' !in release && '/' !in suffix
    ensures Text.Split(Text.Join(UrlSegments(user, release, suffix), '/'), '/')
            == ["https:", "", "github.com"]
               + [EffectiveUser(user), "LuxCoreDeps", "releases", "download", "v" + release,
                  "luxcore-deps-" + suffix + ".zip"]
  {
    var rest := [EffectiveUser(user), "LuxCoreDeps", "releases", "download", "v" + release,
                 "luxcore-deps-" + suffix + ".zip"];
    assert '/' !in "v" + release && '/' !in "luxcore-deps-" + suffix + ".zip";
    NoSlashInSegments(rest);
    SplitHost();
    Text.SplitJoinWithHead("https://github.com", ["https:", "", "github.com"], rest, '/');
  }

  /** A helper that states the element-wise side condition once. */
  lemma NoSlashInSegments(rest: seq<string>)
    requires |rest| == 6
    requires '/' !in rest[0] && '/' !in rest[4] && '/' !in rest[5]
    requires rest[1] == "LuxCoreDeps" && rest[2] == "releases" && rest[3] == "download"
    ensures forall i :: 0 <= i < |rest| ==> '/' !in rest[i]
  {
  }

  /** The scheme-and-host segment splits into the scheme, an empty piece and the host. */
  lemma SplitHost()
    ensures Text.Split("https://github.com", '/') == ["https:", "", "github.com"]
  {
    Text.SplitDoubleSeparator("https:", "github.com", '/');
    assert "https:" + ['/', '/'] + "github.com" == "https://github.com";
  }

  /**
   Whatever the user and release, the last `/`-piece of the URL (the name the
   download is saved under) is the platform's bundle file name.
   */
  lemma BuildUrlFileName(user: Option<string>, release: string, system: string, machine: string)
    requires BuildUrl(user, release, system, machine).Success?
    ensures Text.LastPiece(BuildUrl(user, release, system, machine).value, '/')
            == "luxcore-deps-" + URL_SUFFIXES[FindPlatform(system, machine).value] + ".zip"
  {
    var suffix := URL_SUFFIXES[FindPlatform(system, machine).value];
    var segments := UrlSegments(user, release, suffix);
    BuildUrlIsJoin(user, release, system, machine);
    assert '/' !in suffix;
    assert '/' !in segments[|segments| - 1];
    Text.LastPieceOfJoin(segments, '/');
  }

  /** The common beginning of every Conan profile name. */
  const PROFILE_PREFIX: string := "conan-profile-"

  /** `get_profile_name`: the Conan profile of this host. */
  function GetProfileName(system: string, machine: string): (r: Result<string, PlatformError>)
    ensures r.Failure? <==> FindPlatform(system, machine).Failure?
    ensures r.Failure? ==> r.error == FindPlatform(system, machine).error
    ensures r.Success? ==> |r.value| > |PROFILE_PREFIX| && r.value[..|PROFILE_PREFIX|] == PROFILE_PREFIX
    ensures r.Success? ==> r.value[|PROFILE_PREFIX|..] in URL_SUFFIXES
    ensures r.Success? ==> PlatformOfProfile(r.value) == Some(FindPlatform(system, machine).value)
  {
    match FindPlatform(system, machine)
    case Failure(e) => Failure(e)
    case Success(platformName) => Success(PROFILE_PREFIX + platformName)
  }

  /** Removing the prefix from a profile name gives back the platform name. */
  function PlatformOfProfile(profile: string): Option<string>
  {
    if |profile| >= |PROFILE_PREFIX| && profile[..|PROFILE_PREFIX|] == PROFILE_PREFIX
    then Some(profile[|PROFILE_PREFIX|..]) else None
  }

  /** The profile and the download URL always name the same platform. */
  lemma ProfileMatchesBundle(user: Option<string>, release: string, system: string, machine: string)
    requires GetProfileName(system, machine).Success?
    ensures BuildUrl(user, release, system, machine).Success?
    ensures PlatformOfProfile(GetProfileName(system, machine).value)
            == Some(FindPlatform(system, machine).value)
    ensures var p := PlatformOfProfile(GetProfileName(system, machine).value).value;
            Text.LastPiece(BuildUrl(user, release, system, machine).value, '/')
            == "luxcore-deps-" + URL_SUFFIXES[p] + ".zip"
  {
    BuildUrlFileName(user, release, system, machine);
  }

  /** The build types `main` generates Conan files for; `--extended` adds two. */
  function BuildTypes(extended: bool): (types: seq<string>)
    ensures |types| == if extended then 4 else 2
    ensures types[..2] == ["Debug", "Release"]
    ensures extended ==> types[2..] == ["RelWithDebInfo", "MinSizeRel"]
    ensures forall i, j :: 0 <= i < j < |types| ==> types[i] != types[j]
  {
    var base := ["Debug", "Release"];
    if extended then base + ["RelWithDebInfo", "MinSizeRel"] else base
  }
}
