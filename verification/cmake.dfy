/**
 The pure parts of the CMake wrapper: recognising preset names in the output
 of `cmake --list-presets`, and choosing the Conan build preset for a build
 type. The lines CMake prints and the list of available presets are parameters.
 */
module CMake {
  import opened Wrappers
  import MakeDeps

  /** Python's `\s` on `str`: the characters `str.isspace()` accepts. */
  predicate IsRegexSpace(c: char)
  {
    ('\t' <= c <= '\r') || ('\U{1C}' <= c <= '\U{1F}') || c == ' ' || c == '\U{85}' || c == '\U{A0}'
    || c == '\U{1680}' || ('\U{2000}' <= c <= '\U{200A}') || c == '\U{2028}' || c == '\U{2029}'
    || c == '\U{202F}' || c == '\U{205F}' || c == '\U{3000}'
  }

  /** The character class `[a-zA-Z\-]`. */
  predicate IsNameChar(c: char)
  {
    ('a' <= c <= 'z') || ('A' <= c <= 'Z') || c == '-'
  }

  /** What the group `([a-zA-Z\-]+)` can capture. */
  predicate IsPresetName(s: string)
  {
    |s| >= 1 && forall i :: 0 <= i < |s| ==> IsNameChar(s[i])
  }

  /** The length of the longest prefix of `s` all of whose characters satisfy `p`. */
  function SpanLength(s: string, p: char -> bool): (n: nat)
    ensures n <= |s|
    ensures forall i :: 0 <= i < n ==> p(s[i])
    ensures n < |s| ==> !p(s[n])
  {
    if |s| == 0 || !p(s[0]) then 0 else 1 + SpanLength(s[1..], p)
  }

  /**
   `PRESET_PATTERN.fullmatch(line)` and its group 1: leading whitespace, a quoted
   name of letters and hyphens, then anything up to the end of the line (`.`
   matches every character but a newline).
   */
  function MatchPresetLine(line: string): (r: Option<string>)
    ensures r.Some? ==> IsPresetName(r.value)
  {
    var k := SpanLength(line, IsRegexSpace);
    var quoted := line[k..];
    if |quoted| >= 1 && quoted[0] == '"' then
      var n := SpanLength(quoted[1..], IsNameChar);
      var after := quoted[1 + n..];
      if n >= 1 && |after| >= 1 && after[0] == '"' && '\n' !in after[1..]
      then Some(quoted[1..1 + n])
      else None
    else None
  }

  /**
   The regular expression's meaning, stated directly: `line` is `k` whitespace
   characters, `"`, `name`, `"`, then text without a newline.
   */
  ghost predicate MatchesAt(line: string, k: nat, name: string)
  {
    && k + |name| + 2 <= |line|
    && (forall i :: 0 <= i < k ==> IsRegexSpace(line[i]))
    && line[k] == '"'
    && line[k + 1..k + 1 + |name|] == name
    && IsPresetName(name)
    && line[k + 1 + |name|] == '"'
    && '\n' !in line[k + 2 + |name|..]
  }

  /** The line fully matches the pattern with group 1 equal to `name`. */
  ghost predicate FullMatch(line: string, name: string)
  {
    exists k: nat :: MatchesAt(line, k, name)
  }

  /** A span that stops at a character outside the class has exactly that length. */
  lemma SpanLengthExact(s: string, p: char -> bool, k: nat)
    requires k < |s| && !p(s[k])
    requires forall i :: 0 <= i < k ==> p(s[i])
    ensures SpanLength(s, p) == k
  {
  }

  /** Whatever the matcher extracts, the line matches the pattern with that group. */
  lemma MatchPresetLineSound(line: string)
    requires MatchPresetLine(line).Some?
    ensures MatchesAt(line, SpanLength(line, IsRegexSpace), MatchPresetLine(line).value)
  {
    var k := SpanLength(line, IsRegexSpace);
    var quoted := line[k..];
    var n := SpanLength(quoted[1..], IsNameChar);
    var after := quoted[1 + n..];
    var name := quoted[1..1 + n];
    assert MatchPresetLine(line) == Some(name);
    assert line[k + 1..k + 1 + n] == name;
    assert line[k + 1 + n] == after[0];
    assert line[k + 2 + n..] == after[1..];
    assert MatchesAt(line, k, name);
  }

  /** Every way the pattern matches is found, with the same group. */
  lemma MatchPresetLineComplete(line: string, k: nat, name: string)
    requires MatchesAt(line, k, name)
    ensures MatchPresetLine(line) == Some(name)
  {
    assert !IsRegexSpace(line[k]);
    SpanLengthExact(line, IsRegexSpace, k);
    var quoted := line[k..];
    assert quoted[0] == '"';
    var body := quoted[1..];
    assert body[..|name|] == name;
    assert body[|name|] == '"';
    forall i | 0 <= i < |name| ensures IsNameChar(body[i]) {
      assert body[i] == name[i];
    }
    SpanLengthExact(body, IsNameChar, |name|);
    var after := quoted[1 + |name|..];
    assert after[0] == '"';
    assert after[1..] == line[k + 2 + |name|..];
    assert quoted[1..1 + |name|] == name;
  }

  /** The matcher returns `name` exactly when the pattern fully matches with group `name`. */
  lemma MatchPresetLineIff(line: string, name: string)
    ensures MatchPresetLine(line) == Some(name) <==> FullMatch(line, name)
  {
    if MatchPresetLine(line) == Some(name) {
      MatchPresetLineSound(line);
    }
    if FullMatch(line, name) {
      var k: nat :| MatchesAt(line, k, name);
      MatchPresetLineComplete(line, k, name);
    }
  }

  /** A line CMake would print for a preset, indented and with a description, yields its name. */
  lemma PresetLineRoundTrip(indent: string, name: string, description: string)
    requires forall i :: 0 <= i < |indent| ==> IsRegexSpace(indent[i])
    requires IsPresetName(name)
    requires '\n' !in description
    ensures MatchPresetLine(indent + "\"" + name + "\"" + description) == Some(name)
  {
    var line := indent + "\"" + name + "\"" + description;
    var k := |indent|;
    assert line[k + 1..k + 1 + |name|] == name;
    assert line[k + 2 + |name|..] == description;
    forall i | 0 <= i < k ensures IsRegexSpace(line[i]) {
      assert line[i] == indent[i];
    }
    assert MatchesAt(line, k, name);
    MatchPresetLineComplete(line, k, name);
  }

  /** What one line contributes: its group 1 if it fully matches, nothing otherwise. */
  function LinePreset(line: string): (r: seq<string>)
    ensures |r| <= 1
    ensures forall j :: 0 <= j < |r| ==> IsPresetName(r[j])
  {
    match MatchPresetLine(line)
    case Some(name) => [name]
    case None => []
  }

  /** The presets `get_presets` collects: group 1 of every fully matching line, in line order. */
  function GetPresets(lines: seq<string>): (presets: seq<string>)
    ensures |presets| <= |lines|
    ensures forall j :: 0 <= j < |presets| ==> IsPresetName(presets[j])
  {
    if |lines| == 0 then [] else LinePreset(lines[0]) + GetPresets(lines[1..])
  }

  /** Collecting works line by line: the presets of two blocks of output follow each other. */
  lemma {:induction false} GetPresetsAppend(a: seq<string>, b: seq<string>)
    ensures GetPresets(a + b) == GetPresets(a) + GetPresets(b)
  {
    if |a| == 0 {
      assert a + b == b;
    } else {
      assert (a + b)[0] == a[0];
      assert (a + b)[1..] == a[1..] + b;
      GetPresetsAppend(a[1..], b);
      var first := LinePreset(a[0]);
      assert GetPresets(a + b) == first + GetPresets(a[1..] + b);
      assert GetPresets(a) == first + GetPresets(a[1..]);
      Associate(first, GetPresets(a[1..]), GetPresets(b));
    }
  }

  /** Regrouping a three-way concatenation. */
  lemma Associate(x: seq<string>, y: seq<string>, z: seq<string>)
    ensures x + (y + z) == (x + y) + z
  {
  }

  /** A single line contributes its name when it matches and nothing otherwise. */
  lemma GetPresetsOneLine(line: string)
    ensures MatchPresetLine(line).None? ==> GetPresets([line]) == []
    ensures MatchPresetLine(line).Some? ==> GetPresets([line]) == [MatchPresetLine(line).value]
  {
  }

  /** A name is collected exactly when some line matches with that name. */
  lemma {:induction false} GetPresetsMembership(lines: seq<string>, name: string)
    ensures name in GetPresets(lines)
            <==> exists i :: 0 <= i < |lines| && MatchPresetLine(lines[i]) == Some(name)
  {
    if |lines| > 0 {
      GetPresetsMembership(lines[1..], name);
      if exists i :: 0 <= i < |lines[1..]| && MatchPresetLine(lines[1..][i]) == Some(name) {
        var i :| 0 <= i < |lines[1..]| && MatchPresetLine(lines[1..][i]) == Some(name);
        assert MatchPresetLine(lines[i + 1]) == Some(name);
      }
      if exists i :: 0 <= i < |lines| && MatchPresetLine(lines[i]) == Some(name) {
        var i :| 0 <= i < |lines| && MatchPresetLine(lines[i]) == Some(name);
        if i > 0 {
          assert lines[1..][i - 1] == lines[i];
        }
      }
    }
  }

  /** Build type to the Conan-generated CMake build preset. */
  const PRESETS: map<string, string> := map[
    "Release" := "conan-release",
    "Debug" := "conan-debug",
    "RelWithDebInfo" := "conan-relwithdebinfo",
    "MinSizeRel" := "conan-minsizerel"
  ]

  /** `get_preset_from_build_type` exits when the build type is not a key of `PRESETS`. */
  datatype PresetError = UnknownBuildType(buildType: string)

  /** The chosen preset, and whether it was reported missing from the available presets. */
  datatype PresetChoice = PresetChoice(preset: string, reportedMissing: bool)

  /**
   `get_preset_from_build_type`: the preset of a build type (case-sensitive). A
   preset CMake does not list is only reported; it is still returned.
   */
  function GetPresetFromBuildType(buildType: string, available: seq<string>)
    : (r: Result<PresetChoice, PresetError>)
    ensures r.Success? <==> buildType in PRESETS
    ensures r.Failure? ==> r.error == UnknownBuildType(buildType)
    ensures r.Success? ==> r.value.preset == PRESETS[buildType]
    ensures r.Success? ==> (r.value.reportedMissing <==> r.value.preset !in available)
  {
    if buildType !in PRESETS then Failure(UnknownBuildType(buildType))
    else
      var preset := PRESETS[buildType];
      Success(PresetChoice(preset, preset !in available))
  }

  /** The table itself; any other spelling, such as lower case, is refused. */
  lemma PresetTable(available: seq<string>)
    ensures GetPresetFromBuildType("Release", available).value.preset == "conan-release"
    ensures GetPresetFromBuildType("Debug", available).value.preset == "conan-debug"
    ensures GetPresetFromBuildType("RelWithDebInfo", available).value.preset == "conan-relwithdebinfo"
    ensures GetPresetFromBuildType("MinSizeRel", available).value.preset == "conan-minsizerel"
    ensures GetPresetFromBuildType("release", available).Failure?
  {
  }

  /** Different build types never share a preset, so the preset names its build type. */
  lemma PresetDeterminesBuildType(t1: string, t2: string, available: seq<string>)
    requires GetPresetFromBuildType(t1, available).Success?
    requires GetPresetFromBuildType(t2, available).Success?
    requires GetPresetFromBuildType(t1, available).value.preset
             == GetPresetFromBuildType(t2, available).value.preset
    ensures t1 == t2
  {
  }

  /** Every build type the dependency installer generates has a preset here. */
  lemma GeneratedBuildTypesHavePresets(extended: bool, available: seq<string>)
    ensures forall i :: 0 <= i < |MakeDeps.BuildTypes(extended)| ==>
      GetPresetFromBuildType(MakeDeps.BuildTypes(extended)[i], available).Success?
  {
  }

  /** Looked up against CMake's own listing, the preset is reported missing exactly when no line names it. */
  lemma ReportedMissingIffNoLine(buildType: string, lines: seq<string>)
    requires buildType in PRESETS
    ensures GetPresetFromBuildType(buildType, GetPresets(lines)).value.reportedMissing
            <==> forall i :: 0 <= i < |lines| ==> MatchPresetLine(lines[i]) != Some(PRESETS[buildType])
  {
    GetPresetsMembership(lines, PRESETS[buildType]);
  }

  /** The preset kinds of `PresetType`. */
  datatype PresetType = Configure | Build | Test | Package

  /** A member's `.value`: the kind name CMake's `--list-presets=` expects. */
  function Value(t: PresetType): string
  {
    match t
    case Configure => "configure"
    case Build => "build"
    case Test => "test"
    case Package => "package"
  }

  /** Python's `str()` of a plain `Enum` member: class name, dot, member name. */
  function EnumStr(t: PresetType): string
  {
    "PresetType." + match t
    case Configure => "CONFIG"
    case Build => "BUILD"
    case Test => "TEST"
    case Package => "PACKAGE"
  }

  /** The kind named by a `--list-presets=` value, as `PresetType(value)` would find it. */
  function PresetTypeOf(value: string): (r: Option<PresetType>)
    ensures r.Some? ==> Value(r.value) == value
  {
    if value == "configure" then Some(Configure)
    else if value == "build" then Some(Build)
    else if value == "test" then Some(Test)
    else if value == "package" then Some(Package)
    else None
  }

  /** The option `get_presets` passes to CMake, as written: it formats the member with `str()`. */
  function ListPresetsOptionAsWritten(t: PresetType): (option: string)
    ensures |option| > |"--list-presets="| && option[..|"--list-presets="|] == "--list-presets="
    ensures PresetTypeOf(option[|"--list-presets="|..]) == None
  {
    "--list-presets=" + EnumStr(t)
  }

  /** The option as evidently intended: it formats the member's value. */
  function ListPresetsOption(t: PresetType): (option: string)
    ensures |option| > |"--list-presets="| && option[..|"--list-presets="|] == "--list-presets="
    ensures PresetTypeOf(option[|"--list-presets="|..]) == Some(t)
  {
    "--list-presets=" + Value(t)
  }

  /** As written, the kind after `=` names no preset kind at all. */
  lemma ListPresetsOptionAsWrittenNamesNoKind(t: PresetType)
    ensures ListPresetsOptionAsWritten(t)[|"--list-presets="|..] == EnumStr(t)
    ensures PresetTypeOf(EnumStr(t)) == None
    ensures forall u :: ListPresetsOptionAsWritten(t) != ListPresetsOption(u)
  {
  }

  /** As intended, the kind after `=` names exactly the requested kind. */
  lemma ListPresetsOptionNamesKind(t: PresetType)
    ensures PresetTypeOf(ListPresetsOption(t)[|"--list-presets="|..]) == Some(t)
  {
    assert ListPresetsOption(t)[|"--list-presets="|..] == Value(t);
  }
}
