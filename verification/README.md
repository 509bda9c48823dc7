# LuxCore build helpers and utilities, modelled in Dafny

This project models four small, sequential pieces of LuxCoreRender:

- `luxrays::SanitizeFileName` keeps ASCII letters and digits and turns every other byte into `_` (module `Config`, `config.dfy`).
- `luxrays::ThreadSafeQueue<T>` is a FIFO over a `std::deque` with `Clear`, `GetSize`, `Push` and `Pop`. It is modelled sequentially as an immutable `Queue` value (module `ThreadSafe`, `threadsafe.dfy`). `Pop` waits for an item; in the model that wait becomes the precondition that the queue is not empty. A trace semantics (`Run`) reports a `Pop` on an empty queue as `None`, a call that would wait forever.
- The dependency installer `cmake/make_deps.py` is modelled in module `MakeDeps` (`make_deps.dfy`). It covers the `URL_SUFFIXES` table, `find_platform`, `build_url`, `get_profile_name` and the list of build types built in `main`. The host's `platform.system()` and `platform.machine()` answers are parameters. The settings' `user` is an `Option<string>`, and the `release` is the text `f"v{release}"` formats.
- The CMake wrapper `cmake/cmake.py` is modelled in module `CMake` (`cmake.dfy`). It covers `PRESET_PATTERN` with `fullmatch`, the list comprehension in `get_presets`, the `PRESETS` table and `get_preset_from_build_type`. The lines CMake prints and the list of available presets are parameters.

Two helper modules support them. `Wrappers` (`wrappers.dfy`) holds `Option` and `Result`. `Text` (`text.dfy`) holds Python's `sep.join` and `str.split` for a one-character separator.

Python exceptions and `sys.exit(1)` become `Failure` values. A `std::string` is a byte string, and here each `char` stands for one byte. So every character outside the ASCII letter and digit ranges is replaced, which is the same result for signed and unsigned `char`. Python's regular-expression `\s` is the set of characters `str.isspace()` accepts. Its `.` matches any character except `\n`.

## Model

| member | source | states |
|---|---|---|
| Config.SanitizeFileName | src/luxrays/utils/config.cpp:31-41 | the result has the input's length; every ASCII letter or digit stays at its position; every other character becomes `_` there; every output character is in `[A-Za-z0-9_]` |
| Config.SanitizeFileNameLoop | src/luxrays/utils/config.cpp:32-38 | the C++ loop, which fills a `_` buffer and copies letters and digits into it, computes exactly the sanitized name |
| Config.SanitizeFixedPoints | src/luxrays/utils/config.cpp:31-41 | sanitizing leaves a name unchanged if and only if it consists of letters, digits and `_` only |
| Config.SanitizeIdempotent | src/luxrays/utils/config.cpp:31-41 | sanitizing an already sanitized name returns it unchanged |
| Config.SanitizeKeepsAlnumNames | src/luxrays/utils/config.cpp:31-41 | a name of letters and digits only is returned unchanged, and the empty name maps to the empty name |
| Config.SanitizeConcat | src/luxrays/utils/config.cpp:34-37 | the mapping is position by position, so sanitizing a concatenation concatenates the sanitized parts |
| ThreadSafe.Empty | include/luxrays/utils/threadsafe.h:30-31 | a newly constructed queue holds no items |
| ThreadSafe.Clear | include/luxrays/utils/threadsafe.h:36-40 | after `Clear` the queue is empty and `GetSize` is 0 |
| ThreadSafe.GetSize | include/luxrays/utils/threadsafe.h:42-46 | the number of waiting items, which is 0 exactly when nothing is queued |
| ThreadSafe.Push | include/luxrays/utils/threadsafe.h:48-55 | size grows by exactly one; the earlier items keep their positions; the new item is last |
| ThreadSafe.Pop | include/luxrays/utils/threadsafe.h:57-69 | needs at least one item; returns the front item; the remaining queue is exactly the tail, one item shorter |
| ThreadSafe.PopPushEmpty | include/luxrays/utils/threadsafe.h:48-68 | on an empty queue, `Pop` undoes `Push`: it returns the pushed item and leaves the queue empty again |
| ThreadSafe.PopPushNonEmpty | include/luxrays/utils/threadsafe.h:48-68 | on a non-empty queue, `Pop` after `Push` returns the old front, and the pushed item waits at the back of the rest |
| ThreadSafe.PushAll | include/luxrays/utils/threadsafe.h:48-52 | pushing a batch grows the size by the batch length |
| ThreadSafe.PopN | include/luxrays/utils/threadsafe.h:57-69 | popping `n` times yields `n` items and shrinks the size by `n` |
| ThreadSafe.PushAllAppends | include/luxrays/utils/threadsafe.h:48-52 | after pushing a batch, the contents are the old contents followed by the batch in push order |
| ThreadSafe.PopNTakesPrefix | include/luxrays/utils/threadsafe.h:65-66 | popping `n` times yields the first `n` waiting items in order and leaves the rest |
| ThreadSafe.Fifo | include/luxrays/utils/threadsafe.h:48-68 | pushing `xs` onto an empty queue and popping as many times as `xs` is long yields `xs` in order and leaves the queue empty |
| ThreadSafe.StepConservesItems | include/luxrays/utils/threadsafe.h:42-68 | a single `Push`, `Pop` or `GetSize` call loses, duplicates and reorders nothing, and `GetSize` reports the number of waiting items |
| ThreadSafe.RunConservesItems | include/luxrays/utils/threadsafe.h:28-75 | over any run of calls without `Clear`, the popped items followed by the remaining items equal the initial items followed by the pushed items |
| MakeDeps.FindPlatform | cmake/make_deps.py:53-70 | Linux gives `Linux-X64` and Windows gives `Windows-X64`; Darwin with `arm64` or `x86_64` gives `macOS-ARM64` or `macOS-X64`; success happens exactly for these hosts and always yields a key of `URL_SUFFIXES`; any other Darwin machine is `UnknownMachine` and any other system is `UnknownSystem` |
| MakeDeps.FindPlatformInverse | cmake/make_deps.py:53-70 | the platform name gives back the host system, and on macOS the machine as well |
| MakeDeps.EffectiveUser | cmake/make_deps.py:77-78 | a missing or empty user becomes `LuxCoreRender`; a non-empty user is used verbatim; the result is never empty |
| MakeDeps.BuildUrl | cmake/make_deps.py:73-90 | fails exactly when `find_platform` fails, with the same error, whatever the user; otherwise the result is `https://github.com/<user>/LuxCoreDeps/releases/download/v<release>/luxcore-deps-<suffix>.zip` with the platform's suffix |
| MakeDeps.JoinUrlSegments | cmake/make_deps.py:80-90 | joining the seven URL segments with `/` gives that flat URL text |
| MakeDeps.BuildUrlIsJoin | cmake/make_deps.py:75-90 | a successful `build_url` is the `/`-join of its segments, using the platform's suffix |
| MakeDeps.SuffixHasNoSlash | cmake/make_deps.py:31-36 | no bundle suffix contains `/` |
| MakeDeps.SplitUrlSegments | cmake/make_deps.py:80-90 | when user, release and suffix contain no `/`, splitting the joined URL at `/` gives the scheme, an empty piece, the host and then the six later segments |
| MakeDeps.BuildUrlSegments | cmake/make_deps.py:73-90 | when user and release contain no `/`, splitting the URL at `/` gives back scheme, host, user, repository, `releases`, `download`, the release tag and the bundle file name |
| MakeDeps.BuildUrlFileName | cmake/make_deps.py:73-90 | for every user and release, the last `/`-piece of the URL is `luxcore-deps-<suffix>.zip`, the name `download` saves the bundle under |
| MakeDeps.GetProfileName | cmake/make_deps.py:93-95 | fails exactly when `find_platform` fails, with the same error; otherwise the name is `conan-profile-` followed by a key of `URL_SUFFIXES`, and stripping the prefix gives back the platform `find_platform` chose |
| MakeDeps.ProfileMatchesBundle | cmake/make_deps.py:73-95 | when a profile exists the URL exists too; removing the prefix from the profile gives the platform, and the URL's file name is that platform's bundle |
| MakeDeps.BuildTypes | cmake/make_deps.py:342-344 | the list is `Debug`, `Release`; with `extended` it continues with `RelWithDebInfo`, `MinSizeRel` in that order; no build type repeats |
| Text.Join | cmake/make_deps.py:90 | joining no parts gives the empty text, and a join starts with its first part |
| Text.JoinEndsWithLast | cmake/make_deps.py:90 | a join of one or more parts ends with its last part; with two or more parts it is the join of all but the last part, then one separator, then the last part, so appending a part adds exactly one separator |
| Text.Split | cmake/make_deps.py:133 | `str.split` never returns an empty list, and no piece contains the separator |
| Text.SplitJoin | cmake/make_deps.py:90 | splitting undoes `sep.join` when no part contains the separator |
| Text.JoinSplit | cmake/make_deps.py:90 | `sep.join` undoes splitting, for every string |
| Text.LastPieceOfJoin | cmake/make_deps.py:133 | the last piece of a join is its last part, when that part has no separator |
| CMake.SpanLength | cmake/cmake.py:46 | the greedy run of a character class: every character in it is in the class, and the character after it is not |
| CMake.MatchPresetLine | cmake/cmake.py:46 | a captured name is one or more ASCII letters or hyphens |
| CMake.MatchPresetLineSound | cmake/cmake.py:46 | whenever a name is extracted, the line is whitespace, `"`, that name, `"`, then text without a newline |
| CMake.MatchPresetLineComplete | cmake/cmake.py:46 | every such decomposition of a line is found, and the extracted name is the one between the first two quotes |
| CMake.MatchPresetLineIff | cmake/cmake.py:46 | the matcher returns `name` if and only if the pattern fully matches the line with group 1 equal to `name` |
| CMake.PresetLineRoundTrip | cmake/cmake.py:46 | an indented line holding a quoted preset name and a newline-free description yields that name |
| CMake.LinePreset | cmake/cmake.py:141-143 | a line contributes at most one name, and that name is a valid preset name |
| CMake.GetPresets | cmake/cmake.py:135-145 | no more names than lines, and every collected name consists of letters and hyphens |
| CMake.GetPresetsAppend | cmake/cmake.py:140-144 | the names from two blocks of lines are the names of the first block followed by those of the second, so line order is kept |
| CMake.GetPresetsOneLine | cmake/cmake.py:140-144 | a non-matching line contributes nothing, and a matching line contributes exactly its name |
| CMake.GetPresetsMembership | cmake/cmake.py:140-144 | a name is collected if and only if some line fully matches with that name |
| CMake.GetPresetFromBuildType | cmake/cmake.py:92-103 | succeeds exactly for the four keys of `PRESETS`; any other build type is `UnknownBuildType`; the preset is the table's value; it is reported missing exactly when it is absent from the available presets, and it is returned either way |
| CMake.PresetTable | cmake/cmake.py:84-99 | Release, Debug, RelWithDebInfo and MinSizeRel map to `conan-release`, `conan-debug`, `conan-relwithdebinfo` and `conan-minsizerel`; lower-case `release` is refused |
| CMake.PresetDeterminesBuildType | cmake/cmake.py:84-89 | different build types never share a preset |
| CMake.GeneratedBuildTypesHavePresets | cmake/cmake.py:84-99 | every build type the installer generates, extended or not, has a preset |
| CMake.ReportedMissingIffNoLine | cmake/cmake.py:100-103 | checked against CMake's own listing, the preset is reported missing exactly when no listed line names it |
| CMake.PresetTypeOf | cmake/cmake.py:37-43 | a kind found for a value has exactly that value |
| CMake.ListPresetsOptionAsWritten | cmake/cmake.py:137-138 | as written, the option is `--list-presets=` followed by text that is not the value of any preset kind |
| CMake.ListPresetsOption | cmake/cmake.py:137-138 | as intended, the option is `--list-presets=` followed by the value of exactly the requested kind |
| CMake.ListPresetsOptionAsWrittenNamesNoKind | cmake/cmake.py:137-138 | as written, the text after `--list-presets=` is `PresetType.<MEMBER>`, which names no preset kind and differs from every intended option |
| CMake.ListPresetsOptionNamesKind | cmake/cmake.py:137-138 | with the member's value, the text after `--list-presets=` names exactly the requested kind |

## Left out

- `src/slg/engines/pathcpu/pathcputhread.cpp` is not part of this model. It is a render-thread run loop whose point is concurrency: stop tokens, 100 ms sleep-polling and yielding. It calls collaborators whose code is not available (`RenderSample`, samplers, `Film::GetConvergence`, `PhotonGICache::Update`/`FinishUpdate`). The render-engine state machine, samplers, film accumulation, variance clamping and photon-cache barrier that would surround it are not in these files either.
- The mutex and condition variable of `ThreadSafeQueue` are left out, along with `notify_all` and the blocking inside `Pop`. Only the sequential FIFO behaviour is modelled.
- ThreadSafe.Pop: blocking until another thread pushes is replaced by the precondition that an item is waiting, because the model has no other threads. In `Run`, a pop on an empty queue is `None`.
- `GetConfigDir` in `config.cpp` is left out: it reads environment variables, calls `getpwuid`, uses temporary directories and depends on platform `#if` branches.
- Config.SanitizeFileName does not model the 32-bit `u_int` loop index, because the model's indices are unbounded. That index only matters for names of 4 GiB or more.
- Config.SanitizeFileName: characters are not limited to single bytes. For a name given as Unicode text the model writes one `_` per code point, whereas the C++ code works on the UTF-8 bytes and writes one `_` per byte; for byte strings (one character per byte) the two agree.
- Everything else in `make_deps.py` and `cmake.py` is left out as network, subprocess, filesystem, logging or argument-parsing plumbing. That covers `ensure_conan_app`, `run_conan`, `download`, `install`, `conan_home`, `copy_conf`, the rest of `main`, `ensure_cmake_app`, `run_cmake`, `config`, `build`, `install`, `build_and_install`, `get_all_presets`, `list_presets`, `clean`, `clear` and `deps`. Running `cmake --list-presets` is replaced by its output lines as a parameter, and `splitlines` by the list of lines.
- MakeDeps.EffectiveUser: only a missing (`null`) or string `user` setting is modelled. Other JSON types (numbers, lists, `false`) are left out; `"/".join` would reject a non-string user.
- MakeDeps.BuildUrlFileName: `urlparse` is not modelled. The lemma takes the last `/`-piece of the whole URL, which equals `urlparse(url).path.split("/")[-1]` only when the user and release contain no `?` or `#`. A `;` needs no condition: `urlparse` splits parameters only from the last path segment, and that segment holds no `;`.
- The logging done on the error paths, and the listing of valid keys, are left out. Their effect on control flow is modelled: `Failure` for exits and `reportedMissing` for the log-only branch.
- `build-helpers/conan/conanfile.py`, `build-helpers/wheels/recompose_wheel_windows.py`, `samples/luxcoreui/uimenu.cpp` and `src/slg/film/imagepipeline/plugins/bcddenoiser.cpp` are not part of this model. They are Conan glue, filesystem and subprocess scripting, a GUI, and a floating-point wrapper around an external denoiser.

## Findings

| source | as written | input that shows it | evidently intended | confidence | as-written member | corrected member |
|---|---|---|---|---|---|---|
| cmake/cmake.py:137-138 | `get_presets` formats the kind with `str(preset_type)`; for a plain `Enum` member that is `PresetType.BUILD` | `get_presets(PresetType.BUILD)` passes `--list-presets=PresetType.BUILD`, which names no CMake preset kind, so CMake does not list the build presets. CMake very likely rejects the unknown value with a non-zero exit status, and `run_cmake` (cmake/cmake.py:66-70) then calls `sys.exit(1)`, so `get_preset_from_build_type`, and with it `build`, `clean` and `list-presets`, would end the process; this last step depends on CMake's behaviour | `--list-presets=build`, the member's `.value`, which `get_all_presets` already uses as its key (cmake/cmake.py:151) | medium; not executed | CMake.ListPresetsOptionAsWrittenNamesNoKind | CMake.ListPresetsOptionNamesKind |
