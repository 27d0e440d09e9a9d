/**
 * The GitHub CLI gateway of mgas/gh_cli.py (class `GitHubCLI`) and the pieces of
 * process handling it shares with the repository bootstrapper.
 *
 * No process is started; what the program learns from the world is a `Host`: the
 * platform (`os.name`), the answer of `shutil.which("gh")`, the environment, the set
 * of paths for which `os.path.exists` holds, and the result each command would have.
 */
module GhCli {
  import opened Options
  import opened Text
  import opened Argv

  // ---------------------------------------------------------------------------
  // Processes

  /** One child process: its argument vector and, for `communicate(input=…)`, its standard input. */
  datatype Command = Command(argv: seq<string>, input: Option<string>)

  /** What a finished child process reports. */
  datatype ProcResult = ProcResult(code: int, stdout: string, stderr: string)

  datatype Output = Output(stdout: string, stderr: string)

  /** The exceptions the gateway and the bootstrapper raise. */
  datatype Failure =
    | NotFound            // FileNotFoundError("GitHub CLI not found")
    | ProcessFailed(code: int, argv: seq<string>, output: Option<Output>)
                          // CalledProcessError; `output` only when it was captured
    | RemoteConflict      // RuntimeError: the folder already has a remote named 'origin'

  type Outcome = Result<(), Failure>

  /** `os.name == "nt"` selects `ntpath` as `os.path`; every other system uses `posixpath`. */
  datatype Platform = Windows | Posix

  /** The world outside the program, as the program observes it during one operation. */
  datatype Host = Host(
    platform: Platform,                // os.name
    which: Option<string>,             // shutil.which("gh")
    environ: map<string, string>,      // os.environ
    files: set<string>,                // the paths os.path.exists accepts
    run: Command -> ProcResult)        // what each child process reports

  // ---------------------------------------------------------------------------
  // Running a sequence of commands

  /** How the caller treats a command's exit status. */
  datatype Judge =
    | Checked(captured: bool)  // `check=True`: a non-zero exit raises
    | Probe                    // `capture_output=True` without `check`: never raises
    | RefuseOrigin             // `git remote get-url origin`: success means a remote exists
    | TolerateClean            // `git commit`: "nothing to commit" is no error

  datatype Step = Step(cmd: Command, judge: Judge)

  /** The failure a step raises on `res`, if any. */
  function Verdict(step: Step, res: ProcResult): (f: Option<Failure>)
    ensures step.judge.Checked? ==>
              (f.Some? <==> res.code != 0)
              && (f.Some? ==>
                    f.value == ProcessFailed(res.code, step.cmd.argv,
                                             if step.judge.captured then Some(Output(res.stdout, res.stderr)) else None))
    ensures step.judge.Probe? ==> f.None?
    ensures step.judge.RefuseOrigin? ==> (f.Some? <==> res.code == 0) && (f.Some? ==> f.value == RemoteConflict)
    ensures step.judge.TolerateClean? ==>
              (f.None? <==> CommitTolerated(res))
              && (f.Some? ==> f.value == ProcessFailed(res.code, step.cmd.argv, Some(Output(res.stdout, res.stderr))))
  {
    match step.judge
    case Checked(captured) =>
      if res.code != 0 then
        Some(ProcessFailed(res.code, step.cmd.argv,
                           if captured then Some(Output(res.stdout, res.stderr)) else None))
      else None
    case Probe => None
    case RefuseOrigin => if res.code == 0 then Some(RemoteConflict) else None
    case TolerateClean =>
      if CommitTolerated(res) then None
      else Some(ProcessFailed(res.code, step.cmd.argv, Some(Output(res.stdout, res.stderr))))
  }

  predicate Passes(step: Step, run: Command -> ProcResult) {
    Verdict(step, run(step.cmd)).None?
  }

  /** The outcome of a sequence of calls and the commands it issued, in order. */
  datatype Run = Run(outcome: Outcome, issued: seq<Command>)

  /**
   * Issue the steps in order and stop at the first one that raises: the issued
   * commands are a prefix of the steps' commands, ending with the failing one.
   */
  function RunSteps(steps: seq<Step>, run: Command -> ProcResult): (r: Run)
    ensures |r.issued| <= |steps|
  {
    if steps == [] then Run(Ok(()), [])
    else
      match Verdict(steps[0], run(steps[0].cmd))
      case Some(f) => Run(Err(f), [steps[0].cmd])
      case None =>
        var rest := RunSteps(steps[1..], run);
        Run(rest.outcome, [steps[0].cmd] + rest.issued)
  }

  /**
   * The issued commands are the steps' commands up to and including the first step
   * that raises; the run succeeds exactly when every step passes, and then it issued
   * every command.
   */
  lemma {:induction false} RunStepsStopsAtFirstFailure(steps: seq<Step>, run: Command -> ProcResult)
    ensures var r := RunSteps(steps, run);
            && (forall i | 0 <= i < |r.issued| :: r.issued[i] == steps[i].cmd)
            && (r.outcome.Ok? <==> forall i | 0 <= i < |steps| :: Passes(steps[i], run))
            && (r.outcome.Ok? ==> |r.issued| == |steps|)
            && (r.outcome.Err? ==>
                  && |r.issued| > 0
                  && Verdict(steps[|r.issued| - 1], run(steps[|r.issued| - 1].cmd)) == Some(r.outcome.error)
                  && forall i | 0 <= i < |r.issued| - 1 :: Passes(steps[i], run))
    decreases |steps|
  {
    if steps != [] && Passes(steps[0], run) {
      var rest := steps[1..];
      RunStepsStopsAtFirstFailure(rest, run);
      assert forall i | 1 <= i < |steps| :: steps[i] == rest[i - 1];
    }
  }

  /** One step, then the rest: the rest runs only when the first step passes. */
  lemma RunCons(step: Step, rest: seq<Step>, run: Command -> ProcResult)
    ensures RunSteps([step] + rest, run)
         == match Verdict(step, run(step.cmd))
            case Some(f) => Run(Err(f), [step.cmd])
            case None => Run(RunSteps(rest, run).outcome, [step.cmd] + RunSteps(rest, run).issued)
  {
    assert ([step] + rest)[0] == step;
    assert ([step] + rest)[1..] == rest;
  }

  /** Running two sequences one after the other is running them joined, up to the first failure. */
  lemma {:induction false} RunAppend(a: seq<Step>, b: seq<Step>, run: Command -> ProcResult)
    ensures RunSteps(a + b, run)
         == var ra := RunSteps(a, run);
            if ra.outcome.Err? then ra
            else Run(RunSteps(b, run).outcome, ra.issued + RunSteps(b, run).issued)
    decreases |a|
  {
    if a == [] {
      assert a + b == b;
    } else {
      var ab := a + b;
      assert ab[0] == a[0];
      assert ab[1..] == a[1..] + b;
      var cmd := a[0].cmd;
      if Verdict(a[0], run(cmd)).None? {
        var ra', rb, rab' := RunSteps(a[1..], run), RunSteps(b, run), RunSteps(a[1..] + b, run);
        assert RunSteps(a, run) == Run(ra'.outcome, [cmd] + ra'.issued);
        assert RunSteps(ab, run) == Run(rab'.outcome, [cmd] + rab'.issued);
        RunAppend(a[1..], b, run);
        if ra'.outcome.Ok? {
          assert [cmd] + (ra'.issued + rb.issued) == ([cmd] + ra'.issued) + rb.issued;
        }
      }
    }
  }

  // ---------------------------------------------------------------------------
  // Reading process output

  const NothingToCommit := "nothing to commit"

  /** `_stage_and_commit`'s test: exit 0, or "nothing to commit" in the lowered stdout + stderr. */
  predicate CommitTolerated(res: ProcResult) {
    res.code == 0 || Contains(Lower(res.stdout + res.stderr), NothingToCommit)
  }

  /** `pattern` occurs in `s` at `i` when the letters' case is ignored. */
  predicate MatchesIgnoringCase(s: string, pattern: string, i: nat)
    requires i + |pattern| <= |s|
  {
    forall k | 0 <= k < |pattern| :: LowerChar(s[i + k]) == LowerChar(pattern[k])
  }

  lemma LowerMatchesAt(s: string, pattern: string, i: nat)
    requires i + |pattern| <= |s|
    requires forall k | 0 <= k < |pattern| :: LowerChar(pattern[k]) == pattern[k]
    ensures MatchesAt(Lower(s), pattern, i) <==> MatchesIgnoringCase(s, pattern, i)
  {
    var low := Lower(s);
    if MatchesIgnoringCase(s, pattern, i) {
      assert forall k | 0 <= k < |pattern| :: low[i..i + |pattern|][k] == pattern[k];
    }
    if MatchesAt(low, pattern, i) {
      forall k | 0 <= k < |pattern|
        ensures LowerChar(s[i + k]) == LowerChar(pattern[k])
      {
        assert low[i..i + |pattern|][k] == low[i + k];
      }
    }
  }

  /**
   * The commit step is tolerated exactly when it exited 0 or its combined output holds
   * "nothing to commit" in any mixture of upper and lower case.
   */
  lemma CommitToleratedIgnoresCase(res: ProcResult)
    ensures var out := res.stdout + res.stderr;
            CommitTolerated(res) <==>
              res.code == 0 || exists i: nat | i + |NothingToCommit| <= |out| :: MatchesIgnoringCase(out, NothingToCommit, i)
  {
    var out := res.stdout + res.stderr;
    var p := NothingToCommit;
    assert forall k | 0 <= k < |p| :: LowerChar(p[k]) == p[k];
    forall i: nat | i + |p| <= |out|
      ensures MatchesAt(Lower(out), p, i) <==> MatchesIgnoringCase(out, p, i)
    {
      LowerMatchesAt(out, p, i);
    }
  }

  /** git's report on a clean working tree makes the commit step succeed although git exits 1. */
  lemma CleanTreeTolerated()
    ensures CommitTolerated(ProcResult(1, "On branch main\n" + NothingToCommit + ", working tree clean\n", ""))
  {
    var text := "On branch main\n" + NothingToCommit + ", working tree clean\n";
    assert text + "" == text;
    var out := Lower(text);
    assert text[15..32] == NothingToCommit;
    assert forall k | 15 <= k < 32 :: out[k] == text[k];
    assert out[15..32] == NothingToCommit;
    assert MatchesAt(out, NothingToCommit, 15);
  }

  const ActiveMarker := "Active account"
  const NoActiveAccount := "No active account"

  /** Line `i` is the first of `lines` that mentions the active account. */
  predicate FirstMarkedAt(lines: seq<string>, i: nat) {
    && i < |lines|
    && Contains(lines[i], ActiveMarker)
    && forall j | 0 <= j < i :: !Contains(lines[j], ActiveMarker)
  }

  /** The first line at or after `from` that mentions the active account. */
  function FirstMarked(lines: seq<string>, from: nat): (r: Option<nat>)
    requires from <= |lines|
    ensures r.Some? ==> from <= r.value < |lines| && Contains(lines[r.value], ActiveMarker)
    ensures r.Some? ==> forall j | from <= j < r.value :: !Contains(lines[j], ActiveMarker)
    ensures r.None? ==> forall j | from <= j < |lines| :: !Contains(lines[j], ActiveMarker)
    decreases |lines| - from
  {
    if from == |lines| then None
    else if Contains(lines[from], ActiveMarker) then Some(from)
    else FirstMarked(lines, from + 1)
  }

  /**
   * What `auth_status` shows for the status output: the first line that mentions the
   * active account, stripped; else the first line as it is; else "No active account".
   */
  function StatusLine(stdout: string): (line: string)
    ensures forall i: nat | FirstMarkedAt(Lines(stdout), i) :: line == Strip(Lines(stdout)[i])
    ensures (forall i | 0 <= i < |Lines(stdout)| :: !Contains(Lines(stdout)[i], ActiveMarker)) ==>
              line == if stdout == "" then NoActiveAccount else Lines(stdout)[0]
  {
    var lines := Lines(stdout);
    match FirstMarked(lines, 0)
    case Some(k) =>
      assert forall i: nat | FirstMarkedAt(lines, i) :: i == k;
      Strip(lines[k])
    case None => if stdout != "" then lines[0] else NoActiveAccount
  }

  /** The line-selection loop of `auth_status`. */
  method SelectStatusLine(stdout: string) returns (line: string)
    ensures line == StatusLine(stdout)
  {
    var lines := Lines(stdout);
    var i := 0;
    while i < |lines|
      invariant 0 <= i <= |lines|
      invariant FirstMarked(lines, i) == FirstMarked(lines, 0)
    {
      if Contains(lines[i], ActiveMarker) {
        return Strip(lines[i]);
      }
      i := i + 1;
    }
    line := if stdout != "" then lines[0] else NoActiveAccount;
  }

  // ---------------------------------------------------------------------------
  // Locating the gh executable

  function EnvGet(environ: map<string, string>, name: string): string {
    if name in environ then environ[name] else ""
  }

  /** The separator `os.path.join` inserts: `os.sep`. */
  function Separator(platform: Platform): char {
    if platform == Windows then '\\' else '/'
  }

  /** A character that already ends a directory, so that `os.path.join` adds no separator after it. */
  predicate IsSeparator(platform: Platform, c: char) {
    c == Separator(platform) || (platform == Windows && c == '/')
  }

  predicate StartsWith(s: string, prefix: string) {
    |prefix| <= |s| && s[..|prefix|] == prefix
  }

  predicate EndsWith(s: string, suffix: string) {
    |suffix| <= |s| && s[|s| - |suffix|..] == suffix
  }

  /**
   * `os.path.join(base, part)` for a relative `part`: `posixpath.join` adds '/' unless `base` is
   * empty or ends in '/'; `ntpath.join` adds '\\' unless `base` is empty, ends in a separator or
   * is a bare drive such as "C:".
   */
  function JoinPath(platform: Platform, base: string, part: string): (r: string)
    ensures |base| + |part| <= |r| <= |base| + 1 + |part|
    ensures r[..|base|] == base && EndsWith(r, part)
    ensures |r| > |base| + |part| ==> r[|base|] == Separator(platform)
    ensures platform == Posix ==> (|r| == |base| + |part| <==> base == "" || base[|base| - 1] == '/')
    ensures platform == Windows ==>
              (|r| == |base| + |part| <==>
                 base == "" || IsSeparator(Windows, base[|base| - 1]) || (|base| == 2 && base[1] == ':'))
  {
    var bareDrive := platform == Windows && |base| == 2 && base[1] == ':';
    if base == "" || IsSeparator(platform, base[|base| - 1]) || bareDrive then base + part
    else base + [Separator(platform)] + part
  }

  /** `os.path.join(base, *parts)`: join the parts one after the other. */
  function JoinPaths(platform: Platform, base: string, parts: seq<string>): string
    decreases |parts|
  {
    if parts == [] then base
    else JoinPath(platform, JoinPaths(platform, base, parts[..|parts| - 1]), parts[|parts| - 1])
  }

  /** Joining parts onto a base keeps the base at the front. */
  lemma {:induction false} JoinPathsKeepsBase(platform: Platform, base: string, parts: seq<string>)
    ensures StartsWith(JoinPaths(platform, base, parts), base)
    decreases |parts|
  {
    if parts != [] {
      var init := parts[..|parts| - 1];
      JoinPathsKeepsBase(platform, base, init);
      var mid := JoinPaths(platform, base, init);
      var r := JoinPath(platform, mid, parts[|parts| - 1]);
      assert r[..|mid|] == mid;
      assert r[..|base|] == mid[..|base|];
    }
  }

  /** The three install locations `resolve` tries after the search path. */
  function InstallLocations(platform: Platform, environ: map<string, string>): (r: seq<string>)
    ensures |r| == 3
  {
    [ JoinPaths(platform, EnvGet(environ, "ProgramFiles"), ["GitHub CLI", "gh.exe"]),
      JoinPaths(platform, EnvGet(environ, "ProgramFiles(x86)"), ["GitHub CLI", "gh.exe"]),
      JoinPaths(platform, EnvGet(environ, "LocalAppData"), ["Microsoft", "WindowsApps", "gh.exe"]) ]
  }

  /** Each install location is built on the value of its variable, "" when that is unset. */
  lemma InstallLocationsStartWithRoots(platform: Platform, environ: map<string, string>)
    ensures var locations := InstallLocations(platform, environ);
            && StartsWith(locations[0], EnvGet(environ, "ProgramFiles"))
            && StartsWith(locations[1], EnvGet(environ, "ProgramFiles(x86)"))
            && StartsWith(locations[2], EnvGet(environ, "LocalAppData"))
  {
    JoinPathsKeepsBase(platform, EnvGet(environ, "ProgramFiles"), ["GitHub CLI", "gh.exe"]);
    JoinPathsKeepsBase(platform, EnvGet(environ, "ProgramFiles(x86)"), ["GitHub CLI", "gh.exe"]);
    JoinPathsKeepsBase(platform, EnvGet(environ, "LocalAppData"), ["Microsoft", "WindowsApps", "gh.exe"]);
  }

  /** Each install location is a path to gh.exe, whatever the platform and the environment. */
  lemma InstallLocationsAreGhExe(platform: Platform, environ: map<string, string>)
    ensures forall k | 0 <= k < |InstallLocations(platform, environ)| ::
              EndsWith(InstallLocations(platform, environ)[k], "gh.exe")
  {
  }

  /** `search_paths`: `which("gh")`, then the install locations. */
  function SearchPaths(platform: Platform, which: Option<string>, environ: map<string, string>): seq<Option<string>> {
    var install := InstallLocations(platform, environ);
    [which, Some(install[0]), Some(install[1]), Some(install[2])]
  }

  /** `path and os.path.exists(path)` */
  predicate IsHit(path: Option<string>, files: set<string>) {
    path.Some? && path.value != "" && path.value in files
  }

  /** The first candidate at or after `from` that is non-empty and exists. */
  function FirstExisting(candidates: seq<Option<string>>, files: set<string>, from: nat): (r: Option<string>)
    requires from <= |candidates|
    ensures r.Some? ==> r.value != "" && r.value in files
    decreases |candidates| - from
  {
    if from == |candidates| then None
    else if IsHit(candidates[from], files) then candidates[from]
    else FirstExisting(candidates, files, from + 1)
  }

  /** Candidate `i` is the first one from `from` on that is non-empty and exists. */
  predicate FirstHitAt(candidates: seq<Option<string>>, files: set<string>, from: nat, i: nat) {
    && from <= i < |candidates|
    && IsHit(candidates[i], files)
    && forall j | from <= j < i :: !IsHit(candidates[j], files)
  }

  /** The search finds the first candidate that is non-empty and exists, and nothing when none is. */
  lemma {:induction false} FirstExistingIsFirst(candidates: seq<Option<string>>, files: set<string>, from: nat)
    requires from <= |candidates|
    ensures var r := FirstExisting(candidates, files, from);
            && (r.Some? ==> exists i: nat :: FirstHitAt(candidates, files, from, i) && candidates[i] == r)
            && (r.None? <==> forall j | from <= j < |candidates| :: !IsHit(candidates[j], files))
    decreases |candidates| - from
  {
    if from < |candidates| {
      if IsHit(candidates[from], files) {
        assert FirstHitAt(candidates, files, from, from);
      } else {
        FirstExistingIsFirst(candidates, files, from + 1);
        var r := FirstExisting(candidates, files, from);
        if r.Some? {
          var i: nat :| FirstHitAt(candidates, files, from + 1, i) && candidates[i] == r;
          assert FirstHitAt(candidates, files, from, i);
        }
      }
    }
  }

  /**
   * What `resolve()` returns given the cached path: the cache while it still exists,
   * otherwise the first candidate that exists, otherwise nothing.
   */
  function Resolution(cached: Option<string>, host: Host): (r: Option<string>)
    ensures r.Some? ==> r.value != "" && r.value in host.files
    ensures IsHit(cached, host.files) ==> r == cached
  {
    if IsHit(cached, host.files) then cached
    else FirstExisting(SearchPaths(host.platform, host.which, host.environ), host.files, 0)
  }

  /**
   * Without a usable cache, `resolve()` gives the first of `which("gh")` and the three
   * install locations that exists, and nothing exactly when none of them exists.
   */
  lemma ResolutionSearches(cached: Option<string>, host: Host)
    requires !IsHit(cached, host.files)
    ensures var paths := SearchPaths(host.platform, host.which, host.environ);
            var r := Resolution(cached, host);
            && (r.Some? ==> exists i: nat :: FirstHitAt(paths, host.files, 0, i) && paths[i] == r)
            && (r.None? <==> forall j | 0 <= j < |paths| :: !IsHit(paths[j], host.files))
  {
    var paths := SearchPaths(host.platform, host.which, host.environ);
    var r := FirstExisting(paths, host.files, 0);
    FirstExistingIsFirst(paths, host.files, 0);
    assert r.Some? ==> exists i: nat :: FirstHitAt(paths, host.files, 0, i) && paths[i] == r;
    assert r.None? <==> forall j | 0 <= j < |paths| :: !IsHit(paths[j], host.files);
    assert Resolution(cached, host) == r;
  }

  // ---------------------------------------------------------------------------
  // The commands

  const GhOptions: set<string> := {"--hostname", "--git-protocol", "--user", "--source", "--remote"}

  function LoginCommand(gh: string, protocol: string, token: string): Command {
    Command([gh, "auth", "login", "--hostname", "github.com", "--git-protocol", protocol, "--with-token"],
            Some(token + "\n"))
  }

  function SetupGitCommand(gh: string): Command {
    Command([gh, "auth", "setup-git"], None)
  }

  function SwitchCommand(gh: string, username: string): Command {
    Command([gh, "auth", "switch", "--user", username], None)
  }

  function StatusCommand(gh: string): Command {
    Command([gh, "auth", "status"], None)
  }

  function VisibilityFlag(private: bool): string {
    if private then "--private" else "--public"
  }

  /** The words `repo create` passes after the repository name and the visibility flag. */
  function CreateOptions(folder: string): seq<string> {
    ["--source", folder, "--remote", "origin", "--push", "--confirm"]
  }

  function RepoCreateCommand(gh: string, folder: string, repoName: string, private: bool): Command {
    Command([gh, "repo", "create", repoName, VisibilityFlag(private)] + CreateOptions(folder), None)
  }

  /** `auth login` reads as: host github.com, the given protocol, token on stdin. */
  lemma LoginReading(gh: string, protocol: string, token: string)
    ensures Read(LoginCommand(gh, protocol, token).argv[1..], GhOptions)
         == Reading(["auth", "login"], map["--hostname" := "github.com", "--git-protocol" := protocol], {"--with-token"})
  {
    var a3 := ["--with-token"] + [];
    var a2 := ["--git-protocol", protocol] + a3;
    var a1 := ["--hostname", "github.com"] + a2;
    var a0 := ["login"] + a1;
    assert LoginCommand(gh, protocol, token).argv[1..] == ["auth"] + a0;
    assert Read(a3, GhOptions) == Reading([], map[], {"--with-token"}) by {
      ReadFlag("--with-token", [], GhOptions);
    }
    assert Read(a2, GhOptions) == Reading([], map["--git-protocol" := protocol], {"--with-token"}) by {
      ReadOption("--git-protocol", protocol, a3, GhOptions);
      assert map["--git-protocol" := protocol] + map[] == map["--git-protocol" := protocol];
    }
    var options := map["--hostname" := "github.com", "--git-protocol" := protocol];
    assert Read(a1, GhOptions) == Reading([], options, {"--with-token"}) by {
      ReadOption("--hostname", "github.com", a2, GhOptions);
      assert map["--hostname" := "github.com"] + map["--git-protocol" := protocol] == options;
    }
    assert Read(a0, GhOptions) == Reading(["login"], options, {"--with-token"}) by {
      ReadPositional("login", a1, GhOptions);
    }
    ReadPositional("auth", a0, GhOptions);
  }

  /** When the token holds no line boundary, the login child reads exactly the token as its one line of input. */
  lemma LoginSendsTokenLine(gh: string, protocol: string, token: string)
    requires NoLineBoundary(token)
    ensures var input := LoginCommand(gh, protocol, token).input;
            input.Some? && Lines(input.value) == [token]
  {
    OneLine(token);
  }

  /**
   * The login step issues the one login command; it fails exactly on a non-zero exit,
   * and then carries the exit code, the argument vector and the captured stdout and stderr.
   */
  lemma LoginFailureCarriesOutput(gh: string, protocol: string, token: string, run: Command -> ProcResult)
    ensures var cmd := LoginCommand(gh, protocol, token);
            var res := run(cmd);
            RunSteps([Step(cmd, Checked(true))], run)
              == Run(if res.code != 0 then Err(ProcessFailed(res.code, cmd.argv, Some(Output(res.stdout, res.stderr))))
                     else Ok(()),
                     [cmd])
  {
    var step := Step(LoginCommand(gh, protocol, token), Checked(true));
    RunCons(step, [], run);
    assert [step] + [] == [step];
  }

  /** `auth switch` reads as: switch to the given user. */
  lemma SwitchReading(gh: string, username: string)
    ensures Read(SwitchCommand(gh, username).argv[1..], GhOptions)
         == Reading(["auth", "switch"], map["--user" := username], {})
  {
    var a1 := ["--user", username] + [];
    var a0 := ["switch"] + a1;
    assert SwitchCommand(gh, username).argv[1..] == ["auth"] + a0;
    assert Read(a1, GhOptions) == Reading([], map["--user" := username], {}) by {
      ReadOption("--user", username, [], GhOptions);
      assert map["--user" := username] + map[] == map["--user" := username];
    }
    assert Read(a0, GhOptions) == Reading(["switch"], map["--user" := username], {}) by {
      ReadPositional("switch", a1, GhOptions);
    }
    ReadPositional("auth", a0, GhOptions);
  }

  /**
   * `repo create` reads as: create `repoName` from `folder` under the remote "origin",
   * push, no prompt, and private exactly when asked (public otherwise).
   */
  lemma RepoCreateReading(gh: string, folder: string, repoName: string, private: bool)
    requires !IsOptionLike(repoName)
    ensures Read(RepoCreateCommand(gh, folder, repoName, private).argv[1..], GhOptions)
         == Reading(["repo", "create", repoName],
                    map["--source" := folder, "--remote" := "origin"],
                    {VisibilityFlag(private), "--push", "--confirm"})
  {
    var a3 := [VisibilityFlag(private)] + CreateOptions(folder);
    assert RepoCreateCommand(gh, folder, repoName, private).argv[1..] == ["repo", "create", repoName] + a3;
    VisibilityReading(private, folder);
    CreateWordsArePositional(repoName);
    ReadPositionals(["repo", "create", repoName], a3, GhOptions);
    assert ["repo", "create", repoName] + [] == ["repo", "create", repoName];
  }

  lemma CreateWordsArePositional(repoName: string)
    requires !IsOptionLike(repoName)
    ensures var words := ["repo", "create", repoName];
            forall i | 0 <= i < |words| :: words[i] !in GhOptions && !IsOptionLike(words[i])
  {
    assert repoName !in GhOptions by {
      assert forall o | o in GhOptions :: IsOptionLike(o);
    }
  }

  lemma VisibilityReading(private: bool, folder: string)
    ensures Read([VisibilityFlag(private)] + CreateOptions(folder), GhOptions)
         == Reading([], map["--source" := folder, "--remote" := "origin"], {VisibilityFlag(private), "--push", "--confirm"})
  {
    var vis := VisibilityFlag(private);
    CreateOptionsReading(folder);
    ReadFlag(vis, CreateOptions(folder), GhOptions);
    assert {vis} + {"--push", "--confirm"} == {vis, "--push", "--confirm"};
  }

  /** The created repository is private exactly when asked, and public otherwise. */
  lemma RepoCreateVisibility(gh: string, folder: string, repoName: string, private: bool)
    requires !IsOptionLike(repoName)
    ensures var flags := Read(RepoCreateCommand(gh, folder, repoName, private).argv[1..], GhOptions).flags;
            ("--private" in flags <==> private) && ("--public" in flags <==> !private)
  {
    RepoCreateReading(gh, folder, repoName, private);
    var flags := {VisibilityFlag(private), "--push", "--confirm"};
    if private {
      assert "--public" !in flags;
    } else {
      assert "--private" !in flags;
    }
  }

  lemma CreateOptionsReading(folder: string)
    ensures Read(CreateOptions(folder), GhOptions)
         == Reading([], map["--source" := folder, "--remote" := "origin"], {"--push", "--confirm"})
  {
    var a3 := ["--confirm"] + [];
    var a2 := ["--push"] + a3;
    var a1 := ["--remote", "origin"] + a2;
    assert CreateOptions(folder) == ["--source", folder] + a1;
    assert Read(a3, GhOptions) == Reading([], map[], {"--confirm"}) by {
      ReadFlag("--confirm", [], GhOptions);
    }
    assert Read(a2, GhOptions) == Reading([], map[], {"--push", "--confirm"}) by {
      ReadFlag("--push", a3, GhOptions);
    }
    assert Read(a1, GhOptions) == Reading([], map["--remote" := "origin"], {"--push", "--confirm"}) by {
      ReadOption("--remote", "origin", a2, GhOptions);
      assert map["--remote" := "origin"] + map[] == map["--remote" := "origin"];
    }
    ReadOption("--source", folder, a1, GhOptions);
    assert map["--source" := folder] + map["--remote" := "origin"] == map["--source" := folder, "--remote" := "origin"];
  }

  // ---------------------------------------------------------------------------
  // The gateway object

  /** `GitHubCLI`: remembers where gh was found and runs it. */
  class GitHubCLI {
    /** `_cached_path` */
    var cachedPath: Option<string>

    ghost predicate Valid()
      reads this
    {
      cachedPath.Some? ==> cachedPath.value != ""
    }

    constructor ()
      ensures Valid() && cachedPath == None
    {
      cachedPath := None;
    }

    /**
     * `resolve()`: the cached path while it still exists; otherwise search the
     * candidates in order and cache the first that exists.  When none exists the
     * cache is left as it was.
     */
    method Resolve(host: Host) returns (r: Option<string>)
      requires Valid()
      modifies this`cachedPath
      ensures Valid()
      ensures r == Resolution(old(cachedPath), host)
      ensures cachedPath == if r.Some? then r else old(cachedPath)
    {
      if cachedPath.Some? && cachedPath.value != "" && cachedPath.value in host.files {
        return cachedPath;
      }
      var searchPaths := SearchPaths(host.platform, host.which, host.environ);
      var i := 0;
      while i < |searchPaths|
        invariant 0 <= i <= |searchPaths|
        invariant FirstExisting(searchPaths, host.files, i) == FirstExisting(searchPaths, host.files, 0)
        invariant cachedPath == old(cachedPath)
      {
        var path := searchPaths[i];
        if path.Some? && path.value != "" && path.value in host.files {
          assert FirstExisting(searchPaths, host.files, i) == path;
          cachedPath := path;
          return path;
        }
        assert !IsHit(path, host.files);
        assert FirstExisting(searchPaths, host.files, i) == FirstExisting(searchPaths, host.files, i + 1);
        i := i + 1;
      }
      assert FirstExisting(searchPaths, host.files, i) == None;
      return None;
    }

    /** `ensure()`: the resolved path, or "GitHub CLI not found" when there is none. */
    method Ensure(host: Host) returns (r: Result<string, Failure>)
      requires Valid()
      modifies this`cachedPath
      ensures Valid()
      ensures r.Err? <==> Resolution(old(cachedPath), host).None?
      ensures r.Err? ==> r.error == NotFound && cachedPath == old(cachedPath)
      ensures r.Ok? ==> Some(r.value) == Resolution(old(cachedPath), host) == cachedPath
      ensures r.Ok? ==> r.value in host.files
    {
      var path := Resolve(host);
      if path.None? {
        return Err(NotFound);
      }
      return Ok(path.value);
    }

    /** Run one step with the resolved gh path, as each gateway operation does after `ensure()`. */
    method RunChecked(host: Host, step: Step) returns (out: Outcome, issued: seq<Command>)
      ensures Run(out, issued) == RunSteps([step], host.run)
    {
      var res := host.run(step.cmd);
      issued := [step.cmd];
      var verdict := Verdict(step, res);
      out := if verdict.Some? then Err(verdict.value) else Ok(());
    }

    /** `auth_with_token(protocol, token)`: log in to github.com with the token on stdin. */
    method AuthWithToken(host: Host, protocol: string, token: string) returns (out: Outcome, issued: seq<Command>)
      requires Valid()
      modifies this`cachedPath
      ensures Valid()
      ensures var gh := Resolution(old(cachedPath), host);
              && cachedPath == (if gh.Some? then gh else old(cachedPath))
              && if gh.None? then out == Err(NotFound) && issued == []
                 else Run(out, issued) == RunSteps([Step(LoginCommand(gh.value, protocol, token), Checked(true))], host.run)
    {
      var gh := Ensure(host);
      if gh.Err? {
        return Err(gh.error), [];
      }
      out, issued := RunChecked(host, Step(LoginCommand(gh.value, protocol, token), Checked(true)));
    }

    /** `setup_git()` */
    method SetupGit(host: Host) returns (out: Outcome, issued: seq<Command>)
      requires Valid()
      modifies this`cachedPath
      ensures Valid()
      ensures var gh := Resolution(old(cachedPath), host);
              && cachedPath == (if gh.Some? then gh else old(cachedPath))
              && if gh.None? then out == Err(NotFound) && issued == []
                 else Run(out, issued) == RunSteps([Step(SetupGitCommand(gh.value), Checked(false))], host.run)
    {
      var gh := Ensure(host);
      if gh.Err? {
        return Err(gh.error), [];
      }
      out, issued := RunChecked(host, Step(SetupGitCommand(gh.value), Checked(false)));
    }

    /** `switch_user(username)` */
    method SwitchUser(host: Host, username: string) returns (out: Outcome, issued: seq<Command>)
      requires Valid()
      modifies this`cachedPath
      ensures Valid()
      ensures var gh := Resolution(old(cachedPath), host);
              && cachedPath == (if gh.Some? then gh else old(cachedPath))
              && if gh.None? then out == Err(NotFound) && issued == []
                 else Run(out, issued) == RunSteps([Step(SwitchCommand(gh.value, username), Checked(false))], host.run)
    {
      var gh := Ensure(host);
      if gh.Err? {
        return Err(gh.error), [];
      }
      out, issued := RunChecked(host, Step(SwitchCommand(gh.value, username), Checked(false)));
    }

    /** `auth_status()`: the status line of `gh auth status`, which must exit 0. */
    method AuthStatus(host: Host) returns (r: Result<string, Failure>, issued: seq<Command>)
      requires Valid()
      modifies this`cachedPath
      ensures Valid()
      ensures var gh := Resolution(old(cachedPath), host);
              && cachedPath == (if gh.Some? then gh else old(cachedPath))
              && if gh.None? then r == Err(NotFound) && issued == []
              else
                var cmd := StatusCommand(gh.value);
                var res := host.run(cmd);
                && issued == [cmd]
                && r == if res.code != 0 then Err(ProcessFailed(res.code, cmd.argv, Some(Output(res.stdout, res.stderr))))
                        else Ok(StatusLine(res.stdout))
    {
      var gh := Ensure(host);
      if gh.Err? {
        return Err(gh.error), [];
      }
      var cmd := StatusCommand(gh.value);
      var res := host.run(cmd);
      issued := [cmd];
      if res.code != 0 {
        return Err(ProcessFailed(res.code, cmd.argv, Some(Output(res.stdout, res.stderr)))), issued;
      }
      var line := SelectStatusLine(res.stdout);
      r := Ok(line);
    }

    /** `repo_create(folder, repo_name, private)` */
    method RepoCreate(host: Host, folder: string, repoName: string, private: bool) returns (out: Outcome, issued: seq<Command>)
      requires Valid()
      modifies this`cachedPath
      ensures Valid()
      ensures var gh := Resolution(old(cachedPath), host);
              && cachedPath == (if gh.Some? then gh else old(cachedPath))
              && if gh.None? then out == Err(NotFound) && issued == []
                 else Run(out, issued)
                      == RunSteps([Step(RepoCreateCommand(gh.value, folder, repoName, private), Checked(false))], host.run)
    {
      var gh := Ensure(host);
      if gh.Err? {
        return Err(gh.error), [];
      }
      out, issued := RunChecked(host, Step(RepoCreateCommand(gh.value, folder, repoName, private), Checked(false)));
    }
  }
}
