/**
 * The repository bootstrapper of mgas/gh_cli.py (class `RepoBootstrapper`): the fixed
 * sequence of gh and git commands that turns a folder into a freshly pushed repository
 * under one identity, stopping at the first command that raises.
 */
module Bootstrap {
  import opened Options
  import opened Argv
  import opened GhCli
  import Accounts

  // ---------------------------------------------------------------------------
  // The git commands, all run as `git -C folder …`

  const GitOptions: set<string> := {"-C", "-m"}

  function Git(folder: string, args: seq<string>): Command {
    Command(["git", "-C", folder] + args, None)
  }

  function WorkTreeCheck(folder: string): Command {
    Git(folder, ["rev-parse", "--is-inside-work-tree"])
  }

  function InitCommand(folder: string): Command {
    Git(folder, ["init"])
  }

  function OriginCheck(folder: string): Command {
    Git(folder, ["remote", "get-url", "origin"])
  }

  function ConfigCommand(folder: string, key: string, value: string): Command {
    Git(folder, ["config", key, value])
  }

  function AddAllCommand(folder: string): Command {
    Git(folder, ["add", "-A"])
  }

  function CommitCommand(folder: string, message: string): Command {
    Git(folder, ["commit", "-m", message])
  }

  /** `git config key value` reads as: in `folder`, set `key` to `value`. */
  lemma ConfigReading(folder: string, key: string, value: string)
    requires !IsOptionLike(key) && !IsOptionLike(value)
    ensures Read(ConfigCommand(folder, key, value).argv[1..], GitOptions)
         == Reading(["config", key, value], map["-C" := folder], {})
  {
    var args := ConfigCommand(folder, key, value).argv[1..];
    assert args == ["-C", folder] + (["config"] + ([key] + ([value] + [])));
    ReadPositional(value, [], GitOptions);
    ReadPositional(key, [value] + [], GitOptions);
    ReadPositional("config", [key] + ([value] + []), GitOptions);
    ReadOption("-C", folder, ["config"] + ([key] + ([value] + [])), GitOptions);
  }

  /** `git commit -m message` reads as: in `folder`, commit with exactly `message`, whatever it holds. */
  lemma CommitReading(folder: string, message: string)
    ensures Read(CommitCommand(folder, message).argv[1..], GitOptions)
         == Reading(["commit"], map["-C" := folder, "-m" := message], {})
  {
    var args := CommitCommand(folder, message).argv[1..];
    assert args == ["-C", folder] + (["commit"] + (["-m", message] + []));
    ReadOption("-m", message, [], GitOptions);
    ReadPositional("commit", ["-m", message] + [], GitOptions);
    ReadOption("-C", folder, ["commit"] + (["-m", message] + []), GitOptions);
  }

  // ---------------------------------------------------------------------------
  // The steps

  /** `_ensure_git_repo`: probe the work tree, `git init` only when the probe fails, then refuse an 'origin'. */
  function RepoSteps(folder: string, run: Command -> ProcResult): seq<Step> {
    [Step(WorkTreeCheck(folder), Probe)]
    + (if run(WorkTreeCheck(folder)).code != 0 then [Step(InitCommand(folder), Checked(false))] else [])
    + [Step(OriginCheck(folder), RefuseOrigin)]
  }

  /** `_configure_authorship`: the profile's display name and email, local to the folder. */
  function AuthorshipSteps(folder: string, account: Accounts.Account): seq<Step> {
    [ Step(ConfigCommand(folder, "user.name", account.name), Checked(false)),
      Step(ConfigCommand(folder, "user.email", account.email), Checked(false)) ]
  }

  /** `_stage_and_commit`: stage everything, then commit, tolerating "nothing to commit". */
  function CommitSteps(folder: string, message: string): seq<Step> {
    [ Step(AddAllCommand(folder), Checked(false)),
      Step(CommitCommand(folder, message), TolerateClean) ]
  }

  /** `initialize_and_push` once gh has been found at `gh`. */
  function BootstrapSteps(gh: string, folder: string, account: Accounts.Account, repoName: string,
                          private: bool, message: string, run: Command -> ProcResult): seq<Step>
  {
    [Step(SwitchCommand(gh, account.username), Checked(false))]
    + (RepoSteps(folder, run)
    + (AuthorshipSteps(folder, account)
    + (CommitSteps(folder, message)
    + [Step(RepoCreateCommand(gh, folder, repoName, private), Checked(false))])))
  }

  /** Every command of a successful bootstrap, in the order `mgas` issues them. */
  function Plan(gh: string, folder: string, account: Accounts.Account, repoName: string,
                private: bool, message: string, run: Command -> ProcResult): seq<Command>
  {
    [SwitchCommand(gh, account.username), WorkTreeCheck(folder)]
    + (if run(WorkTreeCheck(folder)).code != 0 then [InitCommand(folder)] else [])
    + [ OriginCheck(folder),
        ConfigCommand(folder, "user.name", account.name),
        ConfigCommand(folder, "user.email", account.email),
        AddAllCommand(folder),
        CommitCommand(folder, message),
        RepoCreateCommand(gh, folder, repoName, private) ]
  }

  lemma PlanIsCommandsOfSteps(gh: string, folder: string, account: Accounts.Account, repoName: string,
                              private: bool, message: string, run: Command -> ProcResult)
    ensures var steps := BootstrapSteps(gh, folder, account, repoName, private, message, run);
            var plan := Plan(gh, folder, account, repoName, private, message, run);
            |plan| == |steps| && forall i | 0 <= i < |steps| :: plan[i] == steps[i].cmd
  {
  }

  /**
   * A bootstrap issues a prefix of the plan — switch user, work-tree check, `git init`
   * only when that check failed, origin check, user.name, user.email, add, commit,
   * repo create — stopping right after the first command that raises. Whenever it
   * succeeds it has issued the whole plan; a failing repo create, the last command,
   * also issues the whole plan.
   */
  lemma BootstrapFollowsPlan(gh: string, folder: string, account: Accounts.Account, repoName: string,
                             private: bool, message: string, run: Command -> ProcResult)
    ensures var r := RunSteps(BootstrapSteps(gh, folder, account, repoName, private, message, run), run);
            var plan := Plan(gh, folder, account, repoName, private, message, run);
            && |r.issued| <= |plan|
            && r.issued == plan[..|r.issued|]
            && (r.outcome.Ok? ==> r.issued == plan)
  {
    var steps := BootstrapSteps(gh, folder, account, repoName, private, message, run);
    var plan := Plan(gh, folder, account, repoName, private, message, run);
    var r := RunSteps(steps, run);
    PlanIsCommandsOfSteps(gh, folder, account, repoName, private, message, run);
    RunStepsStopsAtFirstFailure(steps, run);
    assert r.issued == plan[..|r.issued|];
  }

  /**
   * When the folder already has a remote named 'origin', the bootstrap raises the
   * conflict right after the origin check: no authorship, commit or create command runs.
   */
  lemma OriginConflictAborts(gh: string, folder: string, account: Accounts.Account, repoName: string,
                             private: bool, message: string, run: Command -> ProcResult)
    requires run(SwitchCommand(gh, account.username)).code == 0
    requires run(WorkTreeCheck(folder)).code != 0 ==> run(InitCommand(folder)).code == 0
    requires run(OriginCheck(folder)).code == 0
    ensures var r := RunSteps(BootstrapSteps(gh, folder, account, repoName, private, message, run), run);
            && r.outcome == Err(RemoteConflict)
            && r.issued == [SwitchCommand(gh, account.username), WorkTreeCheck(folder)]
                           + (if run(WorkTreeCheck(folder)).code != 0 then [InitCommand(folder)] else [])
                           + [OriginCheck(folder)]
  {
    var switch := [Step(SwitchCommand(gh, account.username), Checked(false))];
    var repo := RepoSteps(folder, run);
    var rest := AuthorshipSteps(folder, account)
                + (CommitSteps(folder, message) + [Step(RepoCreateCommand(gh, folder, repoName, private), Checked(false))]);
    RunAppend(switch, repo + rest, run);
    RunAppend(repo, rest, run);
    var probe := [Step(WorkTreeCheck(folder), Probe)];
    var init := if run(WorkTreeCheck(folder)).code != 0 then [Step(InitCommand(folder), Checked(false))] else [];
    var origin := [Step(OriginCheck(folder), RefuseOrigin)];
    assert repo == probe + (init + origin);
    RunAppend(probe, init + origin, run);
    RunAppend(init, origin, run);
  }

  /**
   * When every checked command exits 0, no 'origin' exists and the commit is tolerated
   * (for instance a clean tree, where git reports "nothing to commit" and exits 1), the
   * bootstrap succeeds and has issued the whole plan.
   */
  lemma CleanTreeSucceeds(gh: string, folder: string, account: Accounts.Account, repoName: string,
                          private: bool, message: string, run: Command -> ProcResult)
    requires run(SwitchCommand(gh, account.username)).code == 0
    requires run(WorkTreeCheck(folder)).code != 0 ==> run(InitCommand(folder)).code == 0
    requires run(OriginCheck(folder)).code != 0
    requires run(ConfigCommand(folder, "user.name", account.name)).code == 0
    requires run(ConfigCommand(folder, "user.email", account.email)).code == 0
    requires run(AddAllCommand(folder)).code == 0
    requires CommitTolerated(run(CommitCommand(folder, message)))
    requires run(RepoCreateCommand(gh, folder, repoName, private)).code == 0
    ensures var r := RunSteps(BootstrapSteps(gh, folder, account, repoName, private, message, run), run);
            r.outcome == Ok(()) && r.issued == Plan(gh, folder, account, repoName, private, message, run)
  {
    var switch := [Step(SwitchCommand(gh, account.username), Checked(false))];
    var repo := RepoSteps(folder, run);
    var authorship := AuthorshipSteps(folder, account);
    var commit := CommitSteps(folder, message);
    var create := [Step(RepoCreateCommand(gh, folder, repoName, private), Checked(false))];
    PassingRunSucceeds(switch, run);
    PassingRunSucceeds(repo, run);
    PassingRunSucceeds(authorship, run);
    PassingRunSucceeds(commit, run);
    PassingRunSucceeds(create, run);
    RunAppend(commit, create, run);
    RunAppend(authorship, commit + create, run);
    RunAppend(repo, authorship + (commit + create), run);
    RunAppend(switch, repo + (authorship + (commit + create)), run);
    BootstrapFollowsPlan(gh, folder, account, repoName, private, message, run);
  }

  lemma PassingRunSucceeds(steps: seq<Step>, run: Command -> ProcResult)
    requires forall i | 0 <= i < |steps| :: Passes(steps[i], run)
    ensures RunSteps(steps, run).outcome.Ok?
  {
    RunStepsStopsAtFirstFailure(steps, run);
  }

  /**
   * Bookkeeping for a run split in two: when `total` is what remains after `done`,
   * running `a` either ends it or leaves `b` to run after `done + issuedA`.
   */
  lemma Continue(total: Run, done: seq<Command>, a: seq<Step>, b: seq<Step>, run: Command -> ProcResult,
                 outA: Outcome, issuedA: seq<Command>)
    requires total == Run(RunSteps(a + b, run).outcome, done + RunSteps(a + b, run).issued)
    requires Run(outA, issuedA) == RunSteps(a, run)
    ensures outA.Err? ==> total == Run(outA, done + issuedA)
    ensures outA.Ok? ==> total == Run(RunSteps(b, run).outcome, (done + issuedA) + RunSteps(b, run).issued)
  {
    RunAppend(a, b, run);
    if outA.Ok? {
      assert done + (issuedA + RunSteps(b, run).issued) == (done + issuedA) + RunSteps(b, run).issued;
    }
  }

  // ---------------------------------------------------------------------------
  // The bootstrapper object

  /** `RepoBootstrapper`: drives git and the gateway it was given. */
  class RepoBootstrapper {
    const ghCli: GitHubCLI

    constructor (ghCli: GitHubCLI)
      ensures this.ghCli == ghCli
    {
      this.ghCli := ghCli;
    }

    /** `_ensure_git_repo(folder)` */
    method EnsureGitRepo(host: Host, folder: string) returns (out: Outcome, issued: seq<Command>)
      ensures Run(out, issued) == RunSteps(RepoSteps(folder, host.run), host.run)
    {
      ghost var probe := Step(WorkTreeCheck(folder), Probe);
      ghost var init := Step(InitCommand(folder), Checked(false));
      ghost var origin := Step(OriginCheck(folder), RefuseOrigin);
      RunCons(origin, [], host.run);
      RunCons(init, [origin] + [], host.run);
      if host.run(WorkTreeCheck(folder)).code != 0 {
        assert RepoSteps(folder, host.run) == [probe] + ([init] + ([origin] + []));
        RunCons(probe, [init] + ([origin] + []), host.run);
      } else {
        assert RepoSteps(folder, host.run) == [probe] + ([origin] + []);
        RunCons(probe, [origin] + [], host.run);
      }
      var check := host.run(WorkTreeCheck(folder));
      issued := [WorkTreeCheck(folder)];
      if check.code != 0 {
        var init := host.run(InitCommand(folder));
        issued := issued + [InitCommand(folder)];
        if init.code != 0 {
          return Err(ProcessFailed(init.code, InitCommand(folder).argv, None)), issued;
        }
      }
      var remoteCheck := host.run(OriginCheck(folder));
      issued := issued + [OriginCheck(folder)];
      if remoteCheck.code == 0 {
        return Err(RemoteConflict), issued;
      }
      out := Ok(());
    }

    /** `_configure_authorship(folder, account)` */
    method ConfigureAuthorship(host: Host, folder: string, account: Accounts.Account) returns (out: Outcome, issued: seq<Command>)
      ensures Run(out, issued) == RunSteps(AuthorshipSteps(folder, account), host.run)
    {
      var name := ConfigCommand(folder, "user.name", account.name);
      var email := ConfigCommand(folder, "user.email", account.email);
      RunCons(Step(email, Checked(false)), [], host.run);
      RunCons(Step(name, Checked(false)), [Step(email, Checked(false))] + [], host.run);
      assert AuthorshipSteps(folder, account) == [Step(name, Checked(false))] + ([Step(email, Checked(false))] + []);
      var res := host.run(name);
      issued := [name];
      if res.code != 0 {
        return Err(ProcessFailed(res.code, name.argv, None)), issued;
      }
      res := host.run(email);
      issued := issued + [email];
      if res.code != 0 {
        return Err(ProcessFailed(res.code, email.argv, None)), issued;
      }
      out := Ok(());
    }

    /** `_stage_and_commit(folder, commit_message)` */
    method StageAndCommit(host: Host, folder: string, message: string) returns (out: Outcome, issued: seq<Command>)
      ensures Run(out, issued) == RunSteps(CommitSteps(folder, message), host.run)
    {
      var commit := CommitCommand(folder, message);
      RunCons(Step(commit, TolerateClean), [], host.run);
      RunCons(Step(AddAllCommand(folder), Checked(false)), [Step(commit, TolerateClean)] + [], host.run);
      assert CommitSteps(folder, message) == [Step(AddAllCommand(folder), Checked(false))] + ([Step(commit, TolerateClean)] + []);
      var add := host.run(AddAllCommand(folder));
      issued := [AddAllCommand(folder)];
      if add.code != 0 {
        return Err(ProcessFailed(add.code, AddAllCommand(folder).argv, None)), issued;
      }
      var commitProc := host.run(commit);
      issued := issued + [commit];
      var combined := commitProc.stdout + commitProc.stderr;
      if commitProc.code != 0 && !Text.Contains(Text.Lower(combined), NothingToCommit) {
        return Err(ProcessFailed(commitProc.code, commit.argv, Some(Output(commitProc.stdout, commitProc.stderr)))), issued;
      }
      out := Ok(());
    }

    /**
     * `initialize_and_push(folder, account, repo_name, private, commit_message)`:
     * nothing runs when gh cannot be found; otherwise the bootstrap steps run in
     * order up to the first that raises.
     */
    method InitializeAndPush(host: Host, folder: string, account: Accounts.Account, repoName: string,
                             private: bool, message: string) returns (out: Outcome, issued: seq<Command>)
      requires ghCli.Valid()
      modifies ghCli
      ensures ghCli.Valid()
      ensures var gh := Resolution(old(ghCli.cachedPath), host);
              && ghCli.cachedPath == (if gh.Some? then gh else old(ghCli.cachedPath))
              && if gh.None? then out == Err(NotFound) && issued == []
                 else Run(out, issued)
                      == RunSteps(BootstrapSteps(gh.value, folder, account, repoName, private, message, host.run), host.run)
    {
      ghost var gh := Resolution(ghCli.cachedPath, host);
      ghost var path := if gh.Some? then gh.value else "";
      ghost var run := host.run;
      ghost var create := [Step(RepoCreateCommand(path, folder, repoName, private), Checked(false))];
      ghost var toCommit := CommitSteps(folder, message) + create;
      ghost var toConfigure := AuthorshipSteps(folder, account) + toCommit;
      ghost var toRepo := RepoSteps(folder, run) + toConfigure;
      ghost var all := [Step(SwitchCommand(path, account.username), Checked(false))] + toRepo;
      assert all == BootstrapSteps(path, folder, account, repoName, private, message, host.run);
      ghost var total := RunSteps(all, run);
      assert total == Run(RunSteps(all, run).outcome, [] + RunSteps(all, run).issued);

      var switched, issuedSwitch := ghCli.SwitchUser(host, account.username);
      issued := issuedSwitch;
      if switched.Err? {
        if gh.Some? {
          Continue(total, [], [all[0]], toRepo, run, switched, issuedSwitch);
        }
        return switched, issued;
      }
      Continue(total, [], [all[0]], toRepo, run, switched, issuedSwitch);
      assert [] + issuedSwitch == issued;
      assert total == Run(RunSteps(toRepo, run).outcome, issued + RunSteps(toRepo, run).issued);

      var ensured, issuedRepo := EnsureGitRepo(host, folder);
      Continue(total, issued, RepoSteps(folder, run), toConfigure, run, ensured, issuedRepo);
      issued := issued + issuedRepo;
      if ensured.Err? {
        return ensured, issued;
      }

      var configured, issuedConfig := ConfigureAuthorship(host, folder, account);
      Continue(total, issued, AuthorshipSteps(folder, account), toCommit, run, configured, issuedConfig);
      issued := issued + issuedConfig;
      if configured.Err? {
        return configured, issued;
      }

      var committed, issuedCommit := StageAndCommit(host, folder, message);
      Continue(total, issued, CommitSteps(folder, message), create, run, committed, issuedCommit);
      issued := issued + issuedCommit;
      if committed.Err? {
        return committed, issued;
      }

      assert Resolution(ghCli.cachedPath, host) == gh;
      var created, issuedCreate := ghCli.RepoCreate(host, folder, repoName, private);
      issued := issued + issuedCreate;
      out := created;
    }
  }
}
