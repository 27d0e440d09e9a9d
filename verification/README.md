# Multi-GitHub Account Switcher: stores, gh gateway and repository bootstrapper

This project is a Dafny model of the logic core of the Multi-GitHub Account Switcher (`mgas`), a
desktop tool. The tool keeps several GitHub identities and switches the `gh` command-line client
between them. It can also turn a local folder into a new GitHub repository pushed under one identity.

The model covers two source files.

- `mgas/accounts.py` holds two stores.
  - A profile is an `Account` (mgas/accounts.py:19-24): its label, username, name and email. The
    datatype `Accounts.Account` models it.
  - The profile store (`AccountStore`) is a table from a profile's label to its `Account`. It is
    changed in place by `upsert` and `remove`, and the whole table is written back to its JSON file
    after each change.
  - The settings store (`SettingsManager`) is one record. It is loaded over fixed defaults and holds
    the initial commit message. The defaults, `DEFAULT_SETTINGS` (mgas/accounts.py:10), are the
    constant `Accounts.DefaultSettings`: the commit-message key with the default message.
- `mgas/gh_cli.py` holds two classes.
  - `GitHubCLI` locates the `gh` executable, caches where it was found, and builds the `gh`
    commands: log in with a token, set up git, switch user, show the auth status and create a
    repository.
  - `RepoBootstrapper` runs a fixed sequence of `gh` and `git` commands and stops at the first one
    that raises.

Files:

- `options.dfy`: `Option` and `Result`.
- `text.dfy`: the parts of Python's `str` the gateway uses: `splitlines`, `strip`, `lower` and `in`.
- `argv.dfy`: a small reference reader of argument vectors. A word in a given set takes the next
  word as its value, any other word starting with `-` is a flag, and the rest are positional. The
  argument vectors the gateway builds are proved to read as intended under this reader.
- `accounts.dfy`: the profile table as a value (`Table`), its operations, and the persist/load round
  trip. It also holds the `AccountStore` and `SettingsManager` classes. Each class keeps a ghost
  snapshot of its file, and its invariant says that loading the snapshot again rebuilds the
  in-memory state.
- `gh_cli.dfy`: commands and process results, and the step runner `RunSteps`. A step is a command
  plus how its exit status is judged. `RunSteps` issues steps in order and stops at the first that
  raises. This file also has the search for `gh`, the status-line selection, the commit tolerance
  test and the `GitHubCLI` class.
- `bootstrap.dfy`: the git commands, the bootstrap step lists, the ordering lemmas and the
  `RepoBootstrapper` class.

No process is started; what the program learns from the world is a `Host`:

- the platform, which decides how `os.path.join` joins (`os.name`);
- the answer of `shutil.which("gh")`;
- the environment variables;
- the set of paths for which `os.path.exists` holds;
- a function giving the exit code, stdout and stderr each command would produce.

Every gateway method that runs `gh`, and every bootstrapper method, returns its outcome and the
trace of commands it issued, in order. For all of them except `AuthStatus`, the contract ties that
pair to `RunSteps` over an explicit step list. The lemmas about `RunSteps` and the step lists then
give the ordering and early-exit properties. `AuthStatus` states its result and its one-command
trace directly, because it reads stdout instead of raising. `Resolve` and `Ensure` run no command
and return no trace; their contracts state the path found and the new cache.

## Model

| member | source | states |
|---|---|---|
| Accounts.Upserted | mgas/accounts.py:58-59 | After an upsert the label maps to exactly the given account, replaced whole. Every other label is unchanged. A new label goes last and a known label keeps its place. The table invariant is preserved: no label twice, order lists exactly the stored labels, and each account's label equals its key. |
| Accounts.Removed | mgas/accounts.py:62-63 | After a remove the label is absent and every other label is unchanged. The order is the old order without that label. Removing an absent label leaves the table equal to what it was. |
| Accounts.Without | mgas/accounts.py:63 | The order part of `dict.pop`: the result holds exactly the labels of the order other than the removed one. It keeps the order free of repeats, and it changes nothing when the label is absent. `WithoutDropsOne` proves the others keep their relative order. |
| Accounts.RemovedWellFormed | mgas/accounts.py:62-63 | Removing a label from a well-formed table leaves it well formed: no label twice, the order lists exactly the stored labels, and each account's label is its key. |
| Accounts.RemoveKeepsOrder | mgas/accounts.py:62-63 | Removing a stored label cuts exactly that one position out of the order. The labels before it and after it keep their relative order, as `dict.pop` does. |
| Accounts.WithoutDropsOne | mgas/accounts.py:63 | Dropping a label that occurs once, at position k, leaves the labels before k followed by the labels after k. |
| Accounts.Lookup | mgas/accounts.py:56 | `dict.get`: the stored account, or none for an unknown label. The method `AccountStore.Get` states this in its contract. |
| Accounts.WellFormed | mgas/accounts.py:36 | The table invariant: no label twice, the order lists exactly the stored labels, and each account's label equals its key, as `_load` and `upsert` (mgas/accounts.py:58-59) keep it. `Upserted` and `Removed` preserve it, `LoadMembers` establishes it, and `AccountStore.Valid` includes it. |
| Accounts.RemoveIdempotent | mgas/accounts.py:62-64 | Removing a label twice is the same as removing it once, for every table. |
| Accounts.Listed | mgas/accounts.py:52-53 | The i-th listed account is the stored account under the i-th label in insertion order. The list has the table's length, holds one account per stored label and no label twice. |
| Accounts.LoadMembers | mgas/accounts.py:36 | Loading the decoded members succeeds exactly when every entry has the fields username, name and email and no others. On success the table is well formed, with one account per member in file order, and each label holds the account built from its own entry. On failure the error names one of the members. |
| Accounts.LoadAccounts | mgas/accounts.py:32-37 | A missing file loads as the empty table. A loaded table is well formed and holds exactly the file's labels, in file order, each with the account built from its entry. Loading fails exactly when some entry is malformed. |
| Accounts.PersistLoadRoundTrip | mgas/accounts.py:33-47 | The persisted payload maps each label to its username, name and email. Loading that payload back gives an equal table. |
| Accounts.EntryRoundTrip | mgas/accounts.py:36-46 | The file entry of an account rebuilds that account under its label. |
| Accounts.EntryOf | mgas/accounts.py:41-45 | The file entry of an account: its username, name and email. `EntryRoundTrip` proves that it rebuilds the account. |
| Accounts.AccountOf | mgas/accounts.py:36 | `Account(label=label, **data)`, which fails unless the entry has exactly the three fields. `EntryRoundTrip` and `LoadMembers` state what it builds. |
| Accounts.Payload | mgas/accounts.py:40-47 | The JSON payload of `_persist`: each label, in table order, with its entry. `PersistLoadRoundTrip` proves that loading it gives back the table. |
| Accounts.AccountStore.Open | mgas/accounts.py:28-37 | Opening fails exactly when the file has a malformed entry. Otherwise the store holds the loaded table, is valid, and a missing file gives an empty store. |
| Accounts.AccountStore.Persist | mgas/accounts.py:39-50 | The snapshot becomes the payload of the whole table, and the store is valid again. |
| Accounts.AccountStore.All | mgas/accounts.py:52-53 | Returns the stored accounts in insertion order, one per label. |
| Accounts.AccountStore.Get | mgas/accounts.py:55-56 | Returns the account exactly when the label is stored. The returned account carries that label. |
| Accounts.AccountStore.Upsert | mgas/accounts.py:58-60 | The new contents are those of `Upserted`. The file snapshot is the payload of the new table, and the invariant is kept. |
| Accounts.AccountStore.Remove | mgas/accounts.py:62-64 | The new contents are those of `Removed`. The file is rewritten even when the label was absent, and the invariant is kept. |
| Accounts.MergeSettings | mgas/accounts.py:72-77 | The loaded keys are the default keys plus the stored keys. Stored values win, unknown stored keys are kept, and a missing file or key gives the default commit message. |
| Accounts.SettingsRoundTrip | mgas/accounts.py:72-82 | A saved record that holds the commit-message key loads back unchanged. |
| Accounts.WithCommitMessage | mgas/accounts.py:87-88 | The commit message becomes the given one, or the default when it is empty. Every other key and value is unchanged. |
| Accounts.CommitMessageOf | mgas/accounts.py:85 | The record's commit message, or the default when the key is absent. `GetCommitMessage`, `WithCommitMessage` and `MergeSettings` state their results through it. |
| Accounts.SettingsManager.constructor | mgas/accounts.py:68-77 | The record is the file merged over the defaults, and the store is valid. |
| Accounts.SettingsManager.Save | mgas/accounts.py:79-82 | The snapshot becomes the whole record, and loading it rebuilds the record. |
| Accounts.SettingsManager.GetCommitMessage | mgas/accounts.py:84-85 | Returns the file's message when it held one, otherwise the default. |
| Accounts.SettingsManager.SetCommitMessage | mgas/accounts.py:87-89 | The record becomes `WithCommitMessage` of the old record, and the whole record is saved. |
| Text.LinesHaveNoBoundary | mgas/gh_cli.py:83 | No line produced by `splitlines` holds a line-boundary character, and none is longer than the text. |
| Text.LinesInverse | mgas/gh_cli.py:83 | On text whose only boundary is "\n", printing the lines back, each followed by "\n", gives the text with a final newline. |
| Text.OneLine | mgas/gh_cli.py:68 | A line without boundary characters, followed by "\n", splits into exactly that line. |
| Text.Strip | mgas/gh_cli.py:85 | The result is the text with only whitespace cut from the front and the back. It neither starts nor ends with whitespace. |
| Text.Lines | mgas/gh_cli.py:83 | `str.splitlines`: there are no lines exactly when the text is empty. `LinesHaveNoBoundary`, `LinesInverse` and `OneLine` state the rest. |
| Text.Lower | mgas/gh_cli.py:134 | `str.lower`: the same length, with each character lowered on its own. |
| Text.Contains | mgas/gh_cli.py:134 | `pattern in s`: the pattern occurs at some position. `CommitToleratedIgnoresCase` states the commit test through it. |
| GhCli.RunStepsStopsAtFirstFailure | mgas/gh_cli.py:137-142 | The issued commands are the steps' commands up to and including the first step that raises, and that step's failure is the outcome. The run succeeds exactly when every step passes, and then it issued every command. |
| GhCli.RunAppend | mgas/gh_cli.py:137-142 | Running two step lists one after the other is the same as running them joined, stopping at the first failure. |
| GhCli.Verdict | mgas/gh_cli.py:66-142 | How one result is judged. Under `check=True` a step raises exactly on a non-zero exit, and the failure carries the output exactly when it was captured. A probe never raises. The origin check raises the conflict exactly on exit 0. The commit raises with its output exactly when it is not tolerated. |
| GhCli.RunSteps | mgas/gh_cli.py:66-142 | Issues the steps in order and ends the run at the first that raises. It never issues more commands than there are steps. `RunStepsStopsAtFirstFailure` and `RunAppend` state the rest. |
| GhCli.CommitToleratedIgnoresCase | mgas/gh_cli.py:133-135 | The commit step is tolerated exactly when git exited 0 or stdout+stderr contains "nothing to commit" in any mixture of case. |
| GhCli.CommitTolerated | mgas/gh_cli.py:133-134 | The commit test: exit 0, or "nothing to commit" in the lowered stdout followed by stderr. `CommitToleratedIgnoresCase` and `CleanTreeTolerated` state what it accepts. |
| GhCli.CleanTreeTolerated | mgas/gh_cli.py:133-135 | git's clean-tree report, with exit status 1, is tolerated. |
| GhCli.FirstMarked | mgas/gh_cli.py:83-85 | Finds the first line at or after the start that contains "Active account", or none when no such line exists. |
| GhCli.StatusLine | mgas/gh_cli.py:83-86 | The result is the first line containing "Active account", stripped. With no such line it is the first line unchanged, or "No active account" when stdout is empty. |
| GhCli.SelectStatusLine | mgas/gh_cli.py:83-86 | The line-selection loop returns `StatusLine` of the output. |
| GhCli.JoinPath | mgas/gh_cli.py:46-48 | The joined path starts with the base and ends with the part. At most one character is added between them, and it is the platform's separator. On POSIX a '/' is added exactly when the base is non-empty and does not already end in '/'. On Windows a `\` is added exactly when the base is non-empty, does not end in `\` or `/`, and is not a bare drive such as `C:`. |
| GhCli.JoinPaths | mgas/gh_cli.py:46-48 | `os.path.join(base, *parts)`: the parts are joined one after the other with `JoinPath`. `JoinPathsKeepsBase` proves the result starts with the base. |
| GhCli.JoinPathsKeepsBase | mgas/gh_cli.py:46-48 | Joining any parts onto a base gives a path that starts with that base. |
| GhCli.InstallLocations | mgas/gh_cli.py:45-49 | There are exactly three install locations, built on ProgramFiles, ProgramFiles(x86) and LocalAppData in that order. `InstallLocationsStartWithRoots` and `InstallLocationsAreGhExe` state their shape. |
| GhCli.InstallLocationsStartWithRoots | mgas/gh_cli.py:45-49 | Each install location starts with the value of its own variable: ProgramFiles, ProgramFiles(x86), then LocalAppData. A location is built on "" when its variable is unset. |
| GhCli.EnvGet | mgas/gh_cli.py:46-48 | `os.environ.get(name, "")`: the variable's value, or "" when it is unset. `InstallLocations` states the locations through it. |
| GhCli.InstallLocationsAreGhExe | mgas/gh_cli.py:45-49 | Each install location is a path to gh.exe, whatever the environment holds. |
| GhCli.SearchPaths | mgas/gh_cli.py:43-50 | The candidates in search order: `which("gh")`, then the three install locations. `ResolutionSearches` states the search over them. |
| GhCli.FirstExisting | mgas/gh_cli.py:52-56 | A found candidate is non-empty and exists. |
| GhCli.IsHit | mgas/gh_cli.py:53 | `path and os.path.exists(path)`: the candidate is present, non-empty and exists. `FirstExistingIsFirst` states the search through it. |
| GhCli.FirstExistingIsFirst | mgas/gh_cli.py:52-56 | The search returns the first candidate that is non-empty and exists. It returns none exactly when no candidate is. |
| GhCli.Resolution | mgas/gh_cli.py:39-56 | A cached path that still exists is returned unchanged. Any result is non-empty and exists. |
| GhCli.ResolutionSearches | mgas/gh_cli.py:43-56 | Without a usable cache, the result is the first existing one of `which("gh")` and the three install locations, in that order. It is none exactly when none of them exists. |
| GhCli.LoginReading | mgas/gh_cli.py:66 | `gh auth login` reads as host github.com, the given git protocol and the `--with-token` flag. |
| GhCli.LoginSendsTokenLine | mgas/gh_cli.py:66-68 | The login child's stdin is the token followed by "\n". When the token holds no line-boundary character, this reads as exactly one line: the token. |
| GhCli.LoginFailureCarriesOutput | mgas/gh_cli.py:66-70 | The login step fails exactly on a non-zero exit. The failure carries the exit code, the argument vector, and the captured stdout and stderr. |
| GhCli.SwitchReading | mgas/gh_cli.py:78 | `gh auth switch` reads as switch to exactly the given user. |
| GhCli.RepoCreateReading | mgas/gh_cli.py:90-104 | `gh repo create` reads as create the named repository from `--source folder` with `--remote origin`, plus the flags `--push`, `--confirm` and the visibility flag. |
| GhCli.RepoCreateVisibility | mgas/gh_cli.py:90-104 | `--private` is passed exactly when the repository is private, and `--public` exactly when it is not. |
| GhCli.CreateOptionsReading | mgas/gh_cli.py:98-103 | The words after the visibility flag read as source folder, remote origin, push and confirm. |
| GhCli.LoginCommand | mgas/gh_cli.py:66-67 | `gh auth login --hostname github.com --git-protocol P --with-token`, with the token and a newline on stdin. `LoginReading` and `LoginSendsTokenLine` state how it reads. |
| GhCli.SetupGitCommand | mgas/gh_cli.py:74 | `gh auth setup-git`. `GitHubCLI.SetupGit` states how it is run. |
| GhCli.SwitchCommand | mgas/gh_cli.py:78 | `gh auth switch --user U`. `SwitchReading` states how it reads. |
| GhCli.StatusCommand | mgas/gh_cli.py:82 | `gh auth status`. `GitHubCLI.AuthStatus` states how its output is read. |
| GhCli.VisibilityFlag | mgas/gh_cli.py:90 | `--private` for a private repository, `--public` otherwise. `RepoCreateVisibility` states this on the whole command. |
| GhCli.RepoCreateCommand | mgas/gh_cli.py:91-104 | `gh repo create NAME VISIBILITY --source F --remote origin --push --confirm`. `RepoCreateReading` and `RepoCreateVisibility` state how it reads. |
| GhCli.GitHubCLI.constructor | mgas/gh_cli.py:36-37 | A new gateway has no cached path. |
| GhCli.GitHubCLI.Resolve | mgas/gh_cli.py:39-56 | The loop returns `Resolution` of the old cache. The cache becomes the result when one is found and is left as it was otherwise. |
| GhCli.GitHubCLI.Ensure | mgas/gh_cli.py:58-62 | Fails with not-found exactly when resolution finds nothing. Otherwise returns the resolved path, which exists and is now cached. |
| GhCli.GitHubCLI.RunChecked | mgas/gh_cli.py:74 | One gh call is the one-step run of its step. |
| GhCli.GitHubCLI.AuthWithToken | mgas/gh_cli.py:64-70 | The cache becomes the resolved path when one is found. Issues nothing and fails with not-found when gh is missing. Otherwise it runs the login step, with captured output, on the resolved path. |
| GhCli.GitHubCLI.SetupGit | mgas/gh_cli.py:72-74 | The cache becomes the resolved path when one is found. Issues nothing and fails with not-found when gh is missing. Otherwise it runs `gh auth setup-git`, which raises on a non-zero exit. |
| GhCli.GitHubCLI.SwitchUser | mgas/gh_cli.py:76-78 | The cache becomes the resolved path when one is found. Issues nothing and fails with not-found when gh is missing. Otherwise it runs `gh auth switch --user`, which raises on a non-zero exit. |
| GhCli.GitHubCLI.AuthStatus | mgas/gh_cli.py:80-86 | The cache becomes the resolved path when one is found. Fails with not-found and issues nothing when gh is missing. Otherwise it issues only `gh auth status`. A non-zero exit fails with the captured output. Otherwise the result is `StatusLine` of stdout. |
| GhCli.GitHubCLI.RepoCreate | mgas/gh_cli.py:88-106 | The cache becomes the resolved path when one is found. Issues nothing and fails with not-found when gh is missing. Otherwise it runs the `repo create` step, which raises on a non-zero exit. |
| Bootstrap.ConfigReading | mgas/gh_cli.py:123-124 | `git -C folder config key value` reads as set the key to the value in that folder. |
| Bootstrap.CommitReading | mgas/gh_cli.py:128-129 | `git -C folder commit -m message` reads as commit in that folder with exactly the message, whatever it holds. |
| Bootstrap.Git | mgas/gh_cli.py:114 | Every git command runs as `git -C folder …`. `ConfigReading` and `CommitReading` state that `-C` takes the folder. |
| Bootstrap.WorkTreeCheck | mgas/gh_cli.py:114 | `git rev-parse --is-inside-work-tree`, the probe. `BootstrapFollowsPlan` places it in the plan. |
| Bootstrap.InitCommand | mgas/gh_cli.py:116 | `git init`, issued only when the probe exits non-zero. |
| Bootstrap.OriginCheck | mgas/gh_cli.py:118 | `git remote get-url origin`. `OriginConflictAborts` states what its success does. |
| Bootstrap.ConfigCommand | mgas/gh_cli.py:123-124 | `git config KEY VALUE`. `ConfigReading` states how it reads. |
| Bootstrap.AddAllCommand | mgas/gh_cli.py:127 | `git add -A`. |
| Bootstrap.CommitCommand | mgas/gh_cli.py:129 | `git commit -m MESSAGE`. `CommitReading` states how it reads. |
| Bootstrap.RepoSteps | mgas/gh_cli.py:113-120 | The steps of `_ensure_git_repo`: the probe, `git init` only when the probe failed, then the origin check that refuses an existing remote. `RepoBootstrapper.EnsureGitRepo` runs them. |
| Bootstrap.AuthorshipSteps | mgas/gh_cli.py:122-124 | The steps of `_configure_authorship`: `user.name`, then `user.email`, each checked. |
| Bootstrap.CommitSteps | mgas/gh_cli.py:126-135 | The steps of `_stage_and_commit`: checked `add -A`, then the commit under the tolerance test. |
| Bootstrap.BootstrapSteps | mgas/gh_cli.py:137-142 | All steps of `initialize_and_push`: switch user, the repository steps, the authorship steps, the commit steps, then repo create. `BootstrapFollowsPlan` states their order. |
| Bootstrap.Plan | mgas/gh_cli.py:113-142 | Every command of a successful bootstrap, in order. `PlanIsCommandsOfSteps` proves it lists the commands of the steps. |
| Bootstrap.PlanIsCommandsOfSteps | mgas/gh_cli.py:113-142 | The plan lists the commands of the bootstrap steps, in order. |
| Bootstrap.BootstrapFollowsPlan | mgas/gh_cli.py:113-142 | A bootstrap issues a prefix of the plan. The plan is: switch user, work-tree check, `git init` only when that check failed, origin check, `user.name`, `user.email`, `add -A`, commit, repo create. Whenever the bootstrap succeeds it has issued the whole plan. |
| Bootstrap.OriginConflictAborts | mgas/gh_cli.py:118-120 | With an existing 'origin', the bootstrap raises the conflict right after the origin check. No authorship, commit or create command runs. |
| Bootstrap.CleanTreeSucceeds | mgas/gh_cli.py:113-142 | The bootstrap succeeds and issues the whole plan under three conditions: every checked command exits 0, no origin exists, and the commit is tolerated. |
| Bootstrap.RepoBootstrapper.constructor | mgas/gh_cli.py:110-111 | The bootstrapper keeps the gateway it was given. |
| Bootstrap.RepoBootstrapper.EnsureGitRepo | mgas/gh_cli.py:113-120 | Issues the work-tree probe, then `git init` only when the probe failed, then the origin check. It refuses an existing origin and stops at the first failure. |
| Bootstrap.RepoBootstrapper.ConfigureAuthorship | mgas/gh_cli.py:122-124 | Sets `user.name`, then `user.email`, from the profile, and stops at the first failure. |
| Bootstrap.RepoBootstrapper.StageAndCommit | mgas/gh_cli.py:126-135 | Stages everything, then commits. A failing add stops the run. A failing commit raises with its output unless "nothing to commit" is reported. |
| Bootstrap.RepoBootstrapper.InitializeAndPush | mgas/gh_cli.py:137-142 | The gateway's cache becomes the resolved path when one is found. Issues nothing and fails with not-found when gh is missing. Otherwise the issued trace and the outcome are exactly those of running the bootstrap steps in order, up to the first that raises. |

## Left out

- `mgas/ui.py` is not part of this model. It is presentation: Tk widgets, dialogs, and the packaged-resource path lookup. Its input checks and its stripping of a blank commit message act on widget reads.
- `mgas/__init__.py` only re-exports names.
- Process execution itself is not modelled: `hidden_run`, `hidden_popen` and the Windows `STARTUPINFO`/`CREATE_NO_WINDOW` flags. Each command's exit code, stdout and stderr are inputs, given by a function of the command.
- `shutil.which`, `os.environ` and `os.path.exists` are inputs too. The set of existing paths is taken as fixed for the length of one operation.
- JSON text, indentation, file opening and writing, and `_ensure_dir` are not modelled. A file is its decoded content: an object whose members come in file order with each key once. Only string values are modelled; an entry with a non-string field is outside the model.
- An I/O error while reading or writing a file is not modelled.
- Files `mgas` rejects because they are not of the expected JSON shape are outside the model's types: a profile file whose top-level value is not an object (`raw.items()`, mgas/accounts.py:36), a profile entry that is not an object (`**data`, mgas/accounts.py:36), and a settings file that is not an object (`{**DEFAULT_SETTINGS, **data}`, mgas/accounts.py:76). On each the Python code raises; `Document` and `map<string, string>` admit only objects.
- The repository's default file paths (`ACCOUNTS_FILE`, `SETTINGS_FILE`) are not modelled. Each store is given its file's content.
- A missing `git` executable is not modelled. Every git command yields a result from the host.
- Accounts.Account: the Python dataclass's `label` field is named `key`, because `label` is a Dafny keyword.
- Text.Lower: lowercases ASCII letters only, whereas Python's `str.lower` lowercases all of Unicode. The tolerance test looks for the ASCII text "nothing to commit", and the model is exact for it on ASCII output.
- Text.Lines: follows `str.splitlines` with its full set of line boundaries and with "\r\n" as one boundary. LinesInverse is stated only for text whose line boundaries are all "\n".
- GhCli.JoinPath: models `ntpath.join` on Windows and `posixpath.join` elsewhere, for a relative part only. On Windows it covers a base that is empty, ends in a separator or is a bare drive such as `C:`. Absolute parts and UNC roots are not modelled, because the parts joined here are fixed relative names.
- GhCli.RepoCreateReading: requires that the repository name does not start with '-'. A name that does would be read as a flag by the reference reader.
- GhCli.RepoCreateVisibility: requires that the repository name does not start with '-', for the same reason. It is stated on how the reference reader reads the argument vector, so such a name is outside it. `RepoCreateCommand` itself places the visibility flag right after the name for every name.
- Bootstrap.ConfigReading: requires that the name and email do not start with '-', for the same reason. Bootstrap.CommitReading needs no such condition because `-m` always takes the next word.
