# oktaws credential orchestration, modelled in Dafny

`oktaws` logs a user into one or more Okta organizations. For every configured
AWS profile the user selects, it fetches the SAML assertion of the profile's
Okta application, picks the role the profile names and exchanges the assertion
for temporary STS credentials. It then writes all of them into the AWS
credentials file. This project models the decision logic of `src/main.rs`:

- the verbosity-to-log-level mapping;
- the "no organizations" guard;
- the glob selection of `<organization>/<profile>`;
- `fetch_credentials`, which finds the application link, then the role, then the credential payload;
- the fail-fast `try_fold_with`/`try_reduce_with` aggregation;
- the merge into the credentials store under `<organization>/<profile>`, the per-organization password re-save and the single final `save`.

Everything outside `main.rs` is a field of the `Types.Env` datatype. That covers the
credentials file, the configuration loader, the keyring, the Okta client, SAML role-name
parsing and STS. The loaded credentials file and configuration are `Result` values. The calls
are total functions that return a value or an error message. `roleName` returns an `Option`, empty
for a role whose name does not parse. The effects (`setProfileSts`, `savePassword`, `save`) return
`None` on success and `Some(message)` on failure. So every step is a pure function over sequences
and maps.

Modules, one per file:

| file | module | what it holds |
|---|---|---|
| results.dfy | `Results` | `Option`, `Result` with `:-` support and `map_err` |
| search.dfy | `Search` | first-match search (`Iterator::find`) |
| glob.dfy | `Glob` | `*` / `?` / literal pattern matching |
| verbosity.dfy | `Verbosity` | `-v` count to log level and `RUST_LOG` filter |
| types.dfy | `Types` | profiles, organizations, app links, roles, SAML, credentials, errors, collaborators |
| selection.dfy | `Selection` | composite key and profile selection |
| fetch.dfy | `Fetch` | `fetch_credentials` |
| aggregation.dfy | `Aggregation` | the per-organization fold/reduce |
| store.dfy | `StoreMerge` | the `set_profile_sts` loop |
| orchestrator.dfy | `Orchestrator` | login, the organization loop, and `main` |

Modelling decisions:

- The rayon fan-out is modelled twice. `Aggregation.Aggregate` is a sequential fold.
  `Aggregation.ParallelAggregate` folds contiguous pieces and reduces them, as rayon does.
  The two are proved equal.
- The join step is `extend`. It is proved associative, so every reduction tree over the contiguous
  pieces gives the same result. On disjoint profile names it is also proved commutative.
- The credentials `HashMap` is iterated in an unspecified order. `StoreMerge.MergeOrg` therefore
  takes the next entry by an arbitrary ghost choice (`:|`). This makes it, `ProcessOrg` and `Run`
  ghost functions.
- Duplicate profile names within one organization are not rejected by `main.rs`. The fold keeps each piece
  in order and `extend` lets the right piece win, so the last configured profile of a name survives on every
  split. `Aggregation.Aggregate` and `Orchestrator.SuccessfulOrg` state this through the last position of
  each name.
- Errors that `?` passes through unchanged from a collaborator become `Error.Upstream(message)`.
  The errors `main.rs` builds itself have their own constructors, and keep the profile and
  organization names the source puts in their messages.

## Model

| member | source | states |
|---|---|---|
| Verbosity.LevelFor | src/main.rs:58-63 | zero `-v` gives warn, one gives info, two gives debug, and every count of three or more gives trace; the detail rank is the count capped at 3 |
| Verbosity.LevelMonotone | src/main.rs:58-63 | more `-v` flags never select a quieter level |
| Verbosity.LogFilter | src/main.rs:64 | `RUST_LOG` is `oktaws=<level>`, and the level part parses back to the level chosen for the count |
| Verbosity.NameRoundTrip | src/main.rs:58-63 | each level name parses back to the same level |
| Glob.Matches | src/main.rs:80-84 | a selector without `*` matches exactly the strings of its own length that agree with it at every position that is not `?` |
| Glob.LiteralMatchesItself | src/main.rs:80-84 | a selector without wildcards matches exactly the string it spells |
| Glob.StarMatchesAll | src/main.rs:80-84 | a lone `*` matches every string, `/` included |
| Glob.LiteralThenStar | src/main.rs:80-84 | `<literal>*` matches exactly the strings starting with that literal |
| Glob.DefaultPatternMatches | src/main.rs:39 | the default selector `*/*` matches exactly the strings containing a `/` |
| Selection.Key | src/main.rs:121-125 | the store key is the organization name, one `/`, then the profile name, each recoverable by position |
| Selection.KeyInjectiveInName | src/main.rs:119-128 | within one organization, distinct profile names are written under distinct keys |
| Selection.KeyInjective | src/main.rs:119-128 | when organization names contain no `/`, keys of different organizations or profiles never collide |
| Selection.SelectFrom | src/main.rs:78-85 | a profile is kept exactly when it is configured and the pattern matches `<org>/<profile>`; nothing is added |
| Selection.SelectFromAppend | src/main.rs:78-85 | selection keeps the configured order: selecting from a concatenation concatenates the two selections |
| Selection.Select | src/main.rs:78-85 | the profiles of an organization that are processed are exactly those whose `<org>/<profile>` the pattern matches |
| Selection.SelectKeepsUniqueNames | src/main.rs:78-85 | filtering profiles with unique names keeps them unique |
| Selection.DefaultSelectsAll | src/main.rs:39 | with the default selector every configured profile is processed, in order |
| Selection.OrgPrefixSelector | src/main.rs:78-85 | for organization names and a literal `<name>` without `/`, the selector `<name>/*` keeps all profiles of the organization of that name and none of any other organization |
| Selection.ExactSelector | src/main.rs:78-85 | a wildcard-free selector `<org>/<name>` keeps exactly that organization's profiles named `<name>` |
| Selection.AcmeSelection | src/main.rs:78-85 | for organization `acme` with profile `dev`, `acme/*` selects `dev` and `other/*` selects nothing |
| Search.FirstIndex | src/main.rs:151-156 | the index found satisfies the predicate and no earlier element does; no index means no element does |
| Search.FirstIndexIsFirst | src/main.rs:183-185 | the first satisfying position is unique, so the search returns exactly it |
| Fetch.FindAppLink | src/main.rs:151-163 | the link used is the first in Okta's order with app name `amazon_aws` and the profile's application label; none is found exactly when no link qualifies |
| Fetch.SelectRole | src/main.rs:183-192 | the role used is the first whose parsed name equals the profile's role; none is found exactly when no role's name parses to it |
| Fetch.ExtractCredentials | src/main.rs:203-205 | an assume-role answer without credentials is an error; otherwise its payload is returned unchanged |
| Fetch.FetchCredentials | src/main.rs:141-210 | an app-link listing failure is passed through; "application not found", naming org and profile, happens exactly when no link qualifies; role-not-found names the role and profile; SAML and STS failures name the profile; success implies a qualifying link existed |
| Fetch.MissingAppLinkStopsBeforeSaml | src/main.rs:151-163 | with no qualifying link the result is the app-not-found error whatever the SAML endpoint and STS would answer, so neither is called |
| Fetch.SamlFromFirstLink | src/main.rs:167-175 | the assertion is fetched from the first qualifying link's URL, and its failure is wrapped with the profile name |
| Fetch.MissingRoleStopsBeforeAssume | src/main.rs:183-192 | with no role of the wanted name the result is role-not-found naming role and profile, whatever STS would answer |
| Fetch.AssumeFirstRole | src/main.rs:200-209 | the first matching role is assumed with the raw assertion; an STS failure is wrapped with the profile name, a missing payload is an error, and otherwise the payload is the result |
| Fetch.UnparsableRoleSkipped | src/main.rs:185 | a role whose name does not parse is skipped, not fatal |
| Fetch.OnlyRemoteServicesUsed | src/main.rs:141-210 | a fetch depends only on Okta, the SAML parser and STS; the store, keyring and configuration play no part |
| Aggregation.FoldFrom | src/main.rs:102-109 | the fold succeeds exactly when every profile's fetch does; its keys are the accumulator's plus the profile names; each name holds the credentials of its last profile; keys not named keep their values; a failure is the first failing profile's error |
| Aggregation.Aggregate | src/main.rs:100-117 | success exactly when every selected profile succeeds; the key set is the set of selected names, each holding the credentials of the last selected profile of that name; a failure is some selected profile's error; an empty selection gives an empty map |
| Aggregation.AggregateUnique | src/main.rs:100-117 | with unique names, every selected profile's credentials sit under its name |
| Aggregation.Reduce | src/main.rs:110-113 | joining two results fails if either fails; otherwise the key set is the union and the right side's values win |
| Aggregation.ParallelAggregate | src/main.rs:100-117 | folding pieces, reducing them and falling back to an empty map when nothing is left gives an empty map for no pieces, and succeeds exactly when every profile of every piece is fetched |
| Aggregation.AggregateValue | src/main.rs:100-117 | every name in a successful aggregate holds the credentials fetched for the last selected profile of that name |
| Aggregation.ReduceAll | src/main.rs:110-117 | there is nothing to reduce exactly when there are no pieces; the reduction succeeds exactly when every piece does |
| Aggregation.FoldSplit | src/main.rs:100-113 | folding a concatenation equals joining the folds of its two parts |
| Aggregation.ParallelIsSequential | src/main.rs:100-117 | folding pieces, reducing them and falling back to an empty map when there are none gives exactly the sequential fold of the whole selection |
| Aggregation.ReduceCommutes | src/main.rs:110-113 | the join fails or succeeds regardless of argument order, and with disjoint names the joined map is the same either way |
| Aggregation.ReduceAssociates | src/main.rs:110-113 | the join is associative, so every reduction tree gives the same result |
| Aggregation.SuccessBySet | src/main.rs:100-117 | whether an organization's aggregate succeeds depends only on which profiles are selected |
| Aggregation.OrderIndependent | src/main.rs:100-117 | with unique names, any permutation of the selection succeeds or fails alike and, on success, gives the same map |
| Aggregation.OnlySelectedFetched | src/main.rs:100-109 | only selected profiles are fetched: fetchers that agree on them give the same aggregate |
| StoreMerge.MergeOrg | src/main.rs:119-128 | the merge succeeds exactly when the store accepts every entry; it writes each result under `<org>/<name>`, adds exactly those keys and leaves every other key unchanged; on failure the error is a refused entry's message |
| Orchestrator.Authenticate | src/main.rs:87-98 | when the keyring, the token call and the session call all succeed, the login is the organization's session with that id and that password; a failure of any of the three is returned as that collaborator's own message, and later calls are not reached; a successful login was obtained this way |
| Orchestrator.AuthenticateUsesLoginServices | src/main.rs:87-98 | logging in consults only the keyring's password and Okta's token and session calls |
| Orchestrator.ProcessOrg | src/main.rs:75-131 | a completed organization adds exactly the keys of its selected profiles to the store and leaves all other keys unchanged |
| Orchestrator.SuccessfulOrg | src/main.rs:100-130 | an organization completes only if it logged in, every selected profile was fetched and the password was re-saved; each selected name's key holds the credentials fetched for the last selected profile of that name, so with unique names every selected profile's key holds its own fetched credentials |
| Orchestrator.OrgSucceeds | src/main.rs:87-130 | conversely, logging in, fetching every selected profile, the credentials file accepting the entry written for each selected name (the last profile of that name) and the password re-save succeeding make the organization complete |
| Orchestrator.ProcessOrgErrors | src/main.rs:87-130 | an organization's error is the login's error when the login fails; once the profiles were fetched, it is the credentials file's refusal when an entry is refused, and otherwise the keyring's message when the password re-save fails |
| Orchestrator.AggregateFailureFailsOrg | src/main.rs:100-117 | once logged in, a failed aggregate is returned as the organization's error |
| Orchestrator.FailedProfileCommitsNothing | src/main.rs:100-117 | once logged in, fail-fast: one failing selected profile fails the organization with a failing profile's error, whatever the store writes and the password re-save would answer |
| Orchestrator.MergeFailureSkipsPasswordSave | src/main.rs:119-130 | when the merge fails the organization fails without consulting the keyring, so the password is re-saved only after the merge |
| Orchestrator.EmptySelectionKeepsStore | src/main.rs:114-117 | once logged in and the password re-save succeeds, an organization with no selected profile succeeds and leaves the store unchanged |
| Orchestrator.Loop | src/main.rs:75-131 | organizations run in configuration order; the re-saved passwords are a prefix of the organization names, and the loop succeeds exactly when that prefix is all of them |
| Orchestrator.LoopFailsAt | src/main.rs:75-131 | the loop stops at the first failing organization with its error, having re-saved the passwords of exactly the organizations before it |
| Orchestrator.LoopKeys | src/main.rs:75-131 | after a successful loop the store holds its old keys plus the key of every selected profile of every organization, and nothing else |
| Orchestrator.LoopKeepsOthers | src/main.rs:75-131 | after a successful loop every entry of the starting store that no organization selected is still there with its old value |
| Orchestrator.OtherOrgsKeysDisjoint | src/main.rs:119-127 | organizations with distinct names free of `/` never write each other's keys |
| Orchestrator.LoopValues | src/main.rs:75-131 | after a successful loop over organizations with distinct names free of `/`, each organization's selected names hold the credentials fetched, over that organization's login, for the last selected profile of that name |
| Orchestrator.Run | src/main.rs:53-139 | a failure to load the credentials file or the configuration, or an empty configuration, ends the run at once, saving no password and persisting nothing; otherwise the passwords re-saved are the loop's, a failed loop's error is the run's error with nothing persisted, and a successful loop's store is handed to `save`, holding the loaded keys plus all selected keys, keeping every unselected loaded entry's value and, for organizations with distinct names free of `/`, holding each organization's fetched credentials; the run succeeds exactly when a store was handed over and `save` accepted it, and a refusing `save` makes its message the run's error |
| Orchestrator.OrgFailureLosesEarlierCredentials | src/main.rs:75-138 | when organization `i` fails after the earlier ones succeeded, the run fails with its error; the earlier organizations' passwords stay re-saved and nothing is persisted |

## Left out

- The Okta HTTP calls (`get_session_token`, `new_session`, `app_links`, `get_saml_response`) are
  network I/O in modules outside this model. They are `Env` fields that return a value or an error message.
- SAML parsing and `Role::role_name` ARN parsing are outside this model. The parsed role list is part of
  `SamlResponse`, and `role_name` is the partial function `Env.roleName`.
- The STS `assume_role` call is an `Env` field. Credentials are an opaque record.
- The on-disk format and atomic write of the credentials file are outside this model. This includes the
  persist-then-reload round trip. The store is a `map<string, Credentials>`, `save` is an `Env` field,
  and the model records which store was handed to it.
- StoreMerge.MergeOrg: whether `set_profile_sts` refuses an entry is modelled as depending only on the key
  and the credentials. The writes made before a refusal are not modelled. After a refusal the run fails
  and never reaches `save`, so those writes cannot be observed.
- Password prompting, keyring caching and the meaning of `--force-auth` are outside this model.
  The flag is passed to `Env.getPassword` unchanged.
- rayon's threads, the `Arc`/`Mutex` around the store and the two `try_unwrap`/`into_inner` failures
  (lines 133-136) concern concurrency. The work is a fold, and those two failures cannot occur once the
  loop has ended.
- Aggregation.Aggregate: when several profiles fail, rayon may report any one of their errors. The model's
  fold reports the first, and its contract promises only that the error is some selected profile's error.
- glob::Pattern character classes `[...]`, the special `**` form and escapes are not modelled. `*` and `?`
  follow the default match options, under which `*` also matches `/`.
- Logging calls (`info!`, `debug!`, `trace!`, and the "No profiles" `warn!`), `pretty_env_logger`
  initialisation, `human_panic` and StructOpt parsing are not modelled. `RUST_LOG` is returned as
  `Outcome.logFilter` and is not set in an environment.
- Verbosity.LevelFor: `usize` is modelled as an unbounded `nat`. The mapping is the same for every value.
- Selection.KeyInjective needs organization names without `/`. Nothing in `main.rs` enforces this, and
  `"a/b" + "/" + "c"` equals `"a" + "/" + "b/c"`.
- Orchestrator.LoopValues and the matching clause of Orchestrator.Run state the persisted values only for
  organizations whose names are distinct and contain no `/`. When two organizations write the same key,
  the later write wins, and the model states only the key set and the untouched entries for that case.

How `main.rs` reports errors and re-saves passwords:

- The keyring's and the Okta client's errors pass through `?` unchanged, so the model has one `Upstream`
  kind for them rather than separate authentication and session-exchange errors.
- The password is re-saved once for each organization, after that organization's merge (line 130), not
  as part of logging in. The passwords of organizations that completed therefore stay saved even when a
  later organization fails.
- The "No profiles" warning is logged only when rayon yields no fold result at all (lines 114-116). The
  warning is not modelled, and the empty case gives an empty map.
