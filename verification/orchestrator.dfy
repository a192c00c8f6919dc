/** `main`: the log filter, the organizations guard, then for each organization
    in turn log in, aggregate its selected profiles, merge them into the
    credentials file and re-save the password; the file is saved once, at the end. */
module Orchestrator {
  import opened Results
  import opened Types
  import Verbosity
  import Selection
  import Fetch
  import Aggregation
  import StoreMerge

  /** The command line: the profile selector, `--force-auth` and the `-v` count. */
  datatype Args = Args(pattern: string, forceAuth: bool, verbosity: nat)

  /** The command line when no flag is given. */
  const DefaultArgs := Args(Selection.DefaultPattern, false, 0)

  /** A logged-in organization: its bound session and the password that opened it. */
  datatype Login = Login(session: Session, password: string)

  /** Password, session token, then session id; any failure is the collaborator's own error. */
  function Authenticate(env: Env, org: Organization, forceAuth: bool): (r: Result<Login, Error>)
    ensures r.Ok? ==> r.value.session.org == org.name
    ensures r.Ok? ==> env.getPassword(org.name, org.username, forceAuth) == Ok(r.value.password)
    ensures r.Ok? ==> env.getSessionToken(org.name, org.username, r.value.password).Ok? &&
                      env.newSession(org.name, env.getSessionToken(org.name, org.username, r.value.password).value)
                      == Ok(r.value.session.id)
    ensures r.Err? ==> r.error.Upstream?
    ensures env.getPassword(org.name, org.username, forceAuth).Err? ==>
              r == Err(Upstream(env.getPassword(org.name, org.username, forceAuth).error))
    ensures var password := env.getPassword(org.name, org.username, forceAuth);
            password.Ok? && env.getSessionToken(org.name, org.username, password.value).Err? ==>
              r == Err(Upstream(env.getSessionToken(org.name, org.username, password.value).error))
    ensures var password := env.getPassword(org.name, org.username, forceAuth);
            var token := if password.Ok? then env.getSessionToken(org.name, org.username, password.value) else Err("");
            password.Ok? && token.Ok? ==>
              match env.newSession(org.name, token.value)
              case Err(msg) => r == Err(Upstream(msg))
              case Ok(id) => r == Ok(Login(Session(org.name, id), password.value))
  {
    var password :- Lift(env.getPassword(org.name, org.username, forceAuth));
    var token :- Lift(env.getSessionToken(org.name, org.username, password));
    var id :- Lift(env.newSession(org.name, token));
    Ok(Login(Session(org.name, id), password))
  }

  /** Logging in consults only the keyring's password and Okta's two login calls. */
  lemma AuthenticateUsesLoginServices(e1: Env, e2: Env, org: Organization, forceAuth: bool)
    requires e1.getPassword == e2.getPassword
    requires e1.getSessionToken == e2.getSessionToken
    requires e1.newSession == e2.newSession
    ensures Authenticate(e1, org, forceAuth) == Authenticate(e2, org, forceAuth)
  {
  }

  /** The per-profile work of one organization, over its session. */
  function ProfileFetcher(env: Env, session: Session, orgName: string): Aggregation.Fetcher
  {
    p => Fetch.FetchCredentials(env, session, orgName, p)
  }

  /** The store keys the selected profiles of `org` are written under. */
  ghost function SelectedKeys(pattern: string, org: Organization): set<string>
  {
    set p | p in Selection.Select(pattern, org) :: Selection.Key(org.name, p.name)
  }

  /** One organization: authenticate, aggregate, merge, re-save the password. */
  ghost function ProcessOrg(env: Env, args: Args, org: Organization, store: Store): (r: Result<Store, Error>)
    ensures r.Ok? ==> r.value.Keys == store.Keys + SelectedKeys(args.pattern, org)
    ensures r.Ok? ==> forall k :: k in store && k !in SelectedKeys(args.pattern, org) ==> r.value[k] == store[k]
  {
    var login :- Authenticate(env, org, args.forceAuth);
    var selected := Selection.Select(args.pattern, org);
    var fetch := ProfileFetcher(env, login.session, org.name);
    var creds :- Aggregation.Aggregate(fetch, selected);
    var merged :- StoreMerge.MergeOrg(env.setProfileSts, store, org.name, creds);
    CommitFacts(fetch, env.setProfileSts, store, org, args.pattern, merged);
    match env.savePassword(org.name, org.username, login.password)
    case Some(msg) => Err(Upstream(msg))
    case None => Ok(merged)
  }

  /** An organization succeeds only if it logged in, every selected profile
      was fetched and the password was re-saved; each selected name's key then
      holds the credentials fetched for the last selected profile of that name,
      which with unique names is every selected profile. */
  lemma SuccessfulOrg(env: Env, args: Args, org: Organization, store: Store)
    requires ProcessOrg(env, args, org, store).Ok?
    ensures Authenticate(env, org, args.forceAuth).Ok?
    ensures var login := Authenticate(env, org, args.forceAuth).value;
            && (forall p :: p in Selection.Select(args.pattern, org) ==>
                  Fetch.FetchCredentials(env, login.session, org.name, p).Ok?)
            && env.savePassword(org.name, org.username, login.password).None?
    ensures var login := Authenticate(env, org, args.forceAuth).value;
            var selected := Selection.Select(args.pattern, org);
            var r := ProcessOrg(env, args, org, store).value;
            forall i :: Aggregation.IsLastOfName(selected, i) ==>
              r[Selection.Key(org.name, selected[i].name)] == Fetch.FetchCredentials(env, login.session, org.name, selected[i]).value
    ensures Selection.UniqueNames(Selection.Select(args.pattern, org)) ==>
              var login := Authenticate(env, org, args.forceAuth).value;
              var r := ProcessOrg(env, args, org, store).value;
              forall p :: p in Selection.Select(args.pattern, org) ==>
                r[Selection.Key(org.name, p.name)] == Fetch.FetchCredentials(env, login.session, org.name, p).value
  {
    var login := Authenticate(env, org, args.forceAuth).value;
    var fetch := ProfileFetcher(env, login.session, org.name);
    var creds := Aggregation.Aggregate(fetch, Selection.Select(args.pattern, org)).value;
    var merged := StoreMerge.MergeOrg(env.setProfileSts, store, org.name, creds).value;
    CommitFacts(fetch, env.setProfileSts, store, org, args.pattern, merged);
  }

  /** The converse of `SuccessfulOrg`: logging in, fetching every selected
      profile, the credentials file accepting the entry written for each
      selected name (the last profile of that name) and the password re-save
      together make the organization succeed. */
  lemma OrgSucceeds(env: Env, args: Args, org: Organization, store: Store)
    requires Authenticate(env, org, args.forceAuth).Ok?
    requires var login := Authenticate(env, org, args.forceAuth).value;
             forall p :: p in Selection.Select(args.pattern, org) ==>
               Fetch.FetchCredentials(env, login.session, org.name, p).Ok?
    requires var login := Authenticate(env, org, args.forceAuth).value;
             var selected := Selection.Select(args.pattern, org);
             forall i :: Aggregation.IsLastOfName(selected, i) ==>
               env.setProfileSts(Selection.Key(org.name, selected[i].name),
                                 Fetch.FetchCredentials(env, login.session, org.name, selected[i]).value).None?
    requires env.savePassword(org.name, org.username, Authenticate(env, org, args.forceAuth).value.password).None?
    ensures ProcessOrg(env, args, org, store).Ok?
  {
    var login := Authenticate(env, org, args.forceAuth).value;
    var selected := Selection.Select(args.pattern, org);
    var fetch := ProfileFetcher(env, login.session, org.name);
    assert Aggregation.Aggregate(fetch, selected).Ok? by {
      assert forall i :: 0 <= i < |selected| ==> selected[i] in selected;
    }
    var creds := Aggregation.Aggregate(fetch, selected).value;
    assert StoreMerge.MergeOrg(env.setProfileSts, store, org.name, creds).Ok? by {
      forall n | n in creds
        ensures env.setProfileSts(Selection.Key(org.name, n), creds[n]).None?
      {
        Aggregation.AggregateValue(fetch, selected, n);
      }
    }
    OrgCommits(env, args, org, store);
  }

  /** Every way an organization fails, with the error `?` hands on: the login's
      own error, the aggregate's (see `AggregateFailureFailsOrg`), the refused
      credentials entry's, and the password re-save's message. */
  lemma ProcessOrgErrors(env: Env, args: Args, org: Organization, store: Store)
    ensures Authenticate(env, org, args.forceAuth).Err? ==>
              ProcessOrg(env, args, org, store) == Err(Authenticate(env, org, args.forceAuth).error)
    ensures Authenticate(env, org, args.forceAuth).Ok? ==>
              var login := Authenticate(env, org, args.forceAuth).value;
              var a := Aggregation.Aggregate(ProfileFetcher(env, login.session, org.name), Selection.Select(args.pattern, org));
              a.Ok? ==>
                var m := StoreMerge.MergeOrg(env.setProfileSts, store, org.name, a.value);
                && (m.Err? ==> ProcessOrg(env, args, org, store) == Err(m.error))
                && (m.Ok? && env.savePassword(org.name, org.username, login.password).Some? ==>
                      ProcessOrg(env, args, org, store)
                      == Err(Upstream(env.savePassword(org.name, org.username, login.password).value)))
  {
  }

  /** Login, aggregate, merge and password re-save all succeeding is success. */
  lemma OrgCommits(env: Env, args: Args, org: Organization, store: Store)
    requires Authenticate(env, org, args.forceAuth).Ok?
    requires var login := Authenticate(env, org, args.forceAuth).value;
             var a := Aggregation.Aggregate(ProfileFetcher(env, login.session, org.name), Selection.Select(args.pattern, org));
             && a.Ok?
             && StoreMerge.MergeOrg(env.setProfileSts, store, org.name, a.value).Ok?
             && env.savePassword(org.name, org.username, login.password).None?
    ensures ProcessOrg(env, args, org, store).Ok?
  {
  }

  /** What a successful aggregate-then-merge of one organization leaves in the store. */
  lemma CommitFacts(fetch: Aggregation.Fetcher, setSts: (string, Credentials) -> Option<string>, store: Store,
                    org: Organization, pattern: string, merged: Store)
    requires Aggregation.Aggregate(fetch, Selection.Select(pattern, org)).Ok?
    requires StoreMerge.MergeOrg(setSts, store, org.name,
                                 Aggregation.Aggregate(fetch, Selection.Select(pattern, org)).value) == Ok(merged)
    ensures forall p :: p in Selection.Select(pattern, org) ==> fetch(p).Ok?
    ensures merged.Keys == store.Keys + SelectedKeys(pattern, org)
    ensures forall k :: k in store && k !in SelectedKeys(pattern, org) ==> merged[k] == store[k]
    ensures var selected := Selection.Select(pattern, org);
            forall i :: Aggregation.IsLastOfName(selected, i) ==>
              merged[Selection.Key(org.name, selected[i].name)] == fetch(selected[i]).value
    ensures Selection.UniqueNames(Selection.Select(pattern, org)) ==>
              forall p :: p in Selection.Select(pattern, org) ==>
                merged[Selection.Key(org.name, p.name)] == fetch(p).value
  {
    var selected := Selection.Select(pattern, org);
    var creds := Aggregation.Aggregate(fetch, selected).value;
    OrgKeysAre(pattern, org, creds.Keys);
    if Selection.UniqueNames(selected) {
      forall p | p in selected
        ensures merged[Selection.Key(org.name, p.name)] == fetch(p).value
      {
        Aggregation.AggregateAt(fetch, selected, p);
      }
    }
  }

  lemma OrgKeysAre(pattern: string, org: Organization, names: set<string>)
    requires names == Aggregation.Names(Selection.Select(pattern, org))
    ensures StoreMerge.KeysFor(org.name, names) == SelectedKeys(pattern, org)
  {
    var selected := Selection.Select(pattern, org);
    forall k | k in SelectedKeys(pattern, org) ensures k in StoreMerge.KeysFor(org.name, names) {
      var p :| p in selected && k == Selection.Key(org.name, p.name);
      var i :| 0 <= i < |selected| && selected[i] == p;
    }
  }

  /** Organization names in configuration order. */
  function OrgNames(orgs: seq<Organization>): (names: seq<string>)
    ensures |names| == |orgs|
  {
    if |orgs| == 0 then [] else [orgs[0].name] + OrgNames(orgs[1..])
  }

  /** Position `i` of the names is organization `i`'s name. */
  lemma {:induction false} OrgNamesAt(orgs: seq<Organization>)
    ensures forall i :: 0 <= i < |orgs| ==> OrgNames(orgs)[i] == orgs[i].name
  {
    if |orgs| > 0 {
      OrgNamesAt(orgs[1..]);
      assert forall i :: 1 <= i < |orgs| ==> orgs[i] == orgs[1..][i - 1];
    }
  }

  /** The store keys of every selected profile of every organization. */
  ghost function AllSelectedKeys(pattern: string, orgs: seq<Organization>): set<string>
  {
    set o, p | o in orgs && p in Selection.Select(pattern, o) :: Selection.Key(o.name, p.name)
  }

  lemma AllSelectedKeysCons(pattern: string, orgs: seq<Organization>)
    requires |orgs| > 0
    ensures AllSelectedKeys(pattern, orgs) == SelectedKeys(pattern, orgs[0]) + AllSelectedKeys(pattern, orgs[1..])
  {
    assert forall o :: o in orgs <==> o == orgs[0] || o in orgs[1..];
  }

  /** Where the organization loop got to: its result, and the organizations
      whose password was re-saved (a side effect that outlives a later failure). */
  datatype Progress = Progress(result: Result<Store, Error>, passwordsSaved: seq<string>)

  /** One turn of the organization loop: from the store so far to the store after it. */
  type OrgStep = (Organization, Store) -> Result<Store, Error>

  /** The `for organization in organizations` loop: each organization starts
      from the store the previous ones left, the first failure ends the loop,
      and the passwords re-saved are those of the organizations that completed. */
  function Loop(step: OrgStep, orgs: seq<Organization>, store: Store): (out: Progress)
    ensures out.passwordsSaved <= OrgNames(orgs)
    ensures out.result.Ok? <==> out.passwordsSaved == OrgNames(orgs)
  {
    TurnsSaved(step, orgs, store);
    Turns(step, orgs, store)
  }

  /** The loop's turns, one organization after the other. */
  function Turns(step: OrgStep, orgs: seq<Organization>, store: Store): Progress
  {
    if |orgs| == 0 then Progress(Ok(store), [])
    else
      match step(orgs[0], store)
      case Err(e) => Progress(Err(e), [])
      case Ok(next) =>
        var rest := Turns(step, orgs[1..], next);
        Progress(rest.result, [orgs[0].name] + rest.passwordsSaved)
  }

  /** The passwords the turns re-save are a prefix of the organization names,
      all of them exactly when every turn succeeds. */
  lemma {:induction false} TurnsSaved(step: OrgStep, orgs: seq<Organization>, store: Store)
    ensures Turns(step, orgs, store).passwordsSaved <= OrgNames(orgs)
    ensures Turns(step, orgs, store).result.Ok? <==> Turns(step, orgs, store).passwordsSaved == OrgNames(orgs)
  {
    if |orgs| > 0 && step(orgs[0], store).Ok? {
      TurnsSaved(step, orgs[1..], step(orgs[0], store).value);
    }
  }

  /** The step `main` takes for each organization. */
  ghost function MainStep(env: Env, args: Args): OrgStep
  {
    (org, store) => ProcessOrg(env, args, org, store)
  }

  /** After the loop, the store holds exactly its old keys and the keys of every
      selected profile of every organization. */
  lemma {:induction false} LoopKeys(env: Env, args: Args, orgs: seq<Organization>, store: Store)
    ensures var out := Loop(MainStep(env, args), orgs, store);
            out.result.Ok? ==> out.result.value.Keys == store.Keys + AllSelectedKeys(args.pattern, orgs)
  {
    if |orgs| > 0 {
      var r := ProcessOrg(env, args, orgs[0], store);
      if r.Ok? {
        LoopKeys(env, args, orgs[1..], r.value);
        AllSelectedKeysCons(args.pattern, orgs);
      }
    }
  }

  /** After a successful loop, every entry of the starting store that no
      organization selected is still there with its old value. */
  lemma {:induction false} LoopKeepsOthers(env: Env, args: Args, orgs: seq<Organization>, store: Store)
    ensures var out := Loop(MainStep(env, args), orgs, store);
            out.result.Ok? ==>
              forall k :: k in store && k !in AllSelectedKeys(args.pattern, orgs) ==>
                k in out.result.value && out.result.value[k] == store[k]
  {
    if |orgs| > 0 {
      var r := ProcessOrg(env, args, orgs[0], store);
      if r.Ok? {
        LoopKeepsOthers(env, args, orgs[1..], r.value);
        AllSelectedKeysCons(args.pattern, orgs);
      }
    }
  }

  /** The selected keys of `org` hold, one per selected name, the credentials
      fetched for the last selected profile of that name over `org`'s login. */
  ghost predicate HoldsFetched(env: Env, args: Args, org: Organization, s: Store)
  {
    && Authenticate(env, org, args.forceAuth).Ok?
    && var session := Authenticate(env, org, args.forceAuth).value.session;
       var selected := Selection.Select(args.pattern, org);
       forall i :: Aggregation.IsLastOfName(selected, i) ==>
         && Fetch.FetchCredentials(env, session, org.name, selected[i]).Ok?
         && Selection.Key(org.name, selected[i].name) in s
         && s[Selection.Key(org.name, selected[i].name)] == Fetch.FetchCredentials(env, session, org.name, selected[i]).value
  }

  /** Organization names that are pairwise distinct and contain no `/`, so that
      no two organizations share a store key. */
  ghost predicate SeparateNames(orgs: seq<Organization>)
  {
    && (forall j :: 0 <= j < |orgs| ==> '/' !in orgs[j].name)
    && (forall j, l :: 0 <= j < l < |orgs| ==> orgs[j].name != orgs[l].name)
  }

  /** A completed organization leaves its fetched credentials in the store. */
  lemma OrgHoldsFetched(env: Env, args: Args, org: Organization, store: Store)
    requires ProcessOrg(env, args, org, store).Ok?
    ensures HoldsFetched(env, args, org, ProcessOrg(env, args, org, store).value)
  {
    SuccessfulOrg(env, args, org, store);
    var selected := Selection.Select(args.pattern, org);
    assert forall i :: 0 <= i < |selected| ==> Selection.Key(org.name, selected[i].name) in SelectedKeys(args.pattern, org);
  }

  /** A store that agrees with `s` on `org`'s selected keys holds the same credentials for it. */
  lemma HoldsFetchedKept(env: Env, args: Args, org: Organization, s: Store, t: Store)
    requires HoldsFetched(env, args, org, s)
    requires forall k :: k in s && k in SelectedKeys(args.pattern, org) ==> k in t && t[k] == s[k]
    ensures HoldsFetched(env, args, org, t)
  {
    var selected := Selection.Select(args.pattern, org);
    assert forall i :: 0 <= i < |selected| ==> Selection.Key(org.name, selected[i].name) in SelectedKeys(args.pattern, org);
  }

  /** With separate names, an organization's keys are not selected by any other. */
  lemma OtherOrgsKeysDisjoint(pattern: string, org: Organization, rest: seq<Organization>)
    requires '/' !in org.name
    requires forall j :: 0 <= j < |rest| ==> '/' !in rest[j].name && rest[j].name != org.name
    ensures SelectedKeys(pattern, org) !! AllSelectedKeys(pattern, rest)
  {
    forall o, q, p | o in rest && q in Selection.Select(pattern, o) && p in Selection.Select(pattern, org)
      ensures Selection.Key(o.name, q.name) != Selection.Key(org.name, p.name)
    {
      if Selection.Key(o.name, q.name) == Selection.Key(org.name, p.name) {
        Selection.KeyInjective(o.name, q.name, org.name, p.name);
      }
    }
  }

  /** One step of `LoopValues`: if the first organization completes into `r`,
      and the rest of the loop turns `r` into `final` keeping the keys it does
      not select and holding every later organization's credentials, then
      `final` holds every organization's credentials. */
  lemma ValuesStep(env: Env, args: Args, orgs: seq<Organization>, store: Store, final: Store)
    requires |orgs| > 0 && SeparateNames(orgs)
    requires ProcessOrg(env, args, orgs[0], store).Ok?
    requires forall k :: k in ProcessOrg(env, args, orgs[0], store).value && k !in AllSelectedKeys(args.pattern, orgs[1..]) ==>
               k in final && final[k] == ProcessOrg(env, args, orgs[0], store).value[k]
    requires forall j :: 1 <= j < |orgs| ==> HoldsFetched(env, args, orgs[j], final)
    ensures forall j :: 0 <= j < |orgs| ==> HoldsFetched(env, args, orgs[j], final)
  {
    var rest := orgs[1..];
    var r := ProcessOrg(env, args, orgs[0], store).value;
    OrgHoldsFetched(env, args, orgs[0], store);
    assert forall j :: 0 <= j < |rest| ==> '/' !in rest[j].name && rest[j].name != orgs[0].name by {
      assert forall j :: 0 <= j < |rest| ==> rest[j] == orgs[j + 1];
    }
    OtherOrgsKeysDisjoint(args.pattern, orgs[0], rest);
    HoldsFetchedKept(env, args, orgs[0], r, final);
  }

  /** After a successful loop over organizations with separate names, every
      organization's selected keys hold the credentials fetched for it. */
  lemma {:induction false} LoopValues(env: Env, args: Args, orgs: seq<Organization>, store: Store)
    ensures var out := Loop(MainStep(env, args), orgs, store);
            SeparateNames(orgs) && out.result.Ok? ==> forall j :: 0 <= j < |orgs| ==> HoldsFetched(env, args, orgs[j], out.result.value)
  {
    if |orgs| > 0 && SeparateNames(orgs) {
      var r := ProcessOrg(env, args, orgs[0], store);
      if r.Ok? {
        var rest := orgs[1..];
        assert SeparateNames(rest) by {
          assert forall j :: 0 <= j < |rest| ==> rest[j] == orgs[j + 1];
        }
        var tail := Loop(MainStep(env, args), rest, r.value);
        assert Loop(MainStep(env, args), orgs, store).result == tail.result by {
          TurnsCons(MainStep(env, args), orgs, store);
        }
        if tail.result.Ok? {
          LoopValues(env, args, rest, r.value);
          LoopKeepsOthers(env, args, rest, r.value);
          assert forall j :: 1 <= j < |orgs| ==> orgs[j] == rest[j - 1];
          ValuesStep(env, args, orgs, store, tail.result.value);
        }
      }
    }
  }

  /** What a run leaves behind: the `RUST_LOG` filter it set, its exit result,
      the passwords it re-saved, and the store it handed to `save`, if any. */
  datatype Outcome = Outcome(logFilter: string, result: Result<(), Error>,
                             passwordsSaved: seq<string>, persisted: Option<Store>)

  /** The whole of `main`. */
  ghost function Run(env: Env, args: Args): (out: Outcome)
    ensures out.logFilter == Verbosity.LogFilter(args.verbosity)
    ensures env.loadStore.Ok? && env.organizations == Ok([]) ==>
              out == Outcome(out.logFilter, Err(NoOrganizations), [], None)
    ensures out.persisted.Some? ==>
              && env.loadStore.Ok? && env.organizations.Ok?
              && |env.organizations.value| > 0
              && out.passwordsSaved == OrgNames(env.organizations.value)
              && out.persisted.value.Keys == env.loadStore.value.Keys + AllSelectedKeys(args.pattern, env.organizations.value)
    ensures out.persisted.Some? ==>
              forall k :: k in env.loadStore.value && k !in AllSelectedKeys(args.pattern, env.organizations.value) ==>
                k in out.persisted.value && out.persisted.value[k] == env.loadStore.value[k]
    ensures out.persisted.Some? && SeparateNames(env.organizations.value) ==>
              forall j :: 0 <= j < |env.organizations.value| ==>
                HoldsFetched(env, args, env.organizations.value[j], out.persisted.value)
    ensures out.result.Ok? <==> out.persisted.Some? && env.save(out.persisted.value).None?
    ensures out.persisted.Some? && env.save(out.persisted.value).Some? ==>
              out.result == Err(Upstream(env.save(out.persisted.value).value))
    ensures env.loadStore.Err? ==> out == Outcome(out.logFilter, Err(Upstream(env.loadStore.error)), [], None)
    ensures env.loadStore.Ok? && env.organizations.Err? ==>
              out == Outcome(out.logFilter, Err(Upstream(env.organizations.error)), [], None)
    ensures env.loadStore.Ok? && env.organizations.Ok? && |env.organizations.value| > 0 ==>
              var progress := Loop(MainStep(env, args), env.organizations.value, env.loadStore.value);
              && out.passwordsSaved == progress.passwordsSaved
              && (progress.result.Ok? ==> out.persisted == Some(progress.result.value))
              && (progress.result.Err? ==> out.result == Err(progress.result.error) && out.persisted.None?)
  {
    var logFilter := Verbosity.LogFilter(args.verbosity);
    match env.loadStore
    case Err(msg) => Outcome(logFilter, Err(Upstream(msg)), [], None)
    case Ok(initial) =>
      match env.organizations
      case Err(msg) => Outcome(logFilter, Err(Upstream(msg)), [], None)
      case Ok(orgs) =>
        if |orgs| == 0 then Outcome(logFilter, Err(NoOrganizations), [], None)
        else
          var progress := Loop(MainStep(env, args), orgs, initial);
          LoopKeys(env, args, orgs, initial);
          LoopKeepsOthers(env, args, orgs, initial);
          LoopValues(env, args, orgs, initial);
          match progress.result
          case Err(e) => Outcome(logFilter, Err(e), progress.passwordsSaved, None)
          case Ok(final) =>
            var saved := match env.save(final)
                         case Some(msg) => Err(Upstream(msg))
                         case None => Ok(());
            Outcome(logFilter, saved, progress.passwordsSaved, Some(final))
  }

  /** Fail-fast: once logged in, a failing selected profile fails the whole
      organization with one of the failing profiles' errors, before anything is
      written to the store or the password is re-saved. */
  lemma FailedProfileCommitsNothing(env: Env, args: Args, org: Organization, store: Store,
                                    setSts: (string, Credentials) -> Option<string>,
                                    savePassword: (string, string, string) -> Option<string>, q: Profile)
    requires Authenticate(env, org, args.forceAuth).Ok?
    requires q in Selection.Select(args.pattern, org)
    requires Fetch.FetchCredentials(env, Authenticate(env, org, args.forceAuth).value.session, org.name, q).Err?
    ensures var r := ProcessOrg(env.(setProfileSts := setSts, savePassword := savePassword), args, org, store);
            var session := Authenticate(env, org, args.forceAuth).value.session;
            r.Err? && exists p :: p in Selection.Select(args.pattern, org) &&
                                  Fetch.FetchCredentials(env, session, org.name, p) == Err(r.error)
  {
    var env' := env.(setProfileSts := setSts, savePassword := savePassword);
    var session := Authenticate(env, org, args.forceAuth).value.session;
    var selected := Selection.Select(args.pattern, org);
    AuthenticateUsesLoginServices(env', env, org, args.forceAuth);
    var f' := ProfileFetcher(env', session, org.name);
    var f := ProfileFetcher(env, session, org.name);
    forall p ensures f'(p) == f(p) {
      Fetch.OnlyRemoteServicesUsed(env', env, session, org.name, p);
    }
    Aggregation.OnlySelectedFetched(f', f, selected, map[]);
    var i :| 0 <= i < |selected| && selected[i] == q;
    assert Aggregation.Aggregate(f, selected).Err?;
    AggregateFailureFailsOrg(env', args, org, store);
  }

  /** Once logged in, a failed aggregate is the organization's result. */
  lemma AggregateFailureFailsOrg(env: Env, args: Args, org: Organization, store: Store)
    requires Authenticate(env, org, args.forceAuth).Ok?
    requires var session := Authenticate(env, org, args.forceAuth).value.session;
             Aggregation.Aggregate(ProfileFetcher(env, session, org.name), Selection.Select(args.pattern, org)).Err?
    ensures var session := Authenticate(env, org, args.forceAuth).value.session;
            ProcessOrg(env, args, org, store)
            == Err(Aggregation.Aggregate(ProfileFetcher(env, session, org.name), Selection.Select(args.pattern, org)).error)
  {
  }

  /** The password is re-saved only after the organization's credentials are
      merged: when the merge fails, the password store is not consulted. */
  lemma MergeFailureSkipsPasswordSave(env: Env, args: Args, org: Organization, store: Store,
                                      savePassword: (string, string, string) -> Option<string>)
    requires Authenticate(env, org, args.forceAuth).Ok?
    requires var session := Authenticate(env, org, args.forceAuth).value.session;
             var a := Aggregation.Aggregate(ProfileFetcher(env, session, org.name), Selection.Select(args.pattern, org));
             a.Ok? && StoreMerge.MergeOrg(env.setProfileSts, store, org.name, a.value).Err?
    ensures ProcessOrg(env.(savePassword := savePassword), args, org, store) == ProcessOrg(env, args, org, store)
    ensures ProcessOrg(env, args, org, store).Err?
  {
    var env' := env.(savePassword := savePassword);
    AuthenticateUsesLoginServices(env', env, org, args.forceAuth);
    var session := Authenticate(env, org, args.forceAuth).value.session;
    var selected := Selection.Select(args.pattern, org);
    var f := ProfileFetcher(env', session, org.name);
    var g := ProfileFetcher(env, session, org.name);
    forall i | 0 <= i < |selected| ensures f(selected[i]) == g(selected[i]) {
      Fetch.OnlyRemoteServicesUsed(env', env, session, org.name, selected[i]);
    }
    Aggregation.OnlySelectedFetched(f, g, selected, map[]);
  }

  /** Selecting no profile is not an error: the organization succeeds and the store is unchanged. */
  lemma EmptySelectionKeepsStore(env: Env, args: Args, org: Organization, store: Store)
    requires Selection.Select(args.pattern, org) == []
    requires Authenticate(env, org, args.forceAuth).Ok?
    requires env.savePassword(org.name, org.username, Authenticate(env, org, args.forceAuth).value.password).None?
    ensures ProcessOrg(env, args, org, store) == Ok(store)
  {
    var session := Authenticate(env, org, args.forceAuth).value.session;
    assert Aggregation.Aggregate(ProfileFetcher(env, session, org.name), []) == Ok(map[]);
  }

  /** Running the loop over `a + b` runs it over `a` and, if that succeeds, over `b`. */
  lemma {:induction false} TurnsAppend(step: OrgStep, a: seq<Organization>, b: seq<Organization>, store: Store)
    requires Turns(step, a, store).result.Ok?
    ensures var head := Turns(step, a, store);
            var tail := Turns(step, b, head.result.value);
            && Turns(step, a + b, store).result == tail.result
            && Turns(step, a + b, store).passwordsSaved == head.passwordsSaved + tail.passwordsSaved
  {
    if |a| == 0 {
      assert a + b == b;
    } else {
      var next := step(a[0], store).value;
      var rest := Turns(step, a[1..], next);
      var whole := Turns(step, a[1..] + b, next);
      TurnsAppend(step, a[1..], b, next);
      assert Turns(step, a, store) == Progress(rest.result, [a[0].name] + rest.passwordsSaved) by {
        TurnsCons(step, a, store);
      }
      assert Turns(step, a + b, store) == Progress(whole.result, [a[0].name] + whole.passwordsSaved) by {
        assert (a + b)[0] == a[0];
        assert (a + b)[1..] == a[1..] + b;
        TurnsCons(step, a + b, store);
      }
      var tail := Turns(step, b, rest.result.value).passwordsSaved;
      assert [a[0].name] + (rest.passwordsSaved + tail) == ([a[0].name] + rest.passwordsSaved) + tail;
    }
  }

  /** One successful turn, then the remaining organizations from its store. */
  lemma TurnsCons(step: OrgStep, orgs: seq<Organization>, store: Store)
    requires |orgs| > 0 && step(orgs[0], store).Ok?
    ensures var rest := Turns(step, orgs[1..], step(orgs[0], store).value);
            Turns(step, orgs, store) == Progress(rest.result, [orgs[0].name] + rest.passwordsSaved)
  {
  }

  /** Credentials are persisted only if every organization succeeds: when
      organization `i` fails after the ones before it succeeded, the run fails
      with its error, the passwords of the earlier organizations stay re-saved,
      and nothing is handed to `save`, so their credentials are lost. */
  lemma OrgFailureLosesEarlierCredentials(env: Env, args: Args, i: nat)
    requires env.loadStore.Ok? && env.organizations.Ok?
    requires i < |env.organizations.value|
    requires Loop(MainStep(env, args), env.organizations.value[..i], env.loadStore.value).result.Ok?
    requires var orgs := env.organizations.value;
             var before := Loop(MainStep(env, args), orgs[..i], env.loadStore.value).result.value;
             ProcessOrg(env, args, orgs[i], before).Err?
    ensures var orgs := env.organizations.value;
            var before := Loop(MainStep(env, args), orgs[..i], env.loadStore.value).result.value;
            Run(env, args) == Outcome(Verbosity.LogFilter(args.verbosity), Err(ProcessOrg(env, args, orgs[i], before).error),
                                      OrgNames(orgs[..i]), None)
  {
    var orgs := env.organizations.value;
    var step := MainStep(env, args);
    var before := Loop(step, orgs[..i], env.loadStore.value).result.value;
    assert step(orgs[i], before) == ProcessOrg(env, args, orgs[i], before);
    LoopFailsAt(step, orgs, env.loadStore.value, i);
  }

  /** The loop stops at the first failing organization, with its error and the
      passwords of the organizations before it. */
  lemma LoopFailsAt(step: OrgStep, orgs: seq<Organization>, store: Store, i: nat)
    requires i < |orgs|
    requires Loop(step, orgs[..i], store).result.Ok?
    requires step(orgs[i], Loop(step, orgs[..i], store).result.value).Err?
    ensures Loop(step, orgs, store)
            == Progress(Err(step(orgs[i], Loop(step, orgs[..i], store).result.value).error), OrgNames(orgs[..i]))
  {
    assert orgs == orgs[..i] + orgs[i..];
    TurnsAppend(step, orgs[..i], orgs[i..], store);
    assert orgs[i..][0] == orgs[i];
  }
}
