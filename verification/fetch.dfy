/** `fetch_credentials`: from an Okta session to the STS credentials of one
    profile, through the application link, the SAML assertion and the role. */
module Fetch {
  import opened Results
  import opened Types
  import Search

  /** The Okta application type of AWS federation links. */
  const AwsAppName := "amazon_aws"

  /** The link the profile asks for: an AWS link labelled with the profile's application. */
  predicate IsProfileApp(link: AppLink, applicationName: string)
  {
    link.appName == AwsAppName && link.appLabel == applicationName
  }

  /** The role the profile asks for; a role whose name does not parse is never it. */
  predicate IsProfileRole(roleName: Role -> Option<string>, role: Role, wanted: string)
  {
    roleName(role) == Some(wanted)
  }

  /** The first link, in the order Okta lists them, that is the profile's application. */
  function FindAppLink(links: seq<AppLink>, applicationName: string): (r: Option<AppLink>)
    ensures r.None? <==> forall i :: 0 <= i < |links| ==> !IsProfileApp(links[i], applicationName)
    ensures r.Some? ==> exists i :: Search.IsFirst(links, i, l => IsProfileApp(l, applicationName))
                                   && r.value == links[i]
  {
    match Search.FirstIndex(links, l => IsProfileApp(l, applicationName))
    case None => None
    case Some(i) => Some(links[i])
  }

  /** The first role of the assertion whose parsed name is the wanted one. */
  function SelectRole(roleName: Role -> Option<string>, roles: seq<Role>, wanted: string): (r: Option<Role>)
    ensures r.None? <==> forall i :: 0 <= i < |roles| ==> !IsProfileRole(roleName, roles[i], wanted)
    ensures r.Some? ==> exists i :: Search.IsFirst(roles, i, x => IsProfileRole(roleName, x, wanted))
                                   && r.value == roles[i]
  {
    match Search.FirstIndex(roles, x => IsProfileRole(roleName, x, wanted))
    case None => None
    case Some(i) => Some(roles[i])
  }

  /** The credential payload of an assume-role answer, or an error when it has none. */
  function ExtractCredentials(response: AssumeRoleResponse): (r: Result<Credentials, Error>)
    ensures r.Ok? <==> response.credentials.Some?
    ensures r.Ok? ==> r.value == response.credentials.value
    ensures r.Err? ==> r.error == NoCredentials
  {
    response.credentials.OkOr(NoCredentials)
  }

  /** The credentials of `profile` of organization `orgName`, obtained through `session`. */
  function FetchCredentials(env: Env, session: Session, orgName: string, profile: Profile): (r: Result<Credentials, Error>)
    ensures env.appLinks(session).Err? ==> r == Err(Upstream(env.appLinks(session).error))
    ensures r == Err(AppNotFound(orgName, profile.name)) <==>
              env.appLinks(session).Ok? &&
              forall i :: 0 <= i < |env.appLinks(session).value| ==>
                !IsProfileApp(env.appLinks(session).value[i], profile.applicationName)
    ensures r.Err? && r.error.RoleNotFound? ==> r.error == RoleNotFound(profile.role, profile.name)
    ensures r.Err? && r.error.SamlFetch? ==> r.error.profile == profile.name
    ensures r.Err? && r.error.AssumeRoleFailed? ==> r.error.profile == profile.name
    ensures r.Ok? ==> env.appLinks(session).Ok? &&
                      exists i :: 0 <= i < |env.appLinks(session).value| &&
                                  IsProfileApp(env.appLinks(session).value[i], profile.applicationName)
  {
    var links :- Lift(env.appLinks(session));
    var link :- FindAppLink(links, profile.applicationName).OkOr(AppNotFound(orgName, profile.name));
    var saml :- env.samlResponse(session, link.linkUrl).MapError(e => SamlFetch(profile.name, e));
    var role :- SelectRole(env.roleName, saml.roles, profile.role).OkOr(RoleNotFound(profile.role, profile.name));
    var response :- env.assumeRole(role, saml.raw).MapError(e => AssumeRoleFailed(profile.name, e));
    ExtractCredentials(response)
  }

  /** When no link is the profile's application the fetch fails naming the
      organization and profile, whatever the SAML endpoint and STS would have
      answered: neither is consulted. */
  lemma MissingAppLinkStopsBeforeSaml(env: Env, session: Session, orgName: string, profile: Profile,
                                      saml: (Session, string) -> Result<SamlResponse, string>,
                                      sts: (Role, string) -> Result<AssumeRoleResponse, string>)
    requires env.appLinks(session).Ok?
    requires forall i :: 0 <= i < |env.appLinks(session).value| ==>
               !IsProfileApp(env.appLinks(session).value[i], profile.applicationName)
    ensures FetchCredentials(env.(samlResponse := saml, assumeRole := sts), session, orgName, profile)
            == Err(AppNotFound(orgName, profile.name))
  {
  }

  /** The SAML assertion is fetched from the first matching link; its failure
      is reported wrapped with the profile name. */
  lemma SamlFromFirstLink(env: Env, session: Session, orgName: string, profile: Profile, i: int)
    requires env.appLinks(session).Ok?
    requires Search.IsFirst(env.appLinks(session).value, i, l => IsProfileApp(l, profile.applicationName))
    ensures var saml := env.samlResponse(session, env.appLinks(session).value[i].linkUrl);
            saml.Err? ==> FetchCredentials(env, session, orgName, profile) == Err(SamlFetch(profile.name, saml.error))
  {
    Search.FirstIndexIsFirst(env.appLinks(session).value, i, l => IsProfileApp(l, profile.applicationName));
  }

  /** When the assertion has no role of the profile's name the fetch fails naming
      role and profile, whatever STS would have answered: it is not consulted. */
  lemma MissingRoleStopsBeforeAssume(env: Env, session: Session, orgName: string, profile: Profile, i: int,
                                     sts: (Role, string) -> Result<AssumeRoleResponse, string>)
    requires env.appLinks(session).Ok?
    requires Search.IsFirst(env.appLinks(session).value, i, l => IsProfileApp(l, profile.applicationName))
    requires env.samlResponse(session, env.appLinks(session).value[i].linkUrl).Ok?
    requires var roles := env.samlResponse(session, env.appLinks(session).value[i].linkUrl).value.roles;
             forall k :: 0 <= k < |roles| ==> !IsProfileRole(env.roleName, roles[k], profile.role)
    ensures FetchCredentials(env.(assumeRole := sts), session, orgName, profile)
            == Err(RoleNotFound(profile.role, profile.name))
  {
    Search.FirstIndexIsFirst(env.appLinks(session).value, i, l => IsProfileApp(l, profile.applicationName));
  }

  /** Once link and role are found, the first matching role is assumed with the
      raw assertion; an STS failure is wrapped with the profile name and an
      answer without credentials is an error. */
  lemma AssumeFirstRole(env: Env, session: Session, orgName: string, profile: Profile, i: int, k: int)
    requires env.appLinks(session).Ok?
    requires Search.IsFirst(env.appLinks(session).value, i, l => IsProfileApp(l, profile.applicationName))
    requires env.samlResponse(session, env.appLinks(session).value[i].linkUrl).Ok?
    requires var saml := env.samlResponse(session, env.appLinks(session).value[i].linkUrl).value;
             Search.IsFirst(saml.roles, k, x => IsProfileRole(env.roleName, x, profile.role))
    ensures var saml := env.samlResponse(session, env.appLinks(session).value[i].linkUrl).value;
            var answer := env.assumeRole(saml.roles[k], saml.raw);
            var r := FetchCredentials(env, session, orgName, profile);
            && (answer.Err? ==> r == Err(AssumeRoleFailed(profile.name, answer.error)))
            && (answer.Ok? && answer.value.credentials.None? ==> r == Err(NoCredentials))
            && (answer.Ok? && answer.value.credentials.Some? ==> r == Ok(answer.value.credentials.value))
  {
    var links := env.appLinks(session).value;
    Search.FirstIndexIsFirst(links, i, l => IsProfileApp(l, profile.applicationName));
    var saml := env.samlResponse(session, links[i].linkUrl).value;
    Search.FirstIndexIsFirst(saml.roles, k, x => IsProfileRole(env.roleName, x, profile.role));
  }

  /** A role whose name cannot be parsed is passed over, not fatal. */
  lemma UnparsableRoleSkipped(roleName: Role -> Option<string>, bad: Role, roles: seq<Role>, wanted: string)
    requires roleName(bad).None?
    ensures SelectRole(roleName, [bad] + roles, wanted) == SelectRole(roleName, roles, wanted)
  {
    var p := x => IsProfileRole(roleName, x, wanted);
    var s := [bad] + roles;
    assert s[1..] == roles;
    assert !p(s[0]);
    match Search.FirstIndex(roles, p)
    case None =>
    case Some(i) =>
      assert s[i + 1] == roles[i];
  }

  /** A fetch talks only to Okta, the SAML parser and STS: environments that
      agree on those give the same result. */
  lemma OnlyRemoteServicesUsed(e1: Env, e2: Env, session: Session, orgName: string, profile: Profile)
    requires e1.appLinks == e2.appLinks && e1.samlResponse == e2.samlResponse
    requires e1.roleName == e2.roleName && e1.assumeRole == e2.assumeRole
    ensures FetchCredentials(e1, session, orgName, profile) == FetchCredentials(e2, session, orgName, profile)
  {
  }
}
