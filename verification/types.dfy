/** The entities the orchestration works on, and the collaborators it calls. */
module Types {
  import opened Results

  /** One AWS profile of an organization: which Okta application to open and
      which role of its SAML assertion to assume. */
  datatype Profile = Profile(name: string, applicationName: string, role: string)

  /** One Okta organization from the configuration, with its user and profiles. */
  datatype Organization = Organization(name: string, username: string, profiles: seq<Profile>)

  /** An application link visible to an Okta session. */
  datatype AppLink = AppLink(appName: string, appLabel: string, linkUrl: string)

  /** A role option carried by a SAML assertion. */
  datatype Role = Role(providerArn: string, roleArn: string)

  /** A fetched SAML assertion: the raw encoded response and its parsed roles. */
  datatype SamlResponse = SamlResponse(raw: string, roles: seq<Role>)

  /** Temporary STS credentials; the model never looks inside them. */
  datatype Credentials = Credentials(accessKeyId: string, secretAccessKey: string,
                                     sessionToken: string, expiration: string)

  /** The STS assume-role answer, whose credential payload may be absent. */
  datatype AssumeRoleResponse = AssumeRoleResponse(credentials: Option<Credentials>)

  /** The Okta client after `set_session_id`: bound to one organization. */
  datatype Session = Session(org: string, id: string)

  /** The credentials file's profiles, keyed `<organization>/<profile>`. */
  type Store = map<string, Credentials>

  /** Errors of the run. A collaborator's own failure passes through `?`
      unchanged and appears as `Upstream` with the collaborator's message. */
  datatype Error =
    | NoOrganizations
    | Upstream(message: string)
    | AppNotFound(org: string, profile: string)
    | SamlFetch(profile: string, cause: string)
    | RoleNotFound(role: string, profile: string)
    | AssumeRoleFailed(profile: string, cause: string)
    | NoCredentials

  /** Lifts a collaborator's failure into the run's error type. */
  function Lift<T>(r: Result<T, string>): (r': Result<T, Error>)
    ensures r'.Ok? <==> r.Ok?
    ensures r.Ok? ==> r'.value == r.value
    ensures r.Err? ==> r'.error == Upstream(r.error)
  {
    r.MapError(msg => Upstream(msg))
  }

  /** Everything outside the orchestration: the credentials file, the
      configuration, the keyring, the Okta API, SAML role-name parsing and STS.
      The loaded file and configuration are results; the calls are total
      functions of their arguments returning a value or an error message;
      `roleName` returns `None` for a role whose name does not parse; and
      `None` from an effect means it succeeded, `Some(message)` that it failed. */
  datatype Env = Env(
    loadStore: Result<Store, string>,
    organizations: Result<seq<Organization>, string>,
    getPassword: (string, string, bool) -> Result<string, string>,
    getSessionToken: (string, string, string) -> Result<string, string>,
    newSession: (string, string) -> Result<string, string>,
    appLinks: Session -> Result<seq<AppLink>, string>,
    samlResponse: (Session, string) -> Result<SamlResponse, string>,
    roleName: Role -> Option<string>,
    assumeRole: (Role, string) -> Result<AssumeRoleResponse, string>,
    setProfileSts: (string, Credentials) -> Option<string>,
    savePassword: (string, string, string) -> Option<string>,
    save: Store -> Option<string>
  )
}
