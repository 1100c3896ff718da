/** The CI identity read from a verified certificate, and the deployment's policy on it. */
module Identity {
  import opened Wrappers

  const GITHUB_ACTIONS_ISSUER := "https://token.actions.githubusercontent.com"

  datatype CiIdentity = CiIdentity(
    issuer: string,
    repositoryIdentity: string,
    workflowIdentity: string,
    sourceRevision: string,
    sourceRef: string,
    eventType: string,
    certificateIdentity: string)

  /** An empty policy accepts any GitHub Actions workflow. */
  datatype IdentityPolicy = IdentityPolicy(expectedRepository: Option<string>, expectedWorkflow: Option<string>) {

    function Validate(identity: CiIdentity): (r: Result<(), string>)
      ensures r.Ok? <==> Accepts(identity)
      ensures r == Err("UNTRUSTED_OIDC_ISSUER") <==> identity.issuer != GITHUB_ACTIONS_ISSUER
      ensures r.Err? ==> r.error in {"UNTRUSTED_OIDC_ISSUER", "SIGSTORE_IDENTITY_POLICY_REJECTED"}
    {
      if identity.issuer != GITHUB_ACTIONS_ISSUER then Err("UNTRUSTED_OIDC_ISSUER")
      else if expectedRepository.Some? && expectedRepository.value != identity.repositoryIdentity then
        Err("SIGSTORE_IDENTITY_POLICY_REJECTED")
      else if expectedWorkflow.Some? && expectedWorkflow.value != identity.workflowIdentity then
        Err("SIGSTORE_IDENTITY_POLICY_REJECTED")
      else Ok(())
    }

    predicate Accepts(identity: CiIdentity) {
      && identity.issuer == GITHUB_ACTIONS_ISSUER
      && expectedRepository in {None, Some(identity.repositoryIdentity)}
      && expectedWorkflow in {None, Some(identity.workflowIdentity)}
    }
  }
}
