/** Assets and the business services they belong to, as the database stores them. */
module Assets {
  import opened Domain

  datatype Asset = Asset(
    name: string,
    kind: string,
    organization: string,
    criticality: string,
    environment: Option<string>,
    owner: Option<string>,
    serviceId: Option<string>,
    internetExposure: Option<string>)

  datatype BusinessService = BusinessService(id: string, organization: string, nameNormalized: string, ownerTeam: string)
}
