/** The projection of Docker's container record that the upstream source reads. */
module Docker {

  const LabelEnable := "com.caddyserver.http.enable"
  const LabelMatchHost := "com.caddyserver.http.matchers.host"
  const LabelMatchPath := "com.caddyserver.http.matchers.path"
  const LabelUpstreamPort := "com.caddyserver.http.upstream.port"

  /** One network the container is attached to, with the IP address it has there. */
  datatype EndpointSettings = EndpointSettings(network: string, ipAddress: string)

  /**
   * A container: its ID, its labels, and its networks in the order in which a
   * range over Docker's network map happens to visit them.
   */
  datatype Container = Container(id: string, labels: map<string, string>, networks: seq<EndpointSettings>)

  /** Docker keeps container IDs distinct within one listing. */
  ghost predicate UniqueIds(cs: seq<Container>)
  {
    forall i, j :: 0 <= i < j < |cs| ==> cs[i].id != cs[j].id
  }
}
