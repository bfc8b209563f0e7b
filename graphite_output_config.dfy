/** The configuration of the Graphite writer: an output name, the Graphite
    host and port, and an optional prefix for metric names. A configuration
    exists only with a host and a port in the TCP range. */
module GraphiteOutputConfig {
  import opened Common

  const MaxPort: int := 65535

  /** IllegalArgumentException from the argument checks. */
  datatype ConfigError = HostNullOrEmpty | PortOutOfRange

  /** The fields of a constructed configuration; the getters return them.
      `prefix` None is a null prefix. */
  datatype GraphiteOutputConfig = GraphiteOutputConfig(name: string, host: string, port: int, prefix: Option<string>)
  {
    /** What the constructor guarantees of every configuration it builds. */
    predicate Valid()
    {
      host != "" && 0 < port <= MaxPort
    }
  }

  /** The constructor: the host is checked before the port; the name goes to
      the output-configuration base unchanged and the prefix is not checked. */
  function NewGraphiteOutputConfig(name: string, host: Option<string>, port: int, prefix: Option<string>)
      : (r: Result<GraphiteOutputConfig, ConfigError>)
    ensures r.Ok? <==> host.Some? && host.value != "" && 0 < port < 65536
    ensures (host.None? || host.value == "") ==> r == Err(HostNullOrEmpty)
    ensures host.Some? && host.value != "" && !(0 < port < 65536) ==> r == Err(PortOutOfRange)
    ensures r.Ok? ==> r.value.Valid()
    ensures r.Ok? ==> r.value.name == name && Some(r.value.host) == host && r.value.port == port && r.value.prefix == prefix
  {
    if host.None? || host.value == "" then Err(HostNullOrEmpty)
    else if !(port > 0 && port < 65536) then Err(PortOutOfRange)
    else Ok(GraphiteOutputConfig(name, host.value, port, prefix))
  }

  /** Every valid configuration is the one the constructor builds from its
      own getters: the checks reject nothing they should accept. */
  lemma ConstructFromGetters(c: GraphiteOutputConfig)
    requires c.Valid()
    ensures NewGraphiteOutputConfig(c.name, Some(c.host), c.port, c.prefix) == Ok(c)
  {
  }
}
