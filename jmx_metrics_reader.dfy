/** A reader that pulls metrics from a JMX server. Opening connects and
    discovers the metric names once (the metadata); reading fetches one
    attribute; an I/O failure while reading makes the reader reconnect before
    the failure is reported; closing keeps the connection when it is
    configured to persist.

    The MBean server is given as data: the answer to the name query, the
    description of each MBean, and the reply to each attribute read. Whether
    a connect attempt succeeds is a parameter. The configured ignore patterns
    are predicates that say whether a regular expression matches a whole
    canonical object name. */
module JmxMetricsReader {
  import opened Common

  /** A discovered metric: MBean canonical name, attribute name and, for an
      attribute of composite type, the key inside the composite value. */
  datatype JmxMetricName = JmxMetricName(objectName: string, attribute: string, key: Option<string>)

  /** How the composite type of a composite-typed attribute is found: its
      keys, no type available (the attribute is skipped), or an exception. */
  datatype CompositeLookup = CompositeKeys(keys: seq<string>) | NoCompositeType | LookupThrows

  /** An attribute as `getMBeanInfo` describes it. */
  datatype AttributeInfo = Simple(name: string) | CompositeTyped(name: string, lookup: CompositeLookup)

  /** The answer to `getMBeanInfo`, which may throw. */
  datatype BeanInfo = Info(attributes: seq<AttributeInfo>) | InfoThrows

  datatype MBean = MBean(objectName: string, info: BeanInfo)

  /** The answer to `queryNames(null, null)`: every MBean, or an IOException. */
  datatype NameQuery = Beans(beans: seq<MBean>) | QueryIOException

  /** A JMX attribute value. */
  datatype AttributeValue = Null | Scalar(text: string) | CompositeData(items: map<string, AttributeValue>)

  /** The reply of `getAttribute`. */
  datatype AttributeReply = Value(value: AttributeValue) | Throws(cause: Cause)

  /** The failures of the JMX client: the ones `readMetric` catches, and
      `OtherRuntime` for any other unchecked exception (such as a
      `RuntimeMBeanException` from a throwing getter), which it does not. */
  datatype Cause = IOFailure | AttributeNotFound | InstanceNotFound | MBeanFailure | ReflectionFailure | NullPointer
                 | OtherRuntime

  datatype ReaderError =
    | OpenFailed(cause: Cause)       // OpenMetricsReaderException
    | ReadFailed(cause: Cause)       // MetricReadException wrapping the cause
    | NotConnected                   // IllegalStateException from getMetaData
    | InvalidKey(key: string)        // the composite value lacks the key; not caught
    | Escaped(cause: Cause)          // an unchecked exception that is not caught

  datatype MetricValue = MetricValue(timestamp: int, value: AttributeValue)

  /** A call the reader makes on its connection. */
  datatype ConnectionCall = Connect | Disconnect

  /** `isIgnored`: some pattern matches the whole canonical name. */
  function IsIgnored(patterns: seq<string -> bool>, canonicalName: string): (r: bool)
    ensures r <==> exists i :: 0 <= i < |patterns| && patterns[i](canonicalName)
  {
    if patterns == [] then false
    else patterns[0](canonicalName) || IsIgnored(patterns[1..], canonicalName)
  }

  /** The metrics of `keys` of the composite attribute `attribute`. */
  function KeyMetrics(objectName: string, attribute: string, keys: seq<string>): seq<JmxMetricName>
  {
    seq(|keys|, i requires 0 <= i < |keys| => JmxMetricName(objectName, attribute, Some(keys[i])))
  }

  /** The metrics discovered from the attributes of one MBean: one per simple
      attribute, one per key of a composite attribute, none for a composite
      attribute without a type; a failing lookup ends the MBean. */
  function AttributeMetrics(objectName: string, attributes: seq<AttributeInfo>): seq<JmxMetricName>
  {
    if attributes == [] then []
    else match attributes[0]
      case Simple(n) => [JmxMetricName(objectName, n, None)] + AttributeMetrics(objectName, attributes[1..])
      case CompositeTyped(n, CompositeKeys(ks)) => KeyMetrics(objectName, n, ks) + AttributeMetrics(objectName, attributes[1..])
      case CompositeTyped(_, NoCompositeType) => AttributeMetrics(objectName, attributes[1..])
      case CompositeTyped(_, LookupThrows) => []
  }

  /** The metrics one MBean contributes: none when it is ignored or its
      description cannot be read. */
  function BeanMetrics(bean: MBean, ignored: seq<string -> bool>): seq<JmxMetricName>
  {
    if IsIgnored(ignored, bean.objectName) || bean.info.InfoThrows? then []
    else AttributeMetrics(bean.objectName, bean.info.attributes)
  }

  /** The metrics discovered from MBeans, in the order of the query. */
  function Discover(beans: seq<MBean>, ignored: seq<string -> bool>): seq<JmxMetricName>
  {
    if beans == [] then [] else BeanMetrics(beans[0], ignored) + Discover(beans[1..], ignored)
  }

  lemma DiscoverStep(beans: seq<MBean>, ignored: seq<string -> bool>, i: nat)
    requires i < |beans|
    ensures Discover(beans[i..], ignored) == BeanMetrics(beans[i], ignored) + Discover(beans[i + 1..], ignored)
  {
    assert beans[i..][1..] == beans[i + 1..];
  }

  lemma {:induction false} AttributeMetricsOfBean(objectName: string, attributes: seq<AttributeInfo>)
    ensures forall m :: m in AttributeMetrics(objectName, attributes) ==> m.objectName == objectName
  {
    if attributes != [] {
      AttributeMetricsOfBean(objectName, attributes[1..]);
    }
  }

  /** No discovered metric belongs to an ignored MBean. */
  lemma {:induction false} DiscoverSkipsIgnored(beans: seq<MBean>, ignored: seq<string -> bool>)
    ensures forall m :: m in Discover(beans, ignored) ==> !IsIgnored(ignored, m.objectName)
  {
    if beans != [] {
      DiscoverSkipsIgnored(beans[1..], ignored);
      if !IsIgnored(ignored, beans[0].objectName) && beans[0].info.Info? {
        AttributeMetricsOfBean(beans[0].objectName, beans[0].info.attributes);
      }
    }
  }

  /** `readMetaData`: walks the MBeans and collects the metrics of each one
      that is neither ignored nor unreadable. A failing name query is a
      MetricReadException. */
  method ReadMetaData(query: NameQuery, ignored: seq<string -> bool>) returns (r: Result<seq<JmxMetricName>, ReaderError>)
    ensures query.QueryIOException? ==> r == Err(ReadFailed(IOFailure))
    ensures query.Beans? ==> r == Ok(Discover(query.beans, ignored))
  {
    if query.QueryIOException? {
      return Err(ReadFailed(IOFailure));
    }
    var beans := query.beans;
    var result: seq<JmxMetricName> := [];
    var i := 0;
    while i < |beans|
      invariant 0 <= i <= |beans|
      invariant result + Discover(beans[i..], ignored) == Discover(beans, ignored)
    {
      DiscoverStep(beans, ignored, i);
      var bean := beans[i];
      var ignore := IsIgnored(ignored, bean.objectName);
      if !ignore && bean.info.Info? {
        var found := ReadBeanMetaData(bean.objectName, bean.info.attributes);
        result := result + found;
      }
      assert result + Discover(beans[i + 1..], ignored) == Discover(beans, ignored);
      i := i + 1;
    }
    assert beans[i..] == [];
    assert result + [] == result;
    return Ok(result);
  }

  /** The body of `readMetaData` for one MBean: its attributes in order; a
      failing composite-type lookup ends the MBean, keeping what was found. */
  method ReadBeanMetaData(objectName: string, attributes: seq<AttributeInfo>) returns (found: seq<JmxMetricName>)
    ensures found == AttributeMetrics(objectName, attributes)
  {
    found := [];
    var j := 0;
    while j < |attributes|
      invariant 0 <= j <= |attributes|
      invariant found + AttributeMetrics(objectName, attributes[j..]) == AttributeMetrics(objectName, attributes)
    {
      assert attributes[j..][1..] == attributes[j + 1..];
      match attributes[j] {
        case Simple(n) =>
          found := found + [JmxMetricName(objectName, n, None)];
        case CompositeTyped(n, lookup) =>
          match lookup {
            case CompositeKeys(ks) =>
              var keyed := ReadCompositeKeys(objectName, n, ks);
              found := found + keyed;
            case NoCompositeType =>
            case LookupThrows =>
              return;
          }
      }
      j := j + 1;
    }
    assert attributes[j..] == [];
  }

  /** The inner loop of `readMetaData` over the keys of a composite type. */
  method ReadCompositeKeys(objectName: string, attribute: string, keys: seq<string>) returns (found: seq<JmxMetricName>)
    ensures found == KeyMetrics(objectName, attribute, keys)
  {
    found := [];
    var k := 0;
    while k < |keys|
      invariant 0 <= k <= |keys|
      invariant found == KeyMetrics(objectName, attribute, keys[..k])
    {
      assert KeyMetrics(objectName, attribute, keys[..k + 1])
          == KeyMetrics(objectName, attribute, keys[..k]) + [JmxMetricName(objectName, attribute, Some(keys[k]))];
      found := found + [JmxMetricName(objectName, attribute, Some(keys[k]))];
      k := k + 1;
    }
    assert keys[..k] == keys;
  }

  /** The part of a host name before its first '.', or the whole name when
      it has no '.' or starts with one. */
  function ShortHostname(hostname: string): (r: string)
    ensures |r| <= |hostname| && r == hostname[..|r|]
    ensures '.' in hostname && hostname[0] != '.' ==> r != [] && '.' !in r && hostname[|r|] == '.'
    ensures !('.' in hostname && hostname[0] != '.') ==> r == hostname
  {
    match IndexOf(hostname, '.')
    case Some(dotIdx) => if dotIdx > 0 then hostname[..dotIdx] else hostname
    case None => hostname
  }

  /** Shortening a short name changes nothing. */
  lemma ShortHostnameIdempotent(hostname: string)
    ensures ShortHostname(ShortHostname(hostname)) == ShortHostname(hostname)
  {
  }

  /** How DNS resolves the URL's host: canonical host name and address. */
  datatype Resolution = Resolution(hostName: string, hostAddress: string)

  const InputKeys: set<string> := {"input.name", "input.host", "input.fqhn", "input.hostname", "input.ip"}

  /** `prepareVariables`: the configured variables plus `input.name`, then
      `input.host` when the URL has a host, then `input.fqhn`,
      `input.hostname` and `input.ip` when that host resolves. `urlHost` is
      None when the URL is malformed or has no host; `resolved` is None when
      the host is unknown. */
  function PrepareVariables(configured: map<string, string>, inputName: string, urlHost: Option<string>, resolved: Option<Resolution>)
      : (r: map<string, string>)
    ensures forall k :: k in configured && k !in InputKeys ==> k in r && r[k] == configured[k]
    ensures r.Keys - InputKeys == configured.Keys - InputKeys
    ensures "input.name" in r && r["input.name"] == inputName
    ensures urlHost.Some? ==> "input.host" in r && r["input.host"] == urlHost.value
    ensures urlHost.Some? && resolved.Some? ==>
              && "input.fqhn" in r && r["input.fqhn"] == resolved.value.hostName
              && "input.hostname" in r && r["input.hostname"] == ShortHostname(resolved.value.hostName)
              && "input.ip" in r && r["input.ip"] == resolved.value.hostAddress
    ensures urlHost.None? ==> ("input.host" in r <==> "input.host" in configured)
    ensures urlHost.None? && "input.host" in configured ==> r["input.host"] == configured["input.host"]
    ensures urlHost.None? || resolved.None? ==>
              forall k :: k in {"input.fqhn", "input.hostname", "input.ip"} ==> (k in r <==> k in configured)
    ensures urlHost.None? || resolved.None? ==>
              forall k :: k in {"input.fqhn", "input.hostname", "input.ip"} && k in configured ==> r[k] == configured[k]
  {
    var named := configured["input.name" := inputName];
    match urlHost
    case None => named
    case Some(host) =>
      var withHost := named["input.host" := host];
      match resolved
      case None => withHost
      case Some(res) =>
        withHost["input.fqhn" := res.hostName]["input.hostname" := ShortHostname(res.hostName)]["input.ip" := res.hostAddress]
  }

  class JmxMetricsReader {
    const ignoredObjectNames: seq<string -> bool>
    const persistentConnection: bool
    const variables: map<string, string>
    /** Whether the connection is established. */
    var established: bool
    /** The discovered metrics; None is null. */
    var metadata: Option<seq<JmxMetricName>>
    /** The calls made on the connection, oldest first. */
    var connectionCalls: seq<ConnectionCall>

    /** The constructor when the connection object can be built; see
        `NewJmxMetricsReader` for the case where it cannot. */
    constructor (ignored: seq<string -> bool>, persistent: bool, configured: map<string, string>, inputName: string,
                 urlHost: Option<string>, resolved: Option<Resolution>)
      ensures ignoredObjectNames == ignored && persistentConnection == persistent
      ensures variables == PrepareVariables(configured, inputName, urlHost, resolved)
      ensures !established && metadata.None? && connectionCalls == []
    {
      ignoredObjectNames := ignored;
      persistentConnection := persistent;
      variables := PrepareVariables(configured, inputName, urlHost, resolved);
      established := false;
      metadata := None;
      connectionCalls := [];
    }

    /** `getMetaData`, guarded by `assertConnected`. */
    method GetMetaData() returns (r: Result<Option<seq<JmxMetricName>>, ReaderError>)
      ensures !established ==> r == Err(NotConnected)
      ensures established ==> r == Ok(metadata)
    {
      if !established {
        return Err(NotConnected);
      }
      return Ok(metadata);
    }

    /** `open`: a no-op on an established connection. Otherwise connect
        (`connectSucceeds` says whether that works) and replace the metadata
        by a fresh discovery over `query`. */
    method Open(connectSucceeds: bool, query: NameQuery) returns (r: Outcome<ReaderError>)
      modifies this
      ensures old(established) ==> r == Pass && established && metadata == old(metadata) && connectionCalls == old(connectionCalls)
      ensures !old(established) ==> connectionCalls == old(connectionCalls) + [Connect] && established == connectSucceeds
      ensures !old(established) && !connectSucceeds ==> r == Fail(OpenFailed(IOFailure)) && metadata == old(metadata)
      ensures !old(established) && connectSucceeds && query.QueryIOException? ==>
                r == Fail(ReadFailed(IOFailure)) && metadata == old(metadata)
      ensures !old(established) && connectSucceeds && query.Beans? ==>
                r == Pass && metadata == Some(Discover(query.beans, ignoredObjectNames))
    {
      if !established {
        connectionCalls := connectionCalls + [Connect];
        if !connectSucceeds {
          return Fail(OpenFailed(IOFailure));
        }
        established := true;
        var discovered := ReadMetaData(query, ignoredObjectNames);
        if discovered.Err? {
          return Fail(discovered.error);
        }
        metadata := Some(discovered.value);
      }
      return Pass;
    }

    /** `close`: disconnects and forgets the metadata unless the connection
        persists; closing a closed reader does nothing. */
    method Close()
      modifies this
      ensures old(established) && !persistentConnection ==>
                !established && metadata.None? && connectionCalls == old(connectionCalls) + [Disconnect]
      ensures !(old(established) && !persistentConnection) ==>
                established == old(established) && metadata == old(metadata) && connectionCalls == old(connectionCalls)
    {
      if established && !persistentConnection {
        connectionCalls := connectionCalls + [Disconnect];
        established := false;
        metadata := None;
      }
    }

    /** `reconnect`: disconnect, then connect; a failed connect is logged and
        followed by another disconnect. The metadata stays as it was. */
    method Reconnect(connectSucceeds: bool)
      modifies this
      ensures established == connectSucceeds && metadata == old(metadata)
      ensures connectionCalls == old(connectionCalls) + [Disconnect, Connect] + (if connectSucceeds then [] else [Disconnect])
    {
      connectionCalls := connectionCalls + [Disconnect];
      established := false;
      connectionCalls := connectionCalls + [Connect];
      if connectSucceeds {
        established := true;
      } else {
        connectionCalls := connectionCalls + [Disconnect];
      }
    }

    /** `readMetric`: the value of `metric` read at time `now`. For a
        composite metric whose value is composite data, the value under the
        metric's key. Each failure `readMetric` catches becomes a
        MetricReadException wrapping it, and an IOException first makes the
        reader reconnect; any other unchecked exception escapes as it is. */
    method ReadMetric(metric: JmxMetricName, reply: AttributeReply, reconnectSucceeds: bool, now: int)
        returns (r: Result<MetricValue, ReaderError>)
      modifies this
      ensures reply == Throws(IOFailure) ==>
                r == Err(ReadFailed(IOFailure)) && established == reconnectSucceeds && metadata == old(metadata) &&
                connectionCalls == old(connectionCalls) + [Disconnect, Connect] + (if reconnectSucceeds then [] else [Disconnect])
      ensures reply != Throws(IOFailure) ==>
                established == old(established) && metadata == old(metadata) && connectionCalls == old(connectionCalls)
      ensures reply.Throws? && reply.cause != OtherRuntime ==> r == Err(ReadFailed(reply.cause))
      ensures reply == Throws(OtherRuntime) ==> r == Err(Escaped(OtherRuntime))
      ensures reply.Value? && metric.key.Some? && reply.value.CompositeData? ==>
                r == (if metric.key.value in reply.value.items then Ok(MetricValue(now, reply.value.items[metric.key.value]))
                      else Err(InvalidKey(metric.key.value)))
      ensures reply.Value? && !(metric.key.Some? && reply.value.CompositeData?) ==> r == Ok(MetricValue(now, reply.value))
    {
      match reply {
        case Throws(cause) =>
          if cause == OtherRuntime {
            return Err(Escaped(cause));
          }
          if cause == IOFailure {
            Reconnect(reconnectSucceeds);
          }
          return Err(ReadFailed(cause));
        case Value(value) =>
          if metric.key.Some? {
            if value.CompositeData? {
              if metric.key.value !in value.items {
                return Err(InvalidKey(metric.key.value));
              }
              return Ok(MetricValue(now, value.items[metric.key.value]));
            }
          }
          return Ok(MetricValue(now, value));
      }
    }

    /** `readNames`: the cached metadata, null when none was loaded. */
    method ReadNames() returns (r: Option<seq<JmxMetricName>>)
      ensures r == metadata
    {
      return metadata;
    }
  }

  /** The Java constructor: the variables are prepared, then the
      connection object is built; an IOException while building it (for
      example from a malformed service URL) becomes a MetricReadException,
      and no reader results. */
  method NewJmxMetricsReader(ignored: seq<string -> bool>, persistent: bool, configured: map<string, string>,
                             inputName: string, urlHost: Option<string>, resolved: Option<Resolution>,
                             connectionBuildFails: bool)
      returns (r: Result<JmxMetricsReader, ReaderError>)
    ensures connectionBuildFails ==> r == Err(ReadFailed(IOFailure))
    ensures !connectionBuildFails ==> r.Ok? && fresh(r.value)
    ensures r.Ok? ==> && r.value.ignoredObjectNames == ignored && r.value.persistentConnection == persistent
                      && r.value.variables == PrepareVariables(configured, inputName, urlHost, resolved)
                      && !r.value.established && r.value.metadata.None? && r.value.connectionCalls == []
  {
    if connectionBuildFails {
      return Err(ReadFailed(IOFailure));
    }
    var reader := new JmxMetricsReader(ignored, persistent, configured, inputName, urlHost, resolved);
    return Ok(reader);
  }

  /** The reader's lifecycle: a second open does not reconnect or
      rediscover, an I/O failure while reading reconnects before the error
      surfaces, an uncaught runtime failure escapes without a reconnect, and
      a non-persistent close forgets the metadata. */
  method Scenario(beans: seq<MBean>, metric: JmxMetricName)
  {
    var failed := NewJmxMetricsReader([], false, map[], "jmx", None, None, true);
    assert failed == Err(ReadFailed(IOFailure));
    var built := NewJmxMetricsReader([], false, map[], "jmx", Some("host.example.org"), None, false);
    var reader := built.value;
    var outcome := reader.Open(true, Beans(beans));
    assert outcome == Pass && reader.metadata == Some(Discover(beans, []));
    outcome := reader.Open(true, Beans([]));
    assert reader.connectionCalls == [Connect] && reader.metadata == Some(Discover(beans, []));
    var read := reader.ReadMetric(metric, Throws(IOFailure), true, 0);
    assert read == Err(ReadFailed(IOFailure));
    assert reader.connectionCalls == [Connect, Disconnect, Connect] && reader.established;
    read := reader.ReadMetric(metric, Throws(OtherRuntime), true, 1);
    assert read == Err(Escaped(OtherRuntime)) && reader.connectionCalls == [Connect, Disconnect, Connect];
    reader.Close();
    assert !reader.established && reader.metadata.None?;
    var md := reader.GetMetaData();
    assert md == Err(NotConnected);
  }
}
