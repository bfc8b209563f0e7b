# metrics-sampler core, modelled in Dafny

metrics-sampler is a daemon that periodically samples metrics from inputs
(JMX servers, Redis, webMethods diagnostics archives, Oracle NoSQL), passes
them through selectors and sends them to outputs such as Graphite. This
project models the following components of that system and proves
properties of each:

- **Template resolution of configuration entities** (`templatable_xbean_utils.dfy`).
  `sortByDependency` orders entities so that each comes after the entity it
  names as its template. `applyTemplate` copies the template's non-null
  properties into the null properties of its dependant.
- **The sampler task** of the daemon (`sampler_task.dfy`). It is an
  enable/disable switch around one sampler, and it swallows the sampler's
  runtime failures.
- **The JMX reader** (`jmx_metrics_reader.dfy`):
  - metric discovery over the MBeans, with ignored object names;
  - composite attributes;
  - the connection lifecycle, including reconnecting on an I/O failure;
  - the input variables derived from the service URL.
- **The Redis reader** (`redis_metrics_reader.dfy`):
  - the lazily created client and its password check;
  - the parsing of the `INFO` reply into metrics;
  - dropping the client on a connection failure.
- **The webMethods JDBC pools parser** (`jdbc_pools_parser.dfy`). It turns
  the lines of `runtime/JDBCPools.txt` into metrics named by function, pool
  and metric name.
- **The Graphite output configuration** (`graphite_output_config.dfy`),
  with its argument checks.
- **The Oracle NoSQL topology counters** (`resource_type_service_status_metrics.dfy`).
  There is one counter per resource type and one per type and service
  status. All counters are emitted under dotted lower-case names, zeros
  included.
- **The default sampler** (`default_sampler.dfy`). One sample opens the
  reader, lets each selector read from it, and opens, writes and closes
  every writer. It then closes the reader.
- `common.dfy` holds the null stand-in (`Option`) and the results that
  carry exceptions (`Result`, `Outcome`). It also holds the few
  `java.lang.String` operations the components use: `indexOf` and `trim`.

Most objects whose fields the Java code updates are Dafny classes with those
fields; the exceptions are listed under "Left out". Their methods are proved against pure specification functions:
- `Discover` for JMX discovery;
- `ParseLines` for the Redis `INFO` reply;
- `Step` for a line of the JDBC pools report;
- `Tally` for the topology counters;
- `SampleEvents` for one sample.

The properties are proved about those functions.

The implementations of the topology counters and of the default sampler
are not part of this model. They follow the behaviour their unit tests pin
down, and the source cells of their rows cite those tests.

## Model

Source paths are abbreviated in the list below:

- `TemplatableXBeanUtils.java` = `metrics-sampler-core/src/main/java/org/metricssampler/config/loader/xbeans/TemplatableXBeanUtils.java`
- `SamplerTask.java` = `metrics-sampler-core/src/main/java/org/metricssampler/daemon/SamplerTask.java`
- `JmxMetricsReader.java` = `metrics-sampler-extension-jmx/src/main/java/org/metricssampler/extensions/jmx/JmxMetricsReader.java`
- `RedisMetricsReader.java` = `metrics-sampler-extension-redis/src/main/java/org/metric/sampler/extension/redis/RedisMetricsReader.java`
- `JDBCPoolsParser.java` = `metrics-sampler-extension-webmethods/src/main/java/org/metricssampler/extensions/webmethods/parser/JDBCPoolsParser.java`
- `GraphiteOutputConfig.java` = `metrics-sampler-extension-graphite/src/main/java/org/metricssampler/extensions/graphite/GraphiteOutputConfig.java`
- `ResourceTypeServiceStatusMetricsTest.java` = `metrics-sampler-extension-oracle-nosql/src/test/java/org/metricssampler/extensions/oranosql/ResourceTypeServiceStatusMetricsTest.java`
- `DefaultSamplerTest.java` = `metrics-sampler-extension-base/src/test/java/org/metricssampler/extensions/base/sampler/DefaultSamplerTest.java`

The table itself gives the full paths.

| member | source | states |
|---|---|---|
| TemplatableXBeanUtils.LinkedMap.Put | metrics-sampler-core/src/main/java/org/metricssampler/config/loader/xbeans/TemplatableXBeanUtils.java:32 | `LinkedHashMap.put`: the map gets the entry; a new key goes last, an existing key keeps its place; keys stay distinct |
| TemplatableXBeanUtils.ByName | metrics-sampler-core/src/main/java/org/metricssampler/config/loader/xbeans/TemplatableXBeanUtils.java:36-42 | every entry of the map by name is stored under its own name and is an entity of the list |
| TemplatableXBeanUtils.CreateMapByName | metrics-sampler-core/src/main/java/org/metricssampler/config/loader/xbeans/TemplatableXBeanUtils.java:36-42 | the loop builds exactly the map `ByName` of the list |
| TemplatableXBeanUtils.ByNameKeys | metrics-sampler-core/src/main/java/org/metricssampler/config/loader/xbeans/TemplatableXBeanUtils.java:36-42 | the map's keys are exactly the names of the list |
| TemplatableXBeanUtils.ByNameLaterWins | metrics-sampler-core/src/main/java/org/metricssampler/config/loader/xbeans/TemplatableXBeanUtils.java:38-40 | with duplicate names, the entity the map keeps is the last one in the list |
| TemplatableXBeanUtils.PutKeepsOrder | metrics-sampler-core/src/main/java/org/metricssampler/config/loader/xbeans/TemplatableXBeanUtils.java:30-32 | putting an entity after its template keeps every entry after its template and keeps the earlier entries as a prefix |
| TemplatableXBeanUtils.AddDependency | metrics-sampler-core/src/main/java/org/metricssampler/config/loader/xbeans/TemplatableXBeanUtils.java:23-34 | on success the item is present, the order is kept, the earlier entries are a prefix, and every new entry is the item or an entity of the map ranked below it; a missing template is reported by name; when all templates resolve there is no error; and the as-written recursion `AddDependencyWithin`, given more stack frames than the item's rank, gives the same result |
| TemplatableXBeanUtils.SortByDependency | metrics-sampler-core/src/main/java/org/metricssampler/config/loader/xbeans/TemplatableXBeanUtils.java:14-21 | for an acyclic list: on success every entity comes after its template, the keys are exactly the list's names and the values are entities of the list; an error names a template some entity references and no entity has; with all templates present it succeeds |
| TemplatableXBeanUtils.AddDependencyWithin | metrics-sampler-core/src/main/java/org/metricssampler/config/loader/xbeans/TemplatableXBeanUtils.java:23-34 | the recursion as written with a bounded stack: a result that completes holds the item |
| TemplatableXBeanUtils.TemplateLoopOverflows | metrics-sampler-core/src/main/java/org/metricssampler/config/loader/xbeans/TemplatableXBeanUtils.java:24-30 | started on any entity of a set closed under template lookup and absent from the result (a template cycle and the entities leading into it), the as-written recursion never completes, for every stack depth |
| TemplatableXBeanUtils.CycleOverflows | metrics-sampler-core/src/main/java/org/metricssampler/config/loader/xbeans/TemplatableXBeanUtils.java:24-30 | started on any entity of a template cycle whose names are not yet in the result, the as-written recursion never completes, for every stack depth |
| TemplatableXBeanUtils.SelfTemplateOverflows | metrics-sampler-core/src/main/java/org/metricssampler/config/loader/xbeans/TemplatableXBeanUtils.java:24-30 | an entity that is its own template never completes, for every stack depth |
| TemplatableXBeanUtils.SelfTemplateNotAcyclic | metrics-sampler-core/src/main/java/org/metricssampler/config/loader/xbeans/TemplatableXBeanUtils.java:14-21 | such a list has no rank, so it is outside `SortByDependency`'s precondition |
| TemplatableXBeanUtils.AcyclicHasNoCycle | metrics-sampler-core/src/main/java/org/metricssampler/config/loader/xbeans/TemplatableXBeanUtils.java:14-21 | a list with a rank decreasing along template references has no template cycle |
| TemplatableXBeanUtils.AddDependencyChecked | metrics-sampler-core/src/main/java/org/metricssampler/config/loader/xbeans/TemplatableXBeanUtils.java:23-34 | `addDependency` with a guard on the recursion chain: terminates on every input; a cycle error implies a template cycle; a not-found error implies a missing template; success as for `AddDependency` |
| TemplatableXBeanUtils.SortByDependencyChecked | metrics-sampler-core/src/main/java/org/metricssampler/config/loader/xbeans/TemplatableXBeanUtils.java:14-21 | on every list: success orders all entities after their templates with exactly the list's names; each error is justified by a cycle or a missing template; an acyclic list never gives a cycle error |
| TemplatableXBeanUtils.ApplyTemplate | metrics-sampler-core/src/main/java/org/metricssampler/config/loader/xbeans/TemplatableXBeanUtils.java:44-74 | no template: the target is unchanged; a template absent from the map: an error; otherwise the target after inheriting, with name, template, abstract flag and property set unchanged |
| TemplatableXBeanUtils.InheritKeepsSetProperties | metrics-sampler-core/src/main/java/org/metricssampler/config/loader/xbeans/TemplatableXBeanUtils.java:57-58 | a property already set on the target keeps its value |
| TemplatableXBeanUtils.InheritFillsNullFromTemplate | metrics-sampler-core/src/main/java/org/metricssampler/config/loader/xbeans/TemplatableXBeanUtils.java:58-65 | a null property takes the template's value when it is writable and the template has it, and otherwise stays as it was |
| TemplatableXBeanUtils.InheritIdempotent | metrics-sampler-core/src/main/java/org/metricssampler/config/loader/xbeans/TemplatableXBeanUtils.java:44-74 | applying the same template twice gives what applying it once gives |
| TemplatableXBeanUtils.InheritChain | metrics-sampler-core/src/main/java/org/metricssampler/config/loader/xbeans/TemplatableXBeanUtils.java:44-74 | after the parent has inherited from the grandparent, a null writable property of the child gets the parent's own value if set, else the grandparent's |
| Daemon.SamplerTask.constructor | metrics-sampler-core/src/main/java/org/metricssampler/daemon/SamplerTask.java:10-15 | a new task is enabled and has not sampled |
| Daemon.SamplerTask.Run | metrics-sampler-core/src/main/java/org/metricssampler/daemon/SamplerTask.java:17-30 | an enabled task samples exactly once, counts a runtime failure as ignored and lets an `Error` propagate; a disabled one does nothing; the switch is unchanged |
| Daemon.SamplerTask.Enable | metrics-sampler-core/src/main/java/org/metricssampler/daemon/SamplerTask.java:32-34 | the sampler task is enabled; nothing else changes |
| Daemon.SamplerTask.Disable | metrics-sampler-core/src/main/java/org/metricssampler/daemon/SamplerTask.java:36-38 | the sampler task is disabled; nothing else changes |
| JmxMetricsReader.IsIgnored | metrics-sampler-extension-jmx/src/main/java/org/metricssampler/extensions/jmx/JmxMetricsReader.java:115-123 | an MBean is ignored exactly when some configured pattern matches its canonical name |
| JmxMetricsReader.DiscoverSkipsIgnored | metrics-sampler-extension-jmx/src/main/java/org/metricssampler/extensions/jmx/JmxMetricsReader.java:80-84 | no discovered metric belongs to an ignored MBean |
| JmxMetricsReader.ReadMetaData | metrics-sampler-extension-jmx/src/main/java/org/metricssampler/extensions/jmx/JmxMetricsReader.java:73-113 | a failing name query is a read error; otherwise the metrics are those of `Discover` over the MBeans in query order |
| JmxMetricsReader.ReadBeanMetaData | metrics-sampler-extension-jmx/src/main/java/org/metricssampler/extensions/jmx/JmxMetricsReader.java:85-104 | one MBean gives one metric per simple attribute and one per composite key; a composite attribute without a type gives none; a failing lookup ends the MBean but keeps what was found |
| JmxMetricsReader.ReadCompositeKeys | metrics-sampler-extension-jmx/src/main/java/org/metricssampler/extensions/jmx/JmxMetricsReader.java:92-94 | one metric per key of the composite type, in key order |
| JmxMetricsReader.ShortHostname | metrics-sampler-extension-jmx/src/main/java/org/metricssampler/extensions/jmx/JmxMetricsReader.java:212-217 | the result is a prefix of the host name; when the name has a '.' and does not start with one, it is the non-empty dot-free part before the first '.'; otherwise the whole name |
| JmxMetricsReader.ShortHostnameIdempotent | metrics-sampler-extension-jmx/src/main/java/org/metricssampler/extensions/jmx/JmxMetricsReader.java:212-217 | shortening a short host name changes nothing |
| JmxMetricsReader.PrepareVariables | metrics-sampler-extension-jmx/src/main/java/org/metricssampler/extensions/jmx/JmxMetricsReader.java:199-228 | configured variables outside the input keys are kept and no others appear; `input.name` is always set; `input.host` is set when the URL has a host, and otherwise keeps its configured value or stays absent; `input.fqhn`, `input.hostname` (the short host name) and `input.ip` are set when the host also resolves, and otherwise keep their configured values or stay absent |
| JmxMetricsReader.NewJmxMetricsReader | metrics-sampler-extension-jmx/src/main/java/org/metricssampler/extensions/jmx/JmxMetricsReader.java:49-59 | the Java constructor: when the connection object cannot be built the result is the read error wrapping the I/O failure and no reader exists; otherwise a fresh reader with the prepared variables, unconnected and without metadata |
| JmxMetricsReader.JmxMetricsReader.constructor | metrics-sampler-extension-jmx/src/main/java/org/metricssampler/extensions/jmx/JmxMetricsReader.java:49-53 | the successful construction: the variables are prepared once; the reader starts unconnected and without metadata |
| JmxMetricsReader.JmxMetricsReader.GetMetaData | metrics-sampler-extension-jmx/src/main/java/org/metricssampler/extensions/jmx/JmxMetricsReader.java:61-71 | not connected: an error; connected: the cached metadata |
| JmxMetricsReader.JmxMetricsReader.Open | metrics-sampler-extension-jmx/src/main/java/org/metricssampler/extensions/jmx/JmxMetricsReader.java:186-197 | connected: nothing happens; otherwise one connect; a failed connect is an open error; a failed query is a read error with the metadata unchanged; else the metadata becomes the discovery |
| JmxMetricsReader.JmxMetricsReader.Close | metrics-sampler-extension-jmx/src/main/java/org/metricssampler/extensions/jmx/JmxMetricsReader.java:230-236 | a connected, non-persistent reader disconnects once and forgets the metadata; otherwise nothing changes |
| JmxMetricsReader.JmxMetricsReader.Reconnect | metrics-sampler-extension-jmx/src/main/java/org/metricssampler/extensions/jmx/JmxMetricsReader.java:175-184 | disconnect then connect, and a further disconnect when connecting fails; connected exactly when connecting worked |
| JmxMetricsReader.JmxMetricsReader.ReadMetric | metrics-sampler-extension-jmx/src/main/java/org/metricssampler/extensions/jmx/JmxMetricsReader.java:139-173 | each failure the method catches becomes a read error wrapping it, and only an I/O failure reconnects; any other unchecked failure escapes unwrapped, without a reconnect; a composite metric on composite data yields the value under its key, or an error for an unknown key; any other value is returned whole at the given time |
| JmxMetricsReader.JmxMetricsReader.ReadNames | metrics-sampler-extension-jmx/src/main/java/org/metricssampler/extensions/jmx/JmxMetricsReader.java:248-251 | the cached metadata, possibly null |
| RedisMetricsReader.SplitAtFirstColon | metrics-sampler-extension-redis/src/main/java/org/metric/sampler/extension/redis/RedisMetricsReader.java:74 | `split(":", 2)` gives one column exactly when the line has no ':'; otherwise a colon-free name and a rest that rejoin to the line |
| RedisMetricsReader.SplitJoin | metrics-sampler-extension-redis/src/main/java/org/metric/sampler/extension/redis/RedisMetricsReader.java:74 | splitting `name:value` with a colon-free name gives back name and value |
| RedisMetricsReader.ParseLinesFailure | metrics-sampler-extension-redis/src/main/java/org/metric/sampler/extension/redis/RedisMetricsReader.java:72-76 | a read succeeds exactly when every line has a ':'; an error names the first line without one |
| RedisMetricsReader.ParseLinesTimestamps | metrics-sampler-extension-redis/src/main/java/org/metric/sampler/extension/redis/RedisMetricsReader.java:69-75 | every metric of a read carries the one timestamp taken before reading |
| RedisMetricsReader.ParseLinesNames | metrics-sampler-extension-redis/src/main/java/org/metric/sampler/extension/redis/RedisMetricsReader.java:72-76 | the names of a read are exactly the texts before the first ':' of its lines |
| RedisMetricsReader.ParseLinesLastWins | metrics-sampler-extension-redis/src/main/java/org/metric/sampler/extension/redis/RedisMetricsReader.java:75 | a name's value is the rest of the last line carrying that name |
| RedisMetricsReader.ParseLinesErrorPersists | metrics-sampler-extension-redis/src/main/java/org/metric/sampler/extension/redis/RedisMetricsReader.java:72-76 | an error on a prefix of the lines is the error of the whole read |
| RedisMetricsReader.ParseInfo | metrics-sampler-extension-redis/src/main/java/org/metric/sampler/extension/redis/RedisMetricsReader.java:70-77 | the loop over the lines computes `ParseLines` |
| RedisMetricsReader.InfoMetrics | metrics-sampler-extension-redis/src/main/java/org/metric/sampler/extension/redis/RedisMetricsReader.java:72-76 | the reading that skips lines without ':': every metric carries the timestamp |
| RedisMetricsReader.InfoMetricsAgrees | metrics-sampler-extension-redis/src/main/java/org/metric/sampler/extension/redis/RedisMetricsReader.java:72-76 | on replies whose lines all have a ':', skipping reads exactly what the code as written reads |
| RedisMetricsReader.InfoMetricsNames | metrics-sampler-extension-redis/src/main/java/org/metric/sampler/extension/redis/RedisMetricsReader.java:72-76 | the skipping reading keeps exactly the names of the lines with a ':' |
| RedisMetricsReader.SectionHeaderFails | metrics-sampler-extension-redis/src/main/java/org/metric/sampler/extension/redis/RedisMetricsReader.java:74-75 | as written, a reply with a `# Server` section header fails on that header |
| RedisMetricsReader.SectionHeaderSkipped | metrics-sampler-extension-redis/src/main/java/org/metric/sampler/extension/redis/RedisMetricsReader.java:74-75 | the skipping reading of the same reply gives its one metric |
| RedisMetricsReader.RedisMetricsReader.constructor | metrics-sampler-extension-redis/src/main/java/org/metric/sampler/extension/redis/RedisMetricsReader.java:21-25 | no client is held at first |
| RedisMetricsReader.RedisMetricsReader.ReconnectIfNecessary | metrics-sampler-extension-redis/src/main/java/org/metric/sampler/extension/redis/RedisMetricsReader.java:32-48 | a held client is reused; otherwise a client is created; a rejected password fails with the reply and keeps the client; a connection failure raised by AUTH escapes unwrapped and keeps the client; a failed connect drops it and fails wrapped |
| RedisMetricsReader.RedisMetricsReader.Open | metrics-sampler-extension-redis/src/main/java/org/metric/sampler/extension/redis/RedisMetricsReader.java:27-30 | same outcome and state as `ReconnectIfNecessary` |
| RedisMetricsReader.RedisMetricsReader.Disconnect | metrics-sampler-extension-redis/src/main/java/org/metric/sampler/extension/redis/RedisMetricsReader.java:50-59 | the client is dropped; a failure while disconnecting is swallowed |
| RedisMetricsReader.RedisMetricsReader.Close | metrics-sampler-extension-redis/src/main/java/org/metric/sampler/extension/redis/RedisMetricsReader.java:60-63 | the client is kept |
| RedisMetricsReader.RedisMetricsReader.ReadAllMetrics | metrics-sampler-extension-redis/src/main/java/org/metric/sampler/extension/redis/RedisMetricsReader.java:65-82 | the result is `ReadResult` of the previous state (reconnect errors first, AUTH failures before the connect, then the read); a client is created only when none was held; a connection failure during `INFO` drops the client |
| RedisMetricsReader.RedisMetricsReader.ReadNames | metrics-sampler-extension-redis/src/main/java/org/metric/sampler/extension/redis/RedisMetricsReader.java:84-87 | the names of a full read, or its error; a client is created when none was held, and afterwards the client is held exactly as after `readAllMetrics` (dropped on a connection failure during `INFO`) |
| JDBCPoolsParser.StepSkips | metrics-sampler-extension-webmethods/src/main/java/org/metricssampler/extensions/webmethods/parser/JDBCPoolsParser.java:19 | empty lines and lines starting with '-' change nothing |
| JDBCPoolsParser.StepSectionTitle | metrics-sampler-extension-webmethods/src/main/java/org/metricssampler/extensions/webmethods/parser/JDBCPoolsParser.java:20-22 | a line without ':' becomes the trimmed section and emits nothing |
| JDBCPoolsParser.StepFailsIffColonLast | metrics-sampler-extension-webmethods/src/main/java/org/metricssampler/extensions/webmethods/parser/JDBCPoolsParser.java:20-25 | a line fails exactly when its first ':' is its last character |
| JDBCPoolsParser.StepSplitsNameValue | metrics-sampler-extension-webmethods/src/main/java/org/metricssampler/extensions/webmethods/parser/JDBCPoolsParser.java:24-25 | `name: value` with a colon-free name splits back into name and value |
| JDBCPoolsParser.StepFunctionTitle | metrics-sampler-extension-webmethods/src/main/java/org/metricssampler/extensions/webmethods/parser/JDBCPoolsParser.java:26-27 | a `JDBC Function` line makes the trimmed value the section and emits nothing |
| JDBCPoolsParser.StepPoolTitle | metrics-sampler-extension-webmethods/src/main/java/org/metricssampler/extensions/webmethods/parser/JDBCPoolsParser.java:28-29 | a pool line appends `.` and the trimmed pool name to the section ("null" when there is none) and emits nothing |
| JDBCPoolsParser.StepEmits | metrics-sampler-extension-webmethods/src/main/java/org/metricssampler/extensions/webmethods/parser/JDBCPoolsParser.java:30-43 | any other `name: value` line adds exactly one metric under the possibly prefixed name; an unindented name clears the section |
| JDBCPoolsParser.FullNamePrefix | metrics-sampler-extension-webmethods/src/main/java/org/metricssampler/extensions/webmethods/parser/JDBCPoolsParser.java:31-39 | the section prefixes the name exactly when the name is indented and a section is open |
| JDBCPoolsParser.ParseAllOnlyAdds | metrics-sampler-extension-webmethods/src/main/java/org/metricssampler/extensions/webmethods/parser/JDBCPoolsParser.java:18-46 | parsing lines never removes a metric, and every new metric name comes from `createMetricName` |
| JDBCPoolsParser.PoolMetricsArePrefixed | metrics-sampler-extension-webmethods/src/main/java/org/metricssampler/extensions/webmethods/parser/JDBCPoolsParser.java:18-46 | function, pool, indented and unindented lines: the indented metric is named `function.pool.name`, the unindented one is not prefixed, and the section ends |
| JDBCPoolsParser.CanParseEntry | metrics-sampler-extension-webmethods/src/main/java/org/metricssampler/extensions/webmethods/parser/JDBCPoolsParser.java:48-51 | true exactly for `runtime/JDBCPools.txt` |
| JDBCPoolsParser.JDBCPoolsParser.constructor | metrics-sampler-extension-webmethods/src/main/java/org/metricssampler/extensions/webmethods/parser/JDBCPoolsParser.java:13-15 | no section is open |
| JDBCPoolsParser.JDBCPoolsParser.ParseLine | metrics-sampler-extension-webmethods/src/main/java/org/metricssampler/extensions/webmethods/parser/JDBCPoolsParser.java:17-46 | metrics and section after the line are those of `Step`; a failing line leaves the section unchanged |
| GraphiteOutputConfig.NewGraphiteOutputConfig | metrics-sampler-extension-graphite/src/main/java/org/metricssampler/extensions/graphite/GraphiteOutputConfig.java:13-20 | built exactly when the host is neither null nor empty and 0 < port < 65536; the host is checked first; the getters return the arguments |
| GraphiteOutputConfig.ConstructFromGetters | metrics-sampler-extension-graphite/src/main/java/org/metricssampler/extensions/graphite/GraphiteOutputConfig.java:13-32 | every valid configuration is rebuilt by the constructor from its own getters |
| ResourceTypeServiceStatusMetrics.TypeLabelInverse | metrics-sampler-extension-oracle-nosql/src/test/java/org/metricssampler/extensions/oranosql/ResourceTypeServiceStatusMetricsTest.java:33-35 | the lower-case type name determines the type |
| ResourceTypeServiceStatusMetrics.StatusLabelInverse | metrics-sampler-extension-oracle-nosql/src/test/java/org/metricssampler/extensions/oranosql/ResourceTypeServiceStatusMetricsTest.java:67-77 | the lower-case status name determines the status |
| ResourceTypeServiceStatusMetrics.DecodeName | metrics-sampler-extension-oracle-nosql/src/test/java/org/metricssampler/extensions/oranosql/ResourceTypeServiceStatusMetricsTest.java:67-77 | every counter name reads back to its counter |
| ResourceTypeServiceStatusMetrics.NameInjective | metrics-sampler-extension-oracle-nosql/src/test/java/org/metricssampler/extensions/oranosql/ResourceTypeServiceStatusMetricsTest.java:59-77 | distinct counters have distinct names |
| ResourceTypeServiceStatusMetrics.TypeCountIsSumOfStatuses | metrics-sampler-extension-oracle-nosql/src/test/java/org/metricssampler/extensions/oranosql/ResourceTypeServiceStatusMetricsTest.java:33-39 | a type's count is the sum of its nine status counts |
| ResourceTypeServiceStatusMetrics.ResourceTypeServiceStatusMetrics.constructor | metrics-sampler-extension-oracle-nosql/src/test/java/org/metricssampler/extensions/oranosql/ResourceTypeServiceStatusMetricsTest.java:44 | every counter starts at zero |
| ResourceTypeServiceStatusMetrics.ResourceTypeServiceStatusMetrics.Add | metrics-sampler-extension-oracle-nosql/src/test/java/org/metricssampler/extensions/oranosql/ResourceTypeServiceStatusMetricsTest.java:21-27 | the type's counter and the type-and-status counter go up by one, no other counter changes, and each counter keeps equal to its tally of the additions |
| ResourceTypeServiceStatusMetrics.ResourceTypeServiceStatusMetrics.AddMetrics | metrics-sampler-extension-oracle-nosql/src/test/java/org/metricssampler/extensions/oranosql/ResourceTypeServiceStatusMetricsTest.java:29-39 | every counter is in the result under its name with its tally, zeros included; no other name is added; entries under other names are kept |
| ResourceTypeServiceStatusMetrics.AdminCountName | metrics-sampler-extension-oracle-nosql/src/test/java/org/metricssampler/extensions/oranosql/ResourceTypeServiceStatusMetricsTest.java:33 | the admin type counter is named `admin.count` |
| ResourceTypeServiceStatusMetrics.RepNodeRunningName | metrics-sampler-extension-oracle-nosql/src/test/java/org/metricssampler/extensions/oranosql/ResourceTypeServiceStatusMetricsTest.java:37 | the running replication-node counter is named `rep_node.status.running.count` |
| ResourceTypeServiceStatusMetrics.StandardServices | metrics-sampler-extension-oracle-nosql/src/test/java/org/metricssampler/extensions/oranosql/ResourceTypeServiceStatusMetricsTest.java:20-27 | the seven additions of the test give the type and status counts the test expects |
| DefaultSampler.DefaultSampler.constructor | metrics-sampler-extension-base/src/test/java/org/metricssampler/extensions/base/sampler/DefaultSamplerTest.java:35 | no selectors, no writers, no calls yet |
| DefaultSampler.DefaultSampler.AddWriter | metrics-sampler-extension-base/src/test/java/org/metricssampler/extensions/base/sampler/DefaultSamplerTest.java:36-37 | the writer is registered last |
| DefaultSampler.DefaultSampler.AddSelector | metrics-sampler-extension-base/src/test/java/org/metricssampler/extensions/base/sampler/DefaultSamplerTest.java:38-39 | the selector is registered last |
| DefaultSampler.DefaultSampler.Sample | metrics-sampler-extension-base/src/test/java/org/metricssampler/extensions/base/sampler/DefaultSamplerTest.java:43-56 | one sample makes exactly the calls of `SampleEvents`: reader open, each selector's read in order, every writer opened, written with the merged metrics and closed, reader close; the first failing writer is reported after all are closed |
| DefaultSampler.SampleCounts | metrics-sampler-extension-base/src/test/java/org/metricssampler/extensions/base/sampler/DefaultSamplerTest.java:44-55 | in one sample the reader is opened and closed once; each selector reads once and each writer is opened, written and closed once per registration |
| DefaultSampler.SampleBracketedByReader | metrics-sampler-extension-base/src/test/java/org/metricssampler/extensions/base/sampler/DefaultSamplerTest.java:44-46 | the reader is opened first and closed last |

## Left out

- Reflection is left out. `PropertyUtils.describe` and `setProperty` become an explicit map of properties and a set of writable ones. Name and abstract flag are fields of their own, so the template's name and abstract flag are never copied, as in the code. The checked exceptions of reflection cannot occur in the model.
- The template map is not handed to `applyTemplate` as a bean. A template absent from the map becomes the `NoBeanSpecified` error, which stands for the exception the bean utilities throw on null.
- The JMX connection (`JmxConnection`) and the `MBeanServerConnection` are not part of this model. They are given as data: whether connecting works, the result of the name query, each MBean's description, and each attribute's reply.
- A composite type is found through the descriptor's `openType` or through the attribute's value; that lookup is collapsed into one result per attribute.
- The set of object names is taken in a fixed order.
- Regular expressions are not modelled. An ignore pattern is a predicate on the canonical name.
- DNS resolution and URL parsing are given as values: the URL's host, and the resolved host name and address.
- Loggers, timings and the MDC entry are left out. They do not change any result.
- Clocks are a parameter: a reading gets its timestamp as `now`.
- The Redis client (Jedis) is a flag plus the replies it gives: the `AUTH` reply, whether connecting works, and the `INFO` reply.
- The `INFO` text arrives already split into lines. `IOUtils.lineIterator` is not modelled.
- The webMethods base parser's `createMetricName` and `parseValue` are functions given to the parser. Their behaviour is not part of this model.
- The parser returns the metric map instead of updating the caller's map in place, so aliasing of that map is not captured.
- The sampler task keeps counters of samples and ignored failures instead of the logging; its `volatile` flag and the scheduler's threads are not modelled.
- DefaultSampler: selectors, writers and readers are identities, and a sample is the sequence of calls it makes on them. The sampler's own source is not part of this model, and the test pins down only how many calls there are. The model assumes that all writers are opened, then all are written, then all are closed, one after another in registration order, and that the first writer failure is reported after every writer is closed.
- DefaultSampler: each selector reads from the reader itself, as the test checks (`readMetrics(bulkReader)`); a chain in which one selector feeds the next is not modelled. Each selector's metrics are merged, a later selector winning on a shared name. Placeholders are carried but not used.
- ResourceTypeServiceStatusMetrics: the counters' `MetricName` descriptions and `MetricValue` timestamps are not modelled; the result maps names to counts.
- RedisMetricsReader.RedisMetricsReader.ReconnectIfNecessary: a wrong password fails the first open but leaves the client stored, so the next call uses it without asking again. The model keeps this behaviour of the code; it has no corrected variant.
- GraphiteOutputConfig.NewGraphiteOutputConfig: the output name goes to a base class whose checks are not part of this model.
- TemplatableXBeanUtils.ApplyTemplate: returns the inherited entity as a new value instead of setting the properties on `target` in place. In the source, `target` is the same object the map of entities holds, so a later entity whose template is `target` sees the inherited values through that alias; the model passes the resolved parent explicitly instead (`InheritChain`).
- ResourceTypeServiceStatusMetrics.ResourceTypeServiceStatusMetrics.AddMetrics: returns the extended map instead of putting the counters into the caller's map in place, so aliasing of that map is not captured.
- TemplatableXBeanUtils.SortByDependency: requires a rank over the template references of every entity of the list (`Acyclic`), since the as-written recursion does not terminate on a cycle. With duplicate names this also excludes some lists on which the code terminates (for example `a` with template `b`, `b` with template `a`, then a second `a` with no template, where only the last `a` is looked up). It also excludes lists with unique names where a missing template ends the loop before any entity of a cycle is visited (for example `x` with template `missing`, then `a` with template `a`: the code reports that `missing` is not found). The corrected `SortByDependencyChecked` has no such precondition.
- RedisMetricsReader.ParseLinesLastWins: metric names are plain strings compared by content. This assumes that Redis's `SimpleMetricName` keys are equal exactly when their names are, so a later `put` replaces an earlier one; that class is not part of this model.
- RedisMetricsReader.ParseLinesNames: rests on the same assumption about `SimpleMetricName` equality.
- Daemon.SamplerTask.Run: `Error` stands for every `Throwable` that is not a `RuntimeException`; the sampler's checked exceptions cannot occur, since `sample()` declares none.
- JmxMetricsReader.JmxMetricsReader.ReadMetric: all unchecked exceptions outside the catch list are one cause, `OtherRuntime`; a `ClassCastException` of the metric downcast is not modelled, since the metric type is fixed.

## Findings

| source | as written | input that shows it | evidently intended | confidence | as-written member | corrected member |
|---|---|---|---|---|---|---|
| metrics-sampler-core/src/main/java/org/metricssampler/config/loader/xbeans/TemplatableXBeanUtils.java:23-34 | `addDependency` recurses into the template with no guard against a cycle | one entity named `a` whose template is `a`: the recursion never ends (a StackOverflowError) | a template cycle is reported as a configuration error | not executed | TemplatableXBeanUtils.SelfTemplateOverflows | TemplatableXBeanUtils.SortByDependencyChecked |
| metrics-sampler-extension-redis/src/main/java/org/metric/sampler/extension/redis/RedisMetricsReader.java:74-75 | every `INFO` line is split at ':' and `cols[1]` is read unconditionally | the reply lines `# Server`, `redis_version:2.6.0`: the section header has no ':' and the read fails with an index error | section headers and blank lines are skipped | not executed | RedisMetricsReader.SectionHeaderFails | RedisMetricsReader.SectionHeaderSkipped |
