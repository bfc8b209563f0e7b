/** The parser of the webMethods `runtime/JDBCPools.txt` report. The report
    is a sequence of lines: section titles without ':', "JDBC Function" and
    "   JDBC Pool Name" lines that open a function and a pool inside it, and
    "name: value" lines that become metrics. An indented metric name is
    prefixed by the current section; an unindented one ends the section.

    How the base parser builds a metric name from text and turns raw text
    into a value is not part of this model: both are given as functions. */
module JDBCPoolsParser {
  import opened Common

  const EntryRuntimeJdbcPools: string := "runtime/JDBCPools.txt"

  datatype MetricName = MetricName(name: string, description: string)
  datatype MetricValue = MetricValue(timestamp: int, value: string)

  /** `createMetricName` and `parseValue` of the base parser. */
  datatype Naming = Naming(createMetricName: string -> MetricName, parseValue: (string, string) -> string)

  /** `line.substring(colIdx + 2)` on a line whose ':' is its last character. */
  datatype ParseError = StringIndexOutOfBounds(line: string)

  /** What the parser carries from line to line: its `lastSection` field and
      the caller's metric map. */
  datatype State = State(lastSection: Option<string>, metrics: map<MetricName, MetricValue>)

  predicate StartsWithSpace(s: string)
  {
    s != [] && s[0] == ' '
  }

  /** Java's string conversion of a possibly-null section. */
  function SectionText(section: Option<string>): string
  {
    match section
    case None => "null"
    case Some(s) => s
  }

  /** The name a metric line gets: indented names are prefixed by the section. */
  function FullName(section: Option<string>, name: string): string
  {
    if StartsWithSpace(name) && section.Some? then section.value + "." + name else name
  }

  /** One line of the report, as `parseLine` handles it. */
  function Step(naming: Naming, s: State, line: string, timestamp: int): Result<State, ParseError>
  {
    if |line| == 0 || line[0] == '-' then Ok(s)
    else match IndexOf(line, ':')
      case None => Ok(State(Some(Trim(line)), s.metrics))
      case Some(colIdx) =>
        if colIdx + 2 > |line| then Err(StringIndexOutOfBounds(line))
        else Ok(Entry(naming, s, line[..colIdx], line[colIdx + 2..], timestamp))
  }

  /** A `name: value` line: a function or pool title, or a metric. */
  function Entry(naming: Naming, s: State, name: string, value: string, timestamp: int): State
  {
    if name == "JDBC Function" then State(Some(Trim(value)), s.metrics)
    else if name == "   JDBC Pool Name" then State(Some(SectionText(s.lastSection) + "." + Trim(value)), s.metrics)
    else
      var metricName := naming.createMetricName(FullName(s.lastSection, name));
      var section := if StartsWithSpace(name) then s.lastSection else None;
      State(section, s.metrics[metricName := MetricValue(timestamp, naming.parseValue(metricName.name, value))])
  }

  /** Empty lines and separator lines change nothing. */
  lemma StepSkips(naming: Naming, s: State, line: string, timestamp: int)
    requires |line| == 0 || line[0] == '-'
    ensures Step(naming, s, line, timestamp) == Ok(s)
  {
  }

  /** A line without ':' is a section title; it emits no metric. */
  lemma StepSectionTitle(naming: Naming, s: State, line: string, timestamp: int)
    requires |line| > 0 && line[0] != '-' && ':' !in line
    ensures Step(naming, s, line, timestamp) == Ok(State(Some(Trim(line)), s.metrics))
  {
  }

  /** A line whose only ':' is its last character cannot be parsed; a ':'
      followed by at least one character always can. */
  lemma StepFailsIffColonLast(naming: Naming, s: State, line: string, timestamp: int)
    requires |line| > 0 && line[0] != '-'
    ensures Step(naming, s, line, timestamp).Err? <==> ':' in line && IndexOf(line, ':').value == |line| - 1
  {
  }

  /** The name before the first ':' and the value two characters after it,
      for a line `name: value`. */
  lemma StepSplitsNameValue(name: string, value: string)
    requires ':' !in name
    ensures var line := name + ": " + value; IndexOf(line, ':') == Some(|name|) && line[..|name|] == name && line[|name| + 2..] == value
  {
    var line := name + ": " + value;
    assert line == name + [':'] + (" " + value);
    IndexOfAfter(name, ':', " " + value);
  }

  /** A `name: value` line whose name has no ':' is handled as an entry. */
  lemma StepEntry(naming: Naming, s: State, name: string, value: string, timestamp: int)
    requires ':' !in name && name != [] && name[0] != '-'
    ensures Step(naming, s, name + ": " + value, timestamp) == Ok(Entry(naming, s, name, value, timestamp))
  {
    StepSplitsNameValue(name, value);
  }

  /** A "JDBC Function" line opens the function's section and emits no metric. */
  lemma StepFunctionTitle(naming: Naming, s: State, value: string, timestamp: int)
    ensures Step(naming, s, "JDBC Function: " + value, timestamp) == Ok(State(Some(Trim(value)), s.metrics))
  {
    var title := "JDBC Function";
    assert "JDBC Function: " + value == title + ": " + value;
    StepEntry(naming, s, title, value, timestamp);
  }

  /** A "   JDBC Pool Name" line opens a pool section nested inside the
      current one and emits no metric. */
  lemma StepPoolTitle(naming: Naming, s: State, value: string, timestamp: int)
    ensures Step(naming, s, "   JDBC Pool Name: " + value, timestamp)
         == Ok(State(Some(SectionText(s.lastSection) + "." + Trim(value)), s.metrics))
  {
    var title := "   JDBC Pool Name";
    assert "   JDBC Pool Name: " + value == title + ": " + value;
    assert title != "JDBC Function" by { assert title[0] != "JDBC Function"[0]; }
    StepEntry(naming, s, title, value, timestamp);
  }

  /** Any other `name: value` line emits exactly the one metric named by the
      (possibly prefixed) name; an unindented name ends the section. */
  lemma StepEmits(naming: Naming, s: State, name: string, value: string, timestamp: int)
    requires ':' !in name && name != "JDBC Function" && name != "   JDBC Pool Name"
    requires name == [] || name[0] != '-'
    ensures var r := Step(naming, s, name + ": " + value, timestamp);
            var metricName := naming.createMetricName(FullName(s.lastSection, name));
            && r.Ok?
            && r.value.metrics == s.metrics[metricName := MetricValue(timestamp, naming.parseValue(metricName.name, value))]
            && r.value.lastSection == (if StartsWithSpace(name) then s.lastSection else None)
  {
    StepSplitsNameValue(name, value);
  }

  /** The prefix is the section exactly when the name is indented and a
      section is open. */
  lemma FullNamePrefix(section: Option<string>, name: string)
    ensures StartsWithSpace(name) && section.Some? ==> FullName(section, name) == section.value + "." + name
    ensures !(StartsWithSpace(name) && section.Some?) ==> FullName(section, name) == name
  {
  }

  /** The report lines in order, stopping at the first line that fails. */
  function ParseAll(naming: Naming, s: State, lines: seq<string>, timestamp: int): Result<State, ParseError>
    decreases |lines|
  {
    if lines == [] then Ok(s)
    else match Step(naming, s, lines[0], timestamp)
      case Err(e) => Err(e)
      case Ok(next) => ParseAll(naming, next, lines[1..], timestamp)
  }

  /** Parsing only adds metrics: every metric present before is present
      after, and each new name was built by `createMetricName`. */
  lemma {:induction false} ParseAllOnlyAdds(naming: Naming, s: State, lines: seq<string>, timestamp: int)
    requires ParseAll(naming, s, lines, timestamp).Ok?
    ensures s.metrics.Keys <= ParseAll(naming, s, lines, timestamp).value.metrics.Keys
    ensures forall n :: n in ParseAll(naming, s, lines, timestamp).value.metrics && n !in s.metrics ==>
              exists text :: naming.createMetricName(text) == n
    decreases |lines|
  {
    if lines != [] {
      var next := Step(naming, s, lines[0], timestamp).value;
      ParseAllOnlyAdds(naming, next, lines[1..], timestamp);
      forall n | n in next.metrics && n !in s.metrics
        ensures exists text :: naming.createMetricName(text) == n
      {
      }
    }
  }

  /** A function title, a pool title inside it, an indented metric and an
      unindented metric: the indented metric is named by function, pool and
      its own name; the unindented one is not prefixed and ends the section. */
  lemma {:induction false} PoolMetricsArePrefixed(naming: Naming, functionName: string, pool: string, pooled: string, unpooled: string,
                                                  value: string, timestamp: int)
    requires ':' !in pooled && StartsWithSpace(pooled) && pooled != "   JDBC Pool Name"
    requires ':' !in unpooled && !StartsWithSpace(unpooled) && (unpooled == [] || unpooled[0] != '-') && unpooled != "JDBC Function"
    ensures var lines := ["JDBC Function: " + functionName, "   JDBC Pool Name: " + pool, pooled + ": " + value, unpooled + ": " + value];
            var r := ParseAll(naming, State(None, map[]), lines, timestamp);
            && r.Ok?
            && r.value.lastSection.None?
            && r.value.metrics.Keys == {naming.createMetricName(Trim(functionName) + "." + Trim(pool) + "." + pooled),
                                        naming.createMetricName(unpooled)}
  {
    var lines := ["JDBC Function: " + functionName, "   JDBC Pool Name: " + pool, pooled + ": " + value, unpooled + ": " + value];
    var s0 := State(None, map[]);
    StepFunctionTitle(naming, s0, functionName, timestamp);
    var s1 := State(Some(Trim(functionName)), map[]);
    assert ParseAll(naming, s0, lines, timestamp) == ParseAll(naming, s1, lines[1..], timestamp);

    StepPoolTitle(naming, s1, pool, timestamp);
    var s2 := State(Some(Trim(functionName) + "." + Trim(pool)), map[]);
    assert ParseAll(naming, s1, lines[1..], timestamp) == ParseAll(naming, s2, lines[2..], timestamp) by {
      assert lines[1..][0] == lines[1] && lines[1..][1..] == lines[2..];
    }

    assert pooled != "JDBC Function" by {
      assert "JDBC Function"[0] != ' ';
    }
    StepEmits(naming, s2, pooled, value, timestamp);
    var s3 := Step(naming, s2, lines[2], timestamp).value;
    assert s3.metrics.Keys == {naming.createMetricName(Trim(functionName) + "." + Trim(pool) + "." + pooled)};
    assert ParseAll(naming, s2, lines[2..], timestamp) == ParseAll(naming, s3, lines[3..], timestamp) by {
      assert lines[2..][0] == lines[2] && lines[2..][1..] == lines[3..];
    }

    assert unpooled != "   JDBC Pool Name" by {
      assert "   JDBC Pool Name"[0] == ' ';
    }
    StepEmits(naming, s3, unpooled, value, timestamp);
    var s4 := Step(naming, s3, lines[3], timestamp).value;
    assert ParseAll(naming, s3, lines[3..], timestamp) == ParseAll(naming, s4, [], timestamp) by {
      assert lines[3..][0] == lines[3] && lines[3..][1..] == [];
    }
  }

  /** `canParseEntry`: only the JDBC pools entry of the diagnostics archive. */
  function CanParseEntry(name: string): (r: bool)
    ensures r <==> name == "runtime/JDBCPools.txt"
  {
    EntryRuntimeJdbcPools == name
  }

  class JDBCPoolsParser {
    const naming: Naming
    /** The section the next indented metric belongs to; None is null. */
    var lastSection: Option<string>

    constructor (naming: Naming)
      ensures this.naming == naming && lastSection.None?
    {
      this.naming := naming;
      lastSection := None;
    }

    /** `parseLine`: returns the caller's map after the line is applied. */
    method ParseLine(metrics: map<MetricName, MetricValue>, line: string, timestamp: int)
        returns (r: Result<map<MetricName, MetricValue>, ParseError>)
      modifies this
      ensures var expected := Step(naming, State(old(lastSection), metrics), line, timestamp);
              if expected.Ok? then r == Ok(expected.value.metrics) && lastSection == expected.value.lastSection
              else r == Err(expected.error) && lastSection == old(lastSection)
    {
      if |line| > 0 && line[0] != '-' {
        var colIdx := IndexOf(line, ':');
        match colIdx {
          case None =>
            lastSection := Some(Trim(line));
          case Some(i) =>
            if i + 2 > |line| {
              return Err(StringIndexOutOfBounds(line));
            }
            var name := line[..i];
            var value := line[i + 2..];
            if name == "JDBC Function" {
              lastSection := Some(Trim(value));
            } else if name == "   JDBC Pool Name" {
              lastSection := Some(SectionText(lastSection) + "." + Trim(value));
            } else {
              var builder := "";
              if StartsWithSpace(name) {
                if lastSection.Some? {
                  builder := lastSection.value + ".";
                }
              } else {
                lastSection := None;
              }
              builder := builder + name;
              assert builder == FullName(old(lastSection), name);
              var metricName := naming.createMetricName(builder);
              var actualValue := naming.parseValue(metricName.name, value);
              return Ok(metrics[metricName := MetricValue(timestamp, actualValue)]);
            }
        }
      }
      return Ok(metrics);
    }
  }
}
