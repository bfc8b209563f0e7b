/** A bulk reader of the Redis `INFO` command. The client is created lazily,
    on open or on the first read, and kept across closes. A connection
    failure drops the client so that the next call creates a new one. Each
    line of the INFO reply becomes one metric, named by the text before its
    first ':' and valued by the rest of the line.

    The network is given as data: the reply to AUTH (or the connection
    failure it raises), whether connecting works, and the INFO reply, already
    broken into lines. */
module RedisMetricsReader {
  import opened Common

  datatype ReaderError =
    | IncorrectPassword(response: string)  // OpenMetricsReaderException("Incorrect password: " + response)
    | OpenFailed                           // OpenMetricsReaderException wrapping the connection failure
    | ReadFailed                           // MetricReadException wrapping the connection failure
    | MissingColon(line: string)           // the array index error of `cols[1]`; not caught
    | ConnectionFailed                     // a connection failure raised by AUTH; not caught

  /** The reply to AUTH: the server's answer, or a connection failure (AUTH
      is the first command that reaches the server). */
  datatype AuthReply = AuthAnswer(text: string) | AuthConnectionFails

  datatype MetricValue = MetricValue(timestamp: int, value: string)

  /** The reply to INFO: its lines, or a connection failure. */
  datatype InfoReply = InfoLines(lines: seq<string>) | InfoConnectionFails

  /** `line.split(":", 2)`: the text before the first ':' and the rest, or
      None when the split yields a single column. */
  function SplitAtFirstColon(line: string): (r: Option<(string, string)>)
    ensures r.None? <==> ':' !in line
    ensures r.Some? ==> line == r.value.0 + ":" + r.value.1 && ':' !in r.value.0
  {
    match IndexOf(line, ':')
    case None => None
    case Some(i) =>
      assert line == line[..i] + ":" + line[i + 1..];
      Some((line[..i], line[i + 1..]))
  }

  /** Splitting is the inverse of joining with a colon-free name. */
  lemma SplitJoin(name: string, value: string)
    requires ':' !in name
    ensures SplitAtFirstColon(name + ":" + value) == Some((name, value))
  {
    var line := name + ":" + value;
    IndexOfAfter(name, ':', value);
    assert line[..|name|] == name;
    assert line[|name| + 1..] == value;
  }

  /** The metrics `readAllMetrics` builds from the INFO lines, all stamped
      with `now`; a later line with the same name replaces an earlier one.
      The first line without ':' ends the read with an error. */
  function ParseLines(lines: seq<string>, now: int): Result<map<string, MetricValue>, ReaderError>
  {
    if lines == [] then Ok(map[])
    else
      var last := lines[|lines| - 1];
      match ParseLines(lines[..|lines| - 1], now)
      case Err(e) => Err(e)
      case Ok(m) =>
        match SplitAtFirstColon(last)
        case None => Err(MissingColon(last))
        case Some((name, value)) => Ok(m[name := MetricValue(now, value)])
  }

  /** Reading fails exactly when some line has no ':', and then the error
      names the first such line. */
  lemma {:induction false} ParseLinesFailure(lines: seq<string>, now: int)
    ensures ParseLines(lines, now).Ok? <==> forall i :: 0 <= i < |lines| ==> ':' in lines[i]
    ensures ParseLines(lines, now).Err? ==>
              exists i :: 0 <= i < |lines| && ':' !in lines[i] && ParseLines(lines, now) == Err(MissingColon(lines[i]))
                          && forall j :: 0 <= j < i ==> ':' in lines[j]
  {
    if lines != [] {
      var init := lines[..|lines| - 1];
      ParseLinesFailure(init, now);
      assert forall i :: 0 <= i < |init| ==> init[i] == lines[i];
      if ParseLines(init, now).Err? {
        var i :| 0 <= i < |init| && ':' !in init[i] && ParseLines(init, now) == Err(MissingColon(init[i]))
                 && forall j :: 0 <= j < i ==> ':' in init[j];
        assert ':' !in lines[i];
      }
    }
  }

  /** Every entry of a successful read carries the common timestamp. */
  lemma {:induction false} ParseLinesTimestamps(lines: seq<string>, now: int)
    requires ParseLines(lines, now).Ok?
    ensures forall name :: name in ParseLines(lines, now).value ==> ParseLines(lines, now).value[name].timestamp == now
  {
    if lines != [] {
      ParseLinesTimestamps(lines[..|lines| - 1], now);
    }
  }

  /** The names of a successful read are exactly the text before the first
      ':' of the lines. */
  lemma ParseLinesNames(lines: seq<string>, now: int)
    requires ParseLines(lines, now).Ok?
    ensures forall name :: name in ParseLines(lines, now).value <==>
              exists i :: 0 <= i < |lines| && SplitAtFirstColon(lines[i]).Some? && SplitAtFirstColon(lines[i]).value.0 == name
  {
    ParseLinesFailure(lines, now);
    InfoMetricsAgrees(lines, now);
    InfoMetricsNames(lines, now);
  }

  /** The value of a name is the rest of the last line carrying that name. */
  lemma {:induction false} ParseLinesLastWins(lines: seq<string>, now: int, i: nat)
    requires ParseLines(lines, now).Ok?
    requires i < |lines| && SplitAtFirstColon(lines[i]).Some?
    requires forall j :: i < j < |lines| ==> SplitAtFirstColon(lines[j]) == None || SplitAtFirstColon(lines[j]).value.0 != SplitAtFirstColon(lines[i]).value.0
    ensures SplitAtFirstColon(lines[i]).value.0 in ParseLines(lines, now).value
    ensures ParseLines(lines, now).value[SplitAtFirstColon(lines[i]).value.0] == MetricValue(now, SplitAtFirstColon(lines[i]).value.1)
  {
    var init := lines[..|lines| - 1];
    if i < |lines| - 1 {
      assert init[i] == lines[i];
      assert forall j :: i < j < |init| ==> init[j] == lines[j];
      ParseLinesLastWins(init, now, i);
    }
  }

  /** An error in a prefix is the error of the whole read. */
  lemma {:induction false} ParseLinesErrorPersists(lines: seq<string>, now: int, k: nat)
    requires k <= |lines| && ParseLines(lines[..k], now).Err?
    ensures ParseLines(lines, now) == ParseLines(lines[..k], now)
    decreases |lines| - k
  {
    if k < |lines| {
      assert lines[..k + 1][..k] == lines[..k];
      ParseLinesErrorPersists(lines, now, k + 1);
    } else {
      assert lines[..k] == lines;
    }
  }

  /** The loop of `readAllMetrics` over the INFO lines. */
  method ParseInfo(lines: seq<string>, now: int) returns (r: Result<map<string, MetricValue>, ReaderError>)
    ensures r == ParseLines(lines, now)
  {
    var result: map<string, MetricValue> := map[];
    var i := 0;
    while i < |lines|
      invariant 0 <= i <= |lines|
      invariant ParseLines(lines[..i], now) == Ok(result)
    {
      assert lines[..i + 1][..i] == lines[..i];
      var cols := SplitAtFirstColon(lines[i]);
      if cols.None? {
        ParseLinesErrorPersists(lines, now, i + 1);
        return Err(MissingColon(lines[i]));
      }
      result := result[cols.value.0 := MetricValue(now, cols.value.1)];
      i := i + 1;
    }
    assert lines[..i] == lines;
    return Ok(result);
  }

  /** The metrics of an INFO reply when lines without ':' (the section
      headers and blank lines Redis puts into the reply) are skipped. */
  function InfoMetrics(lines: seq<string>, now: int): (r: map<string, MetricValue>)
    ensures forall name :: name in r ==> r[name].timestamp == now
  {
    if lines == [] then map[]
    else
      var m := InfoMetrics(lines[..|lines| - 1], now);
      match SplitAtFirstColon(lines[|lines| - 1])
      case None => m
      case Some((name, value)) => m[name := MetricValue(now, value)]
  }

  /** Skipping changes nothing on a reply in which every line has a ':'. */
  lemma {:induction false} InfoMetricsAgrees(lines: seq<string>, now: int)
    requires forall i :: 0 <= i < |lines| ==> ':' in lines[i]
    ensures ParseLines(lines, now) == Ok(InfoMetrics(lines, now))
  {
    if lines != [] {
      var init := lines[..|lines| - 1];
      assert forall i :: 0 <= i < |init| ==> init[i] == lines[i];
      InfoMetricsAgrees(init, now);
    }
  }

  /** The skipping reader keeps exactly the names of the lines with a ':'. */
  lemma {:induction false} InfoMetricsNames(lines: seq<string>, now: int)
    ensures forall name :: name in InfoMetrics(lines, now) <==>
              exists i :: 0 <= i < |lines| && SplitAtFirstColon(lines[i]).Some? && SplitAtFirstColon(lines[i]).value.0 == name
  {
    if lines != [] {
      var init := lines[..|lines| - 1];
      InfoMetricsNames(init, now);
      assert forall i :: 0 <= i < |init| ==> init[i] == lines[i];
      var m := InfoMetrics(lines, now);
      forall name | name in m
        ensures exists i :: 0 <= i < |lines| && SplitAtFirstColon(lines[i]).Some? && SplitAtFirstColon(lines[i]).value.0 == name
      {
        var last := SplitAtFirstColon(lines[|lines| - 1]);
        if !(last.Some? && last.value.0 == name) {
          assert name in InfoMetrics(init, now);
          var i :| 0 <= i < |init| && SplitAtFirstColon(init[i]).Some? && SplitAtFirstColon(init[i]).value.0 == name;
          assert lines[i] == init[i];
        }
      }
    }
  }

  /** The start of a Redis 2.6 INFO reply: a section header, then entries. */
  const ServerSection: seq<string> := ["# Server", "redis_version:2.6.0"]

  /** As written, a reply that starts with a section header is an error,
      however many well-formed lines follow. */
  lemma SectionHeaderFails(now: int)
    ensures ParseLines(ServerSection, now) == Err(MissingColon("# Server"))
  {
    var header: seq<string> := ["# Server"];
    assert ServerSection[..1] == header && header[..0] == [];
    assert ':' !in header[0];
    assert ParseLines(header, now) == Err(MissingColon("# Server"));
  }

  /** The version line of the server section splits at its ':'. */
  lemma VersionLineSplits()
    ensures SplitAtFirstColon("redis_version:2.6.0") == Some(("redis_version", "2.6.0"))
  {
    var name, value := "redis_version", "2.6.0";
    assert "redis_version:2.6.0" == name + ":" + value;
    SplitJoin(name, value);
  }

  /** Skipping lines without ':' reads the entries of the same reply. */
  lemma SectionHeaderSkipped(now: int)
    ensures InfoMetrics(ServerSection, now) == map["redis_version" := MetricValue(now, "2.6.0")]
  {
    var header: seq<string> := ["# Server"];
    assert ServerSection[..1] == header && header[..0] == [];
    assert ':' !in header[0];
    assert InfoMetrics(header, now) == map[];
    VersionLineSplits();
  }

  class RedisMetricsReader {
    /** The configured password; None when the configuration has none. */
    const password: Option<string>
    /** Whether a client is held (the `jedis` field is non-null). */
    var hasClient: bool
    /** Number of clients created so far. */
    var clientsCreated: nat

    constructor (password: Option<string>)
      ensures this.password == password && !hasClient && clientsCreated == 0
    {
      this.password := password;
      hasClient := false;
      clientsCreated := 0;
    }

    /** Whether AUTH is sent and answered with something other than "OK". */
    predicate RejectsAuth(authReply: AuthReply)
    {
      password.Some? && authReply.AuthAnswer? && authReply.text != "OK"
    }

    /** Whether AUTH is sent and raises a connection failure. */
    predicate AuthFails(authReply: AuthReply)
    {
      password.Some? && authReply.AuthConnectionFails?
    }

    /** `reconnectIfNecessary`: creates a client when none is held. A wrong
        password, or a connection failure raised by AUTH (outside the `try`),
        fails after the client is stored; a failing connect drops it. */
    method ReconnectIfNecessary(authReply: AuthReply, connectSucceeds: bool) returns (r: Outcome<ReaderError>)
      modifies this
      ensures old(hasClient) ==> r == Pass && hasClient && clientsCreated == old(clientsCreated)
      ensures !old(hasClient) ==> clientsCreated == old(clientsCreated) + 1
      ensures !old(hasClient) && AuthFails(authReply) ==> r == Fail(ConnectionFailed) && hasClient
      ensures !old(hasClient) && RejectsAuth(authReply) ==> r == Fail(IncorrectPassword(authReply.text)) && hasClient
      ensures !old(hasClient) && !RejectsAuth(authReply) && !AuthFails(authReply) ==>
                hasClient == connectSucceeds && r == (if connectSucceeds then Pass else Fail(OpenFailed))
    {
      if !hasClient {
        hasClient := true;
        clientsCreated := clientsCreated + 1;
        if password.Some? {
          match authReply {
            case AuthConnectionFails =>
              return Fail(ConnectionFailed);
            case AuthAnswer(text) =>
              if text != "OK" {
                return Fail(IncorrectPassword(text));
              }
          }
        }
        if !connectSucceeds {
          hasClient := false;
          return Fail(OpenFailed);
        }
      }
      return Pass;
    }

    method Open(authReply: AuthReply, connectSucceeds: bool) returns (r: Outcome<ReaderError>)
      modifies this
      ensures old(hasClient) ==> r == Pass && hasClient && clientsCreated == old(clientsCreated)
      ensures !old(hasClient) ==> clientsCreated == old(clientsCreated) + 1
      ensures !old(hasClient) && AuthFails(authReply) ==> r == Fail(ConnectionFailed) && hasClient
      ensures !old(hasClient) && RejectsAuth(authReply) ==> r == Fail(IncorrectPassword(authReply.text)) && hasClient
      ensures !old(hasClient) && !RejectsAuth(authReply) && !AuthFails(authReply) ==>
                hasClient == connectSucceeds && r == (if connectSucceeds then Pass else Fail(OpenFailed))
    {
      r := ReconnectIfNecessary(authReply, connectSucceeds);
    }

    /** `disconnect`: drops the client; a failure while disconnecting is
        swallowed, so there is nothing to report. */
    method Disconnect()
      modifies this
      ensures !hasClient && clientsCreated == old(clientsCreated)
    {
      hasClient := false;
    }

    /** `close` keeps the connection. */
    method Close()
      ensures hasClient == old(hasClient) && clientsCreated == old(clientsCreated)
    {
    }

    /** The result `readAllMetrics` gives from a state with or without a
        client, for the given server replies. */
    function ReadResult(hadClient: bool, authReply: AuthReply, connectSucceeds: bool, info: InfoReply, now: int)
        : Result<map<string, MetricValue>, ReaderError>
    {
      if !hadClient && AuthFails(authReply) then Err(ConnectionFailed)
      else if !hadClient && RejectsAuth(authReply) then Err(IncorrectPassword(authReply.text))
      else if !hadClient && !connectSucceeds then Err(OpenFailed)
      else match info
        case InfoConnectionFails => Err(ReadFailed)
        case InfoLines(lines) => ParseLines(lines, now)
    }

    /** `readAllMetrics`: reconnects if needed, then reads INFO at `now`. A
        connection failure during INFO drops the client. */
    method ReadAllMetrics(authReply: AuthReply, connectSucceeds: bool, info: InfoReply, now: int)
        returns (r: Result<map<string, MetricValue>, ReaderError>)
      modifies this
      ensures r == ReadResult(old(hasClient), authReply, connectSucceeds, info, now)
      ensures clientsCreated == old(clientsCreated) + (if old(hasClient) then 0 else 1)
      ensures hasClient <==> (!old(hasClient) && (RejectsAuth(authReply) || AuthFails(authReply)))
                             || ((old(hasClient) || connectSucceeds) && !info.InfoConnectionFails?)
    {
      var connected := ReconnectIfNecessary(authReply, connectSucceeds);
      if connected.Fail? {
        return Err(connected.error);
      }
      match info {
        case InfoConnectionFails =>
          Disconnect();
          return Err(ReadFailed);
        case InfoLines(lines) =>
          r := ParseInfo(lines, now);
      }
    }

    /** `readNames`: the names of a full read. */
    method ReadNames(authReply: AuthReply, connectSucceeds: bool, info: InfoReply, now: int)
        returns (r: Result<set<string>, ReaderError>)
      modifies this
      ensures var all := ReadResult(old(hasClient), authReply, connectSucceeds, info, now);
              r == (if all.Ok? then Ok(all.value.Keys) else Err(all.error))
      ensures clientsCreated == old(clientsCreated) + (if old(hasClient) then 0 else 1)
      ensures hasClient <==> (!old(hasClient) && (RejectsAuth(authReply) || AuthFails(authReply)))
                             || ((old(hasClient) || connectSucceeds) && !info.InfoConnectionFails?)
    {
      var all := ReadAllMetrics(authReply, connectSucceeds, info, now);
      if all.Err? {
        return Err(all.error);
      }
      return Ok(all.value.Keys);
    }
  }

  /** The reader's lifecycle: closing keeps the client, a connection
      failure during a read, or during a read of the names, drops it, the
      next read creates a new one. A
      wrong password, or a connection failure raised by AUTH, fails once, and
      the stored client is then used without a second check. */
  method Scenario()
  {
    var reader := new RedisMetricsReader(None);
    var outcome := reader.Open(AuthAnswer(""), true);
    assert outcome == Pass && reader.clientsCreated == 1;
    reader.Close();
    var read := reader.ReadAllMetrics(AuthAnswer(""), true, InfoConnectionFails, 0);
    assert read == Err(ReadFailed) && !reader.hasClient;
    read := reader.ReadAllMetrics(AuthAnswer(""), true, InfoLines([]), 1);
    assert read == Ok(map[]) && reader.clientsCreated == 2;
    var names := reader.ReadNames(AuthAnswer(""), true, InfoConnectionFails, 2);
    assert names == Err(ReadFailed) && !reader.hasClient;

    var guarded := new RedisMetricsReader(Some("secret"));
    outcome := guarded.Open(AuthAnswer("ERR invalid password"), true);
    assert outcome == Fail(IncorrectPassword("ERR invalid password"));
    outcome := guarded.Open(AuthAnswer("ERR invalid password"), true);
    assert outcome == Pass;

    var unreachable := new RedisMetricsReader(Some("secret"));
    outcome := unreachable.Open(AuthConnectionFails, false);
    assert outcome == Fail(ConnectionFailed) && unreachable.hasClient;
    outcome := unreachable.Open(AuthConnectionFails, false);
    assert outcome == Pass && unreachable.clientsCreated == 1;
  }
}
