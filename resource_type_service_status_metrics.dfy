/** Counters of the Oracle NoSQL topology: how many services of each
    resource type were seen, and how many of each type were in each service
    status. Every counter starts at zero, and `addMetrics` emits all of them,
    zeros included, as `<type>.count` and `<type>.status.<status>.count`
    with lower-case type and status names.

    The implementation of the counters is not part of this model; their
    behaviour is the one their unit tests pin down. */
module ResourceTypeServiceStatusMetrics {
  import opened Common

  datatype ResourceType = Admin | RepNode | StorageNode

  datatype ServiceStatus =
    | Starting | WaitingForDeploy | Running | Stopping | Stopped
    | ErrorRestarting | ErrorNoRestart | Unreachable | ExpectedRestarting

  const AllTypes: seq<ResourceType> := [Admin, RepNode, StorageNode]
  const AllStatuses: seq<ServiceStatus> :=
    [Starting, WaitingForDeploy, Running, Stopping, Stopped, ErrorRestarting, ErrorNoRestart, Unreachable, ExpectedRestarting]

  function TypeIndex(t: ResourceType): (i: nat)
    ensures i < |AllTypes| && AllTypes[i] == t
  {
    match t
    case Admin => 0
    case RepNode => 1
    case StorageNode => 2
  }

  function StatusIndex(s: ServiceStatus): (i: nat)
    ensures i < |AllStatuses| && AllStatuses[i] == s
  {
    match s
    case Starting => 0
    case WaitingForDeploy => 1
    case Running => 2
    case Stopping => 3
    case Stopped => 4
    case ErrorRestarting => 5
    case ErrorNoRestart => 6
    case Unreachable => 7
    case ExpectedRestarting => 8
  }

  /** The lower-case enum constant name of a resource type. */
  function TypeLabel(t: ResourceType): (l: string)
    ensures '.' !in l
  {
    match t
    case Admin => "admin"
    case RepNode => "rep_node"
    case StorageNode => "storage_node"
  }

  /** The lower-case enum constant name of a service status. */
  function StatusLabel(s: ServiceStatus): (l: string)
    ensures '.' !in l
  {
    match s
    case Starting => "starting"
    case WaitingForDeploy => "waiting_for_deploy"
    case Running => "running"
    case Stopping => "stopping"
    case Stopped => "stopped"
    case ErrorRestarting => "error_restarting"
    case ErrorNoRestart => "error_no_restart"
    case Unreachable => "unreachable"
    case ExpectedRestarting => "expected_restarting"
  }

  function TypeOfLabel(l: string): (r: Option<ResourceType>)
    ensures r.Some? ==> TypeLabel(r.value) == l
  {
    if l == "admin" then Some(Admin)
    else if l == "rep_node" then Some(RepNode)
    else if l == "storage_node" then Some(StorageNode)
    else None
  }

  function StatusOfLabel(l: string): (r: Option<ServiceStatus>)
    ensures r.Some? ==> StatusLabel(r.value) == l
  {
    if l == "starting" then Some(Starting)
    else if l == "waiting_for_deploy" then Some(WaitingForDeploy)
    else if l == "running" then Some(Running)
    else if l == "stopping" then Some(Stopping)
    else if l == "stopped" then Some(Stopped)
    else if l == "error_restarting" then Some(ErrorRestarting)
    else if l == "error_no_restart" then Some(ErrorNoRestart)
    else if l == "unreachable" then Some(Unreachable)
    else if l == "expected_restarting" then Some(ExpectedRestarting)
    else None
  }

  lemma TypeLabelInverse(t: ResourceType)
    ensures TypeOfLabel(TypeLabel(t)) == Some(t)
  {
  }

  lemma StatusLabelInverse(s: ServiceStatus)
    ensures StatusOfLabel(StatusLabel(s)) == Some(s)
  {
  }

  /** One counter: all services of a type, or those of a type in a status. */
  datatype Counter = TypeCount(resourceType: ResourceType) | StatusCount(resourceType: ResourceType, status: ServiceStatus)

  /** The metric name of a counter. */
  function Name(k: Counter): string
  {
    match k
    case TypeCount(t) => TypeLabel(t) + ".count"
    case StatusCount(t, s) => TypeLabel(t) + ".status." + StatusLabel(s) + ".count"
  }

  /** Reads a metric name back into its counter; None for any other name. */
  function Decode(name: string): Option<Counter>
  {
    match IndexOf(name, '.')
    case None => None
    case Some(i) =>
      match TypeOfLabel(name[..i])
      case None => None
      case Some(t) => DecodeAfterType(t, name[i + 1..])
  }

  /** The part of a name after `<type>.`. */
  function DecodeAfterType(t: ResourceType, rest: string): Option<Counter>
  {
    if rest == "count" then Some(TypeCount(t))
    else if |rest| > 7 && rest[..7] == "status." then DecodeStatus(t, rest[7..])
    else None
  }

  /** The part of a name after `<type>.status.`. */
  function DecodeStatus(t: ResourceType, tail: string): Option<Counter>
  {
    match IndexOf(tail, '.')
    case None => None
    case Some(j) =>
      match StatusOfLabel(tail[..j])
      case None => None
      case Some(s) => if tail[j + 1..] == "count" then Some(StatusCount(t, s)) else None
  }

  lemma DecodeTypePrefix(t: ResourceType, rest: string)
    ensures Decode(TypeLabel(t) + ['.'] + rest) == DecodeAfterType(t, rest)
  {
    var name := TypeLabel(t) + ['.'] + rest;
    IndexOfAfter(TypeLabel(t), '.', rest);
    assert name[..|TypeLabel(t)|] == TypeLabel(t);
    assert name[|TypeLabel(t)| + 1..] == rest;
    TypeLabelInverse(t);
  }

  lemma DecodeStatusName(t: ResourceType, s: ServiceStatus)
    ensures DecodeStatus(t, StatusLabel(s) + ['.'] + "count") == Some(StatusCount(t, s))
  {
    var tail := StatusLabel(s) + ['.'] + "count";
    IndexOfAfter(StatusLabel(s), '.', "count");
    assert tail[..|StatusLabel(s)|] == StatusLabel(s);
    assert tail[|StatusLabel(s)| + 1..] == "count";
    StatusLabelInverse(s);
  }

  /** Decoding inverts naming. */
  lemma DecodeName(k: Counter)
    ensures Decode(Name(k)) == Some(k)
  {
    match k
    case TypeCount(t) =>
      assert Name(k) == TypeLabel(t) + ['.'] + "count";
      DecodeTypePrefix(t, "count");
    case StatusCount(t, s) =>
      var tail := StatusLabel(s) + ['.'] + "count";
      var rest := "status." + tail;
      assert Name(k) == TypeLabel(t) + ['.'] + rest;
      DecodeTypePrefix(t, rest);
      assert rest != "count" by {
        assert |rest| > 5;
      }
      assert rest[..7] == "status." && rest[7..] == tail;
      DecodeStatusName(t, s);
  }

  /** No two counters share a metric name. */
  lemma NameInjective(a: Counter, b: Counter)
    ensures Name(a) == Name(b) ==> a == b
  {
    DecodeName(a);
    DecodeName(b);
  }

  /** Whether an `add(type, status)` call counts towards a counter. */
  predicate Counts(entry: (ResourceType, ServiceStatus), k: Counter)
  {
    match k
    case TypeCount(t) => entry.0 == t
    case StatusCount(t, s) => entry == (t, s)
  }

  /** The number of `add` calls in `added` that count towards `k`. */
  function Tally(added: seq<(ResourceType, ServiceStatus)>, k: Counter): nat
  {
    if added == [] then 0
    else Tally(added[..|added| - 1], k) + (if Counts(added[|added| - 1], k) then 1 else 0)
  }

  lemma {:induction false} StatusSumNone(t: ResourceType, statuses: seq<ServiceStatus>)
    ensures StatusSum([], t, statuses) == 0
  {
    if statuses != [] {
      StatusSumNone(t, statuses[1..]);
    }
  }

  /** A type's count is the sum of its status counts. */
  lemma {:induction false} TypeCountIsSumOfStatuses(added: seq<(ResourceType, ServiceStatus)>, t: ResourceType)
    ensures Tally(added, TypeCount(t)) == StatusSum(added, t, AllStatuses)
  {
    if added != [] {
      var init, e := added[..|added| - 1], added[|added| - 1];
      assert added == init + [e];
      TypeCountIsSumOfStatuses(init, t);
      StatusSumStep(init, e, t, AllStatuses);
      if e.0 == t {
        CountOnce(AllStatuses, e.1);
      }
    } else {
      StatusSumNone(t, AllStatuses);
    }
  }

  /** The sum of the status counters of `t` over `statuses`. */
  function StatusSum(added: seq<(ResourceType, ServiceStatus)>, t: ResourceType, statuses: seq<ServiceStatus>): nat
  {
    if statuses == [] then 0 else Tally(added, StatusCount(t, statuses[0])) + StatusSum(added, t, statuses[1..])
  }

  lemma {:induction false} StatusSumStep(added: seq<(ResourceType, ServiceStatus)>, e: (ResourceType, ServiceStatus), t: ResourceType,
                                         statuses: seq<ServiceStatus>)
    ensures StatusSum(added + [e], t, statuses)
         == StatusSum(added, t, statuses) + (if e.0 == t then Count(statuses, e.1) else 0)
  {
    if statuses != [] {
      assert (added + [e])[..|added + [e]| - 1] == added;
      StatusSumStep(added, e, t, statuses[1..]);
    }
  }

  /** An element of a list without repetitions occurs in it once. */
  lemma {:induction false} CountDistinct<T>(xs: seq<T>, i: nat)
    requires i < |xs| && forall a, b :: 0 <= a < b < |xs| ==> xs[a] != xs[b]
    ensures Count(xs, xs[i]) == 1
  {
    if i == 0 {
      assert xs[0] !in xs[1..] by {
        forall b | 0 <= b < |xs[1..]|
          ensures xs[1..][b] != xs[0]
        {
          assert xs[1..][b] == xs[b + 1];
        }
      }
      CountAbsent(xs[1..], xs[0]);
    } else {
      assert xs[1..][i - 1] == xs[i];
      CountDistinct(xs[1..], i - 1);
    }
  }

  /** Each status occurs exactly once in the list of all statuses. */
  lemma CountOnce(statuses: seq<ServiceStatus>, s: ServiceStatus)
    requires statuses == AllStatuses
    ensures Count(statuses, s) == 1
  {
    CountDistinct(statuses, StatusIndex(s));
  }

  lemma TypeAt(i: nat)
    requires i < |AllTypes|
    ensures TypeIndex(AllTypes[i]) == i
  {
    if i == 0 {} else if i == 1 {} else {}
  }

  lemma StatusAt(j: nat)
    requires j < |AllStatuses|
    ensures StatusIndex(AllStatuses[j]) == j
  {
    if j == 0 {} else if j == 1 {} else if j == 2 {} else if j == 3 {} else if j == 4 {}
    else if j == 5 {} else if j == 6 {} else if j == 7 {} else {}
  }

  ghost function NamesOf(written: set<Counter>): set<string>
  {
    set k | k in written :: Name(k)
  }

  /** After the counters in `written` are emitted into `r`, which started
      as `result`: those carry their tallies, every other name is as it was,
      and nothing else was added. */
  ghost predicate Emitted(added: seq<(ResourceType, ServiceStatus)>, result: map<string, int>, r: map<string, int>, written: set<Counter>)
  {
    && (forall k :: k in written ==> Name(k) in r && r[Name(k)] == Tally(added, k))
    && r.Keys == result.Keys + NamesOf(written)
    && (forall n :: n in result && n !in NamesOf(written) ==> r[n] == result[n])
  }

  lemma EmitStep(added: seq<(ResourceType, ServiceStatus)>, result: map<string, int>, r: map<string, int>, written: set<Counter>,
                 k: Counter)
    requires Emitted(added, result, r, written) && k !in written
    ensures Emitted(added, result, r[Name(k) := Tally(added, k)], written + {k})
  {
    var next := r[Name(k) := Tally(added, k)];
    forall k' | k' in written + {k}
      ensures Name(k') in next && next[Name(k')] == Tally(added, k')
    {
      if k' != k {
        NameInjective(k', k);
      }
    }
    assert NamesOf(written + {k}) == NamesOf(written) + {Name(k)};
    assert next.Keys == r.Keys + {Name(k)};
    forall n | n in result && n !in NamesOf(written + {k})
      ensures next[n] == result[n]
    {
      assert n != Name(k) && n !in NamesOf(written);
    }
  }

  class ResourceTypeServiceStatusMetrics {
    /** The `add` calls made so far. */
    ghost var added: seq<(ResourceType, ServiceStatus)>
    /** The counters that have been incremented; a missing one is zero. */
    var counts: map<Counter, nat>

    /** The value of a counter. */
    function Get(k: Counter): nat
      reads this
    {
      if k in counts then counts[k] else 0
    }

    ghost predicate Valid()
      reads this
    {
      forall k :: Get(k) == Tally(added, k)
    }

    constructor ()
      ensures Valid() && added == []
      ensures forall k :: Get(k) == 0
    {
      added := [];
      counts := map[];
    }

    /** `add(type, status)`: one more service of that type in that status. */
    method Add(t: ResourceType, s: ServiceStatus)
      requires Valid()
      modifies this
      ensures Valid() && added == old(added) + [(t, s)]
      ensures forall k :: Get(k) == old(Get(k)) + (if Counts((t, s), k) then 1 else 0)
    {
      var typeCount := Get(TypeCount(t));
      var statusCount := Get(StatusCount(t, s));
      counts := counts[TypeCount(t) := typeCount + 1][StatusCount(t, s) := statusCount + 1];
      added := added + [(t, s)];
      assert added[..|added| - 1] == old(added);
    }

    /** `addMetrics`: puts every counter into `result` under its name. */
    method AddMetrics(result: map<string, int>) returns (r: map<string, int>)
      requires Valid()
      ensures forall k :: Name(k) in r && r[Name(k)] == Tally(added, k)
      ensures forall n :: n in r ==> n in result || exists k :: Name(k) == n
      ensures forall n :: n in result && (forall k :: Name(k) != n) ==> n in r && r[n] == result[n]
    {
      r := result;
      ghost var written: set<Counter> := {};
      var i := 0;
      while i < |AllTypes|
        invariant 0 <= i <= |AllTypes|
        invariant forall k :: k in written <==> TypeIndex(k.resourceType) < i
        invariant Emitted(added, result, r, written)
      {
        var t := AllTypes[i];
        TypeAt(i);
        EmitStep(added, result, r, written, TypeCount(t));
        assert Get(TypeCount(t)) == Tally(added, TypeCount(t));
        r := r[Name(TypeCount(t)) := Get(TypeCount(t))];
        written := written + {TypeCount(t)};
        var j := 0;
        while j < |AllStatuses|
          invariant 0 <= j <= |AllStatuses|
          invariant forall k :: k in written <==>
                      TypeIndex(k.resourceType) < i || (TypeIndex(k.resourceType) == i && (k.TypeCount? || StatusIndex(k.status) < j))
          invariant Emitted(added, result, r, written)
        {
          var s := AllStatuses[j];
          StatusAt(j);
          EmitStep(added, result, r, written, StatusCount(t, s));
          assert Get(StatusCount(t, s)) == Tally(added, StatusCount(t, s));
          r := r[Name(StatusCount(t, s)) := Get(StatusCount(t, s))];
          written := written + {StatusCount(t, s)};
          j := j + 1;
        }
        i := i + 1;
      }
      assert forall k :: k in written;
    }
  }

  /** The name the unit test reads the number of admin services under. */
  lemma AdminCountName()
    ensures Name(TypeCount(Admin)) == "admin.count"
  {
    assert TypeLabel(Admin) + ".count" == "admin.count";
  }

  /** The name the unit test reads the running replication nodes under. */
  lemma RepNodeRunningName()
    ensures Name(StatusCount(RepNode, Running)) == "rep_node.status.running.count"
  {
    assert TypeLabel(RepNode) + ".status." == "rep_node.status.";
    assert "rep_node.status." + StatusLabel(Running) == "rep_node.status.running";
    assert "rep_node.status.running" + ".count" == "rep_node.status.running.count";
  }

  /** The services of the standard unit test: two admins, three replication
      nodes and two storage nodes, in the statuses the test adds them with. */
  method StandardServices() returns (testee: ResourceTypeServiceStatusMetrics)
    ensures fresh(testee) && testee.Valid()
    ensures testee.Get(TypeCount(Admin)) == 2 && testee.Get(TypeCount(RepNode)) == 3 && testee.Get(TypeCount(StorageNode)) == 2
    ensures testee.Get(StatusCount(RepNode, Running)) == 2 && testee.Get(StatusCount(RepNode, Stopped)) == 1
    ensures testee.Get(StatusCount(RepNode, Starting)) == 0
    ensures testee.Get(StatusCount(StorageNode, Unreachable)) == 1 && testee.Get(StatusCount(Admin, ErrorNoRestart)) == 1
    ensures testee.Get(StatusCount(Admin, Stopped)) == 0
  {
    testee := new ResourceTypeServiceStatusMetrics();
    testee.Add(Admin, Running);
    testee.Add(Admin, ErrorNoRestart);
    testee.Add(RepNode, Running);
    testee.Add(RepNode, Stopped);
    testee.Add(RepNode, Running);
    testee.Add(StorageNode, Running);
    testee.Add(StorageNode, Unreachable);
  }

  /** The standard unit test, type counts. */
  method StandardScenarioTypeCounts()
  {
    var testee := StandardServices();
    var result := testee.AddMetrics(map[]);
    AdminCountName();
    assert result["admin.count"] == 2;
    assert result[Name(TypeCount(RepNode))] == 3;
    assert result[Name(TypeCount(StorageNode))] == 2;
  }

  /** The standard unit test, status counts: added statuses are counted per
      type, and a status never added is emitted with zero. */
  method StandardScenarioStatusCounts()
  {
    var testee := StandardServices();
    var result := testee.AddMetrics(map[]);
    RepNodeRunningName();
    assert result["rep_node.status.running.count"] == 2;
    assert result[Name(StatusCount(RepNode, Stopped))] == 1;
    assert result[Name(StatusCount(RepNode, Starting))] == 0;
    assert result[Name(StatusCount(StorageNode, Unreachable))] == 1;
    assert result[Name(StatusCount(Admin, ErrorNoRestart))] == 1;
    assert result[Name(StatusCount(Admin, Stopped))] == 0;
  }

  /** The empty unit test: every counter is emitted with zero. */
  method NoneScenario()
  {
    var testee := new ResourceTypeServiceStatusMetrics();
    var result := testee.AddMetrics(map[]);
    assert forall k :: result[Name(k)] == 0;
  }
}
