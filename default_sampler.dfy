/** The sampler: one reader, the selectors that pick metrics from it and
    the writers that receive them. A sample opens the reader, lets every
    selector read from it, opens every writer, writes the selected metrics
    to every writer, closes every writer, and closes the reader.

    The implementation of the sampler is not part of this model: it follows
    the call counts its unit test checks. The order across writers is an
    assumption of the model: all writers are opened, then all are written,
    then all are closed, one after another in registration order; the first
    writer failure is reported after every writer is closed. Readers,
    selectors and writers are identities; a sample is observed through the
    calls it makes on them. */
module DefaultSampler {
  import opened Common

  datatype SelectorId = SelectorId(id: nat)
  datatype WriterId = WriterId(id: nat)

  type Metrics = map<string, string>

  /** A call the sampler makes on a collaborator. */
  datatype Event =
    | ReaderOpened
    | ReaderClosed
    | SelectorRead(selector: SelectorId)
    | WriterOpened(writer: WriterId)
    | WriterWrote(writer: WriterId, metrics: Metrics)
    | WriterClosed(writer: WriterId)

  /** The first failure of a sample: the first writer whose write failed. */
  datatype SampleError = WriteFailed(writer: WriterId)

  /** `readMetrics(reader)` on each selector, in order. */
  function Reads(selectors: seq<SelectorId>): seq<Event>
  {
    if selectors == [] then [] else Reads(selectors[..|selectors| - 1]) + [SelectorRead(selectors[|selectors| - 1])]
  }

  function Opens(writers: seq<WriterId>): seq<Event>
  {
    if writers == [] then [] else Opens(writers[..|writers| - 1]) + [WriterOpened(writers[|writers| - 1])]
  }

  function Writes(writers: seq<WriterId>, metrics: Metrics): seq<Event>
  {
    if writers == [] then [] else Writes(writers[..|writers| - 1], metrics) + [WriterWrote(writers[|writers| - 1], metrics)]
  }

  function Closes(writers: seq<WriterId>): seq<Event>
  {
    if writers == [] then [] else Closes(writers[..|writers| - 1]) + [WriterClosed(writers[|writers| - 1])]
  }

  /** The metrics of all selectors; a later selector's value wins. */
  function Merge(selectors: seq<SelectorId>, selected: SelectorId -> Metrics): Metrics
  {
    if selectors == [] then map[]
    else Merge(selectors[..|selectors| - 1], selected) + selected(selectors[|selectors| - 1])
  }

  /** The first writer, in registration order, whose write fails. */
  function FirstFailing(writers: seq<WriterId>, failing: set<WriterId>): (r: Option<WriterId>)
    ensures r.None? <==> forall i :: 0 <= i < |writers| ==> writers[i] !in failing
    ensures r.Some? ==> r.value in failing && r.value in writers
  {
    if writers == [] then None
    else match FirstFailing(writers[..|writers| - 1], failing)
      case Some(w) => Some(w)
      case None => if writers[|writers| - 1] in failing then Some(writers[|writers| - 1]) else None
  }

  /** The calls of one sample, in order. */
  function SampleEvents(selectors: seq<SelectorId>, writers: seq<WriterId>, metrics: Metrics): seq<Event>
  {
    [ReaderOpened] + Reads(selectors) + Opens(writers) + Writes(writers, metrics) + Closes(writers) + [ReaderClosed]
  }

  lemma {:induction false} ReadsCount(selectors: seq<SelectorId>, e: Event)
    ensures Count(Reads(selectors), e) == if e.SelectorRead? then Count(selectors, e.selector) else 0
  {
    if selectors != [] {
      var init, last := selectors[..|selectors| - 1], selectors[|selectors| - 1];
      ReadsCount(init, e);
      CountAppend(Reads(init), [SelectorRead(last)], e);
      if e.SelectorRead? {
        assert selectors == init + [last];
        CountAppend(init, [last], e.selector);
      }
    }
  }

  lemma {:induction false} OpensCount(writers: seq<WriterId>, e: Event)
    ensures Count(Opens(writers), e) == if e.WriterOpened? then Count(writers, e.writer) else 0
  {
    if writers != [] {
      var init, last := writers[..|writers| - 1], writers[|writers| - 1];
      OpensCount(init, e);
      CountAppend(Opens(init), [WriterOpened(last)], e);
      if e.WriterOpened? {
        assert writers == init + [last];
        CountAppend(init, [last], e.writer);
      }
    }
  }

  lemma {:induction false} WritesCount(writers: seq<WriterId>, metrics: Metrics, e: Event)
    ensures Count(Writes(writers, metrics), e) == if e.WriterWrote? && e.metrics == metrics then Count(writers, e.writer) else 0
  {
    if writers != [] {
      var init, last := writers[..|writers| - 1], writers[|writers| - 1];
      WritesCount(init, metrics, e);
      CountAppend(Writes(init, metrics), [WriterWrote(last, metrics)], e);
      if e.WriterWrote? {
        assert writers == init + [last];
        CountAppend(init, [last], e.writer);
      }
    }
  }

  lemma {:induction false} ClosesCount(writers: seq<WriterId>, e: Event)
    ensures Count(Closes(writers), e) == if e.WriterClosed? then Count(writers, e.writer) else 0
  {
    if writers != [] {
      var init, last := writers[..|writers| - 1], writers[|writers| - 1];
      ClosesCount(init, e);
      CountAppend(Closes(init), [WriterClosed(last)], e);
      if e.WriterClosed? {
        assert writers == init + [last];
        CountAppend(init, [last], e.writer);
      }
    }
  }

  /** How often one sample makes each call: the reader is opened and closed
      once, each selector reads once per registration, and each writer is
      opened, written and closed once per registration. */
  lemma SampleCounts(selectors: seq<SelectorId>, writers: seq<WriterId>, metrics: Metrics, e: Event)
    ensures Count(SampleEvents(selectors, writers, metrics), e) ==
      match e
      case ReaderOpened => 1
      case ReaderClosed => 1
      case SelectorRead(s) => Count(selectors, s)
      case WriterOpened(w) => Count(writers, w)
      case WriterWrote(w, m) => if m == metrics then Count(writers, w) else 0
      case WriterClosed(w) => Count(writers, w)
  {
    var selectorReads, opens, writes, closes := Reads(selectors), Opens(writers), Writes(writers, metrics), Closes(writers);
    ReadsCount(selectors, e);
    OpensCount(writers, e);
    WritesCount(writers, metrics, e);
    ClosesCount(writers, e);
    CountAppend([ReaderOpened], selectorReads, e);
    CountAppend([ReaderOpened] + selectorReads, opens, e);
    CountAppend([ReaderOpened] + selectorReads + opens, writes, e);
    CountAppend([ReaderOpened] + selectorReads + opens + writes, closes, e);
    CountAppend([ReaderOpened] + selectorReads + opens + writes + closes, [ReaderClosed], e);
  }

  /** The reader is opened first and closed last. */
  lemma SampleBracketedByReader(selectors: seq<SelectorId>, writers: seq<WriterId>, metrics: Metrics)
    ensures var events := SampleEvents(selectors, writers, metrics);
            events[0] == ReaderOpened && events[|events| - 1] == ReaderClosed
  {
  }

  /** The stages of a sample, appended one after another, are its calls. */
  lemma ConcatSample(before: seq<Event>, afterReads: seq<Event>, afterOpens: seq<Event>, afterWrites: seq<Event>,
                     afterCloses: seq<Event>, after: seq<Event>,
                     selectors: seq<SelectorId>, writers: seq<WriterId>, metrics: Metrics)
    requires afterReads == before + [ReaderOpened] + Reads(selectors)
    requires afterOpens == afterReads + Opens(writers)
    requires afterWrites == afterOpens + Writes(writers, metrics)
    requires afterCloses == afterWrites + Closes(writers)
    requires after == afterCloses + [ReaderClosed]
    ensures after == before + SampleEvents(selectors, writers, metrics)
  {
  }

  class DefaultSampler {
    /** The placeholder variables the sampler was created with. */
    const placeholders: map<string, string>
    var selectors: seq<SelectorId>
    var writers: seq<WriterId>
    /** The calls made on the reader, selectors and writers, oldest first. */
    var events: seq<Event>

    constructor (placeholders: map<string, string>)
      ensures this.placeholders == placeholders && selectors == [] && writers == [] && events == []
    {
      this.placeholders := placeholders;
      selectors := [];
      writers := [];
      events := [];
    }

    method AddWriter(writer: WriterId)
      modifies this
      ensures writers == old(writers) + [writer] && selectors == old(selectors) && events == old(events)
    {
      writers := writers + [writer];
    }

    method AddSelector(selector: SelectorId)
      modifies this
      ensures selectors == old(selectors) + [selector] && writers == old(writers) && events == old(events)
    {
      selectors := selectors + [selector];
    }

    /** Lets every selector read from the open reader, in registration
        order, and merges what they return. */
    method ReadSelectors(selected: SelectorId -> Metrics) returns (metrics: Metrics)
      modifies this
      ensures selectors == old(selectors) && writers == old(writers)
      ensures metrics == Merge(selectors, selected)
      ensures events == old(events) + Reads(selectors)
    {
      metrics := map[];
      var i := 0;
      while i < |selectors|
        invariant 0 <= i <= |selectors|
        invariant selectors == old(selectors) && writers == old(writers)
        invariant metrics == Merge(selectors[..i], selected)
        invariant events == old(events) + Reads(selectors[..i])
      {
        assert selectors[..i + 1][..i] == selectors[..i];
        metrics := metrics + selected(selectors[i]);
        events := events + [SelectorRead(selectors[i])];
        i := i + 1;
      }
      assert selectors[..i] == selectors;
    }

    /** Opens every writer, in registration order. */
    method OpenWriters()
      modifies this
      ensures selectors == old(selectors) && writers == old(writers)
      ensures events == old(events) + Opens(writers)
    {
      var j := 0;
      while j < |writers|
        invariant 0 <= j <= |writers|
        invariant selectors == old(selectors) && writers == old(writers)
        invariant events == old(events) + Opens(writers[..j])
      {
        assert writers[..j + 1][..j] == writers[..j];
        events := events + [WriterOpened(writers[j])];
        j := j + 1;
      }
      assert writers[..j] == writers;
    }

    /** Writes the metrics to every writer; a failing write is remembered
        and the next writer is still written. */
    method WriteAll(metrics: Metrics, failing: set<WriterId>) returns (firstFailure: Option<WriterId>)
      modifies this
      ensures selectors == old(selectors) && writers == old(writers)
      ensures events == old(events) + Writes(writers, metrics)
      ensures firstFailure == FirstFailing(writers, failing)
    {
      firstFailure := None;
      var j := 0;
      while j < |writers|
        invariant 0 <= j <= |writers|
        invariant selectors == old(selectors) && writers == old(writers)
        invariant events == old(events) + Writes(writers[..j], metrics)
        invariant firstFailure == FirstFailing(writers[..j], failing)
      {
        assert writers[..j + 1][..j] == writers[..j];
        events := events + [WriterWrote(writers[j], metrics)];
        if writers[j] in failing && firstFailure.None? {
          firstFailure := Some(writers[j]);
        }
        j := j + 1;
      }
      assert writers[..j] == writers;
    }

    /** Closes every writer, in registration order, whatever their writes did. */
    method CloseWriters()
      modifies this
      ensures selectors == old(selectors) && writers == old(writers)
      ensures events == old(events) + Closes(writers)
    {
      var j := 0;
      while j < |writers|
        invariant 0 <= j <= |writers|
        invariant selectors == old(selectors) && writers == old(writers)
        invariant events == old(events) + Closes(writers[..j])
      {
        assert writers[..j + 1][..j] == writers[..j];
        events := events + [WriterClosed(writers[j])];
        j := j + 1;
      }
      assert writers[..j] == writers;
    }

    /** `sample()`. `selected` is what each selector's `readMetrics` returns;
        writing to a writer in `failing` throws. A failing write does not keep
        the other writers from being written and closed; the first failure is
        reported once everything is closed. */
    method Sample(selected: SelectorId -> Metrics, failing: set<WriterId>) returns (r: Outcome<SampleError>)
      modifies this
      ensures selectors == old(selectors) && writers == old(writers)
      ensures events == old(events) + SampleEvents(selectors, writers, Merge(selectors, selected))
      ensures r == match FirstFailing(writers, failing) case None => Pass case Some(w) => Fail(WriteFailed(w))
    {
      ghost var before := events;
      events := events + [ReaderOpened];
      var metrics := ReadSelectors(selected);
      ghost var afterReads := events;
      OpenWriters();
      ghost var afterOpens := events;
      var firstFailure := WriteAll(metrics, failing);
      ghost var afterWrites := events;
      CloseWriters();
      ghost var afterCloses := events;
      events := events + [ReaderClosed];
      ConcatSample(before, afterReads, afterOpens, afterWrites, afterCloses, events, selectors, writers, metrics);
      match firstFailure {
        case None => r := Pass;
        case Some(w) => r := Fail(WriteFailed(w));
      }
    }
  }

  lemma CountOfPair<T>(a: T, b: T, x: T)
    ensures Count([a, b], x) == (if a == x then 1 else 0) + (if b == x then 1 else 0)
  {
    assert [b][1..] == [];
    assert Count([b], x) == if b == x then 1 else 0;
    assert [a, b][1..] == [b];
  }

  /** The unit test: a bulk reader, two writers and two selectors; one sample
      opens and closes the reader once, lets each selector read once, and
      opens and closes each writer once. */
  method SampleBulkScenario(selected: SelectorId -> Metrics)
  {
    var testee := new DefaultSampler(map[]);
    var writer1, writer2 := WriterId(1), WriterId(2);
    var transformer1, transformer2 := SelectorId(1), SelectorId(2);
    testee.AddWriter(writer1);
    testee.AddWriter(writer2);
    testee.AddSelector(transformer1);
    testee.AddSelector(transformer2);
    var outcome := testee.Sample(selected, {});
    assert outcome == Pass;
    var selectors, writers := [transformer1, transformer2], [writer1, writer2];
    assert testee.selectors == selectors && testee.writers == writers;
    var metrics := Merge(selectors, selected);
    var events := SampleEvents(selectors, writers, metrics);
    assert testee.events == events;
    SampleCounts(selectors, writers, metrics, ReaderOpened);
    SampleCounts(selectors, writers, metrics, ReaderClosed);
    assert Count(events, ReaderOpened) == 1 && Count(events, ReaderClosed) == 1;
    CountOfPair(transformer1, transformer2, transformer1);
    CountOfPair(transformer1, transformer2, transformer2);
    SampleCounts(selectors, writers, metrics, SelectorRead(transformer1));
    SampleCounts(selectors, writers, metrics, SelectorRead(transformer2));
    assert Count(events, SelectorRead(transformer1)) == 1 && Count(events, SelectorRead(transformer2)) == 1;
    CountOfPair(writer1, writer2, writer1);
    CountOfPair(writer1, writer2, writer2);
    SampleCounts(selectors, writers, metrics, WriterOpened(writer1));
    SampleCounts(selectors, writers, metrics, WriterClosed(writer1));
    assert Count(events, WriterOpened(writer1)) == 1 && Count(events, WriterClosed(writer1)) == 1;
    SampleCounts(selectors, writers, metrics, WriterOpened(writer2));
    SampleCounts(selectors, writers, metrics, WriterClosed(writer2));
    assert Count(events, WriterOpened(writer2)) == 1 && Count(events, WriterClosed(writer2)) == 1;
  }
}
