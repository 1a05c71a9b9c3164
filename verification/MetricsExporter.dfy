/** Rendering a snapshot of the metrics as a Prometheus text, and what a reader of the format makes of it. */
module MetricsExporter {
  import opened Wrappers
  import opened Text
  import opened Seqs
  import opened PrometheusFormat

  datatype Circuit = Circuit(state: string, failures: Number, successes: Number)

  datatype Queue = Queue(
    tenantId: string, queueName: string,
    waiting: Number, active: Number, completed: Number, failed: Number, delayed: Number)

  // The two records are listed in the order of Object.entries.
  datatype Snapshot = Snapshot(
    tenantsTotal: Number,
    tenantsByStatus: seq<(string, Number)>,
    circuits: seq<(string, Circuit)>,
    queues: seq<Queue>,
    uptimeSeconds: Number)

  const TENANTS_TOTAL := "multitenancy_tenants_total"
  const TENANTS_BY_STATUS := "multitenancy_tenants_by_status"
  const CIRCUIT_STATE := "multitenancy_circuit_state"
  const CIRCUIT_FAILURES := "multitenancy_circuit_failures_total"
  const CIRCUIT_SUCCESSES := "multitenancy_circuit_successes_total"
  const QUEUE_JOBS := "multitenancy_queue_jobs"
  const UPTIME_SECONDS := "multitenancy_uptime_seconds"

  const TENANTS_TOTAL_HELP := "Total tenants registered (excluding hard-deleted)."
  const TENANTS_BY_STATUS_HELP := "Tenants partitioned by status."
  const CIRCUIT_STATE_HELP := "Circuit breaker state (0=CLOSED, 1=HALF_OPEN, 2=OPEN)."
  const CIRCUIT_FAILURES_HELP := "Failed calls observed by the circuit."
  const CIRCUIT_SUCCESSES_HELP := "Successful calls observed by the circuit."
  const QUEUE_JOBS_HELP := "Number of jobs in a tenant queue partitioned by state."
  const UPTIME_SECONDS_HELP := "Process uptime in seconds."

  function StateValue(state: string): Number {
    Finite(if state == "OPEN" then 2.0 else if state == "HALF_OPEN" then 1.0 else 0.0)
  }

  // ---------- What a snapshot says ----------

  function Header(name: string, doc: string, kind: string): seq<Entry> { [Help(name, doc), Type(name, kind)] }

  function Of(name: string, labels: seq<Label>, value: Number): Entry { Sample(name, labels, FiniteOrZero(value)) }

  function StatusEntries(rows: seq<(string, Number)>): seq<Entry> {
    if rows == [] then []
    else [Of(TENANTS_BY_STATUS, [("status", rows[0].0)], rows[0].1)] + StatusEntries(rows[1..])
  }

  function OfCircuit(id: string, m: Circuit): seq<Entry> {
    [Of(CIRCUIT_STATE, [("tenant_id", id)], StateValue(m.state)),
     Of(CIRCUIT_FAILURES, [("tenant_id", id)], m.failures),
     Of(CIRCUIT_SUCCESSES, [("tenant_id", id)], m.successes)]
  }

  function CircuitEntries(rows: seq<(string, Circuit)>): seq<Entry> {
    if rows == [] then [] else OfCircuit(rows[0].0, rows[0].1) + CircuitEntries(rows[1..])
  }

  function QueueLabels(q: Queue, state: string): seq<Label> {
    [("tenant_id", q.tenantId), ("queue", q.queueName), ("state", state)]
  }

  function OfQueue(q: Queue): seq<Entry> {
    [Of(QUEUE_JOBS, QueueLabels(q, "waiting"), q.waiting),
     Of(QUEUE_JOBS, QueueLabels(q, "active"), q.active),
     Of(QUEUE_JOBS, QueueLabels(q, "completed"), q.completed),
     Of(QUEUE_JOBS, QueueLabels(q, "failed"), q.failed),
     Of(QUEUE_JOBS, QueueLabels(q, "delayed"), q.delayed)]
  }

  function QueueEntries(rows: seq<Queue>): seq<Entry> {
    if rows == [] then [] else OfQueue(rows[0]) + QueueEntries(rows[1..])
  }

  function TenantPart(s: Snapshot): seq<Entry> {
    Header(TENANTS_TOTAL, TENANTS_TOTAL_HELP, "gauge")
    + [Of(TENANTS_TOTAL, [], s.tenantsTotal)]
    + Header(TENANTS_BY_STATUS, TENANTS_BY_STATUS_HELP, "gauge")
    + StatusEntries(s.tenantsByStatus)
  }

  function CircuitPart(s: Snapshot): seq<Entry> {
    Header(CIRCUIT_STATE, CIRCUIT_STATE_HELP, "gauge")
    + Header(CIRCUIT_FAILURES, CIRCUIT_FAILURES_HELP, "counter")
    + Header(CIRCUIT_SUCCESSES, CIRCUIT_SUCCESSES_HELP, "counter")
    + CircuitEntries(s.circuits)
  }

  function QueuePart(s: Snapshot): seq<Entry> {
    Header(QUEUE_JOBS, QUEUE_JOBS_HELP, "gauge")
    + QueueEntries(s.queues)
  }

  function UptimePart(s: Snapshot): seq<Entry> {
    Header(UPTIME_SECONDS, UPTIME_SECONDS_HELP, "gauge") + [Of(UPTIME_SECONDS, [], s.uptimeSeconds)]
  }

  /** All that a snapshot has to say, in the order of the text. */
  function Entries(s: Snapshot): seq<Entry> { TenantPart(s) + CircuitPart(s) + QueuePart(s) + UptimePart(s) }

  // ---------- The samples of a snapshot ----------

  predicate StatusSample(e: Entry, status: string, count: Number) {
    e == Sample("multitenancy_tenants_by_status", [("status", status)], FiniteOrZero(count))
  }

  // A sample of a circuit: its state as 0, 1 or 2, its failures or its successes.
  predicate CircuitSample(e: Entry, id: string, m: Circuit) {
    || e == Sample("multitenancy_circuit_state", [("tenant_id", id)],
                   if m.state == "OPEN" then 2.0 else if m.state == "HALF_OPEN" then 1.0 else 0.0)
    || e == Sample("multitenancy_circuit_failures_total", [("tenant_id", id)], FiniteOrZero(m.failures))
    || e == Sample("multitenancy_circuit_successes_total", [("tenant_id", id)], FiniteOrZero(m.successes))
  }

  // A sample of a queue: how many of its jobs are in one of the five states.
  predicate QueueSample(e: Entry, q: Queue) {
    var id, queue := ("tenant_id", q.tenantId), ("queue", q.queueName);
    || e == Sample("multitenancy_queue_jobs", [id, queue, ("state", "waiting")], FiniteOrZero(q.waiting))
    || e == Sample("multitenancy_queue_jobs", [id, queue, ("state", "active")], FiniteOrZero(q.active))
    || e == Sample("multitenancy_queue_jobs", [id, queue, ("state", "completed")], FiniteOrZero(q.completed))
    || e == Sample("multitenancy_queue_jobs", [id, queue, ("state", "failed")], FiniteOrZero(q.failed))
    || e == Sample("multitenancy_queue_jobs", [id, queue, ("state", "delayed")], FiniteOrZero(q.delayed))
  }

  /** The samples among the entries are those of the snapshot's numbers, each under its own name and labels. */
  ghost predicate Reports(s: Snapshot, es: seq<Entry>) {
    forall e: Entry :: e.Sample? ==>
      (e in es <==>
         || e == Sample("multitenancy_tenants_total", [], FiniteOrZero(s.tenantsTotal))
         || e == Sample("multitenancy_uptime_seconds", [], FiniteOrZero(s.uptimeSeconds))
         || (exists k :: 0 <= k < |s.tenantsByStatus| &&
               StatusSample(e, s.tenantsByStatus[k].0, s.tenantsByStatus[k].1))
         || (exists k :: 0 <= k < |s.circuits| && CircuitSample(e, s.circuits[k].0, s.circuits[k].1))
         || (exists k :: 0 <= k < |s.queues| && QueueSample(e, s.queues[k])))
  }

  /** The comments among the entries: one HELP and one TYPE for each metric; the two totals of circuits are counters. */
  ghost predicate Documents(es: seq<Entry>) {
    && (forall name, kind :: Type(name, kind) in es <==>
          || (kind == "counter" && name in {
                "multitenancy_circuit_failures_total", "multitenancy_circuit_successes_total"})
          || (kind == "gauge" && name in {
                "multitenancy_tenants_total", "multitenancy_tenants_by_status", "multitenancy_circuit_state",
                "multitenancy_queue_jobs", "multitenancy_uptime_seconds"}))
    && (forall name, doc :: Help(name, doc) in es <==> (name, doc) in {
          ("multitenancy_tenants_total", "Total tenants registered (excluding hard-deleted)."),
          ("multitenancy_tenants_by_status", "Tenants partitioned by status."),
          ("multitenancy_circuit_state", "Circuit breaker state (0=CLOSED, 1=HALF_OPEN, 2=OPEN)."),
          ("multitenancy_circuit_failures_total", "Failed calls observed by the circuit."),
          ("multitenancy_circuit_successes_total", "Successful calls observed by the circuit."),
          ("multitenancy_queue_jobs", "Number of jobs in a tenant queue partitioned by state."),
          ("multitenancy_uptime_seconds", "Process uptime in seconds.")})
  }

  lemma {:induction false} StatusReported(rows: seq<(string, Number)>, e: Entry)
    ensures e in StatusEntries(rows) <==> exists k :: 0 <= k < |rows| && StatusSample(e, rows[k].0, rows[k].1)
  {
    if rows != [] {
      StatusReported(rows[1..], e);
      Uncons(rows);
      assert forall k :: 0 <= k < |rows[1..]| ==> rows[1..][k] == rows[k + 1];
    }
  }

  lemma OneCircuit(id: string, m: Circuit, e: Entry)
    ensures e in OfCircuit(id, m) <==> CircuitSample(e, id, m)
  {
  }

  lemma {:induction false} CircuitsReported(rows: seq<(string, Circuit)>, e: Entry)
    ensures e in CircuitEntries(rows) <==> exists k :: 0 <= k < |rows| && CircuitSample(e, rows[k].0, rows[k].1)
  {
    hide OfCircuit, CircuitSample;
    if rows != [] {
      OneCircuit(rows[0].0, rows[0].1, e);
      CircuitsReported(rows[1..], e);
      assert forall k :: 0 <= k < |rows[1..]| ==> rows[1..][k] == rows[k + 1];
    }
  }

  lemma OneQueue(q: Queue, e: Entry)
    ensures e in OfQueue(q) <==> QueueSample(e, q)
  {
  }

  lemma {:induction false} QueuesReported(rows: seq<Queue>, e: Entry)
    ensures e in QueueEntries(rows) <==> exists k :: 0 <= k < |rows| && QueueSample(e, rows[k])
  {
    hide OfQueue, QueueSample;
    if rows != [] {
      OneQueue(rows[0], e);
      QueuesReported(rows[1..], e);
      assert forall k :: 0 <= k < |rows[1..]| ==> rows[1..][k] == rows[k + 1];
    }
  }

  lemma {:induction false} OnlySamples(
    statuses: seq<(string, Number)>, circuits: seq<(string, Circuit)>, queues: seq<Queue>, e: Entry)
    requires !e.Sample?
    ensures e !in StatusEntries(statuses) && e !in CircuitEntries(circuits) && e !in QueueEntries(queues)
    decreases |statuses| + |circuits| + |queues|
  {
    if statuses != [] {
      OnlySamples(statuses[1..], circuits, queues, e);
    } else if circuits != [] {
      OnlySamples(statuses, circuits[1..], queues, e);
    } else if queues != [] {
      OnlySamples(statuses, circuits, queues[1..], e);
    }
  }

  // The parts without their samples.
  lemma CommentsOf(s: Snapshot, e: Entry)
    requires !e.Sample?
    ensures e in TenantPart(s) <==>
            e in Header(TENANTS_TOTAL, TENANTS_TOTAL_HELP, "gauge") ||
            e in Header(TENANTS_BY_STATUS, TENANTS_BY_STATUS_HELP, "gauge")
    ensures e in CircuitPart(s) <==>
            e in Header(CIRCUIT_STATE, CIRCUIT_STATE_HELP, "gauge") ||
            e in Header(CIRCUIT_FAILURES, CIRCUIT_FAILURES_HELP, "counter") ||
            e in Header(CIRCUIT_SUCCESSES, CIRCUIT_SUCCESSES_HELP, "counter")
    ensures e in QueuePart(s) <==> e in Header(QUEUE_JOBS, QUEUE_JOBS_HELP, "gauge")
    ensures e in UptimePart(s) <==> e in Header(UPTIME_SECONDS, UPTIME_SECONDS_HELP, "gauge")
  {
    OnlySamples(s.tenantsByStatus, s.circuits, s.queues, e);
    hide Header, StatusEntries, CircuitEntries, QueueEntries;
  }

  lemma EntriesDocument(s: Snapshot)
    ensures Documents(Entries(s))
  {
    forall e: Entry | !e.Sample? ensures e in Entries(s) <==>
      || e in Header(TENANTS_TOTAL, TENANTS_TOTAL_HELP, "gauge")
      || e in Header(TENANTS_BY_STATUS, TENANTS_BY_STATUS_HELP, "gauge")
      || e in Header(CIRCUIT_STATE, CIRCUIT_STATE_HELP, "gauge")
      || e in Header(CIRCUIT_FAILURES, CIRCUIT_FAILURES_HELP, "counter")
      || e in Header(CIRCUIT_SUCCESSES, CIRCUIT_SUCCESSES_HELP, "counter")
      || e in Header(QUEUE_JOBS, QUEUE_JOBS_HELP, "gauge")
      || e in Header(UPTIME_SECONDS, UPTIME_SECONDS_HELP, "gauge")
    {
      CommentsOf(s, e);
      hide TenantPart, CircuitPart, QueuePart, UptimePart, Header;
    }
    hide Entries;
  }

  lemma EntriesReport(s: Snapshot)
    ensures Reports(s, Entries(s))
  {
    hide StatusSample, CircuitSample, QueueSample, StatusEntries, CircuitEntries, QueueEntries;
    forall e: Entry | e.Sample?
      ensures e in TenantPart(s) <==>
              e == Of(TENANTS_TOTAL, [], s.tenantsTotal) || e in StatusEntries(s.tenantsByStatus)
      ensures e in CircuitPart(s) <==> e in CircuitEntries(s.circuits)
      ensures e in QueuePart(s) <==> e in QueueEntries(s.queues)
      ensures e in UptimePart(s) <==> e == Of(UPTIME_SECONDS, [], s.uptimeSeconds)
    {
    }
    hide TenantPart, CircuitPart, QueuePart, UptimePart;
    forall e: Entry | e.Sample?
      ensures e in StatusEntries(s.tenantsByStatus) <==>
              exists k :: 0 <= k < |s.tenantsByStatus| &&
                StatusSample(e, s.tenantsByStatus[k].0, s.tenantsByStatus[k].1)
      ensures e in CircuitEntries(s.circuits) <==>
              exists k :: 0 <= k < |s.circuits| && CircuitSample(e, s.circuits[k].0, s.circuits[k].1)
      ensures e in QueueEntries(s.queues) <==> exists k :: 0 <= k < |s.queues| && QueueSample(e, s.queues[k])
    {
      StatusReported(s.tenantsByStatus, e);
      CircuitsReported(s.circuits, e);
      QueuesReported(s.queues, e);
    }
  }

  // ---------- Rendering ----------

  lemma {:induction false} Named(name: string, metric: bool)
    requires name != "" && !IsDigit(name[0]) && forall i :: 0 <= i < |name| ==> IsNameChar(name[i], metric)
    ensures IsName(name, metric)
  {
    AllNameChars(name, metric);
  }

  lemma {:induction false} AllNameChars(name: string, metric: bool)
    requires forall i :: 0 <= i < |name| ==> IsNameChar(name[i], metric)
    ensures NameRun(name, metric) == |name|
  {
    if name != "" {
      AllNameChars(name[1..], metric);
    }
  }

  lemma MetricNames()
    ensures IsName(TENANTS_TOTAL, true) && IsName(TENANTS_BY_STATUS, true) && IsName(CIRCUIT_STATE, true)
    ensures IsName(CIRCUIT_FAILURES, true) && IsName(CIRCUIT_SUCCESSES, true)
    ensures IsName(QUEUE_JOBS, true) && IsName(UPTIME_SECONDS, true)
  {
    hide IsName;
    Named(TENANTS_TOTAL, true);
    Named(TENANTS_BY_STATUS, true);
    Named(CIRCUIT_STATE, true);
    Named(CIRCUIT_FAILURES, true);
    Named(CIRCUIT_SUCCESSES, true);
    Named(QUEUE_JOBS, true);
    Named(UPTIME_SECONDS, true);
  }

  lemma LabelNames()
    ensures IsName("status", false) && IsName("tenant_id", false) && IsName("queue", false) && IsName("state", false)
  {
    hide IsName;
    Named("status", false);
    Named("tenant_id", false);
    Named("queue", false);
    Named("state", false);
  }

  predicate IsDoc(doc: string) {
    doc != "" && !IsBlank(doc[0]) && forall i :: 0 <= i < |doc| ==> doc[i] != '\n'
  }

  predicate IsPlainKind(kind: string) {
    IsKind(kind) && kind != "" && forall i :: 0 <= i < |kind| ==> !IsBlank(kind[i]) && kind[i] != '\n'
  }

  lemma DocOf(doc: string, a: string, b: string)
    requires doc == a + b && IsDoc(a) && forall i :: 0 <= i < |b| ==> b[i] != '\n'
    ensures IsDoc(doc)
  {
  }

  lemma TotalDoc()
    ensures IsDoc(TENANTS_TOTAL_HELP)
  {
    assert TENANTS_TOTAL_HELP == "Total tenants registered " + "(excluding hard-deleted).";
    DocOf(TENANTS_TOTAL_HELP, "Total tenants registered ", "(excluding hard-deleted).");
    hide IsDoc;
  }

  lemma StateDoc()
    ensures IsDoc(CIRCUIT_STATE_HELP)
  {
    assert CIRCUIT_STATE_HELP == "Circuit breaker state (0=CLOSED, " + "1=HALF_OPEN, 2=OPEN).";
    DocOf(CIRCUIT_STATE_HELP, "Circuit breaker state (0=CLOSED, ", "1=HALF_OPEN, 2=OPEN).");
    hide IsDoc;
  }

  lemma JobsDoc()
    ensures IsDoc(QUEUE_JOBS_HELP)
  {
    assert QUEUE_JOBS_HELP == "Number of jobs in a tenant queue " + "partitioned by state.";
    DocOf(QUEUE_JOBS_HELP, "Number of jobs in a tenant queue ", "partitioned by state.");
    hide IsDoc;
  }

  lemma ShortDocs()
    ensures IsDoc(TENANTS_BY_STATUS_HELP) && IsDoc(CIRCUIT_FAILURES_HELP) && IsDoc(CIRCUIT_SUCCESSES_HELP)
    ensures IsDoc(UPTIME_SECONDS_HELP)
  {
  }

  lemma DocsAndKinds()
    ensures IsDoc(TENANTS_TOTAL_HELP) && IsDoc(TENANTS_BY_STATUS_HELP) && IsDoc(CIRCUIT_STATE_HELP)
    ensures IsDoc(CIRCUIT_FAILURES_HELP) && IsDoc(CIRCUIT_SUCCESSES_HELP)
    ensures IsDoc(QUEUE_JOBS_HELP) && IsDoc(UPTIME_SECONDS_HELP)
    ensures IsPlainKind("gauge") && IsPlainKind("counter")
  {
    hide IsDoc;
    TotalDoc();
    StateDoc();
    JobsDoc();
    ShortDocs();
  }

  // The lines so far say exactly these entries, if their values print, and can be joined.
  ghost predicate Says(
    show: real -> string, number: string -> Option<real>, lines: seq<string>, entries: seq<Entry>)
  {
    PrintsAll(show, number, entries) ==>
      && ReadLines(number, lines) == Some(entries)
      && forall i :: 0 <= i < |lines| ==> '\n' !in lines[i]
  }

  lemma PrintsFewer(show: real -> string, number: string -> Option<real>, entries: seq<Entry>, e: Entry)
    requires PrintsAll(show, number, entries + [e])
    ensures PrintsAll(show, number, entries) && (e.Sample? ==> PrintsBack(show, number, e.value))
  {
    hide PrintsBack;
    var more := entries + [e];
    assert more[|entries|] == e && forall i :: 0 <= i < |entries| ==> more[i] == entries[i];
  }

  lemma SaysMore(
    show: real -> string, number: string -> Option<real>, lines: seq<string>, entries: seq<Entry>,
    line: string, e: Entry)
    requires Says(show, number, lines, entries)
    requires (e.Sample? ==> PrintsBack(show, number, e.value)) ==>
               ReadLine(number, line) == Some([e]) && '\n' !in line
    ensures Says(show, number, lines + [line], entries + [e])
  {
    if PrintsAll(show, number, entries + [e]) {
      PrintsFewer(show, number, entries, e);
      assert ReadLines(number, [line]) == Some([e]) by {
        assert [line][1..] == [];
        AppendNothing([e]);
        hide ReadLine;
      }
      ReadLinesAppend(number, lines, [line]);
      hide ReadLine, ReadLines, PrintsAll;
    }
  }

  lemma NoNewlineInHeader(name: string, doc: string, kind: string)
    requires IsName(name, true) && IsDoc(doc) && IsPlainKind(kind)
    ensures '\n' !in HelpLine(name, doc) && '\n' !in TypeLine(name, kind)
  {
    NoNewlineInName(name, true);
    hide NameRun, IsKind;
  }

  lemma SaysHeader(
    show: real -> string, number: string -> Option<real>, lines: seq<string>, entries: seq<Entry>,
    name: string, doc: string, kind: string)
    requires Says(show, number, lines, entries) && IsName(name, true)
    requires IsDoc(doc) && IsPlainKind(kind)
    ensures Says(show, number, lines + [HelpLine(name, doc)] + [TypeLine(name, kind)],
                 entries + Header(name, doc, kind))
  {
    HelpLineReadsBack(number, name, doc);
    TypeLineReadsBack(number, name, kind);
    hide ReadLine, IsKind, IsName, Says, HelpLine, TypeLine;
    NoNewlineInHeader(name, doc, kind);
    hide IsDoc, IsPlainKind;
    SaysMore(show, number, lines, entries, HelpLine(name, doc), Help(name, doc));
    SaysMore(show, number, lines + [HelpLine(name, doc)], entries + [Help(name, doc)],
             TypeLine(name, kind), Type(name, kind));
    Associative(entries, [Help(name, doc)], [Type(name, kind)]);
    assert [Help(name, doc)] + [Type(name, kind)] == Header(name, doc, kind);
  }

  lemma SaysSample(
    show: real -> string, number: string -> Option<real>, lines: seq<string>, entries: seq<Entry>,
    name: string, labels: seq<Label>, value: Number)
    requires Says(show, number, lines, entries) && IsName(name, true)
    requires forall l :: l in labels ==> IsName(l.0, false)
    ensures Says(show, number, lines + [MetricLine(show, name, labels, value)], entries + [Of(name, labels, value)])
  {
    if PrintsBack(show, number, FiniteOrZero(value)) {
      MetricLineReadsBack(show, number, name, labels, value);
      NoNewlineInMetricLine(show, number, name, labels, value);
    }
    hide ReadLine, Says, MetricLine, IsName, PrintsBack;
    SaysMore(show, number, lines, entries, MetricLine(show, name, labels, value), Of(name, labels, value));
  }

  lemma {:induction false} StatusEntriesAppend(a: seq<(string, Number)>, b: seq<(string, Number)>)
    ensures StatusEntries(a + b) == StatusEntries(a) + StatusEntries(b)
  {
    if a == [] {
      AppendNothing(b);
    } else {
      AppendTail(a, b);
      StatusEntriesAppend(a[1..], b);
    }
  }

  lemma {:induction false} CircuitEntriesAppend(a: seq<(string, Circuit)>, b: seq<(string, Circuit)>)
    ensures CircuitEntries(a + b) == CircuitEntries(a) + CircuitEntries(b)
  {
    if a == [] {
      AppendNothing(b);
    } else {
      AppendTail(a, b);
      CircuitEntriesAppend(a[1..], b);
    }
  }

  lemma {:induction false} QueueEntriesAppend(a: seq<Queue>, b: seq<Queue>)
    ensures QueueEntries(a + b) == QueueEntries(a) + QueueEntries(b)
  {
    if a == [] {
      AppendNothing(b);
    } else {
      AppendTail(a, b);
      QueueEntriesAppend(a[1..], b);
    }
  }

  // lines.push of the two comments of a metric
  method PushHeader(
    ghost show: real -> string, ghost number: string -> Option<real>, lines: seq<string>, ghost said: seq<Entry>,
    name: string, doc: string, kind: string)
    returns (more: seq<string>, ghost says: seq<Entry>)
    requires Says(show, number, lines, said) && IsName(name, true) && IsDoc(doc) && IsPlainKind(kind)
    ensures more == lines + [HelpLine(name, doc)] + [TypeLine(name, kind)]
    ensures says == said + Header(name, doc, kind) && Says(show, number, more, says)
  {
    SaysHeader(show, number, lines, said, name, doc, kind);
    more := lines + [HelpLine(name, doc)] + [TypeLine(name, kind)];
    says := said + Header(name, doc, kind);
  }

  // lines.push(metricLine(name, labels, value))
  method Push(
    show: real -> string, ghost number: string -> Option<real>, lines: seq<string>, ghost said: seq<Entry>,
    name: string, labels: seq<Label>, value: Number)
    returns (more: seq<string>, ghost says: seq<Entry>)
    requires Says(show, number, lines, said) && IsName(name, true)
    requires forall l :: l in labels ==> IsName(l.0, false)
    ensures more == lines + [MetricLine(show, name, labels, value)]
    ensures says == said + [Of(name, labels, value)] && Says(show, number, more, says)
  {
    SaysSample(show, number, lines, said, name, labels, value);
    more := lines + [MetricLine(show, name, labels, value)];
    says := said + [Of(name, labels, value)];
  }

  lemma ReadTextOf(
    show: real -> string, number: string -> Option<real>, lines: seq<string>, said: seq<Entry>)
    requires PrintsAll(show, number, said) && said != [] && Says(show, number, lines, said)
    ensures ReadText(number, Join(lines) + "\n") == Some(said)
  {
    LinesOfJoin(lines);
    var s := Join(lines) + "\n";
    assert s[..|s| - 1] == Join(lines);
    hide ReadLines, Lines, Join;
  }

  // The lines of the tenant counts.
  method RenderTenants(
    show: real -> string, ghost number: string -> Option<real>, lines: seq<string>, ghost said: seq<Entry>,
    snapshot: Snapshot)
    returns (more: seq<string>, ghost says: seq<Entry>)
    requires Says(show, number, lines, said)
    ensures says == said + TenantPart(snapshot) && Says(show, number, more, says)
  {
    MetricNames();
    LabelNames();
    DocsAndKinds();
    hide Says, IsName, IsDoc, IsPlainKind, MetricLine, HelpLine, TypeLine, Of, Header, StateValue;
    more, says := lines, said;
    more, says := PushHeader(show, number, more, says, TENANTS_TOTAL, TENANTS_TOTAL_HELP, "gauge");
    more, says := Push(show, number, more, says, TENANTS_TOTAL, [], snapshot.tenantsTotal);
    more, says := PushHeader(show, number, more, says, TENANTS_BY_STATUS, TENANTS_BY_STATUS_HELP, "gauge");
    ghost var headed := says;
    var rows := snapshot.tenantsByStatus;
    for i := 0 to |rows|
      invariant Says(show, number, more, says) && says == headed + StatusEntries(rows[..i])
    {
      more, says := Push(show, number, more, says, TENANTS_BY_STATUS, [("status", rows[i].0)], rows[i].1);
      StatusEntriesAppend(rows[..i], [rows[i]]);
      assert rows[..i + 1] == rows[..i] + [rows[i]];
    }
    assert rows[..|rows|] == rows;
  }

  // The lines of the circuit breakers.
  method RenderCircuits(
    show: real -> string, ghost number: string -> Option<real>, lines: seq<string>, ghost said: seq<Entry>,
    snapshot: Snapshot)
    returns (more: seq<string>, ghost says: seq<Entry>)
    requires Says(show, number, lines, said)
    ensures says == said + CircuitPart(snapshot) && Says(show, number, more, says)
  {
    MetricNames();
    LabelNames();
    DocsAndKinds();
    hide Says, IsName, IsDoc, IsPlainKind, MetricLine, HelpLine, TypeLine, Of, Header, StateValue;
    more, says := lines, said;
    more, says := PushHeader(show, number, more, says, CIRCUIT_STATE, CIRCUIT_STATE_HELP, "gauge");
    more, says := PushHeader(show, number, more, says, CIRCUIT_FAILURES, CIRCUIT_FAILURES_HELP, "counter");
    more, says := PushHeader(show, number, more, says, CIRCUIT_SUCCESSES, CIRCUIT_SUCCESSES_HELP, "counter");
    ghost var headed := says;
    var rows := snapshot.circuits;
    for i := 0 to |rows|
      invariant Says(show, number, more, says) && says == headed + CircuitEntries(rows[..i])
    {
      var m, labels := rows[i].1, [("tenant_id", rows[i].0)];
      ghost var earlier := says;
      more, says := Push(show, number, more, says, CIRCUIT_STATE, labels, StateValue(m.state));
      more, says := Push(show, number, more, says, CIRCUIT_FAILURES, labels, m.failures);
      more, says := Push(show, number, more, says, CIRCUIT_SUCCESSES, labels, m.successes);
      assert says == earlier + OfCircuit(rows[i].0, m);
      CircuitEntriesAppend(rows[..i], [rows[i]]);
      assert rows[..i + 1] == rows[..i] + [rows[i]];
    }
    assert rows[..|rows|] == rows;
  }

  // The lines of one queue.
  method PushQueue(
    show: real -> string, ghost number: string -> Option<real>, lines: seq<string>, ghost said: seq<Entry>, q: Queue)
    returns (more: seq<string>, ghost says: seq<Entry>)
    requires Says(show, number, lines, said)
    ensures says == said + OfQueue(q) && Says(show, number, more, says)
  {
    MetricNames();
    LabelNames();
    hide Says, IsName, MetricLine, Of;
    more, says := Push(show, number, lines, said, QUEUE_JOBS, QueueLabels(q, "waiting"), q.waiting);
    more, says := Push(show, number, more, says, QUEUE_JOBS, QueueLabels(q, "active"), q.active);
    more, says := Push(show, number, more, says, QUEUE_JOBS, QueueLabels(q, "completed"), q.completed);
    more, says := Push(show, number, more, says, QUEUE_JOBS, QueueLabels(q, "failed"), q.failed);
    more, says := Push(show, number, more, says, QUEUE_JOBS, QueueLabels(q, "delayed"), q.delayed);
  }

  // The lines of the queues.
  method RenderQueues(
    show: real -> string, ghost number: string -> Option<real>, lines: seq<string>, ghost said: seq<Entry>,
    snapshot: Snapshot)
    returns (more: seq<string>, ghost says: seq<Entry>)
    requires Says(show, number, lines, said)
    ensures says == said + QueuePart(snapshot) && Says(show, number, more, says)
  {
    MetricNames();
    LabelNames();
    DocsAndKinds();
    hide Says, IsName, IsDoc, IsPlainKind, MetricLine, HelpLine, TypeLine, Of, Header, StateValue;
    more, says := lines, said;
    more, says := PushHeader(show, number, more, says, QUEUE_JOBS, QUEUE_JOBS_HELP, "gauge");
    ghost var headed := says;
    var rows := snapshot.queues;
    for i := 0 to |rows|
      invariant Says(show, number, more, says) && says == headed + QueueEntries(rows[..i])
    {
      more, says := PushQueue(show, number, more, says, rows[i]);
      QueueEntriesAppend(rows[..i], [rows[i]]);
      assert rows[..i + 1] == rows[..i] + [rows[i]];
    }
    assert rows[..|rows|] == rows;
  }

  // The lines of the uptime.
  method RenderUptime(
    show: real -> string, ghost number: string -> Option<real>, lines: seq<string>, ghost said: seq<Entry>,
    snapshot: Snapshot)
    returns (more: seq<string>, ghost says: seq<Entry>)
    requires Says(show, number, lines, said)
    ensures says == said + UptimePart(snapshot) && Says(show, number, more, says)
  {
    MetricNames();
    LabelNames();
    DocsAndKinds();
    hide Says, IsName, IsDoc, IsPlainKind, MetricLine, HelpLine, TypeLine, Of, Header, StateValue;
    more, says := lines, said;
    more, says := PushHeader(show, number, more, says, UPTIME_SECONDS, UPTIME_SECONDS_HELP, "gauge");
    more, says := Push(show, number, more, says, UPTIME_SECONDS, [], snapshot.uptimeSeconds);
  }

  /**
   * The text of a snapshot. A reader of the format that reads the snapshot's numbers as they were printed recovers all
   * that the snapshot says: every name, label and value, and a value that is not finite as 0. The samples it recovers
   * carry the snapshot's numbers, each under its own name and labels, and there are no others.
   */
  method RenderPrometheus(show: real -> string, ghost number: string -> Option<real>, snapshot: Snapshot)
    returns (text: string)
    ensures PrintsAll(show, number, Entries(snapshot)) ==> ReadText(number, text) == Some(Entries(snapshot))
    ensures PrintsAll(show, number, Entries(snapshot)) ==>
              var read := ReadText(number, text);
              read.Some? && Reports(snapshot, read.value) && Documents(read.value)
  {
    var lines: seq<string> := [];
    ghost var said: seq<Entry> := [];
    assert Says(show, number, lines, said);
    EntriesReport(snapshot);
    EntriesDocument(snapshot);
    hide Says, PrintsAll, TenantPart, CircuitPart, QueuePart, UptimePart, Reports, Documents;
    lines, said := RenderTenants(show, number, lines, said, snapshot);
    lines, said := RenderCircuits(show, number, lines, said, snapshot);
    lines, said := RenderQueues(show, number, lines, said, snapshot);
    lines, said := RenderUptime(show, number, lines, said, snapshot);
    AppendNothing(TenantPart(snapshot));
    if PrintsAll(show, number, said) {
      SomethingSaid(snapshot);
      ReadTextOf(show, number, lines, said);
    }
    text := Join(lines) + "\n";
  }

  lemma SomethingSaid(s: Snapshot)
    ensures Entries(s) != []
  {
    assert UptimePart(s) != [];
  }

  function Ones(n: nat): string { if n == 0 then "" else ['1'] + Ones(n - 1) }

  lemma {:induction false} OnesAreToken(n: nat)
    ensures |Ones(n)| == n && TokenRun(Ones(n)) == n && '\n' !in Ones(n)
  {
    if n > 0 {
      OnesAreToken(n - 1);
      ConsTail('1', Ones(n - 1));
    }
  }

  // Numbers can be printed as so many ones each.
  lemma {:induction false} ValuesPrint(values: seq<real>)
    returns (show: real -> string, number: string -> Option<real>)
    ensures forall v :: v in values ==> PrintsBack(show, number, v) && |show(v)| <= |values|
  {
    if values == [] {
      show, number := (v: real) => "", (s: string) => None;
    } else {
      var v, rest := values[0], values[1..];
      show, number := ValuesPrint(rest);
      Uncons(values);
      if v !in rest {
        var token := Ones(|values|);
        OnesAreToken(|values|);
        assert IsToken(token);
        hide IsToken;
        var show', number' := show, number;
        show := (x: real) => if x == v then token else show'(x);
        number := (s: string) => if s == token then Some(v) else number'(s);
        assert forall x :: x in rest ==> x != v && show'(x) != token;
      }
    }
  }

  function Values(es: seq<Entry>): seq<real> {
    if es == [] then [] else (if es[0].Sample? then [es[0].value] else []) + Values(es[1..])
  }

  lemma {:induction false} ValueListed(es: seq<Entry>, i: nat)
    requires i < |es| && es[i].Sample?
    ensures es[i].value in Values(es)
  {
    if i > 0 { ValueListed(es[1..], i - 1); }
  }

  /** There are ways to print and read the values of any entries. */
  lemma EntriesPrint(es: seq<Entry>) returns (show: real -> string, number: string -> Option<real>)
    ensures PrintsAll(show, number, es)
  {
    show, number := ValuesPrint(Values(es));
    forall i | 0 <= i < |es| && es[i].Sample? ensures es[i].value in Values(es) {
      ValueListed(es, i);
    }
  }

  /** The hypothesis can be met: the numbers of every snapshot can be printed so that they read back. */
  lemma SnapshotPrints(s: Snapshot) returns (show: real -> string, number: string -> Option<real>)
    ensures PrintsAll(show, number, Entries(s))
  {
    show, number := EntriesPrint(Entries(s));
  }
}
