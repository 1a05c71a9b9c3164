/** What the Prometheus text format asks of an exposition as a whole, and when the rendered snapshot meets it. */
module MetricsLaws {
  import opened Seqs
  import opened PrometheusFormat
  import opened MetricsExporter

  // ---------- One TYPE line, ahead of the samples ----------

  // Read from the top, when the given metrics have their TYPE line already.
  predicate TypedFirst(es: seq<Entry>, typed: set<string>) {
    if es == [] then true
    else
      match es[0]
      case Help(_, _) => TypedFirst(es[1..], typed)
      case Type(name, _) => name !in typed && TypedFirst(es[1..], typed + {name})
      case Sample(name, _, _) => name in typed && TypedFirst(es[1..], typed)
  }

  function Types(es: seq<Entry>): set<string> {
    if es == [] then {} else (if es[0].Type? then {es[0].name} else {}) + Types(es[1..])
  }

  lemma {:induction false} TypedFirstAppend(a: seq<Entry>, b: seq<Entry>, typed: set<string>)
    ensures TypedFirst(a + b, typed) <==> TypedFirst(a, typed) && TypedFirst(b, typed + Types(a))
    ensures Types(a + b) == Types(a) + Types(b)
  {
    if a == [] {
      AppendNothing(b);
      assert typed + Types(a) == typed;
    } else {
      AppendTail(a, b);
      var here := if a[0].Type? then {a[0].name} else {};
      TypedFirstAppend(a[1..], b, typed + here);
      assert typed + here + Types(a[1..]) == typed + Types(a);
      if !a[0].Type? { assert typed + here == typed; }
    }
  }

  // Samples only, of these metrics.
  predicate SamplesOf(es: seq<Entry>, names: set<string>) {
    forall i :: 0 <= i < |es| ==> es[i].Sample? && es[i].name in names
  }

  lemma {:induction false} SamplesAreTyped(es: seq<Entry>, names: set<string>, typed: set<string>)
    requires SamplesOf(es, names) && names <= typed
    ensures TypedFirst(es, typed) && Types(es) == {}
  {
    if es != [] {
      SamplesAreTyped(es[1..], names, typed);
    }
  }

  lemma {:induction false} StatusSamples(rows: seq<(string, Number)>)
    ensures SamplesOf(StatusEntries(rows), {TENANTS_BY_STATUS})
  {
    if rows != [] {
      StatusSamples(rows[1..]);
    }
  }

  lemma {:induction false} CircuitSamples(rows: seq<(string, Circuit)>)
    ensures SamplesOf(CircuitEntries(rows), {CIRCUIT_STATE, CIRCUIT_FAILURES, CIRCUIT_SUCCESSES})
  {
    if rows != [] {
      CircuitSamples(rows[1..]);
    }
  }

  lemma {:induction false} QueueSamples(rows: seq<Queue>)
    ensures SamplesOf(QueueEntries(rows), {QUEUE_JOBS})
  {
    if rows != [] {
      QueueSamples(rows[1..]);
    }
  }

  // ---------- One group of lines for each metric ----------

  /** Between two lines of a metric there are only lines of that metric. */
  ghost predicate Grouped(es: seq<Entry>) {
    forall i, j, k :: 0 <= i < j < k < |es| && es[i].name == es[k].name ==> es[j].name == es[i].name
  }

  // Lines of these metrics only.
  ghost predicate Within(es: seq<Entry>, names: set<string>) { forall i :: 0 <= i < |es| ==> es[i].name in names }

  lemma GroupedAppend(a: seq<Entry>, b: seq<Entry>, left: set<string>, right: set<string>)
    requires Grouped(a) && Grouped(b) && Within(a, left) && Within(b, right) && left !! right
    ensures Grouped(a + b) && Within(a + b, left + right)
  {
  }

  lemma GroupedPart(a: seq<Entry>, b: seq<Entry>, c: seq<Entry>)
    requires Grouped(a + b + c)
    ensures Grouped(b)
  {
    var all := a + b + c;
    forall i, j, k | 0 <= i < j < k < |b| && b[i].name == b[k].name ensures b[j].name == b[i].name {
      assert all[|a| + i] == b[i] && all[|a| + j] == b[j] && all[|a| + k] == b[k];
    }
  }

  lemma OneMetric(name: string, es: seq<Entry>)
    requires Within(es, {name})
    ensures Grouped(es)
  {
  }

  // ---------- The rendered snapshot ----------

  lemma MetricsDiffer()
    ensures Distinct([TENANTS_TOTAL, TENANTS_BY_STATUS, CIRCUIT_STATE, CIRCUIT_FAILURES, CIRCUIT_SUCCESSES,
                          QUEUE_JOBS, UPTIME_SECONDS])
  {
    assert |TENANTS_TOTAL| == |CIRCUIT_STATE| == 26 && |TENANTS_BY_STATUS| == 30 && |CIRCUIT_FAILURES| == 35;
    assert |CIRCUIT_SUCCESSES| == 36 && |QUEUE_JOBS| == 23 && |UPTIME_SECONDS| == 27;
    assert TENANTS_TOTAL[13] != CIRCUIT_STATE[13];
  }

  lemma HeaderTyped(name: string, doc: string, kind: string, typed: set<string>)
    requires name !in typed
    ensures TypedFirst(Header(name, doc, kind), typed) && Types(Header(name, doc, kind)) == {name}
  {
    assert Header(name, doc, kind)[1..] == [Type(name, kind)];
    assert [Type(name, kind)][1..] == [];
    assert TypedFirst([Type(name, kind)], typed) && Types([Type(name, kind)]) == {name};
  }

  // A header and the samples of its metric.
  lemma MetricTyped(name: string, doc: string, kind: string, samples: seq<Entry>, typed: set<string>)
    requires name !in typed && SamplesOf(samples, {name})
    ensures var es := Header(name, doc, kind) + samples; TypedFirst(es, typed) && Types(es) == {name}
  {
    HeaderTyped(name, doc, kind, typed);
    SamplesAreTyped(samples, {name}, typed + {name});
    TypedFirstAppend(Header(name, doc, kind), samples, typed);
  }

  lemma TenantPartTyped(s: Snapshot)
    ensures TypedFirst(TenantPart(s), {}) && Types(TenantPart(s)) == {TENANTS_TOTAL, TENANTS_BY_STATUS}
  {
    MetricsDiffer();
    StatusSamples(s.tenantsByStatus);
    var total := [Of(TENANTS_TOTAL, [], s.tenantsTotal)];
    MetricTyped(TENANTS_TOTAL, TENANTS_TOTAL_HELP, "gauge", total, {});
    hide TypedFirst, Types, Header;
    MetricTyped(TENANTS_BY_STATUS, TENANTS_BY_STATUS_HELP, "gauge", StatusEntries(s.tenantsByStatus), {TENANTS_TOTAL});
    var a := Header(TENANTS_TOTAL, TENANTS_TOTAL_HELP, "gauge") + total;
    var h := Header(TENANTS_BY_STATUS, TENANTS_BY_STATUS_HELP, "gauge");
    assert {} + {TENANTS_TOTAL} == {TENANTS_TOTAL};
    TypedFirstAppend(a, h + StatusEntries(s.tenantsByStatus), {});
    Associative(a, h, StatusEntries(s.tenantsByStatus));
  }

  lemma CircuitPartTyped(s: Snapshot, typed: set<string>)
    requires CIRCUIT_STATE !in typed && CIRCUIT_FAILURES !in typed && CIRCUIT_SUCCESSES !in typed
    ensures TypedFirst(CircuitPart(s), typed)
    ensures Types(CircuitPart(s)) == {CIRCUIT_STATE, CIRCUIT_FAILURES, CIRCUIT_SUCCESSES}
  {
    MetricsDiffer();
    CircuitSamples(s.circuits);
    hide TypedFirst, Types, Header, CircuitEntries;
    var a := Header(CIRCUIT_STATE, CIRCUIT_STATE_HELP, "gauge");
    var b := Header(CIRCUIT_FAILURES, CIRCUIT_FAILURES_HELP, "counter");
    var c := Header(CIRCUIT_SUCCESSES, CIRCUIT_SUCCESSES_HELP, "counter");
    HeaderTyped(CIRCUIT_STATE, CIRCUIT_STATE_HELP, "gauge", typed);
    HeaderTyped(CIRCUIT_FAILURES, CIRCUIT_FAILURES_HELP, "counter", typed + {CIRCUIT_STATE});
    HeaderTyped(CIRCUIT_SUCCESSES, CIRCUIT_SUCCESSES_HELP, "counter", typed + {CIRCUIT_STATE, CIRCUIT_FAILURES});
    var names := {CIRCUIT_STATE, CIRCUIT_FAILURES, CIRCUIT_SUCCESSES};
    SamplesAreTyped(CircuitEntries(s.circuits), names, typed + names);
    TypedFirstAppend(a, b, typed);
    TypedFirstAppend(a + b, c, typed);
    TypedFirstAppend(a + b + c, CircuitEntries(s.circuits), typed);
    assert {CIRCUIT_STATE} + {CIRCUIT_FAILURES} == {CIRCUIT_STATE, CIRCUIT_FAILURES};
    assert {CIRCUIT_STATE, CIRCUIT_FAILURES} + {CIRCUIT_SUCCESSES} == names;
  }

  /** Every metric has one TYPE line, and no sample comes before the TYPE line of its metric. */
  lemma EverySampleIsTyped(s: Snapshot)
    ensures TypedFirst(Entries(s), {})
  {
    MetricsDiffer();
    TenantPartTyped(s);
    QueueSamples(s.queues);
    var tenant := {TENANTS_TOTAL, TENANTS_BY_STATUS};
    var circuit := {CIRCUIT_STATE, CIRCUIT_FAILURES, CIRCUIT_SUCCESSES};
    CircuitPartTyped(s, tenant);
    hide TypedFirst, Types, Header, TenantPart, CircuitPart, QueueEntries;
    MetricTyped(QUEUE_JOBS, QUEUE_JOBS_HELP, "gauge", QueueEntries(s.queues), tenant + circuit);
    MetricTyped(UPTIME_SECONDS, UPTIME_SECONDS_HELP, "gauge", [Of(UPTIME_SECONDS, [], s.uptimeSeconds)],
                tenant + circuit + {QUEUE_JOBS});
    TypedFirstAppend(TenantPart(s), CircuitPart(s), {});
    TypedFirstAppend(TenantPart(s) + CircuitPart(s), QueuePart(s), {});
    TypedFirstAppend(TenantPart(s) + CircuitPart(s) + QueuePart(s), UptimePart(s), {});
    assert {} + tenant == tenant && {} + (tenant + circuit) == tenant + circuit;
    assert {} + (tenant + circuit + {QUEUE_JOBS}) == tenant + circuit + {QUEUE_JOBS};
  }

  lemma CircuitsInterleave(s: Snapshot)
    requires s.circuits != []
    ensures !Grouped(CircuitPart(s))
  {
    MetricsDiffer();
    var es := CircuitPart(s);
    assert es[0].name == CIRCUIT_STATE && es[2].name == CIRCUIT_FAILURES;
    assert CircuitEntries(s.circuits)[0].name == CIRCUIT_STATE;
    assert es[6] == CircuitEntries(s.circuits)[0];
  }

  /**
   * The lines of each metric form one group, as the format asks, exactly if there is no circuit: the three headers of
   * the circuit metrics come first, and then the samples circuit by circuit.
   */
  lemma MetricsAreGrouped(s: Snapshot)
    ensures Grouped(Entries(s)) <==> s.circuits == []
  {
    if s.circuits != [] {
      CircuitsInterleave(s);
      Associative(TenantPart(s) + CircuitPart(s), QueuePart(s), UptimePart(s));
      if Grouped(Entries(s)) {
        GroupedPart(TenantPart(s), CircuitPart(s), QueuePart(s) + UptimePart(s));
      }
    } else {
      GroupedWithoutCircuits(s);
    }
  }

  // One more metric behind the others.
  lemma OneMore(a: seq<Entry>, b: seq<Entry>, names: set<string>, name: string)
    requires Grouped(a) && Within(a, names) && Within(b, {name}) && name !in names
    ensures Grouped(a + b) && Within(a + b, names + {name})
  {
    OneMetric(name, b);
    hide Grouped, Within;
    GroupedAppend(a, b, names, {name});
  }

  lemma GroupedWithoutCircuits(s: Snapshot)
    requires s.circuits == []
    ensures Grouped(Entries(s))
  {
    MetricsDiffer();
    StatusSamples(s.tenantsByStatus);
    QueueSamples(s.queues);
    var total := Header(TENANTS_TOTAL, TENANTS_TOTAL_HELP, "gauge") + [Of(TENANTS_TOTAL, [], s.tenantsTotal)];
    var status := Header(TENANTS_BY_STATUS, TENANTS_BY_STATUS_HELP, "gauge") + StatusEntries(s.tenantsByStatus);
    var a := Header(CIRCUIT_STATE, CIRCUIT_STATE_HELP, "gauge");
    var b := Header(CIRCUIT_FAILURES, CIRCUIT_FAILURES_HELP, "counter");
    var c := Header(CIRCUIT_SUCCESSES, CIRCUIT_SUCCESSES_HELP, "counter");
    assert Within(total, {TENANTS_TOTAL}) && Within(status, {TENANTS_BY_STATUS}) && Within(a, {CIRCUIT_STATE});
    assert Within(b, {CIRCUIT_FAILURES}) && Within(c, {CIRCUIT_SUCCESSES}) && Within(QueuePart(s), {QUEUE_JOBS});
    assert Within(UptimePart(s), {UPTIME_SECONDS});
    assert Entries(s) == (total + status) + (a + b + c) + QueuePart(s) + UptimePart(s);
    assert Entries(s) == total + status + a + b + c + QueuePart(s) + UptimePart(s);
    hide Within, Header, Entries, QueuePart, UptimePart;
    OneMetric(TENANTS_TOTAL, total);
    hide Grouped;
    var names := {TENANTS_TOTAL};
    OneMore(total, status, names, TENANTS_BY_STATUS);
    names := names + {TENANTS_BY_STATUS};
    OneMore(total + status, a, names, CIRCUIT_STATE);
    names := names + {CIRCUIT_STATE};
    OneMore(total + status + a, b, names, CIRCUIT_FAILURES);
    names := names + {CIRCUIT_FAILURES};
    OneMore(total + status + a + b, c, names, CIRCUIT_SUCCESSES);
    names := names + {CIRCUIT_SUCCESSES};
    OneMore(total + status + a + b + c, QueuePart(s), names, QUEUE_JOBS);
    names := names + {QUEUE_JOBS};
    OneMore(total + status + a + b + c + QueuePart(s), UptimePart(s), names, UPTIME_SECONDS);
  }

  // ---------- No two samples of the same series ----------

  /** No two samples have the same name and labels. */
  ghost predicate Unique(es: seq<Entry>) {
    forall i, j :: 0 <= i < j < |es| && es[i].Sample? && es[j].Sample? && es[i].name == es[j].name ==>
      es[i].labels != es[j].labels
  }

  ghost predicate KeysDiffer<V>(rows: seq<(string, V)>) {
    forall i, j :: 0 <= i < j < |rows| ==> rows[i].0 != rows[j].0
  }

  ghost predicate QueuesDiffer(rows: seq<Queue>) {
    forall i, j :: 0 <= i < j < |rows| && rows[i].tenantId == rows[j].tenantId ==>
      rows[i].queueName != rows[j].queueName
  }

  lemma UniqueAppend(a: seq<Entry>, b: seq<Entry>, left: set<string>, right: set<string>)
    requires Within(a, left) && Within(b, right) && left !! right
    ensures Unique(a + b) <==> Unique(a) && Unique(b)
    ensures Within(a + b, left + right)
  {
    if Unique(a + b) {
      forall i, j | 0 <= i < j < |a| && a[i].Sample? && a[j].Sample? && a[i].name == a[j].name
        ensures a[i].labels != a[j].labels
      {
        assert (a + b)[i] == a[i] && (a + b)[j] == a[j];
      }
      forall i, j | 0 <= i < j < |b| && b[i].Sample? && b[j].Sample? && b[i].name == b[j].name
        ensures b[i].labels != b[j].labels
      {
        assert (a + b)[|a| + i] == b[i] && (a + b)[|a| + j] == b[j];
      }
    }
  }

  // A comment belongs to no series.
  lemma UniqueBehindComments(a: seq<Entry>, b: seq<Entry>)
    requires forall i :: 0 <= i < |a| ==> !a[i].Sample?
    ensures Unique(a + b) <==> Unique(b)
  {
    if Unique(a + b) {
      forall i, j | 0 <= i < j < |b| && b[i].Sample? && b[j].Sample? && b[i].name == b[j].name
        ensures b[i].labels != b[j].labels
      {
        assert (a + b)[|a| + i] == b[i] && (a + b)[|a| + j] == b[j];
      }
    }
  }

  lemma {:induction false} StatusAt(rows: seq<(string, Number)>, i: nat)
    requires i < |rows|
    ensures |StatusEntries(rows)| == |rows|
    ensures StatusEntries(rows)[i] == Of(TENANTS_BY_STATUS, [("status", rows[i].0)], rows[i].1)
  {
    if |rows| > 1 {
      StatusAt(rows[1..], if i > 0 then i - 1 else 0);
    }
  }

  lemma {:induction false} CircuitAt(rows: seq<(string, Circuit)>, i: nat, k: nat)
    requires i < |rows| && k < 3
    ensures |CircuitEntries(rows)| == 3 * |rows|
    ensures CircuitEntries(rows)[3 * i + k] == OfCircuit(rows[i].0, rows[i].1)[k]
  {
    if |rows| > 1 {
      CircuitAt(rows[1..], if i > 0 then i - 1 else 0, k);
    }
  }

  lemma {:induction false} QueueAt(rows: seq<Queue>, i: nat, k: nat)
    requires i < |rows| && k < 5
    ensures |QueueEntries(rows)| == 5 * |rows|
    ensures QueueEntries(rows)[5 * i + k] == OfQueue(rows[i])[k]
  {
    if |rows| > 1 {
      QueueAt(rows[1..], if i > 0 then i - 1 else 0, k);
    }
  }

  lemma StatusesUnique(rows: seq<(string, Number)>)
    requires KeysDiffer(rows)
    ensures Unique(StatusEntries(rows))
  {
    var es := StatusEntries(rows);
    if rows != [] {
      StatusAt(rows, 0);
    }
    forall i, j | 0 <= i < j < |es| ensures es[i].Sample? && es[j].Sample? && es[i].labels != es[j].labels {
      StatusAt(rows, i);
      StatusAt(rows, j);
      assert es[i].labels[0].1 != es[j].labels[0].1;
    }
  }

  lemma CircuitsUnique(rows: seq<(string, Circuit)>)
    requires KeysDiffer(rows)
    ensures Unique(CircuitEntries(rows))
  {
    MetricsDiffer();
    var es := CircuitEntries(rows);
    if rows != [] {
      CircuitAt(rows, 0, 0);
    }
    forall i, j | 0 <= i < j < |es| && es[i].Sample? && es[j].Sample? && es[i].name == es[j].name
      ensures es[i].labels != es[j].labels
    {
      CircuitAt(rows, i / 3, i % 3);
      CircuitAt(rows, j / 3, j % 3);
      assert es[i].labels[0].1 == rows[i / 3].0 && es[j].labels[0].1 == rows[j / 3].0;
      assert i % 3 == j % 3;
    }
  }

  lemma StatesDiffer()
    ensures Distinct(["waiting", "active", "completed", "failed", "delayed"])
  {
    assert |"waiting"| == |"delayed"| == 7 && |"active"| == |"failed"| == 6 && |"completed"| == 9;
    assert "waiting"[0] != "delayed"[0] && "active"[0] != "failed"[0];
  }

  lemma QueueSeries(rows: seq<Queue>, i: nat)
    requires i < 5 * |rows|
    ensures |QueueEntries(rows)| == 5 * |rows|
    ensures var q := rows[i / 5];
            var state := ["waiting", "active", "completed", "failed", "delayed"][i % 5];
            QueueEntries(rows)[i].Sample? && QueueEntries(rows)[i].name == QUEUE_JOBS
            && QueueEntries(rows)[i].labels == QueueLabels(q, state)
  {
    QueueAt(rows, i / 5, i % 5);
  }

  lemma SameQueueLabels(p: Queue, s: string, q: Queue, t: string)
    ensures QueueLabels(p, s) == QueueLabels(q, t) <==> p.tenantId == q.tenantId && p.queueName == q.queueName && s == t
  {
    if QueueLabels(p, s) == QueueLabels(q, t) {
      assert QueueLabels(p, s)[0] == QueueLabels(q, t)[0] && QueueLabels(p, s)[1] == QueueLabels(q, t)[1];
      assert QueueLabels(p, s)[2] == QueueLabels(q, t)[2];
    }
  }

  lemma QueuesUnique(rows: seq<Queue>)
    ensures Unique(QueueEntries(rows)) <==> QueuesDiffer(rows)
  {
    var es := QueueEntries(rows);
    var states := ["waiting", "active", "completed", "failed", "delayed"];
    StatesDiffer();
    if rows != [] {
      QueueSeries(rows, 0);
    }
    hide QueueEntries, QueueLabels;
    if QueuesDiffer(rows) {
      forall i, j | 0 <= i < j < |es| && es[i].Sample? && es[j].Sample? ensures es[i].labels != es[j].labels {
        QueueSeries(rows, i);
        QueueSeries(rows, j);
        SameQueueLabels(rows[i / 5], states[i % 5], rows[j / 5], states[j % 5]);
        assert i % 5 != j % 5 ==> states[i % 5] != states[j % 5];
      }
    }
    if Unique(es) {
      forall i, j | 0 <= i < j < |rows| && rows[i].tenantId == rows[j].tenantId
        ensures rows[i].queueName != rows[j].queueName
      {
        QueueSeries(rows, 5 * i);
        QueueSeries(rows, 5 * j);
        SameQueueLabels(rows[i], states[0], rows[j], states[0]);
        assert es[5 * i].labels != es[5 * j].labels;
      }
    }
  }

  lemma TenantPartUnique(s: Snapshot)
    requires KeysDiffer(s.tenantsByStatus)
    ensures Unique(TenantPart(s)) && Within(TenantPart(s), {TENANTS_TOTAL, TENANTS_BY_STATUS})
  {
    MetricsDiffer();
    StatusesUnique(s.tenantsByStatus);
    StatusSamples(s.tenantsByStatus);
    var total := Header(TENANTS_TOTAL, TENANTS_TOTAL_HELP, "gauge") + [Of(TENANTS_TOTAL, [], s.tenantsTotal)];
    var h := Header(TENANTS_BY_STATUS, TENANTS_BY_STATUS_HELP, "gauge");
    assert Unique(total) && Within(total, {TENANTS_TOTAL});
    assert Within(h + StatusEntries(s.tenantsByStatus), {TENANTS_BY_STATUS});
    UniqueBehindComments(h, StatusEntries(s.tenantsByStatus));
    hide Unique, Within, Header;
    UniqueAppend(total, h + StatusEntries(s.tenantsByStatus), {TENANTS_TOTAL}, {TENANTS_BY_STATUS});
    Associative(total, h, StatusEntries(s.tenantsByStatus));
    assert {TENANTS_TOTAL} + {TENANTS_BY_STATUS} == {TENANTS_TOTAL, TENANTS_BY_STATUS};
  }

  lemma CircuitPartUnique(s: Snapshot)
    requires KeysDiffer(s.circuits)
    ensures Unique(CircuitPart(s)) && Within(CircuitPart(s), {CIRCUIT_STATE, CIRCUIT_FAILURES, CIRCUIT_SUCCESSES})
  {
    CircuitsUnique(s.circuits);
    CircuitSamples(s.circuits);
    var headers := Header(CIRCUIT_STATE, CIRCUIT_STATE_HELP, "gauge")
                   + Header(CIRCUIT_FAILURES, CIRCUIT_FAILURES_HELP, "counter")
                   + Header(CIRCUIT_SUCCESSES, CIRCUIT_SUCCESSES_HELP, "counter");
    UniqueBehindComments(headers, CircuitEntries(s.circuits));
    assert CircuitPart(s) == headers + CircuitEntries(s.circuits);
    hide Unique, CircuitEntries;
  }

  lemma QueuePartUnique(s: Snapshot)
    ensures Unique(QueuePart(s)) <==> QueuesDiffer(s.queues)
    ensures Within(QueuePart(s), {QUEUE_JOBS})
  {
    QueuesUnique(s.queues);
    QueueSamples(s.queues);
    UniqueBehindComments(Header(QUEUE_JOBS, QUEUE_JOBS_HELP, "gauge"), QueueEntries(s.queues));
    hide Unique, QueueEntries, QueuesDiffer;
  }

  /**
   * As the format asks, each line has a name and labels of its own exactly if no queue of a tenant is listed twice; the
   * keys of the two records differ in any case.
   */
  lemma SeriesAreUnique(s: Snapshot)
    requires KeysDiffer(s.tenantsByStatus) && KeysDiffer(s.circuits)
    ensures Unique(Entries(s)) <==> QueuesDiffer(s.queues)
  {
    MetricsDiffer();
    TenantPartUnique(s);
    CircuitPartUnique(s);
    QueuePartUnique(s);
    assert Unique(UptimePart(s)) && Within(UptimePart(s), {UPTIME_SECONDS});
    hide Unique, Within, TenantPart, CircuitPart, QueuePart, UptimePart, QueuesDiffer;
    var tenant := {TENANTS_TOTAL, TENANTS_BY_STATUS};
    var circuit := {CIRCUIT_STATE, CIRCUIT_FAILURES, CIRCUIT_SUCCESSES};
    UniqueAppend(TenantPart(s), CircuitPart(s), tenant, circuit);
    UniqueAppend(TenantPart(s) + CircuitPart(s), QueuePart(s), tenant + circuit, {QUEUE_JOBS});
    UniqueAppend(TenantPart(s) + CircuitPart(s) + QueuePart(s), UptimePart(s), tenant + circuit + {QUEUE_JOBS},
                 {UPTIME_SECONDS});
  }
}
