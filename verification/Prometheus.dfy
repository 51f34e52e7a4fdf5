/** Querying Prometheus: one goroutine per query sends its answer on an unbuffered
    channel, the caller collects them and regroups the results by a label. */
module Prometheus {
  import opened Common

  datatype MetricResult = MetricResult(labels: map<string, string>, value: int)

  type Answer = Result<seq<MetricResult>, string>

  /** The results of the collected queries by query name. */
  type Results = map<string, seq<MetricResult>>

  // ----- fan-out and collection

  /** A query goroutine runs its query, waits to send, and has sent. */
  datatype Sender = Querying | Sending | Sent

  datatype Caller = Collecting(got: Results) | Failed(error: string) | Collected(got: Results)

  datatype State = State(caller: Caller, senders: map<string, Sender>)

  datatype Action = Finish(name: string) | Receive(name: string)

  /** `answers` says what each query of this run comes back with. */
  predicate Enabled(s: State, a: Action) {
    && a.name in s.senders
    && match a
       case Finish(name) => s.senders[name].Querying?
       case Receive(name) => s.senders[name].Sending? && s.caller.Collecting?
  }

  function AfterReceive(got: Results, name: string, answers: map<string, Answer>): Caller
    requires name in answers
  {
    match answers[name]
    case Err(e) => Failed(e)
    case Ok(r) =>
      var more := got[name := r];
      if |more| < |answers| then Collecting(more) else Collected(more)
  }

  function Next(answers: map<string, Answer>, s: State, a: Action): State
    requires s.senders.Keys == answers.Keys && Enabled(s, a)
  {
    match a
    case Finish(name) => s.(senders := s.senders[name := Sending])
    case Receive(name) => State(AfterReceive(s.caller.got, name, answers), s.senders[name := Sent])
  }

  function Start(answers: map<string, Answer>): State {
    State(if |answers| > 0 then Collecting(map[]) else Collected(map[]), map n | n in answers :: Querying)
  }

  ghost predicate Runs(answers: map<string, Answer>, s: State, run: seq<Action>)
    requires s.senders.Keys == answers.Keys
    decreases |run|
  {
    run == [] || (Enabled(s, run[0]) && Runs(answers, Next(answers, s, run[0]), run[1..]))
  }

  ghost function Exec(answers: map<string, Answer>, s: State, run: seq<Action>): (t: State)
    requires s.senders.Keys == answers.Keys && Runs(answers, s, run)
    ensures t.senders.Keys == answers.Keys
    decreases |run|
  {
    if run == [] then s else Exec(answers, Next(answers, s, run[0]), run[1..])
  }

  ghost predicate GotExactly(answers: map<string, Answer>, senders: map<string, Sender>, got: Results)
    requires senders.Keys == answers.Keys
  {
    && (forall n :: n in got <==> n in senders && senders[n].Sent?)
    && (forall n :: n in got ==> answers[n] == Ok(got[n]))
  }

  ghost predicate Inv(answers: map<string, Answer>, s: State)
    requires s.senders.Keys == answers.Keys
  {
    match s.caller
    case Collecting(got) => GotExactly(answers, s.senders, got) && |got| < |answers|
    case Collected(got) => GotExactly(answers, s.senders, got) && got.Keys == answers.Keys
    case Failed(e) => exists n :: n in answers && s.senders[n].Sent? && answers[n] == Err(e)
  }

  lemma StepInv(answers: map<string, Answer>, s: State, a: Action)
    requires s.senders.Keys == answers.Keys && Inv(answers, s) && Enabled(s, a)
    ensures Inv(answers, Next(answers, s, a))
  {
    var t := Next(answers, s, a);
    match a {
      case Finish(_) =>
        if s.caller.Failed? {
          var n :| n in answers && s.senders[n].Sent? && answers[n] == Err(s.caller.error);
          assert t.senders[n].Sent?;
        }
      case Receive(name) =>
        if answers[name].Ok? {
          SubsetSize(t.caller.got.Keys, answers.Keys);
          assert GotExactly(answers, t.senders, t.caller.got);
        } else {
          assert t.senders[name].Sent?;
        }
    }
  }

  lemma {:induction false} RunInv(answers: map<string, Answer>, s: State, run: seq<Action>)
    requires s.senders.Keys == answers.Keys && Inv(answers, s) && Runs(answers, s, run)
    ensures Inv(answers, Exec(answers, s, run))
    decreases |run|
  {
    if run != [] {
      StepInv(answers, s, run[0]);
      RunInv(answers, Next(answers, s, run[0]), run[1..]);
    }
  }

  ghost function AllResults(answers: map<string, Answer>): Results {
    map n | n in answers && answers[n].Ok? :: answers[n].value
  }

  /** The steps that are left at most: goroutines that have to finish their query and
      goroutines that have not been received from. */
  ghost function StepsLeft(s: State): nat {
    |set n | n in s.senders && s.senders[n].Querying?| + |set n | n in s.senders && !s.senders[n].Sent?|
  }

  lemma StepCounts(answers: map<string, Answer>, s: State, a: Action)
    requires s.senders.Keys == answers.Keys && Enabled(s, a)
    ensures StepsLeft(Next(answers, s, a)) + 1 == StepsLeft(s)
  {
    var t := Next(answers, s, a);
    var querying := set n | n in s.senders && s.senders[n].Querying?;
    var unsent := set n | n in s.senders && !s.senders[n].Sent?;
    var nowQuerying := set n | n in t.senders && t.senders[n].Querying?;
    var nowUnsent := set n | n in t.senders && !t.senders[n].Sent?;
    if a.Finish? {
      assert nowQuerying == querying - {a.name} && nowUnsent == unsent;
    } else {
      assert nowQuerying == querying && nowUnsent == unsent - {a.name};
    }
  }

  lemma {:induction false} RunCounts(answers: map<string, Answer>, s: State, run: seq<Action>)
    requires s.senders.Keys == answers.Keys && Runs(answers, s, run)
    ensures StepsLeft(Exec(answers, s, run)) + |run| == StepsLeft(s)
    decreases |run|
  {
    if run != [] {
      StepCounts(answers, s, run[0]);
      RunCounts(answers, Next(answers, s, run[0]), run[1..]);
    }
  }

  lemma StartCounts(answers: map<string, Answer>)
    ensures StepsLeft(Start(answers)) == 2 * |answers|
  {
    var all := Start(answers).senders;
    assert (set n | n in all && all[n].Querying?) == answers.Keys;
    assert (set n | n in all && !all[n].Sent?) == answers.Keys;
  }

  /** No schedule runs for ever: it has at most two steps for each query. */
  lemma EveryScheduleEnds(answers: map<string, Answer>, run: seq<Action>)
    requires Runs(answers, Start(answers), run)
    ensures |run| <= 2 * |answers|
  {
    RunCounts(answers, Start(answers), run);
    StartCounts(answers);
  }

  /** Whatever the schedule: as long as the caller is collecting some step is
      possible; it returns an error exactly when some query failed; otherwise it
      returns the results of all queries, and no goroutine is left behind. */
  lemma EverySchedule(answers: map<string, Answer>, run: seq<Action>)
    requires Runs(answers, Start(answers), run)
    ensures var s := Exec(answers, Start(answers), run);
            && (s.caller.Collecting? ==> exists a :: Enabled(s, a))
            && (!s.caller.Collecting? ==> (s.caller.Failed? <==> exists n :: n in answers && answers[n].Err?))
            && (s.caller.Failed? ==> exists n :: n in answers && answers[n] == Err(s.caller.error))
            && (s.caller.Collected? ==> s.caller.got == AllResults(answers) && s.caller.got.Keys == answers.Keys)
            && (s.caller.Collected? ==> forall n :: n in s.senders ==> s.senders[n].Sent?)
  {
    var s := Exec(answers, Start(answers), run);
    StartInv(answers);
    RunInv(answers, Start(answers), run);
    if s.caller.Collecting? {
      var got := s.caller.got;
      SubsetSize(got.Keys, answers.Keys);
      assert answers.Keys - got.Keys != {};
      var n :| n in answers.Keys - got.Keys;
      assert Enabled(s, if s.senders[n].Querying? then Finish(n) else Receive(n));
    }
  }

  lemma StartInv(answers: map<string, Answer>)
    ensures Inv(answers, Start(answers))
  {
    if |answers| == 0 {
      assert answers.Keys == {};
    }
  }

  /** The caller has returned and this goroutine has not been received from. */
  predicate LeftBehind(s: State, name: string) {
    !s.caller.Collecting? && name in s.senders && !s.senders[name].Sent?
  }

  /** Nobody receives any more from a goroutine that is left behind: it stays so, and
      once blocked in its send it is blocked for ever. */
  lemma {:induction false} LeftBehindForever(answers: map<string, Answer>, s: State, run: seq<Action>, name: string)
    requires s.senders.Keys == answers.Keys && Runs(answers, s, run) && LeftBehind(s, name)
    ensures var t := Exec(answers, s, run);
            LeftBehind(t, name) && (s.senders[name].Sending? || Finish(name) in run ==> t.senders[name].Sending?)
    decreases |run|
  {
    if run != [] {
      assert run == [run[0]] + run[1..];
      LeftBehindForever(answers, Next(answers, s, run[0]), run[1..], name);
    }
  }

  /** Two queries of which one fails: the other one can be blocked sending when the
      failed one is received. */
  lemma LeakingRun(answers: map<string, Answer>, bad: string, other: string) returns (run: seq<Action>)
    requires bad in answers && other in answers && bad != other && answers[bad].Err?
    ensures Runs(answers, Start(answers), run)
    ensures var s := Exec(answers, Start(answers), run);
            s.caller == Failed(answers[bad].error) && s.senders[other].Sending?
  {
    run := [Finish(other), Finish(bad), Receive(bad)];
    assert bad in answers.Keys;
    var s := Start(answers);
    var t := Next(answers, s, run[0]);
    var u := Next(answers, t, run[1]);
    assert run[1..] == [run[1], run[2]] && run[1..][1..] == [run[2]] && run[1..][1..][1..] == [];
    var v := Next(answers, u, run[2]);
    assert v.caller == Failed(answers[bad].error) && v.senders[other].Sending?;
    assert Runs(answers, v, []) && Exec(answers, v, []) == v;
    assert Runs(answers, u, [run[2]]) && Exec(answers, u, [run[2]]) == v;
    assert Runs(answers, t, [run[1], run[2]]) && Exec(answers, t, [run[1], run[2]]) == v;
  }

  /** No schedule leaves a goroutine behind, blocked in its send, if and only if every
      query succeeds or there is at most one. */
  lemma NoLeakExactlyWhen(answers: map<string, Answer>)
    ensures (forall run, n :: Runs(answers, Start(answers), run) ==> !LeftBehind(Exec(answers, Start(answers), run), n))
            <==> (forall n :: n in answers ==> answers[n].Ok?) || |answers| <= 1
  {
    if (forall n :: n in answers ==> answers[n].Ok?) || |answers| <= 1 {
      forall run, n | Runs(answers, Start(answers), run)
        ensures !LeftBehind(Exec(answers, Start(answers), run), n)
      {
        EverySchedule(answers, run);
        if Exec(answers, Start(answers), run).caller.Failed? {
          OnlyFailureReceived(answers, run, n);
        }
      }
    } else {
      var bad :| bad in answers && answers[bad].Err?;
      var other := OtherKey(answers.Keys, bad);
      var run := LeakingRun(answers, bad, other);
      assert LeftBehind(Exec(answers, Start(answers), run), other);
    }
  }

  lemma OtherKey(keys: set<string>, k: string) returns (other: string)
    requires k in keys && |keys| > 1
    ensures other in keys && other != k
  {
    if keys <= {k} {
      SubsetSize(keys, {k});
      assert false;
    }
    other :| other in keys && other != k;
  }

  /** A caller that failed has received the failure, so a single query is not left. */
  lemma OnlyFailureReceived(answers: map<string, Answer>, run: seq<Action>, name: string)
    requires Runs(answers, Start(answers), run) && |answers| <= 1
    requires Exec(answers, Start(answers), run).caller.Failed?
    ensures !LeftBehind(Exec(answers, Start(answers), run), name)
  {
    StartInv(answers);
    RunInv(answers, Start(answers), run);
    var s := Exec(answers, Start(answers), run);
    var n :| n in answers && s.senders[n].Sent? && answers[n] == Err(s.caller.error);
    SubsetSize({n}, answers.Keys);
  }

  /** The receive loop; whichever sender is received from next. */
  method QueryAndGetResponse(answers: map<string, Answer>) returns (result: Result<Results, string>)
    ensures result.Err? <==> exists n :: n in answers && answers[n].Err?
    ensures result.Err? ==> exists n :: n in answers && answers[n] == Err(result.error)
    ensures result.Ok? ==> result.value == AllResults(answers) && result.value.Keys == answers.Keys
  {
    var queryResults: Results := map[];
    var pending := answers.Keys;
    var i := 0;
    while i < |answers|
      invariant pending <= answers.Keys && i + |pending| == |answers|
      invariant queryResults.Keys == answers.Keys - pending
      invariant forall n :: n in queryResults ==> answers[n] == Ok(queryResults[n])
    {
      assert |pending| > 0;
      var name :| name in pending;
      pending := pending - {name};
      if answers[name].Err? {
        return Err(answers[name].error);
      }
      queryResults := queryResults[name := answers[name].value];
      i := i + 1;
    }
    assert pending == {};
    return Ok(queryResults);
  }

  // ----- regrouping

  type Items = map<string, Results>

  predicate Labelled(results: Results, labelId: string) {
    forall q :: q in results ==> forall r :: r in results[q] ==> labelId in r.labels
  }

  function WithLabel(results: seq<MetricResult>, labelId: string, value: string): seq<MetricResult> {
    Filter(results, (r: MetricResult) => labelId in r.labels && r.labels[labelId] == value)
  }

  /** At [value][query] stand the query's results with that label value, in their
      order; there are no other keys and no empty lists. */
  ghost predicate IsGrouping(items: Items, results: Results, labelId: string) {
    && (forall v :: v in items ==> items[v] != map[])
    && (forall v, q :: v in items && q in items[v] ==> items[v][q] != [])
    && (forall v, q :: Cell(items, v, q) == Expected(results, labelId, v, q))
  }

  function Expected(results: Results, labelId: string, value: string, query: string): seq<MetricResult> {
    if query in results then WithLabel(results[query], labelId, value) else []
  }

  function Cell(items: Items, value: string, query: string): seq<MetricResult> {
    if value in items && query in items[value] then items[value][query] else []
  }

  /** Regrouping has one outcome only, so the order in which maps are walked does not
      matter. */
  lemma GroupingUnique(a: Items, b: Items, results: Results, labelId: string)
    requires IsGrouping(a, results, labelId) && IsGrouping(b, results, labelId)
    ensures a == b
  {
    GroupingIncluded(a, b, results, labelId);
    GroupingIncluded(b, a, results, labelId);
    assert a.Keys == b.Keys;
    forall v | v in a ensures a[v] == b[v] {
      assert a[v].Keys == b[v].Keys;
      forall q | q in a[v] ensures a[v][q] == b[v][q] {
        assert Cell(a, v, q) == Cell(b, v, q);
      }
    }
  }

  lemma GroupingIncluded(a: Items, b: Items, results: Results, labelId: string)
    requires IsGrouping(a, results, labelId) && IsGrouping(b, results, labelId)
    ensures forall v :: v in a ==> v in b && a[v].Keys <= b[v].Keys
  {
    forall v | v in a ensures v in b && a[v].Keys <= b[v].Keys {
      forall q | q in a[v] ensures v in b && q in b[v] {
        assert Cell(a, v, q) == Cell(b, v, q);
      }
      assert a[v].Keys != {};
      var q :| q in a[v].Keys;
    }
  }

  /** No result is lost or duplicated: it stands, as often as the query returned it,
      under its own label value and nowhere else. */
  lemma GroupingConserves(items: Items, results: Results, labelId: string, q: string, v: string, r: MetricResult)
    requires IsGrouping(items, results, labelId) && Labelled(results, labelId) && q in results && r in results[q]
    ensures multiset(Cell(items, v, q))[r] == if r.labels[labelId] == v then multiset(results[q])[r] else 0
  {
    assert Cell(items, v, q) == Expected(results, labelId, v, q);
    FilterCounts(results[q], (r: MetricResult) => labelId in r.labels && r.labels[labelId] == v, r);
  }

  /** The results in a place stand in the order in which the query returned them. */
  lemma GroupingInOrder(items: Items, results: Results, labelId: string, q: string, v: string) returns (at: seq<nat>)
    requires IsGrouping(items, results, labelId) && q in results
    ensures |at| == |Cell(items, v, q)|
    ensures forall k :: 0 <= k < |at| ==> at[k] < |results[q]| && Cell(items, v, q)[k] == results[q][at[k]]
    ensures forall k, l :: 0 <= k < l < |at| ==> at[k] < at[l]
    ensures forall i :: 0 <= i < |results[q]| ==>
              (i in at <==> labelId in results[q][i].labels && results[q][i].labels[labelId] == v)
  {
    assert Cell(items, v, q) == Expected(results, labelId, v, q);
    at := FilterInOrder(results[q], (r: MetricResult) => labelId in r.labels && r.labels[labelId] == v);
  }

  /** Appending one labelled result to the list at its place. */
  function Put(items: Items, labelId: string, query: string, r: MetricResult): Items
    requires labelId in r.labels
  {
    var v := r.labels[labelId];
    var byQuery := if v in items then items[v] else map[];
    items[v := byQuery[query := Cell(items, v, query) + [r]]]
  }

  lemma PutCell(items: Items, labelId: string, query: string, r: MetricResult, v: string, q: string)
    requires labelId in r.labels
    ensures Cell(Put(items, labelId, query, r), v, q) ==
              Cell(items, v, q) + (if r.labels[labelId] == v && q == query then [r] else [])
  {
  }

  lemma ExpectedCell(results: Results, labelId: string, query: string, r: MetricResult, v: string, q: string)
    requires query in results && labelId in r.labels
    ensures Expected(results[query := results[query] + [r]], labelId, v, q) ==
              Expected(results, labelId, v, q) + (if r.labels[labelId] == v && q == query then [r] else [])
  {
    FilterLast(results[query], r, (r: MetricResult) => labelId in r.labels && r.labels[labelId] == v);
  }

  lemma PutGroups(items: Items, results: Results, labelId: string, query: string, r: MetricResult)
    requires query in results && IsGrouping(items, results, labelId) && labelId in r.labels
    ensures IsGrouping(Put(items, labelId, query, r), results[query := results[query] + [r]], labelId)
  {
    var more, now := Put(items, labelId, query, r), results[query := results[query] + [r]];
    forall v, q
      ensures Cell(more, v, q) == Expected(now, labelId, v, q)
    {
      PutCell(items, labelId, query, r, v, q);
      ExpectedCell(results, labelId, query, r, v, q);
      assert Cell(items, v, q) == Expected(results, labelId, v, q);
    }
    forall v | v in more ensures more[v] != map[] {
      if v == r.labels[labelId] {
        assert query in more[v];
      }
    }
  }

  lemma NewQueryGroups(items: Items, results: Results, labelId: string, query: string)
    requires query !in results && IsGrouping(items, results, labelId)
    ensures IsGrouping(items, results[query := []], labelId)
  {
    forall v, q
      ensures Cell(items, v, q) == Expected(results[query := []], labelId, v, q)
      ensures v in items && q in items[v] ==> items[v][q] != []
    {
      assert Cell(items, v, q) == Expected(results, labelId, v, q);
    }
  }

  /** The body of the inner loop for a labelled result. */
  method AppendResult(items: Items, labelId: string, query: string, r: MetricResult) returns (more: Items)
    requires labelId in r.labels
    ensures more == Put(items, labelId, query, r)
  {
    more := items;
    var labelIdValue := r.labels[labelId];
    if labelIdValue !in more {
      more := more[labelIdValue := map[]];
    }
    var resultsMap := more[labelIdValue];
    if query !in resultsMap {
      resultsMap := resultsMap[query := []];
    }
    resultsMap := resultsMap[query := resultsMap[query] + [r]];
    more := more[labelIdValue := resultsMap];
    assert resultsMap == (if labelIdValue in items then items[labelIdValue] else map[])
                         [query := Cell(items, labelIdValue, query) + [r]];
    assert more == items[labelIdValue := resultsMap];
  }

  /** The inner loop over the results of one query. */
  method GroupQuery(items: Items, ghost before: Results, query: string, results: seq<MetricResult>, labelId: string)
    returns (grouped: Option<Items>)
    requires query !in before && IsGrouping(items, before, labelId)
    ensures grouped.Some? <==> forall r :: r in results ==> labelId in r.labels
    ensures grouped.Some? ==> IsGrouping(grouped.value, before[query := results], labelId)
  {
    var metricResults := items;
    NewQueryGroups(items, before, labelId, query);
    assert results[..0] == [];
    for k := 0 to |results|
      invariant forall r :: r in results[..k] ==> labelId in r.labels
      invariant IsGrouping(metricResults, before[query := results[..k]], labelId)
    {
      var r := results[k];
      assert results[..k + 1] == results[..k] + [r];
      if labelId !in r.labels {
        assert r in results;
        return None;
      }
      PutGroups(metricResults, before[query := results[..k]], labelId, query, r);
      assert before[query := results[..k]][query := results[..k] + [r]] == before[query := results[..k + 1]];
      metricResults := AppendResult(metricResults, labelId, query, r);
    }
    assert results[..|results|] == results;
    return Some(metricResults);
  }

  /** Collecting and regrouping; the collected map is walked in whatever order it
      gives. */
  method GroupMultiQueriesToItems(answers: map<string, Answer>, labelId: string) returns (items: Option<Items>)
    ensures items.Some? <==> (forall n :: n in answers ==> answers[n].Ok?) && Labelled(AllResults(answers), labelId)
    ensures items.Some? ==> IsGrouping(items.value, AllResults(answers), labelId)
  {
    var collected := QueryAndGetResponse(answers);
    if collected.Err? {
      return None;
    }
    var results := collected.value;
    var metricResults: Items := map[];
    var rest := results.Keys;
    ghost var done: Results := map[];
    while rest != {}
      invariant rest <= results.Keys && done.Keys == results.Keys - rest
      invariant forall q :: q in done ==> done[q] == results[q]
      invariant Labelled(done, labelId) && IsGrouping(metricResults, done, labelId)
    {
      var queryName :| queryName in rest;
      rest := rest - {queryName};
      var grouped := GroupQuery(metricResults, done, queryName, results[queryName], labelId);
      if grouped.None? {
        return None;
      }
      metricResults := grouped.value;
      done := done[queryName := results[queryName]];
    }
    assert done == results;
    return Some(metricResults);
  }
}
