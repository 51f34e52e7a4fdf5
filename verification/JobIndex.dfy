/** The job-index counter: clients read a config map, add one to the index it holds
    and write it back; the server accepts a write only for the version it was read
    at. A step is one request to the server. */
module JobIndex {
  import opened Common
  import opened Decimal

  const MAX_RETRIES := 5
  const TWO_TO_64: nat := 0x1_0000_0000_0000_0000

  /** The config map runai-cli-index: what its index text parses to, if it parses,
      and the resource version. */
  datatype Server = Server(index: Option<int>, version: nat)

  datatype Failure = NoConfigMap | BadIndex | Exhausted

  datatype Pc =
    | Idle
    | Holding(last: int, version: nat)
    | Returned(index: int)
    | Failed(why: Failure)

  datatype Client = Client(failures: nat, pc: Pc)

  datatype Commit = Commit(client: nat, index: int)

  datatype State = State(server: Option<Server>, clients: seq<Client>, log: seq<Commit>)

  datatype Action = Get(g: nat) | Update(g: nat)

  /** lastIndex + 1 on int64. */
  function Increment(last: int): int {
    if last == MAX_INT64 then MIN_INT64 else last + 1
  }

  predicate Enabled(s: State, a: Action) {
    && a.g < |s.clients|
    && (a.Get? ==> s.clients[a.g].pc.Idle?)
    && (a.Update? ==> s.clients[a.g].pc.Holding? && s.server.Some?)
  }

  function AfterGet(server: Option<Server>): Pc {
    match server
    case None => Failed(NoConfigMap)
    case Some(m) =>
      match m.index
      case None => Failed(BadIndex)
      case Some(last) => Holding(last, m.version)
  }

  function Next(s: State, a: Action): State
    requires Enabled(s, a)
  {
    var g, c := a.g, s.clients[a.g];
    match a
    case Get(_) => s.(clients := s.clients[g := c.(pc := AfterGet(s.server))])
    case Update(_) =>
      var m := s.server.value;
      if c.pc.version == m.version then
        var index := Increment(c.pc.last);
        State(Some(Server(Some(index), m.version + 1)),
              s.clients[g := c.(pc := Returned(index))],
              s.log + [Commit(g, index)])
      else
        var pc := if c.failures + 1 < MAX_RETRIES then Idle else Failed(Exhausted);
        s.(clients := s.clients[g := Client(c.failures + 1, pc)])
  }

  ghost predicate Runs(s: State, run: seq<Action>)
    decreases |run|
  {
    run == [] || (Enabled(s, run[0]) && Runs(Next(s, run[0]), run[1..]))
  }

  ghost function Exec(s: State, run: seq<Action>): State
    requires Runs(s, run)
    decreases |run|
  {
    if run == [] then s else Exec(Next(s, run[0]), run[1..])
  }

  ghost predicate Initial(s: State) {
    && s.log == []
    && (Parsed(s.server).Some? ==> MIN_INT64 <= Parsed(s.server).value <= MAX_INT64)
    && forall g :: 0 <= g < |s.clients| ==> s.clients[g] == Client(0, Idle)
  }

  /** The index the server holds, if it holds one. */
  function Parsed(server: Option<Server>): Option<int> {
    if server.Some? then server.value.index else None
  }

  /** The int64 reached from `start` by k increments. */
  function IndexAfter(start: int, k: nat): int {
    if k == 0 then start else Increment(IndexAfter(start, k - 1))
  }

  /** As a closed form: addition modulo 2^64 on the two's complement range. */
  lemma {:induction false} IndexAfterWraps(start: int, k: nat)
    requires MIN_INT64 <= start <= MAX_INT64
    ensures IndexAfter(start, k) == (start + k - MIN_INT64) % TWO_TO_64 + MIN_INT64
  {
    if k > 0 {
      IndexAfterWraps(start, k - 1);
    }
  }

  lemma ModStep(x: nat, d: nat)
    requires 0 < d < TWO_TO_64
    ensures x % TWO_TO_64 != (x + d) % TWO_TO_64
  {
    var q, r := x / TWO_TO_64, (x + d) / TWO_TO_64;
    assert x == q * TWO_TO_64 + x % TWO_TO_64;
    assert x + d == r * TWO_TO_64 + (x + d) % TWO_TO_64;
  }

  /** The k-th index is start + k exactly as long as that fits int64, and fewer
      than 2^64 increments never repeat an index. */
  lemma IndexAfterMeaning(start: int, k: nat, l: nat)
    requires MIN_INT64 <= start <= MAX_INT64
    ensures MIN_INT64 <= IndexAfter(start, k) <= MAX_INT64
    ensures k < TWO_TO_64 ==> (IndexAfter(start, k) == start + k <==> start + k <= MAX_INT64)
    ensures k < l < k + TWO_TO_64 ==> IndexAfter(start, k) != IndexAfter(start, l)
  {
    IndexAfterWraps(start, k);
    IndexAfterWraps(start, l);
    if k < l < k + TWO_TO_64 {
      ModStep(start + k - MIN_INT64, l - k);
    }
  }

  // ----- the inductive invariant

  ghost function CommitsBy(log: seq<Commit>, g: nat): nat {
    Sum(log, (c: Commit) => Bit(c.client == g))
  }

  function Success(c: Client): nat { Bit(c.pc.Returned?) }

  /** `start` is the index the server held at the beginning, if any. */
  ghost predicate ServerInv(init: State, start: Option<int>, s: State) {
    if start.Some? then
      && init.server.Some?
      && s.server == Some(Server(Some(IndexAfter(start.value, |s.log|)), init.server.value.version + |s.log|))
      && forall k :: 0 <= k < |s.log| ==> s.log[k].index == IndexAfter(start.value, k + 1)
    else
      s.server == init.server && s.log == []
  }

  /** The client committed this index. */
  ghost predicate Wrote(log: seq<Commit>, g: nat, index: int) {
    exists k :: 0 <= k < |log| && log[k] == Commit(g, index)
  }

  ghost predicate ClientInv(init: State, start: Option<int>, s: State, g: nat)
    requires g < |s.clients|
  {
    var c := s.clients[g];
    && c.failures + CommitsBy(s.log, g) <= |s.log|
    && CommitsBy(s.log, g) == Bit(c.pc.Returned?)
    && match c.pc
       case Idle => c.failures < MAX_RETRIES
       case Holding(last, version) =>
         && start.Some? && init.server.Some? && c.failures < MAX_RETRIES
         && init.server.value.version + c.failures <= version <= init.server.value.version + |s.log|
         && last == IndexAfter(start.value, version - init.server.value.version)
       case Returned(index) => c.failures < MAX_RETRIES && Wrote(s.log, g, index)
       case Failed(why) =>
         match why
         case NoConfigMap => init.server.None?
         case BadIndex => init.server.Some? && start.None?
         case Exhausted => c.failures == MAX_RETRIES
  }

  ghost predicate Inv(init: State, start: Option<int>, s: State) {
    && ServerInv(init, start, s)
    && |s.clients| == |init.clients|
    && (forall g :: 0 <= g < |s.clients| ==> ClientInv(init, start, s, g))
    && Sum(s.clients, Success) == |s.log|
  }

  lemma StepServer(init: State, start: Option<int>, s: State, a: Action)
    requires Inv(init, start, s) && Enabled(s, a)
    ensures ServerInv(init, start, Next(s, a))
  {
    assert ClientInv(init, start, s, a.g);
    var t := Next(s, a);
    if t.log != s.log {
      assert t.log == s.log + [Commit(a.g, IndexAfter(start.value, |s.log| + 1))];
    }
  }

  lemma CommitGrows(log: seq<Commit>, c: Commit, g: nat)
    ensures CommitsBy(log + [c], g) == CommitsBy(log, g) + Bit(c.client == g)
    ensures forall index :: Wrote(log, g, index) ==> Wrote(log + [c], g, index)
    ensures Wrote(log + [c], c.client, c.index)
  {
    SumAppend(log, c, (c: Commit) => Bit(c.client == g));
    assert (log + [c])[|log|] == c;
    forall index | Wrote(log, g, index) ensures Wrote(log + [c], g, index) {
      var k :| 0 <= k < |log| && log[k] == Commit(g, index);
      assert (log + [c])[k] == log[k];
    }
  }

  lemma StepClient(init: State, start: Option<int>, s: State, a: Action, g: nat)
    requires Inv(init, start, s) && start == Parsed(init.server) && Enabled(s, a) && g < |s.clients|
    ensures ClientInv(init, start, Next(s, a), g)
  {
    var t := Next(s, a);
    assert ClientInv(init, start, s, g);
    if a.Update? && s.clients[a.g].pc.version == s.server.value.version {
      CommitGrows(s.log, t.log[|s.log|], g);
    }
  }

  lemma StepInv(init: State, start: Option<int>, s: State, a: Action)
    requires Inv(init, start, s) && start == Parsed(init.server) && Enabled(s, a)
    ensures Inv(init, start, Next(s, a))
  {
    var t := Next(s, a);
    StepServer(init, start, s, a);
    forall g | 0 <= g < |t.clients| ensures ClientInv(init, start, t, g) {
      StepClient(init, start, s, a, g);
    }
    assert ClientInv(init, start, s, a.g);
    SumUpdate(s.clients, a.g, t.clients[a.g], Success);
  }

  lemma {:induction false} RunInv(init: State, start: Option<int>, s: State, run: seq<Action>)
    requires Inv(init, start, s) && start == Parsed(init.server) && Runs(s, run)
    ensures Inv(init, start, Exec(s, run))
    decreases |run|
  {
    if run != [] {
      StepInv(init, start, s, run[0]);
      RunInv(init, start, Next(s, run[0]), run[1..]);
    }
  }

  lemma InitialInv(init: State, start: Option<int>)
    requires Initial(init) && start == Parsed(init.server)
    ensures Inv(init, start, init)
  {
    SumZero(init.clients, Success);
  }

  lemma ReachableInv(init: State, run: seq<Action>) returns (start: Option<int>)
    requires Initial(init) && Runs(init, run)
    ensures start == Parsed(init.server) && Inv(init, start, Exec(init, run))
  {
    start := Parsed(init.server);
    InitialInv(init, start);
    RunInv(init, start, init, run);
  }

  // ----- what every run guarantees

  /** The i-th successful update writes the i-th successor of the initial index,
      and a client has written exactly once when it has returned and never
      otherwise. */
  lemma IndicesGapless(init: State, run: seq<Action>)
    requires Initial(init) && Runs(init, run) && Parsed(init.server).Some?
    ensures var s, start := Exec(init, run), Parsed(init.server).value;
            && (forall k :: 0 <= k < |s.log| ==> s.log[k].index == IndexAfter(start, k + 1))
            && (forall k :: 0 <= k < |s.log| < TWO_TO_64 ==>
                  (s.log[k].index == start + k + 1 <==> start + k + 1 <= MAX_INT64))
            && (forall g :: 0 <= g < |s.clients| ==> CommitsBy(s.log, g) == Bit(s.clients[g].pc.Returned?))
  {
    var first := ReachableInv(init, run);
    var s, start := Exec(init, run), first.value;
    forall k | 0 <= k < |s.log| < TWO_TO_64
      ensures s.log[k].index == start + k + 1 <==> start + k + 1 <= MAX_INT64
    {
      IndexAfterMeaning(start, k + 1, 0);
    }
    forall g | 0 <= g < |s.clients| ensures CommitsBy(s.log, g) == Bit(s.clients[g].pc.Returned?) {
      assert ClientInv(init, first, s, g);
    }
  }

  /** A client returns the index it wrote, and no two clients return the same one,
      short of 2^64 updates. */
  lemma ReturnedIndicesDiffer(init: State, run: seq<Action>, g: nat, h: nat)
    requires Initial(init) && Runs(init, run)
    requires var s := Exec(init, run);
             |s.log| <= TWO_TO_64 && g < h < |s.clients| && s.clients[g].pc.Returned? && s.clients[h].pc.Returned?
    ensures var s := Exec(init, run);
            && Wrote(s.log, g, s.clients[g].pc.index)
            && s.clients[g].pc.index != s.clients[h].pc.index
  {
    var first := ReachableInv(init, run);
    var s := Exec(init, run);
    assert ClientInv(init, first, s, g) && ClientInv(init, first, s, h);
    var k :| 0 <= k < |s.log| && s.log[k] == Commit(g, s.clients[g].pc.index);
    var l :| 0 <= l < |s.log| && s.log[l] == Commit(h, s.clients[h].pc.index);
    IndexAfterMeaning(first.value, k + 1, l + 1);
    IndexAfterMeaning(first.value, l + 1, k + 1);
  }

  /** In every run an Update that will conflict was overtaken during its own try: since
      the client's Get the server has accepted a write, and it was another client's. */
  lemma ConflictMeansOvertaken(init: State, run: seq<Action>, g: nat)
    requires Initial(init) && Runs(init, run) && g < |init.clients|
    requires var s := Exec(init, run); Enabled(s, Update(g))
    ensures var s := Exec(init, run);
            var version := s.clients[g].pc.version;
            && init.server.Some? && init.server.value.version <= version <= s.server.value.version
            && s.server.value.version == init.server.value.version + |s.log|
            && (version != s.server.value.version <==>
                  exists k :: version - init.server.value.version <= k < |s.log| && s.log[k].client != g)
  {
    var start := ReachableInv(init, run);
    var s := Exec(init, run);
    assert ClientInv(init, start, s, g);
    var read := s.clients[g].pc.version - init.server.value.version;
    if read < |s.log| {
      NoCommitBy(s.log, g, read);
    }
  }

  lemma NoCommitBy(log: seq<Commit>, g: nat, k: nat)
    requires CommitsBy(log, g) == 0 && k < |log|
    ensures log[k].client != g
  {
    SumAtLeast(log, k, (c: Commit) => Bit(c.client == g));
  }

  /** Every failed update is paid for by a commit of another client; a client that
      gives up was overtaken five times, and competes with at least five others. */
  lemma GiveUpMeansOvertaken(init: State, run: seq<Action>, g: nat)
    requires Initial(init) && Runs(init, run) && g < |init.clients|
    ensures var s := Exec(init, run);
            && |s.clients| == |init.clients|
            && s.clients[g].failures <= |s.log| - CommitsBy(s.log, g)
            && (s.clients[g].pc == Failed(Exhausted) ==>
                  s.clients[g].failures == 5 && CommitsBy(s.log, g) == 0 && |init.clients| >= 6)
  {
    var start := ReachableInv(init, run);
    var s := Exec(init, run);
    assert ClientInv(init, start, s, g);
    if s.clients[g].pc == Failed(Exhausted) {
      var c := Client(0, Returned(0));
      SumUpdate(s.clients, g, c, Success);
      SumAtMost(s.clients[g := c], Success, 1);
    }
  }

  /** Without the config map, or when its index does not parse, nothing is ever
      written and every client fails at its first Get. */
  lemma UnusableIndexFailsAll(init: State, run: seq<Action>, g: nat)
    requires Initial(init) && Runs(init, run) && Parsed(init.server).None? && g < |init.clients|
    ensures var s := Exec(init, run);
            && s.server == init.server && s.log == [] && |s.clients| == |init.clients|
            && (s.clients[g] == Client(0, Idle)
                || s.clients[g] == Client(0, Failed(if init.server.None? then NoConfigMap else BadIndex)))
  {
    var start := ReachableInv(init, run);
    assert ClientInv(init, start, Exec(init, run), g);
  }

  predicate IsFinished(c: Client) { c.pc.Returned? || c.pc.Failed? }

  function Rank(c: Client): nat {
    if IsFinished(c) || c.failures > 4 then 0 else 10 - 2 * c.failures - Bit(c.pc.Holding?)
  }

  lemma {:induction false} RunBound(init: State, start: Option<int>, s: State, run: seq<Action>)
    requires Inv(init, start, s) && start == Parsed(init.server) && Runs(s, run)
    ensures |run| + Sum(Exec(s, run).clients, Rank) <= Sum(s.clients, Rank)
    decreases |run|
  {
    if run != [] {
      var t, g := Next(s, run[0]), run[0].g;
      assert ClientInv(init, start, s, g);
      SumUpdate(s.clients, g, t.clients[g], Rank);
      StepInv(init, start, s, run[0]);
      RunBound(init, start, t, run[1..]);
    }
  }

  /** Nobody waits for anybody: each client is done after at most ten requests, and
      when all are done at least five of them, or all if they are fewer, have an
      index. */
  lemma EveryClientFinishes(init: State, run: seq<Action>)
    requires Initial(init) && Runs(init, run)
    ensures var s := Exec(init, run);
            && |run| <= 10 * |init.clients|
            && ((forall a :: !Enabled(s, a)) <==> forall g :: 0 <= g < |s.clients| ==> IsFinished(s.clients[g]))
            && ((forall g :: 0 <= g < |s.clients| ==> IsFinished(s.clients[g])) && Parsed(init.server).Some? ==>
                  |s.log| >= 5 || |s.log| == |init.clients|)
  {
    var start := ReachableInv(init, run);
    InitialInv(init, start);
    RunBound(init, start, init, run);
    SumAtMost(init.clients, Rank, 10);
    var s := Exec(init, run);
    if g :| 0 <= g < |s.clients| && !IsFinished(s.clients[g]) {
      assert ClientInv(init, start, s, g);
      assert Enabled(s, if s.clients[g].pc.Idle? then Get(g) else Update(g));
    } else if Parsed(init.server).Some? {
      if g :| 0 <= g < |s.clients| && s.clients[g].pc.Failed? {
        assert ClientInv(init, start, s, g);
      } else {
        AllSucceeded(s.clients);
      }
    }
  }

  lemma {:induction false} AllSucceeded(clients: seq<Client>)
    requires forall g :: 0 <= g < |clients| ==> clients[g].pc.Returned?
    ensures Sum(clients, Success) == |clients|
  {
    if clients != [] {
      AllSucceeded(clients[1..]);
    }
  }

  // ----- six clients are needed, and enough, for one to give up

  lemma {:induction false} Compose(s: State, first: seq<Action>, second: seq<Action>)
    requires Runs(s, first) && Runs(Exec(s, first), second)
    ensures Runs(s, first + second) && Exec(s, first + second) == Exec(Exec(s, first), second)
    decreases |first|
  {
    if first == [] {
      assert first + second == second;
    } else {
      Compose(Next(s, first[0]), first[1..], second);
      assert (first + second)[1..] == first[1..] + second;
    }
  }

  lemma Extend(s: State, run: seq<Action>, t: State, a: Action) returns (longer: seq<Action>, u: State)
    requires Runs(s, run) && Exec(s, run) == t && Enabled(t, a)
    ensures longer == run + [a] && u == Next(t, a) && Runs(s, longer) && Exec(s, longer) == u
  {
    longer, u := run + [a], Next(t, a);
    assert Runs(u, [a][1..]);
    Compose(s, run, [a]);
  }

  /** Client 0 reads, client `rival` reads and updates, client 0 fails to update. */
  lemma Overtake(s: State, rival: nat) returns (run: seq<Action>)
    requires 0 < rival < |s.clients| && Parsed(s.server).Some?
    requires s.clients[0].pc == Idle && s.clients[rival].pc == Idle
    ensures Runs(s, run)
    ensures var t, f := Exec(s, run), s.clients[0].failures + 1;
            && Parsed(t.server).Some? && |t.clients| == |s.clients|
            && t.clients[0] == Client(f, if f < MAX_RETRIES then Idle else Failed(Exhausted))
            && forall g :: 0 < g < |s.clients| && g != rival ==> t.clients[g] == s.clients[g]
  {
    var t;
    run, t := Extend(s, [], s, Get(0));
    run, t := Extend(s, run, t, Get(rival));
    run, t := Extend(s, run, t, Update(rival));
    run, t := Extend(s, run, t, Update(0));
  }

  lemma {:induction false} Starve(s: State, rival: nat) returns (run: seq<Action>)
    requires 1 <= rival <= 5 && |s.clients| >= 6 && Parsed(s.server).Some?
    requires s.clients[0] == Client(rival - 1, Idle)
    requires forall g :: rival <= g < |s.clients| ==> s.clients[g].pc == Idle
    ensures Runs(s, run) && |Exec(s, run).clients| == |s.clients|
    ensures Exec(s, run).clients[0].pc == Failed(Exhausted)
    decreases 5 - rival
  {
    run := Overtake(s, rival);
    if rival < 5 {
      var rest := Starve(Exec(s, run), rival + 1);
      Compose(s, run, rest);
      run := run + rest;
    }
  }

  /** A client can run out of its five tries exactly when at least six clients
      compete. */
  lemma GiveUpPossibleExactlyWhen(init: State)
    requires Initial(init) && Parsed(init.server).Some?
    ensures (exists run, g: nat :: Runs(init, run) && g < |Exec(init, run).clients|
               && Exec(init, run).clients[g].pc == Failed(Exhausted))
            <==> |init.clients| >= 6
  {
    if |init.clients| >= 6 {
      var run := Starve(init, 1);
      assert Exec(init, run).clients[0].pc == Failed(Exhausted);
    }
    forall run, g: nat | Runs(init, run) && g < |Exec(init, run).clients|
                         && Exec(init, run).clients[g].pc == Failed(Exhausted)
      ensures |init.clients| >= 6
    {
      var _ := ReachableInv(init, run);
      GiveUpMeansOvertaken(init, run, g);
    }
  }

  // ----- one client as it runs

  /** The config map on the server with its index as text, and the clients. */
  class IndexConfigMap {
    var present: bool
    var text: string
    var version: nat
    var clients: seq<Client>
    var log: seq<Commit>

    ghost function Abstract(): State
      reads this
    {
      State(if present then Some(Server(Atoi(text), version)) else None, clients, log)
    }

    constructor (present: bool, text: string, version: nat, count: nat)
      ensures Initial(Abstract()) && |clients| == count
      ensures this.present == present && this.text == text && this.version == version
    {
      this.present, this.text, this.version := present, text, version;
      clients := seq(count, _ => Client(0, Idle));
      log := [];
    }

    method Get(g: nat) returns (snapshot: Option<(string, nat)>)
      requires Enabled(Abstract(), Action.Get(g))
      modifies this`clients
      ensures Abstract() == Next(old(Abstract()), Action.Get(g))
      ensures snapshot == if present then Some((text, version)) else None
    {
      snapshot := if present then Some((text, version)) else None;
      var pc := if !present then Failed(NoConfigMap)
                else match Atoi(text)
                     case None => Failed(BadIndex)
                     case Some(last) => Holding(last, version);
      clients := clients[g := clients[g].(pc := pc)];
    }

    /** The server accepts the new text only for the version it was read at. */
    method Update(g: nat, newText: string, readVersion: nat) returns (ok: bool)
      requires Enabled(Abstract(), Action.Update(g))
      requires readVersion == clients[g].pc.version
      requires Atoi(newText) == Some(Increment(clients[g].pc.last))
      modifies this
      ensures Abstract() == Next(old(Abstract()), Action.Update(g))
      ensures ok <==> readVersion == old(version)
    {
      var c := clients[g];
      ok := readVersion == version;
      if ok {
        var index := Increment(c.pc.last);
        text, version := newText, version + 1;
        clients := clients[g := c.(pc := Returned(index))];
        log := log + [Commit(g, index)];
      } else {
        var pc := if c.failures + 1 < MAX_RETRIES then Idle else Failed(Exhausted);
        clients := clients[g := Client(c.failures + 1, pc)];
      }
    }

    /** Other clients take the steps of a schedule, as far as they can. */
    method Interfere(g: nat, others: seq<Action>, ghost init: State, ghost run: seq<Action>)
      returns (ghost longer: seq<Action>)
      requires Initial(init) && Runs(init, run) && Exec(init, run) == Abstract() && g < |clients|
      modifies this
      ensures Runs(init, longer) && Exec(init, longer) == Abstract()
      ensures |clients| == |old(clients)| && clients[g] == old(clients)[g]
    {
      longer := run;
      for k := 0 to |others|
        invariant Runs(init, longer) && Exec(init, longer) == Abstract()
        invariant |clients| == |old(clients)| && clients[g] == old(clients)[g]
      {
        var a := others[k];
        if a.g != g && a.g < |clients| {
          ghost var before := Abstract();
          if a.Get? && clients[a.g].pc.Idle? {
            var _ := Get(a.g);
            ghost var u;
            longer, u := Extend(init, longer, before, a);
          } else if a.Update? && clients[a.g].pc.Holding? && present {
            var c := clients[a.g];
            HeldIndexFits(init, longer, a.g);
            NewTextParses(c.pc.last);
            var _ := Update(a.g, Itoa(Increment(c.pc.last)), c.pc.version);
            ghost var u;
            longer, u := Extend(init, longer, before, a);
          }
        }
      }
    }

    /** The second half of a try: write back the incremented index; "" on conflict. */
    method WriteIncremented(g: nat, last: int, readVersion: nat, ghost init: State, ghost run: seq<Action>)
      returns (index: string, ghost longer: seq<Action>)
      requires Initial(init) && Runs(init, run) && Exec(init, run) == Abstract()
      requires g < |clients| && clients[g].pc == Holding(last, readVersion)
      modifies this
      ensures Runs(init, longer) && Exec(init, longer) == Abstract() && |clients| == |old(clients)|
      ensures if index != "" then
                clients[g].pc.Returned? && index == Itoa(clients[g].pc.index)
              else
                clients[g] == Client(old(clients)[g].failures + 1,
                                     if old(clients)[g].failures + 1 < MAX_RETRIES then Idle else Failed(Exhausted))
    {
      ghost var before := Abstract();
      HeldIndexFits(init, run, g);
      NewTextParses(last);
      index := Itoa(Increment(last));
      var ok := Update(g, index, readVersion);
      ghost var u;
      longer, u := Extend(init, run, before, Action.Update(g));
      if !ok {
        index := "";
      }
    }

    /** tryGetJobIndexOnce: "" stands for no index. */
    method TryGetJobIndexOnce(g: nat, others: seq<Action>, ghost init: State, ghost run: seq<Action>)
      returns (index: string, shouldTryAgain: bool, ghost longer: seq<Action>)
      requires Initial(init) && Runs(init, run) && Exec(init, run) == Abstract()
      requires g < |clients| && clients[g].pc.Idle?
      modifies this
      ensures Runs(init, longer) && Exec(init, longer) == Abstract() && g < |clients|
      ensures if index != "" then
                clients[g].pc.Returned? && index == Itoa(clients[g].pc.index)
              else if shouldTryAgain then
                clients[g] == Client(old(clients)[g].failures + 1,
                                     if old(clients)[g].failures + 1 < MAX_RETRIES then Idle else Failed(Exhausted))
              else
                clients[g].pc == Failed(NoConfigMap) || clients[g].pc == Failed(BadIndex)
    {
      ghost var before := Abstract();
      var snapshot := Get(g);
      ghost var u;
      longer, u := Extend(init, run, before, Action.Get(g));
      if snapshot.None? {
        return "", false, longer;
      }
      var last := Atoi(snapshot.value.0);
      if last.None? {
        return "", false, longer;
      }
      longer := Interfere(g, others, init, longer);
      index, longer := WriteIncremented(g, last.value, snapshot.value.1, init, longer);
      return index, index == "", longer;
    }

    /** getJobIndex with arbitrary interference before and inside each try: it
        returns what the protocol says, and everything that happened is a run of
        the protocol. */
    method GetJobIndex(g: nat, before: nat -> seq<Action>, inside: nat -> seq<Action>)
      returns (result: Option<string>, ghost run: seq<Action>)
      requires Initial(Abstract()) && g < |clients|
      modifies this
      ensures Runs(old(Abstract()), run) && Exec(old(Abstract()), run) == Abstract()
      ensures g < |clients|
      ensures match result
              case Some(text) => clients[g].pc.Returned? && text == Itoa(clients[g].pc.index)
              case None => clients[g].pc.Failed?
    {
      ghost var init := Abstract();
      run := [];
      for i := 0 to MAX_RETRIES
        invariant Runs(init, run) && Exec(init, run) == Abstract() && g < |clients|
        invariant clients[g] == Client(i, if i < MAX_RETRIES then Idle else Failed(Exhausted))
      {
        run := Interfere(g, before(i), init, run);
        var index, shouldTryAgain;
        index, shouldTryAgain, run := TryGetJobIndexOnce(g, inside(i), init, run);
        if index != "" || !shouldTryAgain {
          return if index != "" then Some(index) else None, run;
        }
      }
      return None, run;
    }
  }

  lemma {:induction false} IndexFits(start: int, k: nat)
    requires MIN_INT64 <= start <= MAX_INT64
    ensures MIN_INT64 <= IndexAfter(start, k) <= MAX_INT64
  {
    if k > 0 {
      IndexFits(start, k - 1);
    }
  }

  /** In every run a client that holds an index read it from the server, as an int64. */
  lemma HeldIndexFits(init: State, run: seq<Action>, g: nat)
    requires Initial(init) && Runs(init, run)
    requires g < |Exec(init, run).clients| && Exec(init, run).clients[g].pc.Holding?
    ensures MIN_INT64 <= Exec(init, run).clients[g].pc.last <= MAX_INT64
    ensures Exec(init, run).server.Some?
  {
    var start := ReachableInv(init, run);
    var s := Exec(init, run);
    assert ClientInv(init, start, s, g);
    IndexFits(start.value, s.clients[g].pc.version - init.server.value.version);
  }

  /** The text written for an incremented int64 parses back to it. */
  lemma NewTextParses(last: int)
    requires MIN_INT64 <= last <= MAX_INT64
    ensures Atoi(Itoa(Increment(last))) == Some(Increment(last))
  {
    AtoiItoa(Increment(last));
  }
}
