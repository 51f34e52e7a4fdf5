/** The lazy concurrent cache as interleaved atomic steps of any number of calls.
    Each call of Get or Refresh is a goroutine with a program counter; a step is
    one statement of the source, so that the lock, the unlocked reads of the Ready
    case and the rendezvous on the unbuffered channel are all visible. */
module LazyCache {
  import opened Common

  datatype Status = Empty | Fetching | Ready

  /** Stands for an interface{} or an error value; 0 is nil. */
  type Ref = nat

  /** What one call of get_data returns. */
  datatype Outcome = Outcome(data: Ref, err: Ref)

  datatype Pc =
    // Get
    | GetLock
    | GetSwitch
    | UnlockThenRefresh
    | UnlockThenWait
    | UnlockThenRead
    | Receive
    | ReadData
    | ReadErr(data: Ref)
    // Refresh
    | RefreshLock
    | MarkFetching
    | UnlockThenFetch
    | FetchData
    | StoreLock(o: Outcome)
    | StoreData(o: Outcome)
    | StoreErr(o: Outcome)
    | SetReady(o: Outcome)
    | Send(o: Outcome, i: nat)
    | UnlockThenReturn(o: Outcome)
    // the call has returned
    | Done(o: Outcome)

  /** `owner` holds the mutex. `starts` counts the calls of get_data and `returned`
      lists what those that came back have returned. */
  datatype State = State(
    status: Status, data: Ref, err: Ref, waiters: nat,
    owner: Option<nat>, pcs: seq<Pc>, starts: nat, returned: seq<Outcome>)

  /** One step: a call advances by itself, its get_data call comes back with an
      outcome, or a sender and a receiver meet on the channel. */
  datatype Action = Advance(g: nat) | Return(g: nat, o: Outcome) | Deliver(g: nat, receiver: nat)

  predicate Enabled(s: State, a: Action) {
    && a.g < |s.pcs|
    && match a
       case Advance(g) =>
         (match s.pcs[g]
          case GetLock | RefreshLock | StoreLock(_) => s.owner.None?
          case Send(_, i) => i >= s.waiters
          case Receive | FetchData | Done(_) => false
          case _ => true)
       case Return(g, _) => s.pcs[g].FetchData?
       case Deliver(g, r) => s.pcs[g].Send? && s.pcs[g].i < s.waiters && r < |s.pcs| && s.pcs[r].Receive?
  }

  function Goto(s: State, g: nat, pc: Pc): State
    requires g < |s.pcs|
  {
    s.(pcs := s.pcs[g := pc])
  }

  function Next(s: State, a: Action): State
    requires Enabled(s, a)
  {
    var g := a.g;
    match a
    case Return(_, o) => Goto(s, g, StoreLock(o)).(returned := s.returned + [o])
    case Deliver(_, r) =>
      var o := s.pcs[g].o;
      s.(pcs := s.pcs[g := Send(o, s.pcs[g].i + 1)][r := Done(o)])
    case Advance(_) =>
      match s.pcs[g]
      case GetLock => Goto(s, g, GetSwitch).(owner := Some(g))
      case GetSwitch =>
        (match s.status
         case Empty => Goto(s, g, UnlockThenRefresh).(status := Fetching)
         case Fetching => Goto(s, g, UnlockThenWait).(waiters := s.waiters + 1)
         case Ready => Goto(s, g, UnlockThenRead))
      case UnlockThenRefresh => Goto(s, g, RefreshLock).(owner := None)
      case UnlockThenWait => Goto(s, g, Receive).(owner := None)
      case UnlockThenRead => Goto(s, g, ReadData).(owner := None)
      case ReadData => Goto(s, g, ReadErr(s.data))
      case ReadErr(d) => Goto(s, g, Done(Outcome(d, s.err)))
      case RefreshLock => Goto(s, g, MarkFetching).(owner := Some(g))
      case MarkFetching => Goto(s, g, UnlockThenFetch).(status := Fetching)
      case UnlockThenFetch => Goto(s, g, FetchData).(owner := None, starts := s.starts + 1)
      case StoreLock(o) => Goto(s, g, StoreData(o)).(owner := Some(g))
      case StoreData(o) => Goto(s, g, StoreErr(o)).(data := o.data)
      case StoreErr(o) => Goto(s, g, SetReady(o)).(err := o.err)
      case SetReady(o) => Goto(s, g, Send(o, 0)).(status := Ready)
      case Send(o, _) => Goto(s, g, UnlockThenReturn(o)).(waiters := 0)
      case UnlockThenReturn(o) => Goto(s, g, Done(o)).(owner := None)
  }

  // ----- runs

  ghost predicate Runs(s: State, run: seq<Action>)
    decreases |run|
  {
    run == [] || (Enabled(s, run[0]) && Runs(Next(s, run[0]), run[1..]))
  }

  ghost function Exec(s: State, run: seq<Action>): State
    requires Runs(s, run)
    decreases |run|
  {
    if run == [] then s else Exec(Next(s, run[0]), run[1..])
  }

  /** A new cache and any mix of calls that have not begun. */
  ghost predicate Initial(s: State) {
    && s.status == Empty && s.data == 0 && s.err == 0 && s.waiters == 0
    && s.owner == None && s.starts == 0 && s.returned == []
    && forall g :: 0 <= g < |s.pcs| ==> s.pcs[g] == GetLock || s.pcs[g] == RefreshLock
  }

  predicate Finished(s: State) {
    forall g :: 0 <= g < |s.pcs| ==> s.pcs[g].Done?
  }

  // ----- what the program counters say

  /** The call holds the mutex. */
  predicate Holds(pc: Pc) {
    match pc
    case GetSwitch | UnlockThenRefresh | UnlockThenWait | UnlockThenRead | MarkFetching | UnlockThenFetch => true
    case StoreData(_) | StoreErr(_) | SetReady(_) | Send(_, _) | UnlockThenReturn(_) => true
    case _ => false
  }

  /** The call has been counted as a waiter and has not been served. */
  predicate Waits(pc: Pc) { pc.UnlockThenWait? || pc.Receive? }

  /** A refresh that will still set the status to Ready. */
  predicate InFlight(pc: Pc) {
    match pc
    case UnlockThenRefresh | RefreshLock | MarkFetching | UnlockThenFetch | FetchData => true
    case StoreLock(_) | StoreData(_) | StoreErr(_) | SetReady(_) => true
    case _ => false
  }

  /** A refresh that has yet to call get_data. */
  predicate WillFetch(pc: Pc) {
    pc.UnlockThenRefresh? || pc.RefreshLock? || pc.MarkFetching? || pc.UnlockThenFetch?
  }

  ghost function Count(s: seq<Pc>, p: Pc -> bool): nat { Sum(s, pc => Bit(p(pc))) }

  lemma CountUpdate(s: seq<Pc>, g: nat, pc: Pc, p: Pc -> bool)
    requires g < |s|
    ensures Count(s[g := pc], p) + Bit(p(s[g])) == Count(s, p) + Bit(p(pc))
  {
    SumUpdate(s, g, pc, pc => Bit(p(pc)));
  }

  lemma CountZero(s: seq<Pc>, p: Pc -> bool)
    ensures Count(s, p) == 0 <==> forall g :: 0 <= g < |s| ==> !p(s[g])
  {
    SumZero(s, pc => Bit(p(pc)));
    if Count(s, p) == 0 {
      forall g | 0 <= g < |s| ensures !p(s[g]) { assert s[g] in s; }
    }
  }

  lemma CountAtMost(s: seq<Pc>, p: Pc -> bool)
    ensures Count(s, p) <= |s|
  {
    SumAtMost(s, pc => Bit(p(pc)), 1);
  }

  // ----- the inductive invariant

  ghost predicate MutexInv(s: State) {
    && (s.owner.Some? ==> s.owner.value < |s.pcs|)
    && forall g :: 0 <= g < |s.pcs| ==> (Holds(s.pcs[g]) <==> s.owner == Some(g))
  }

  /** The owner of the mutex is in the send loop. */
  predicate Delivering(s: State) {
    s.owner.Some? && s.owner.value < |s.pcs| && s.pcs[s.owner.value].Send?
  }

  /** How many of the counted waiters the current delivery has served. */
  function Served(s: State): nat {
    if Delivering(s) then s.pcs[s.owner.value].i else 0
  }

  /** Outside delivery the counter is the number of calls committed to wait;
      during delivery the sends left are the calls still waiting. */
  ghost predicate CountInv(s: State) {
    s.waiters == Served(s) + Count(s.pcs, Waits)
  }

  /** The counter is nonzero only while fetching or delivering. */
  ghost predicate StatusInv(s: State) {
    && (s.waiters > 0 && !Delivering(s) ==> s.status == Fetching)
    && (Delivering(s) ==> s.status == Ready)
  }

  /** Fetching means that a refresh is on its way to set Ready. */
  ghost predicate FlightInv(s: State) {
    s.status == Fetching ==> exists g :: 0 <= g < |s.pcs| && InFlight(s.pcs[g])
  }

  ghost predicate Inv(s: State) { MutexInv(s) && CountInv(s) && StatusInv(s) && FlightInv(s) }

  lemma StepMutex(s: State, a: Action)
    requires MutexInv(s) && Enabled(s, a)
    ensures MutexInv(Next(s, a))
  {
  }

  lemma StepCount(s: State, a: Action)
    requires MutexInv(s) && CountInv(s) && StatusInv(s) && Enabled(s, a)
    ensures CountInv(Next(s, a))
  {
    var g, t := a.g, Next(s, a);
    CountUpdate(s.pcs, g, t.pcs[g], Waits);
    if a.Deliver? {
      assert Holds(s.pcs[g]);
      CountUpdate(s.pcs[g := t.pcs[g]], a.receiver, t.pcs[a.receiver], Waits);
    } else {
      assert t.pcs == s.pcs[g := t.pcs[g]];
      StepServed(s, a);
    }
  }

  /** A step that is not a rendezvous moves the served count and the counter
      only together with the number of waiting calls. */
  lemma StepServed(s: State, a: Action)
    requires MutexInv(s) && CountInv(s) && StatusInv(s) && Enabled(s, a) && !a.Deliver?
    ensures var t := Next(s, a);
            t.waiters + Served(s) + Bit(Waits(s.pcs[a.g])) == s.waiters + Served(t) + Bit(Waits(t.pcs[a.g]))
  {
    var g, t := a.g, Next(s, a);
    assert Holds(s.pcs[g]) <==> s.owner == Some(g);
    if s.owner.Some? && s.owner.value != g {
      assert t.owner == s.owner && t.pcs[s.owner.value] == s.pcs[s.owner.value];
    }
  }

  lemma StepStatus(s: State, a: Action)
    requires MutexInv(s) && StatusInv(s) && Enabled(s, a)
    ensures StatusInv(Next(s, a))
  {
    var g, t := a.g, Next(s, a);
    assert Holds(s.pcs[g]) <==> s.owner == Some(g);
  }

  lemma StepFlight(s: State, a: Action)
    requires FlightInv(s) && Enabled(s, a)
    ensures FlightInv(Next(s, a))
  {
    var g, t := a.g, Next(s, a);
    if t.status == Fetching && !InFlight(t.pcs[g]) {
      var h :| 0 <= h < |s.pcs| && InFlight(s.pcs[h]);
      assert InFlight(t.pcs[h]);
    }
  }

  lemma KeepsInv(s: State, a: Action)
    requires Inv(s) && Enabled(s, a)
    ensures Inv(Next(s, a)) && |Next(s, a).pcs| == |s.pcs|
  {
    StepMutex(s, a);
    StepCount(s, a);
    StepStatus(s, a);
    StepFlight(s, a);
  }

  lemma {:induction false} InitialInv(s: State)
    requires Initial(s)
    ensures Inv(s)
  {
    CountZero(s.pcs, Waits);
  }

  lemma {:induction false} RunInv(s: State, run: seq<Action>)
    requires Inv(s) && Runs(s, run)
    ensures Inv(Exec(s, run))
    decreases |run|
  {
    if run != [] {
      KeepsInv(s, run[0]);
      RunInv(Next(s, run[0]), run[1..]);
    }
  }

  // ----- deadlock freedom and termination

  /** In a state that satisfies the invariant some call can always step, unless
      every call has returned: even a holder of the mutex that is blocked sending
      finds a receiver. */
  lemma NeverStuck(s: State)
    requires Inv(s) && !Finished(s)
    ensures exists a :: Enabled(s, a)
  {
    if s.owner.Some? {
      var h := s.owner.value;
      assert Holds(s.pcs[h]);
      if Delivering(s) && s.pcs[h].i < s.waiters {
        CountZero(s.pcs, Waits);
        var r :| 0 <= r < |s.pcs| && Waits(s.pcs[r]);
        assert Enabled(s, Deliver(h, r));
      } else {
        assert Enabled(s, Advance(h));
      }
    } else {
      var g :| 0 <= g < |s.pcs| && !s.pcs[g].Done?;
      assert !Holds(s.pcs[g]);
      if s.pcs[g].Receive? {
        CountZero(s.pcs, Waits);
        assert s.status == Fetching;
        var f :| 0 <= f < |s.pcs| && InFlight(s.pcs[f]);
        Moves(s, f);
      } else {
        Moves(s, g);
      }
    }
  }

  lemma Moves(s: State, g: nat)
    requires MutexInv(s) && g < |s.pcs| && s.owner.None?
    requires !s.pcs[g].Done? && !s.pcs[g].Receive?
    ensures exists a :: Enabled(s, a)
  {
    assert !Holds(s.pcs[g]);
    if s.pcs[g].FetchData? {
      assert Enabled(s, Return(g, Outcome(0, 0)));
    } else {
      assert Enabled(s, Advance(g));
    }
  }

  /** An upper bound on the steps a call still takes by itself. */
  function Rank(pc: Pc): nat {
    match pc
    case GetLock => 13
    case GetSwitch => 12
    case UnlockThenRefresh | UnlockThenWait | UnlockThenRead => 11
    case RefreshLock => 10
    case MarkFetching => 9
    case UnlockThenFetch => 8
    case FetchData => 7
    case StoreLock(_) => 6
    case StoreData(_) => 5
    case StoreErr(_) => 4
    case SetReady(_) => 3
    case Send(_, _) | ReadData => 2
    case UnlockThenReturn(_) | ReadErr(_) | Receive => 1
    case Done(_) => 0
  }

  lemma RankDrops(s: State, a: Action)
    requires Enabled(s, a) && !a.Deliver?
    ensures Rank(Next(s, a).pcs[a.g]) < Rank(s.pcs[a.g])
    ensures Next(s, a).pcs == s.pcs[a.g := Next(s, a).pcs[a.g]]
  {
  }

  lemma StepDecreases(s: State, a: Action)
    requires Enabled(s, a)
    ensures Sum(Next(s, a).pcs, Rank) < Sum(s.pcs, Rank)
  {
    var g, pc := a.g, Next(s, a).pcs[a.g];
    SumUpdate(s.pcs, g, pc, Rank);
    if a.Deliver? {
      SumUpdate(s.pcs[g := pc], a.receiver, Done(s.pcs[g].o), Rank);
    } else {
      RankDrops(s, a);
    }
  }

  lemma {:induction false} RunBound(s: State, run: seq<Action>)
    requires Runs(s, run)
    ensures |run| + Sum(Exec(s, run).pcs, Rank) <= Sum(s.pcs, Rank)
    decreases |run|
  {
    if run != [] {
      StepDecreases(s, run[0]);
      RunBound(Next(s, run[0]), run[1..]);
    }
  }

  lemma ReachableInv(init: State, run: seq<Action>)
    requires Initial(init) && Runs(init, run)
    ensures Inv(Exec(init, run))
  {
    InitialInv(init);
    RunInv(init, run);
  }

  lemma FinishedStops(s: State, a: Action)
    requires Finished(s)
    ensures !Enabled(s, a)
  {
  }

  /** No schedule runs for ever: whatever the interleaving, a run has at most 13
      steps for each call. */
  lemma NoEndlessRun(init: State, run: seq<Action>)
    requires Initial(init) && Runs(init, run)
    ensures |run| <= 13 * |init.pcs|
  {
    RunBound(init, run);
    SumAtMost(init.pcs, Rank, 13);
  }

  /** A run that cannot be continued is one that has finished every call. As no run
      is endless, every Get and Refresh returns in every schedule. */
  lemma EveryCallReturns(init: State, run: seq<Action>)
    requires Initial(init) && Runs(init, run)
    ensures (forall a :: !Enabled(Exec(init, run), a)) <==> Finished(Exec(init, run))
  {
    var s := Exec(init, run);
    if Finished(s) {
      forall a ensures !Enabled(s, a) {
        FinishedStops(s, a);
      }
    } else {
      ReachableInv(init, run);
      NeverStuck(s);
    }
  }

  /** What the counter means in every reachable state of any mix of Gets and
      Refreshes. */
  lemma WaitersAccounted(init: State, run: seq<Action>)
    requires Initial(init) && Runs(init, run)
    ensures var s := Exec(init, run);
            && (!Delivering(s) ==> s.waiters == Count(s.pcs, Waits))
            && (!Delivering(s) && s.waiters > 0 ==> s.status == Fetching)
            && (s.status == Fetching ==> exists g :: 0 <= g < |s.pcs| && InFlight(s.pcs[g]))
            && (Delivering(s) ==> s.waiters - s.pcs[s.owner.value].i == Count(s.pcs, Waits))
  {
    ReachableInv(init, run);
  }

  /** A call that has returned is never touched again, so no waiter is served
      twice and no result is overwritten. */
  lemma {:induction false} DoneForever(s: State, run: seq<Action>, g: nat)
    requires Runs(s, run) && g < |s.pcs| && s.pcs[g].Done?
    ensures |Exec(s, run).pcs| == |s.pcs| && Exec(s, run).pcs[g] == s.pcs[g]
    decreases |run|
  {
    if run != [] {
      DoneForever(Next(s, run[0]), run[1..], g);
    }
  }

  // ----- how often get_data runs

  predicate IsRefresh(pc: Pc) { pc.RefreshLock? }

  predicate IsFetching(pc: Pc) { pc.FetchData? }

  /** The calls of get_data made or still to be made. */
  ghost function Committed(s: State): nat { s.starts + Count(s.pcs, WillFetch) }

  /** An unused cache has every call still at its beginning. */
  ghost predicate UnusedInv(s: State) {
    s.status == Empty ==> forall g :: 0 <= g < |s.pcs| ==>
      s.pcs[g].GetLock? || s.pcs[g].GetSwitch? || s.pcs[g].RefreshLock? || s.pcs[g].MarkFetching?
  }

  ghost predicate FetchInv(s: State, refreshes: nat) {
    && refreshes <= Committed(s)
    && Committed(s) + Bit(s.status == Empty) <= refreshes + 1
    && (s.status != Empty ==> Committed(s) >= 1)
    && s.starts == |s.returned| + Count(s.pcs, IsFetching)
    && UnusedInv(s)
  }

  lemma StepFetch(s: State, a: Action, refreshes: nat)
    requires FetchInv(s, refreshes) && Enabled(s, a)
    ensures FetchInv(Next(s, a), refreshes)
    ensures s.status != Empty ==> Next(s, a).status != Empty
  {
    var g, t := a.g, Next(s, a);
    CountUpdate(s.pcs, g, t.pcs[g], WillFetch);
    CountUpdate(s.pcs, g, t.pcs[g], IsFetching);
    if a.Deliver? {
      CountUpdate(s.pcs[g := t.pcs[g]], a.receiver, t.pcs[a.receiver], WillFetch);
      CountUpdate(s.pcs[g := t.pcs[g]], a.receiver, t.pcs[a.receiver], IsFetching);
    } else {
      assert t.pcs == s.pcs[g := t.pcs[g]];
    }
    if s.status == Empty && t.status != Empty {
      assert WillFetch(t.pcs[g]);
      CountZero(t.pcs, WillFetch);
    }
  }

  lemma {:induction false} RunFetch(s: State, run: seq<Action>, refreshes: nat)
    requires FetchInv(s, refreshes) && Runs(s, run)
    ensures FetchInv(Exec(s, run), refreshes) && |Exec(s, run).pcs| == |s.pcs|
    decreases |run|
  {
    if run != [] {
      StepFetch(s, run[0], refreshes);
      RunFetch(Next(s, run[0]), run[1..], refreshes);
    }
  }

  lemma InitialFetch(s: State)
    requires Initial(s)
    ensures FetchInv(s, Count(s.pcs, IsRefresh))
  {
    CountAgree(s.pcs, WillFetch, IsRefresh);
    CountZero(s.pcs, IsFetching);
  }

  lemma {:induction false} CountAgree(s: seq<Pc>, p: Pc -> bool, q: Pc -> bool)
    requires forall g :: 0 <= g < |s| ==> p(s[g]) == q(s[g])
    ensures Count(s, p) == Count(s, q)
  {
    if s != [] {
      CountAgree(s[1..], p, q);
      assert Count(s, p) == Bit(p(s[0])) + Count(s[1..], p);
    }
  }

  /** With R explicit Refresh calls get_data is called at most R + 1 times, and
      once everything has returned at least R times and at least once. */
  lemma FetchedAtMostOncePerRefresh(init: State, run: seq<Action>)
    requires Initial(init) && Runs(init, run)
    ensures var s, refreshes := Exec(init, run), Count(init.pcs, IsRefresh);
            && |s.returned| <= s.starts <= refreshes + 1
            && (Finished(s) ==> refreshes <= s.starts == |s.returned|)
            && (Finished(s) && init.pcs != [] ==> s.starts >= 1)
  {
    InitialFetch(init);
    RunFetch(init, run, Count(init.pcs, IsRefresh));
    var s := Exec(init, run);
    if Finished(s) {
      CountZero(s.pcs, IsFetching);
      CountZero(s.pcs, WillFetch);
    }
  }

  // ----- what is returned

  ghost predicate DataFrom(returned: seq<Outcome>, data: Ref) {
    exists o :: o in returned && o.data == data
  }

  ghost predicate ErrFrom(returned: seq<Outcome>, err: Ref) {
    exists o :: o in returned && o.err == err
  }

  ghost predicate PcSound(s: State, pc: Pc) {
    match pc
    case StoreLock(o) => o in s.returned
    case StoreData(o) => o in s.returned
    case StoreErr(o) => o in s.returned && DataFrom(s.returned, s.data)
    case SetReady(o) => o in s.returned && DataFrom(s.returned, s.data) && ErrFrom(s.returned, s.err)
    case Send(o, _) => o in s.returned
    case UnlockThenReturn(o) => o in s.returned
    case UnlockThenRead | ReadData => DataFrom(s.returned, s.data) && ErrFrom(s.returned, s.err)
    case ReadErr(d) => DataFrom(s.returned, d) && ErrFrom(s.returned, s.err)
    case Done(o) => DataFrom(s.returned, o.data) && ErrFrom(s.returned, o.err)
    case _ => true
  }

  ghost predicate ValueInv(s: State) {
    && (s.status == Ready ==> DataFrom(s.returned, s.data) && ErrFrom(s.returned, s.err))
    && forall g :: 0 <= g < |s.pcs| ==> PcSound(s, s.pcs[g])
  }

  lemma StepValue(s: State, a: Action)
    requires ValueInv(s) && Enabled(s, a)
    ensures ValueInv(Next(s, a))
  {
    var t := Next(s, a);
    assert forall o :: o in s.returned ==> o in t.returned;
    assert PcSound(s, s.pcs[a.g]);
    forall g | 0 <= g < |t.pcs| ensures PcSound(t, t.pcs[g]) {
      assert PcSound(s, s.pcs[g]);
    }
  }

  lemma {:induction false} RunValue(s: State, run: seq<Action>)
    requires ValueInv(s) && Runs(s, run)
    ensures ValueInv(Exec(s, run))
    decreases |run|
  {
    if run != [] {
      StepValue(s, run[0]);
      RunValue(Next(s, run[0]), run[1..]);
    }
  }

  /** In every run of any mix of calls each half of a returned pair was returned by
      some call of get_data. */
  lemma HalvesAreFetched(init: State, run: seq<Action>)
    requires Initial(init) && Runs(init, run)
    ensures var s := Exec(init, run);
            forall g :: 0 <= g < |s.pcs| && s.pcs[g].Done? ==>
              DataFrom(s.returned, s.pcs[g].o.data) && ErrFrom(s.returned, s.pcs[g].o.err)
  {
    RunValue(init, run);
    var s := Exec(init, run);
    forall g | 0 <= g < |s.pcs| && s.pcs[g].Done?
      ensures DataFrom(s.returned, s.pcs[g].o.data) && ErrFrom(s.returned, s.pcs[g].o.err)
    {
      assert PcSound(s, s.pcs[g]);
    }
  }

  /** A Get-only client population calls get_data exactly once, and every Get
      returns exactly what that call returned. */
  lemma GetOnly(init: State, run: seq<Action>)
    requires Initial(init) && Runs(init, run)
    requires forall g :: 0 <= g < |init.pcs| ==> init.pcs[g] == GetLock
    ensures var s := Exec(init, run);
            && s.starts <= 1
            && (forall g :: 0 <= g < |s.pcs| && s.pcs[g].Done? ==> s.returned == [s.pcs[g].o])
            && (Finished(s) && init.pcs != [] ==> s.starts == 1)
  {
    CountZero(init.pcs, IsRefresh);
    FetchedAtMostOncePerRefresh(init, run);
    HalvesAreFetched(init, run);
  }

  // ----- whose outcome a call returns

  /** What a refresh brings back from get_data, once it has come back. */
  function Carried(pc: Pc): Option<Outcome> {
    match pc
    case StoreLock(o) => Some(o)
    case StoreData(o) => Some(o)
    case StoreErr(o) => Some(o)
    case SetReady(o) => Some(o)
    case Send(o, _) => Some(o)
    case UnlockThenReturn(o) => Some(o)
    case Done(o) => Some(o)
    case _ => None
  }

  lemma {:induction false} CarriesOn(s: State, run: seq<Action>, g: nat)
    requires Runs(s, run) && g < |s.pcs| && Carried(s.pcs[g]).Some?
    ensures g < |Exec(s, run).pcs| && Carried(Exec(s, run).pcs[g]) == Carried(s.pcs[g])
    ensures forall o :: Return(g, o) !in run
    decreases |run|
  {
    if run != [] {
      CarriesOn(Next(s, run[0]), run[1..], g);
    }
  }

  /** In every run a call that called get_data itself ends with what that call
      returned. */
  lemma {:induction false} OwnOutcome(s: State, run: seq<Action>, g: nat, o: Outcome)
    requires Runs(s, run) && Return(g, o) in run
    ensures var t := Exec(s, run); g < |t.pcs| && (t.pcs[g].Done? ==> t.pcs[g] == Done(o))
    decreases |run|
  {
    if run[0] == Return(g, o) {
      CarriesOn(Next(s, run[0]), run[1..], g);
    } else {
      OwnOutcome(Next(s, run[0]), run[1..], g, o);
    }
  }

  /** A call that a refresh sends to ends with what that refresh carries. */
  lemma {:induction false} DeliveredByCarrier(s: State, run: seq<Action>, h: nat, r: nat)
    requires Runs(s, run) && Deliver(h, r) in run && h < |s.pcs| && Carried(s.pcs[h]).Some?
    ensures r < |Exec(s, run).pcs| && Exec(s, run).pcs[r] == Done(Carried(s.pcs[h]).value)
    decreases |run|
  {
    var t := Next(s, run[0]);
    if run[0] == Deliver(h, r) {
      DoneForever(t, run[1..], r);
    } else {
      DeliveredByCarrier(t, run[1..], h, r);
    }
  }

  /** In every run a call that waited ends with exactly what the refresh that served it
      got from its own get_data call. */
  lemma {:induction false} ServedOutcome(s: State, run: seq<Action>, h: nat, r: nat, o: Outcome)
    requires Runs(s, run) && Deliver(h, r) in run && Return(h, o) in run
    ensures r < |Exec(s, run).pcs| && Exec(s, run).pcs[r] == Done(o)
    decreases |run|
  {
    var t := Next(s, run[0]);
    if run[0] == Return(h, o) {
      DeliveredByCarrier(t, run[1..], h, r);
    } else {
      if run[0] == Deliver(h, r) {
        CarriesOn(s, run, h);
        assert false;
      }
      ServedOutcome(t, run[1..], h, r, o);
    }
  }

  /** A refresh that sends has come back from get_data in the run. */
  lemma {:induction false} SenderHasFetched(s: State, run: seq<Action>, h: nat, r: nat) returns (o: Outcome)
    requires Runs(s, run) && Deliver(h, r) in run && h < |s.pcs| && Carried(s.pcs[h]).None?
    ensures Return(h, o) in run
    decreases |run|
  {
    if run[0].Return? && run[0].g == h {
      o := run[0].o;
    } else if run[0] == Deliver(h, r) {
      assert false;
    } else if Carried(Next(s, run[0]).pcs[h]).Some? {
      ReceivedIsDone(s, run[0], run[1..], h, r);
      assert false;
    } else {
      o := SenderHasFetched(Next(s, run[0]), run[1..], h, r);
    }
  }

  /** A call that gets its outcome otherwise has returned and sends nothing. */
  lemma {:induction false} ReceivedIsDone(s: State, a: Action, run: seq<Action>, h: nat, r: nat)
    requires Enabled(s, a) && h < |s.pcs| && Carried(s.pcs[h]).None? && Carried(Next(s, a).pcs[h]).Some?
    requires !(a.Return? && a.g == h)
    requires Runs(Next(s, a), run)
    ensures Deliver(h, r) !in run
  {
    assert Next(s, a).pcs[h].Done?;
    DoneSendsNothing(Next(s, a), run, h, r);
  }

  lemma {:induction false} DoneSendsNothing(s: State, run: seq<Action>, h: nat, r: nat)
    requires Runs(s, run) && h < |s.pcs| && s.pcs[h].Done?
    ensures Deliver(h, r) !in run
    decreases |run|
  {
    if run != [] {
      DoneSendsNothing(Next(s, run[0]), run[1..], h, r);
    }
  }

  /** A waiting call can end only by being sent to. */
  lemma {:induction false} WaiterIsServed(s: State, run: seq<Action>, r: nat) returns (h: nat)
    requires Runs(s, run) && r < |s.pcs| && Waits(s.pcs[r])
    requires r < |Exec(s, run).pcs| && Exec(s, run).pcs[r].Done?
    ensures Deliver(h, r) in run
    decreases |run|
  {
    var a := run[0];
    if a.Deliver? && a.receiver == r {
      h := a.g;
    } else {
      h := WaiterIsServed(Next(s, a), run[1..], r);
    }
  }

  /** In every run, once a Get has begun to wait and has returned, some refresh sent to
      it, and it returned exactly what that refresh fetched. */
  lemma WaiterGetsFetched(init: State, first: seq<Action>, rest: seq<Action>, r: nat) returns (h: nat, o: Outcome)
    requires Initial(init) && Runs(init, first) && Runs(Exec(init, first), rest)
    requires r < |Exec(init, first).pcs| && Waits(Exec(init, first).pcs[r])
    requires var t := Exec(Exec(init, first), rest); r < |t.pcs| && t.pcs[r].Done?
    ensures Deliver(h, r) in rest && Return(h, o) in first + rest
    ensures Exec(Exec(init, first), rest).pcs[r] == Done(o)
  {
    h := WaiterIsServed(Exec(init, first), rest, r);
    Compose(init, first, rest);
    SameCalls(init, first + rest);
    DeliverersExist(init, first + rest, h, r);
    o := SenderHasFetched(init, first + rest, h, r);
    ServedOutcome(init, first + rest, h, r, o);
  }

  lemma {:induction false} SameCalls(s: State, run: seq<Action>)
    requires Runs(s, run)
    ensures |Exec(s, run).pcs| == |s.pcs|
    decreases |run|
  {
    if run != [] {
      SameCalls(Next(s, run[0]), run[1..]);
    }
  }

  lemma {:induction false} DeliverersExist(s: State, run: seq<Action>, h: nat, r: nat)
    requires Runs(s, run) && Deliver(h, r) in run
    ensures h < |s.pcs|
    decreases |run|
  {
    if run[0] != Deliver(h, r) {
      DeliverersExist(Next(s, run[0]), run[1..], h, r);
    }
  }

  // ----- how fresh a returned pair is

  /** The values written to the data field, and to the error field, in a run. */
  ghost function DataWritten(s: State, run: seq<Action>): seq<Ref>
    requires Runs(s, run)
    decreases |run|
  {
    if run == [] then [] else DataWrite(s, run[0]) + DataWritten(Next(s, run[0]), run[1..])
  }

  ghost function ErrWritten(s: State, run: seq<Action>): seq<Ref>
    requires Runs(s, run)
    decreases |run|
  {
    if run == [] then [] else ErrWrite(s, run[0]) + ErrWritten(Next(s, run[0]), run[1..])
  }

  /** A call at the statement that stores what it carries writes that. */
  function DataWrite(s: State, a: Action): seq<Ref>
    requires Enabled(s, a)
  {
    if a.Advance? && s.pcs[a.g].StoreData? then [s.pcs[a.g].o.data] else []
  }

  function ErrWrite(s: State, a: Action): seq<Ref>
    requires Enabled(s, a)
  {
    if a.Advance? && s.pcs[a.g].StoreErr? then [s.pcs[a.g].o.err] else []
  }

  /** While a refresh holds the lock the fields are what it has stored so far. */
  ghost predicate HolderInv(s: State) {
    && MutexInv(s)
    && forall g :: 0 <= g < |s.pcs| ==>
         match s.pcs[g]
         case StoreErr(o) => s.data == o.data
         case SetReady(o) => s.data == o.data && s.err == o.err
         case Send(o, _) => s.data == o.data && s.err == o.err
         case UnlockThenReturn(o) => s.data == o.data && s.err == o.err
         case _ => true
  }

  lemma StepHolder(s: State, a: Action)
    requires HolderInv(s) && Enabled(s, a)
    ensures HolderInv(Next(s, a))
  {
    StepMutex(s, a);
    assert Holds(s.pcs[a.g]) <==> s.owner == Some(a.g);
  }

  lemma {:induction false} RunHolder(s: State, run: seq<Action>)
    requires HolderInv(s) && Runs(s, run)
    ensures HolderInv(Exec(s, run))
    decreases |run|
  {
    if run != [] {
      StepHolder(s, run[0]);
      RunHolder(Next(s, run[0]), run[1..]);
    }
  }

  /** Both fields hold values from these lists. */
  predicate Clean(s: State, datas: seq<Ref>, errs: seq<Ref>) { s.data in datas && s.err in errs }

  /** The owner of the mutex is about to mark the cache Fetching. */
  predicate Marking(s: State) {
    s.owner.Some? && s.owner.value < |s.pcs| && s.pcs[s.owner.value].MarkFetching?
  }

  /** Whatever a Get can come to read or be sent from now on is from these lists. */
  ghost predicate SourcesClean(s: State, datas: seq<Ref>, errs: seq<Ref>) {
    && (s.status == Ready && !Marking(s) ==> Clean(s, datas, errs))
    && (forall c :: 0 <= c < |s.pcs| && s.pcs[c].StoreErr? ==> s.data in datas)
    && (forall c :: 0 <= c < |s.pcs| && (s.pcs[c].SetReady? || s.pcs[c].Send? || s.pcs[c].UnlockThenReturn?) ==>
          Clean(s, datas, errs))
  }

  /** What Get g has read or returned is from these lists. */
  predicate ReadClean(s: State, g: nat, datas: seq<Ref>, errs: seq<Ref>)
    requires g < |s.pcs|
  {
    match s.pcs[g]
    case UnlockThenRead | ReadData => Clean(s, datas, errs)
    case ReadErr(d) => d in datas && Clean(s, datas, errs)
    case Done(o) => o.data in datas && o.err in errs
    case _ => true
  }

  ghost predicate FreshInv(s: State, g: nat, datas: seq<Ref>, errs: seq<Ref>)
    requires g < |s.pcs|
  {
    SourcesClean(s, datas, errs) && ReadClean(s, g, datas, errs)
  }

  lemma StepSources(s: State, a: Action, datas: seq<Ref>, errs: seq<Ref>)
    requires HolderInv(s) && Enabled(s, a) && SourcesClean(s, datas, errs)
    ensures SourcesClean(Next(s, a), datas + DataWrite(s, a), errs + ErrWrite(s, a))
  {
    assert Holds(s.pcs[a.g]) <==> s.owner == Some(a.g);
  }

  lemma StepRead(s: State, a: Action, g: nat, datas: seq<Ref>, errs: seq<Ref>)
    requires HolderInv(s) && Enabled(s, a) && g < |s.pcs| && FreshInv(s, g, datas, errs)
    ensures ReadClean(Next(s, a), g, datas + DataWrite(s, a), errs + ErrWrite(s, a))
  {
    assert Holds(s.pcs[a.g]) <==> s.owner == Some(a.g);
    assert Holds(s.pcs[g]) <==> s.owner == Some(g);
  }

  lemma {:induction false} RunFresh(s: State, run: seq<Action>, g: nat, datas: seq<Ref>, errs: seq<Ref>)
    requires HolderInv(s) && Runs(s, run) && g < |s.pcs| && FreshInv(s, g, datas, errs)
    ensures g < |Exec(s, run).pcs|
    ensures FreshInv(Exec(s, run), g, datas + DataWritten(s, run), errs + ErrWritten(s, run))
    decreases |run|
  {
    if run == [] {
      assert datas + [] == datas && errs + [] == errs;
    } else {
      var t := Next(s, run[0]);
      StepHolder(s, run[0]);
      StepSources(s, run[0], datas, errs);
      StepRead(s, run[0], g, datas, errs);
      RunFresh(t, run[1..], g, datas + DataWrite(s, run[0]), errs + ErrWrite(s, run[0]));
      Regroup(datas, DataWrite(s, run[0]), DataWritten(t, run[1..]));
      Regroup(errs, ErrWrite(s, run[0]), ErrWritten(t, run[1..]));
    }
  }

  lemma Regroup(a: seq<Ref>, b: seq<Ref>, c: seq<Ref>)
    ensures a + b + c == a + (b + c)
  {
  }

  /** From a state in which all sources of Get g are from these lists, each half of what
      it returns is from them or written in the run. */
  lemma ReturnsFresh(s: State, run: seq<Action>, g: nat, datas: seq<Ref>, errs: seq<Ref>)
    requires HolderInv(s) && Runs(s, run) && g < |s.pcs| && FreshInv(s, g, datas, errs)
    ensures var t := Exec(s, run);
            g < |t.pcs| && (t.pcs[g].Done? ==>
              && (t.pcs[g].o.data in datas || t.pcs[g].o.data in DataWritten(s, run))
              && (t.pcs[g].o.err in errs || t.pcs[g].o.err in ErrWritten(s, run)))
  {
    RunFresh(s, run, g, datas, errs);
  }

  /** A Get never returns anything older than what the fields held when it began: each
      half is that value or one written since. */
  lemma NothingOlder(init: State, first: seq<Action>, rest: seq<Action>, g: nat)
    requires Initial(init) && Runs(init, first) && Runs(Exec(init, first), rest)
    requires g < |Exec(init, first).pcs| && Exec(init, first).pcs[g] == GetLock
    ensures var s := Exec(init, first);
            var t := Exec(s, rest);
            g < |t.pcs| && (t.pcs[g].Done? ==>
              && (t.pcs[g].o.data == s.data || t.pcs[g].o.data in DataWritten(s, rest))
              && (t.pcs[g].o.err == s.err || t.pcs[g].o.err in ErrWritten(s, rest)))
  {
    RunHolder(init, first);
    var s := Exec(init, first);
    ReturnsFresh(s, rest, g, [s.data], [s.err]);
  }

  /** A Get that begins after a Refresh has taken the lock to declare the cache Fetching
      returns only values written since then: it never sees what was cached before. */
  lemma NothingFromBeforeRefresh(init: State, first: seq<Action>, rest: seq<Action>, h: nat, g: nat)
    requires Initial(init) && Runs(init, first) && Runs(Exec(init, first), rest)
    requires var s := Exec(init, first);
             h < |s.pcs| && g < |s.pcs| && s.pcs[h] == MarkFetching && s.pcs[g] == GetLock
    ensures var s := Exec(init, first);
            var t := Exec(s, rest);
            g < |t.pcs| && (t.pcs[g].Done? ==>
              t.pcs[g].o.data in DataWritten(s, rest) && t.pcs[g].o.err in ErrWritten(s, rest))
  {
    RunHolder(init, first);
    var s := Exec(init, first);
    MarkingIsFresh(s, h, g);
    ReturnsFresh(s, rest, g, [], []);
  }

  /** While a refresh is about to mark the cache nothing can be read or sent. */
  lemma MarkingIsFresh(s: State, h: nat, g: nat)
    requires MutexInv(s) && h < |s.pcs| && g < |s.pcs| && s.pcs[h] == MarkFetching && s.pcs[g] == GetLock
    ensures FreshInv(s, g, [], [])
  {
    assert Holds(s.pcs[h]);
    forall c | 0 <= c < |s.pcs| && c != h ensures !Holds(s.pcs[c]) { }
  }

  // ----- when a returned pair comes from one call of get_data

  predicate IsGet(pc: Pc) { pc.GetLock? }

  /** Every pair that has been returned is one that get_data returned. */
  ghost predicate Coherent(s: State) {
    forall g :: 0 <= g < |s.pcs| && s.pcs[g].Done? ==> s.pcs[g].o in s.returned
  }

  /** A Get that has not become a refresh. */
  predicate InGet(pc: Pc) {
    match pc
    case GetLock | GetSwitch | UnlockThenRefresh | UnlockThenWait | Receive => true
    case UnlockThenRead | ReadData | ReadErr(_) => true
    case _ => false
  }

  predicate NotStarted(pc: Pc) { InGet(pc) || WillFetch(pc) }

  /** No Refresh among the calls, or no Get, or at most two calls. */
  ghost predicate Untearable(s: State, refreshes: nat) {
    refreshes == 0 || |s.pcs| <= 2 || forall g :: 0 <= g < |s.pcs| ==> !InGet(s.pcs[g])
  }

  ghost predicate CoherentInv(s: State, refreshes: nat) {
    && Coherent(s) && ValueInv(s) && FetchInv(s, refreshes) && Untearable(s, refreshes)
    && s.starts + Count(s.pcs, NotStarted) <= |s.pcs|
  }

  lemma StepNotStarted(s: State, a: Action)
    requires Enabled(s, a) && s.starts + Count(s.pcs, NotStarted) <= |s.pcs|
    ensures Next(s, a).starts + Count(Next(s, a).pcs, NotStarted) <= |s.pcs|
  {
    var g, t := a.g, Next(s, a);
    CountUpdate(s.pcs, g, t.pcs[g], NotStarted);
    if a.Deliver? {
      CountUpdate(s.pcs[g := t.pcs[g]], a.receiver, t.pcs[a.receiver], NotStarted);
    } else {
      assert t.pcs == s.pcs[g := t.pcs[g]];
    }
  }

  lemma StepUntearable(s: State, a: Action, refreshes: nat)
    requires Enabled(s, a) && Untearable(s, refreshes)
    ensures Untearable(Next(s, a), refreshes)
  {
    if !(refreshes == 0 || |s.pcs| <= 2) {
      assert !InGet(s.pcs[a.g]);
    }
  }

  lemma StepCoherent(s: State, a: Action, refreshes: nat)
    requires CoherentInv(s, refreshes) && Enabled(s, a)
    ensures Coherent(Next(s, a))
  {
    var g, t := a.g, Next(s, a);
    assert PcSound(s, s.pcs[g]);
    if s.pcs[g].ReadErr? {
      assert InGet(s.pcs[g]);
      CountZero(s.pcs, NotStarted);
      assert |s.returned| <= 1;
    }
  }

  lemma {:induction false} RunCoherent(s: State, run: seq<Action>, refreshes: nat)
    requires CoherentInv(s, refreshes) && Runs(s, run)
    ensures Coherent(Exec(s, run))
    decreases |run|
  {
    if run != [] {
      StepCoherent(s, run[0], refreshes);
      StepValue(s, run[0]);
      StepFetch(s, run[0], refreshes);
      StepNotStarted(s, run[0]);
      StepUntearable(s, run[0], refreshes);
      RunCoherent(Next(s, run[0]), run[1..], refreshes);
    }
  }

  lemma {:induction false} Compose(s: State, first: seq<Action>, second: seq<Action>)
    requires Runs(s, first) && Runs(Exec(s, first), second)
    ensures Runs(s, first + second) && Exec(s, first + second) == Exec(Exec(s, first), second)
    decreases |first|
  {
    if first == [] {
      assert first + second == second;
    } else {
      Compose(Next(s, first[0]), first[1..], second);
      assert (first + second)[1..] == first[1..] + second;
    }
  }

  lemma Extend(s: State, run: seq<Action>, t: State, a: Action) returns (longer: seq<Action>, u: State)
    requires Runs(s, run) && Exec(s, run) == t && Enabled(t, a)
    ensures u == Next(t, a) && Runs(s, longer) && Exec(s, longer) == u
  {
    longer, u := run + [a], Next(t, a);
    assert Runs(u, [a][1..]);
    Compose(s, run, [a]);
  }

  /** A Refresh that nobody disturbs, up to its return from get_data. */
  lemma FetchAlone(s: State, g: nat, o: Outcome) returns (run: seq<Action>)
    requires g < |s.pcs| && s.pcs[g] == RefreshLock && s.owner == None
    ensures Runs(s, run)
    ensures Exec(s, run) == s.(status := Fetching, pcs := s.pcs[g := StoreLock(o)],
                               starts := s.starts + 1, returned := s.returned + [o])
  {
    var t;
    run, t := Extend(s, [], s, Advance(g));
    run, t := Extend(s, run, t, Advance(g));
    run, t := Extend(s, run, t, Advance(g));
    run, t := Extend(s, run, t, Return(g, o));
    assert t.pcs == s.pcs[g := StoreLock(o)];
  }

  /** Locking and writing data and error. */
  lemma WriteAlone(s: State, g: nat, o: Outcome) returns (run: seq<Action>)
    requires g < |s.pcs| && s.pcs[g] == StoreLock(o) && s.owner == None
    ensures Runs(s, run)
    ensures Exec(s, run) == s.(data := o.data, err := o.err, owner := Some(g), pcs := s.pcs[g := SetReady(o)])
  {
    var t;
    run, t := Extend(s, [], s, Advance(g));
    run, t := Extend(s, run, t, Advance(g));
    run, t := Extend(s, run, t, Advance(g));
    assert t.pcs == s.pcs[g := SetReady(o)];
  }

  /** The storing half of a Refresh that nobody disturbs and nobody waits for. */
  lemma StoreAlone(s: State, g: nat, o: Outcome) returns (run: seq<Action>)
    requires g < |s.pcs| && s.pcs[g] == StoreLock(o) && s.owner == None && s.waiters == 0
    ensures Runs(s, run)
    ensures Exec(s, run) == s.(status := Ready, data := o.data, err := o.err, pcs := s.pcs[g := Done(o)])
  {
    var write := WriteAlone(s, g, o);
    var t := Exec(s, write);
    run, t := Extend(s, write, t, Advance(g));
    run, t := Extend(s, run, t, Advance(g));
    run, t := Extend(s, run, t, Advance(g));
    assert t.pcs == s.pcs[g := Done(o)];
  }

  lemma RefreshAlone(s: State, g: nat, o: Outcome) returns (run: seq<Action>)
    requires g < |s.pcs| && s.pcs[g] == RefreshLock && s.owner == None && s.waiters == 0
    ensures Runs(s, run)
    ensures Exec(s, run) == s.(status := Ready, data := o.data, err := o.err, pcs := s.pcs[g := Done(o)],
                               starts := s.starts + 1, returned := s.returned + [o])
  {
    var fetch := FetchAlone(s, g, o);
    var store := StoreAlone(Exec(s, fetch), g, o);
    Compose(s, fetch, store);
    run := fetch + store;
    assert Exec(s, run).pcs == s.pcs[g := Done(o)];
  }

  /** A Get that finds the cache Ready and has read the data but not the error. */
  lemma ReadHalf(s: State, g: nat) returns (run: seq<Action>)
    requires g < |s.pcs| && s.pcs[g] == GetLock && s.owner == None && s.status == Ready
    ensures Runs(s, run)
    ensures Exec(s, run) == s.(pcs := s.pcs[g := ReadErr(s.data)])
  {
    var t;
    run, t := Extend(s, [], s, Advance(g));
    run, t := Extend(s, run, t, Advance(g));
    run, t := Extend(s, run, t, Advance(g));
    run, t := Extend(s, run, t, Advance(g));
    assert t.pcs == s.pcs[g := ReadErr(s.data)];
  }

  /** A Get that finds the cache Empty becomes a refresh. */
  lemma EnterAlone(s: State, g: nat) returns (run: seq<Action>)
    requires g < |s.pcs| && s.pcs[g] == GetLock && s.owner == None && s.status == Empty
    ensures Runs(s, run)
    ensures Exec(s, run) == s.(status := Fetching, pcs := s.pcs[g := RefreshLock])
  {
    var t;
    run, t := Extend(s, [], s, Advance(g));
    run, t := Extend(s, run, t, Advance(g));
    run, t := Extend(s, run, t, Advance(g));
    assert t.pcs == s.pcs[g := RefreshLock];
  }

  /** The first call on a new cache, whichever it is, that nobody disturbs. */
  lemma FirstCallAlone(s: State, g: nat, o: Outcome) returns (run: seq<Action>)
    requires Initial(s) && g < |s.pcs|
    ensures Runs(s, run)
    ensures Exec(s, run) == s.(status := Ready, data := o.data, err := o.err, pcs := s.pcs[g := Done(o)],
                               starts := 1, returned := [o])
  {
    if s.pcs[g].RefreshLock? {
      run := RefreshAlone(s, g, o);
    } else {
      var entering := EnterAlone(s, g);
      var rest := RefreshAlone(Exec(s, entering), g, o);
      Compose(s, entering, rest);
      run := entering + rest;
      assert Exec(s, run).pcs == s.pcs[g := Done(o)];
    }
  }

  /** A Get and a Refresh on a Ready cache: the Refresh runs between the two reads
      of the Get. */
  lemma RefreshBetweenReads(s: State, get: nat, refresh: nat, o: Outcome) returns (run: seq<Action>)
    requires s.status == Ready && s.owner == None && s.waiters == 0
    requires get < |s.pcs| && refresh < |s.pcs| && s.pcs[get] == GetLock && s.pcs[refresh] == RefreshLock
    ensures Runs(s, run) && Exec(s, run).returned == s.returned + [o]
    ensures get < |Exec(s, run).pcs| && Exec(s, run).pcs[get] == Done(Outcome(s.data, o.err))
  {
    var half := ReadHalf(s, get);
    var t := Exec(s, half);
    var again := RefreshAlone(t, refresh, o);
    Compose(s, half, again);
    t := Exec(t, again);
    run, t := Extend(s, half + again, t, Advance(get));
  }

  /** Three calls, one of them a Get and another a Refresh: the Get can return a
      value of one get_data call with the error of another. */
  lemma TornRun(init: State, first: nat, get: nat, refresh: nat) returns (run: seq<Action>)
    requires Initial(init) && first < |init.pcs| && get < |init.pcs| && refresh < |init.pcs|
    requires first != get && first != refresh
    requires init.pcs[get] == GetLock && init.pcs[refresh] == RefreshLock
    ensures Runs(init, run) && !Coherent(Exec(init, run))
  {
    var one, two := Outcome(1, 1), Outcome(2, 2);
    var start := FirstCallAlone(init, first, one);
    var torn := RefreshBetweenReads(Exec(init, start), get, refresh, two);
    Compose(init, start, torn);
    run := start + torn;
    assert Exec(init, run).pcs[get] == Done(Outcome(1, 2));
  }

  /** Get in the Ready case reads data and err after unlocking, so a pair can be
      torn; it is whole in every run exactly when the calls on the cache include
      no Refresh, or no Get, or are at most two. */
  lemma PairsWholeExactlyWhen(init: State)
    requires Initial(init)
    ensures (forall run :: Runs(init, run) ==> Coherent(Exec(init, run)))
            <==> (Count(init.pcs, IsRefresh) == 0 || Count(init.pcs, IsGet) == 0 || |init.pcs| <= 2)
  {
    var refreshes := Count(init.pcs, IsRefresh);
    CountZero(init.pcs, IsRefresh);
    CountZero(init.pcs, IsGet);
    if refreshes == 0 || Count(init.pcs, IsGet) == 0 || |init.pcs| <= 2 {
      InitialFetch(init);
      CountAtMost(init.pcs, NotStarted);
      forall run | Runs(init, run) ensures Coherent(Exec(init, run)) {
        RunCoherent(init, run, refreshes);
      }
    } else {
      var get :| 0 <= get < |init.pcs| && IsGet(init.pcs[get]);
      var refresh :| 0 <= refresh < |init.pcs| && IsRefresh(init.pcs[refresh]);
      var first := if 0 !in {get, refresh} then 0 else if 1 !in {get, refresh} then 1 else 2;
      var run := TornRun(init, first, get, refresh);
    }
  }

  // ----- exactly how often get_data is called

  /** Any run can be continued until every call has returned. */
  lemma {:induction false} Completion(s: State) returns (run: seq<Action>)
    requires Inv(s)
    ensures Runs(s, run) && Finished(Exec(s, run))
    decreases Sum(s.pcs, Rank)
  {
    if Finished(s) {
      run := [];
    } else {
      NeverStuck(s);
      var a :| Enabled(s, a);
      StepDecreases(s, a);
      KeepsInv(s, a);
      var rest := Completion(Next(s, a));
      run := [a] + rest;
      assert run[1..] == rest;
    }
  }

  /** Without Gets every call is a Refresh that calls get_data once. */
  ghost predicate RefreshesOnly(s: State, refreshes: nat) {
    Committed(s) == refreshes && forall g :: 0 <= g < |s.pcs| ==> !InGet(s.pcs[g])
  }

  lemma {:induction false} RunRefreshes(s: State, run: seq<Action>, refreshes: nat)
    requires RefreshesOnly(s, refreshes) && Runs(s, run)
    ensures RefreshesOnly(Exec(s, run), refreshes)
    decreases |run|
  {
    if run != [] {
      var a := run[0];
      var t := Next(s, a);
      assert !InGet(s.pcs[a.g]) && !a.Deliver?;
      CountUpdate(s.pcs, a.g, t.pcs[a.g], WillFetch);
      assert t.pcs == s.pcs[a.g := t.pcs[a.g]];
      RunRefreshes(t, run[1..], refreshes);
    }
  }

  /** The first call alone, then all the others: with `first` a Refresh get_data is
      called R times in all, with `first` a Get R + 1 times. */
  lemma FirstThenRest(init: State, first: nat) returns (run: seq<Action>)
    requires Initial(init) && first < |init.pcs|
    ensures Runs(init, run) && Finished(Exec(init, run))
    ensures Exec(init, run).starts == Count(init.pcs, IsRefresh) + Bit(init.pcs[first].GetLock?)
  {
    var o, refreshes := Outcome(1, 1), Count(init.pcs, IsRefresh);
    var start := FirstCallAlone(init, first, o);
    var t := Exec(init, start);
    ReachableInv(init, start);
    var rest := Completion(t);
    Compose(init, start, rest);
    run := start + rest;
    InitialFetch(init);
    RunFetch(init, start, refreshes);
    InitialCommitted(init);
    CountUpdate(init.pcs, first, Done(o), WillFetch);
    var expected := refreshes + Bit(init.pcs[first].GetLock?);
    assert Committed(t) == expected;
    CommittedBounds(t, rest, expected);
  }

  lemma InitialCommitted(init: State)
    requires Initial(init)
    ensures Count(init.pcs, WillFetch) == Count(init.pcs, IsRefresh)
  {
    CountAgree(init.pcs, WillFetch, IsRefresh);
  }

  /** Once the cache has been used no further calls of get_data come to be owed. */
  lemma CommittedBounds(s: State, run: seq<Action>, committed: nat)
    requires Runs(s, run) && Finished(Exec(s, run))
    requires s.status != Empty && committed == Committed(s) >= 1
    requires FetchInv(s, committed - 1)
    ensures Exec(s, run).starts == committed
  {
    RunFetch(s, run, committed - 1);
    RunFetch(s, run, committed);
    CountZero(Exec(s, run).pcs, WillFetch);
  }

  lemma FetchCountBounds(init: State, run: seq<Action>)
    requires Initial(init) && Runs(init, run) && Finished(Exec(init, run))
    ensures var refreshes, k := Count(init.pcs, IsRefresh), Exec(init, run).starts;
            && refreshes <= k <= refreshes + 1
            && (Count(init.pcs, IsGet) == 0 ==> k == refreshes)
            && (Count(init.pcs, IsGet) > 0 ==> k >= 1)
  {
    FetchedAtMostOncePerRefresh(init, run);
    CountZero(init.pcs, IsGet);
    if Count(init.pcs, IsGet) == 0 {
      InitialCommitted(init);
      RunRefreshes(init, run, Count(init.pcs, IsRefresh));
      CountZero(Exec(init, run).pcs, WillFetch);
    }
  }

  lemma FetchCountReached(init: State, k: nat) returns (run: seq<Action>)
    requires Initial(init)
    requires var refreshes, gets := Count(init.pcs, IsRefresh), Count(init.pcs, IsGet);
             (k == refreshes && (refreshes > 0 || gets == 0)) || (k == refreshes + 1 && gets > 0)
    ensures Runs(init, run) && Finished(Exec(init, run)) && Exec(init, run).starts == k
  {
    CountZero(init.pcs, IsRefresh);
    CountZero(init.pcs, IsGet);
    if k == Count(init.pcs, IsRefresh) && k > 0 {
      var first :| 0 <= first < |init.pcs| && IsRefresh(init.pcs[first]);
      run := FirstThenRest(init, first);
    } else if k > 0 {
      var first :| 0 <= first < |init.pcs| && IsGet(init.pcs[first]);
      run := FirstThenRest(init, first);
    } else {
      run := [];
    }
  }

  /** The numbers of get_data calls that complete runs can make, for every set of
      calls: with R Refresh calls they are R, unless all calls are Gets, and R + 1, if
      there is a Get. */
  lemma FetchCountsExactly(init: State, k: nat)
    requires Initial(init)
    ensures var refreshes, gets := Count(init.pcs, IsRefresh), Count(init.pcs, IsGet);
            (exists run :: Runs(init, run) && Finished(Exec(init, run)) && Exec(init, run).starts == k)
            <==> (k == refreshes && (refreshes > 0 || gets == 0)) || (k == refreshes + 1 && gets > 0)
  {
    var refreshes, gets := Count(init.pcs, IsRefresh), Count(init.pcs, IsGet);
    if (k == refreshes && (refreshes > 0 || gets == 0)) || (k == refreshes + 1 && gets > 0) {
      var run := FetchCountReached(init, k);
    }
    if run :| Runs(init, run) && Finished(Exec(init, run)) && Exec(init, run).starts == k {
      FetchCountBounds(init, run);
    }
  }

  /** The promise that get_data is called only once holds, for every complete run,
      exactly when there are calls and they are all Gets or one single Refresh. */
  lemma FetchedOnceExactlyWhen(init: State)
    requires Initial(init)
    ensures (forall run :: Runs(init, run) && Finished(Exec(init, run)) ==> Exec(init, run).starts == 1)
            <==> init.pcs != [] && (Count(init.pcs, IsRefresh) == 0
                                    || (Count(init.pcs, IsRefresh) == 1 && Count(init.pcs, IsGet) == 0))
  {
    var refreshes, gets := Count(init.pcs, IsRefresh), Count(init.pcs, IsGet);
    CountZero(init.pcs, IsRefresh);
    CountZero(init.pcs, IsGet);
    assert init.pcs != [] ==> IsGet(init.pcs[0]) || IsRefresh(init.pcs[0]);
    if init.pcs != [] && (refreshes == 0 || (refreshes == 1 && gets == 0)) {
      forall run | Runs(init, run) && Finished(Exec(init, run)) ensures Exec(init, run).starts == 1 {
        FetchCountsExactly(init, Exec(init, run).starts);
      }
    } else {
      var other := if gets > 0 then refreshes + 1 else refreshes;
      FetchCountsExactly(init, other);
      assert other != 1;
    }
  }

  // ----- the cache object

  /** cacheImpl with its mutex, the goroutines calling it, and a history of the
      get_data calls. */
  class CacheImpl {
    var status: Status
    var data: Ref
    var err: Ref
    var waitersCounter: nat
    var owner: Option<nat>
    var pcs: seq<Pc>
    var starts: nat
    var returned: seq<Outcome>

    function Abstract(): State
      reads this
    {
      State(status, data, err, waitersCounter, owner, pcs, starts, returned)
    }

    constructor (calls: seq<Pc>)
      requires forall g :: 0 <= g < |calls| ==> calls[g] == GetLock || calls[g] == RefreshLock
      ensures Initial(Abstract()) && pcs == calls
    {
      status, data, err, waitersCounter := Empty, 0, 0, 0;
      owner, pcs, starts, returned := None, calls, 0, [];
    }

    method Lock(g: nat, pc: Pc)
      requires g < |pcs| && owner == None
      modifies this`owner, this`pcs
      ensures owner == Some(g) && pcs == old(pcs)[g := pc]
    {
      owner := Some(g);
      pcs := pcs[g := pc];
    }

    method Unlock(g: nat, pc: Pc)
      requires g < |pcs|
      modifies this`owner, this`pcs
      ensures owner == None && pcs == old(pcs)[g := pc]
    {
      owner := None;
      pcs := pcs[g := pc];
    }

    /** Get, from its first statement until it waits, refreshes or returns. */
    method StepGet(g: nat)
      requires Enabled(Abstract(), Advance(g)) && InGet(pcs[g])
      modifies this
      ensures Abstract() == Next(old(Abstract()), Advance(g))
    {
      match pcs[g] {
        case GetLock => Lock(g, GetSwitch);
        case GetSwitch =>
          match status {
            case Empty =>
              status := Fetching;
              pcs := pcs[g := UnlockThenRefresh];
            case Fetching =>
              waitersCounter := waitersCounter + 1;
              pcs := pcs[g := UnlockThenWait];
            case Ready =>
              pcs := pcs[g := UnlockThenRead];
          }
        case UnlockThenRefresh => Unlock(g, RefreshLock);
        case UnlockThenWait => Unlock(g, Receive);
        case UnlockThenRead => Unlock(g, ReadData);
        case ReadData => pcs := pcs[g := ReadErr(data)];
        case ReadErr(d) => pcs := pcs[g := Done(Outcome(d, err))];
      }
    }

    /** Refresh, apart from the return of get_data and the sends. */
    method StepRefresh(g: nat)
      requires Enabled(Abstract(), Advance(g)) && !InGet(pcs[g])
      modifies this
      ensures Abstract() == Next(old(Abstract()), Advance(g))
    {
      match pcs[g] {
        case RefreshLock => Lock(g, MarkFetching);
        case MarkFetching =>
          status := Fetching;
          pcs := pcs[g := UnlockThenFetch];
        case UnlockThenFetch =>
          Unlock(g, FetchData);
          starts := starts + 1;
        case StoreLock(o) => Lock(g, StoreData(o));
        case StoreData(o) =>
          data := o.data;
          pcs := pcs[g := StoreErr(o)];
        case StoreErr(o) =>
          err := o.err;
          pcs := pcs[g := SetReady(o)];
        case SetReady(o) =>
          status := Ready;
          pcs := pcs[g := Send(o, 0)];
        case Send(o, _) =>
          waitersCounter := 0;
          pcs := pcs[g := UnlockThenReturn(o)];
        case UnlockThenReturn(o) => Unlock(g, Done(o));
      }
    }

    method Step(a: Action)
      requires Enabled(Abstract(), a)
      modifies this
      ensures Abstract() == Next(old(Abstract()), a)
    {
      match a {
        case Advance(g) =>
          if InGet(pcs[g]) {
            StepGet(g);
          } else {
            StepRefresh(g);
          }
        case Return(g, o) =>
          returned := returned + [o];
          pcs := pcs[g := StoreLock(o)];
        case Deliver(g, r) =>
          var o := pcs[g].o;
          pcs := pcs[g := Send(o, pcs[g].i + 1)][r := Done(o)];
      }
    }

    /** Whatever scheduler picks among the enabled steps, the loop ends with every
        call returned, get_data having been called at most once more than there
        are explicit Refresh calls. */
    method RunToCompletion(pick: State -> Action) returns (ghost run: seq<Action>)
      requires Initial(Abstract())
      requires forall s :: Inv(s) && !Finished(s) ==> Enabled(s, pick(s))
      modifies this
      ensures Runs(old(Abstract()), run) && Exec(old(Abstract()), run) == Abstract()
      ensures Finished(Abstract()) && |pcs| == |old(pcs)|
      ensures Count(old(pcs), IsRefresh) <= starts <= Count(old(pcs), IsRefresh) + 1
      ensures starts == |returned|
    {
      ghost var init := Abstract();
      run := [];
      InitialInv(init);
      while !Finished(Abstract())
        invariant Runs(init, run) && Exec(init, run) == Abstract() && Inv(Abstract())
        invariant |pcs| == |old(pcs)|
        decreases Sum(pcs, Rank)
      {
        var s := Abstract();
        var a := pick(s);
        StepDecreases(s, a);
        KeepsInv(s, a);
        ghost var u;
        run, u := Extend(init, run, s, a);
        Step(a);
      }
      FetchedAtMostOncePerRefresh(init, run);
    }
  }
}
