/** Allocation of job names: many clients create config maps named after their job
    and fall back to numbered names, racing each other, deleters, and whoever else
    keeps config maps in the namespace. The API server is an atomic store; a step is
    one request to it. */
module JobNames {
  import opened Common
  import opened Decimal

  const BASE_NAME := "base-name"
  const BASE_INDEX := "base-name-index"
  const CREATED_BY := "createdBy"
  const RETRIES := 5

  datatype ConfigMap = ConfigMap(name: string, labels: map<string, string>)

  /** Reading a label the way a Go map is read: a missing key gives "". */
  function Label(m: ConfigMap, key: string): string {
    if key in m.labels then m.labels[key] else ""
  }

  function ConfigMapName(name: string, index: nat, generateSuffix: bool): string {
    if generateSuffix then name + "-" + Itoa(index) else name
  }

  function EmptyConfigMap(name: string, base: string, index: nat): ConfigMap {
    ConfigMap(name, map[CREATED_BY := "arena", BASE_INDEX := Itoa(index), BASE_NAME := base])
  }

  // ----- the smallest unoccupied index

  function Occupied(listing: seq<ConfigMap>): set<string> {
    set m | m in listing :: Label(m, BASE_INDEX)
  }

  /** A listing occupies the texts of its index labels, and the empty text if one of its
      maps has no such label. */
  lemma OccupiedMeaning(listing: seq<ConfigMap>, text: string)
    ensures text in Occupied(listing) <==>
              exists m :: m in listing && (("base-name-index", text) in m.labels.Items
                                           || (text == "" && "base-name-index" !in m.labels))
  {
    if text in Occupied(listing) {
      var m :| m in listing && Label(m, BASE_INDEX) == text;
      assert m in listing && (("base-name-index", text) in m.labels.Items || (text == "" && "base-name-index" !in m.labels));
    }
    if m :| m in listing && (("base-name-index", text) in m.labels.Items || (text == "" && "base-name-index" !in m.labels)) {
      assert Label(m, BASE_INDEX) == text;
    }
  }

  /** The decimal strings of from..to-1. */
  function Numerals(from: nat, limit: nat): set<string> {
    set i: nat | from <= i < limit :: Itoa(i)
  }

  function FirstFree(occupied: set<string>, from: nat, limit: nat): (i: nat)
    requires from <= limit
    ensures from <= i <= limit
    ensures forall j: nat :: from <= j < i ==> Itoa(j) in occupied
    ensures i < limit ==> Itoa(i) !in occupied
    decreases limit - from
  {
    if from == limit || Itoa(from) !in occupied then from else FirstFree(occupied, from + 1, limit)
  }

  function SmallestUnoccupied(listing: seq<ConfigMap>): nat {
    if listing == [] then 0 else FirstFree(Occupied(listing), 1, |listing|)
  }

  method GetSmallestUnoccupiedIndex(listing: seq<ConfigMap>) returns (index: nat)
    ensures index == SmallestUnoccupied(listing)
  {
    var occupation: map<string, bool> := map[];
    for k := 0 to |listing|
      invariant occupation.Keys == Occupied(listing[..k])
      invariant forall key :: key in occupation ==> occupation[key]
    {
      occupation := occupation[Label(listing[k], BASE_INDEX) := true];
      assert listing[..k + 1] == listing[..k] + [listing[k]];
    }
    assert listing[..|listing|] == listing;
    var i := 1;
    while i < |listing|
      invariant listing != [] ==> i <= |listing| && SmallestUnoccupied(listing) == FirstFree(Occupied(listing), i, |listing|)
    {
      if !(Itoa(i) in occupation && occupation[Itoa(i)]) {
        return i;
      }
      i := i + 1;
    }
    return |listing|;
  }

  lemma {:induction false} NumeralsCount(limit: nat)
    requires limit >= 1
    ensures |Numerals(1, limit)| == limit - 1
  {
    if limit == 1 {
      assert Numerals(1, limit) == {};
    } else {
      NumeralsCount(limit - 1);
      assert Itoa(limit - 1) !in Numerals(1, limit - 1) by {
        if i: nat :| 1 <= i < limit - 1 && Itoa(i) == Itoa(limit - 1) {
          ItoaInjective(i, limit - 1);
        }
      }
      assert Numerals(1, limit) == Numerals(1, limit - 1) + {Itoa(limit - 1)};
    }
  }

  lemma {:induction false} OccupiedCount(listing: seq<ConfigMap>)
    ensures |Occupied(listing)| <= |listing|
  {
    if listing == [] {
      assert Occupied(listing) == {};
    } else {
      OccupiedCount(listing[1..]);
      assert Occupied(listing) == {Label(listing[0], BASE_INDEX)} + Occupied(listing[1..]);
    }
  }

  lemma ZeroIsNoPositiveNumeral(limit: nat)
    ensures "0" !in Numerals(1, limit)
  {
    forall i: nat | 1 <= i < limit ensures Itoa(i) != "0" {
      assert Itoa(0) == "0";
      if Itoa(i) == Itoa(0) {
        ItoaInjective(i, 0);
      }
    }
  }

  /** Every smaller positive index is occupied; the result is itself occupied
      exactly when the listing is not empty and its labels are {1..n}. */
  lemma SmallestUnoccupiedMeaning(listing: seq<ConfigMap>)
    ensures var index := SmallestUnoccupied(listing);
            && (forall j: nat :: 1 <= j < index ==> Itoa(j) in Occupied(listing))
            && (Itoa(index) in Occupied(listing) <==>
                  listing != [] && Occupied(listing) == Numerals(1, |listing| + 1))
            && (listing != [] ==> 1 <= index <= |listing|)
            && ("0" in Occupied(listing) ==> Itoa(index) !in Occupied(listing))
  {
    var n, index, occupied := |listing|, SmallestUnoccupied(listing), Occupied(listing);
    if listing != [] {
      assert Itoa(index) in Numerals(1, n + 1);
      ZeroIsNoPositiveNumeral(n + 1);
      if Itoa(index) in occupied {
        assert Numerals(1, n + 1) <= occupied;
        NumeralsCount(n + 1);
        OccupiedCount(listing);
        SubsetSize(Numerals(1, n + 1), occupied);
      }
    }
  }

  /** The index found can be taken: a single map labelled 1 already gives 1. */
  lemma OccupiedIndexFound()
    ensures var listing := [EmptyConfigMap("job-1", "job", 1)];
            Itoa(SmallestUnoccupied(listing)) in Occupied(listing)
  {
    var m := EmptyConfigMap("job-1", "job", 1);
    assert m in [m] && Label(m, BASE_INDEX) == Itoa(1);
  }

  // ----- the protocol

  /** How the API server answers a Create: it processes the request, refuses it
      with code 401 or 403, or fails with some other error. */
  datatype Reply = Served | Denied | Broken

  datatype Failure = AccessDenied | AlreadyExists | ListFailed | RetriesExhausted

  /** Where a submission stands. `Creating` remembers the listing it chose its index
      from and how long the history was when it asked for it. */
  datatype Pc =
    | First
    | Listing(i: nat)
    | Creating(i: nat, listing: seq<ConfigMap>, index: nat, since: nat)
    | Returned(created: string)
    | Failed(why: Failure)

  datatype Client = Client(name: string, generateSuffix: bool, pc: Pc, creates: nat, lists: nat)

  /** The history of the store; a map is Planted when somebody other than a submission
      creates it. */
  datatype Event = Created(client: nat, name: string) | Planted(name: string) | Deleted(name: string)

  datatype State = State(store: map<string, ConfigMap>, clients: seq<Client>, log: seq<Event>)

  datatype Action =
    | Create(g: nat, reply: Reply)
    | List(g: nat, listing: Option<seq<ConfigMap>>)
    | Plant(m: ConfigMap)
    | Delete(name: string)

  /** The selector base-name=<base>. */
  predicate Selected(m: ConfigMap, base: string) {
    BASE_NAME in m.labels && m.labels[BASE_NAME] == base
  }

  /** What the server may answer to a List: every selected map once, in any order. */
  predicate IsListing(store: map<string, ConfigMap>, base: string, listing: seq<ConfigMap>) {
    && (forall n :: n in store && Selected(store[n], base) ==> store[n] in listing)
    && (forall m :: m in listing ==> m.name in store && store[m.name] == m && Selected(m, base))
    && (forall i, j :: 0 <= i < j < |listing| ==> listing[i] != listing[j])
  }

  predicate Enabled(s: State, a: Action) {
    match a
    case Create(g, _) => g < |s.clients| && (s.clients[g].pc.First? || s.clients[g].pc.Creating?)
    case List(g, l) =>
      && g < |s.clients| && s.clients[g].pc.Listing?
      && (l.Some? ==> IsListing(s.store, s.clients[g].name, l.value))
    case Plant(m) => m.name !in s.store
    case Delete(name) => name in s.store
  }

  /** The index and the name that the next Create of a client asks for. */
  function IndexTried(c: Client): nat {
    if c.pc.Creating? then c.pc.index else 0
  }

  function NameTried(c: Client): string { ConfigMapName(c.name, IndexTried(c), c.generateSuffix) }

  function AfterFailedCreate(c: Client, reply: Reply): Pc {
    if c.pc.Creating? then
      if c.pc.i + 1 < RETRIES then Listing(c.pc.i + 1) else Failed(RetriesExhausted)
    else if reply.Denied? then Failed(AccessDenied)
    else if !c.generateSuffix then Failed(AlreadyExists)
    else Listing(0)
  }

  function Next(s: State, a: Action): State
    requires Enabled(s, a)
  {
    match a
    case Create(g, reply) =>
      var c := s.clients[g];
      var name := NameTried(c);
      if reply.Served? && name !in s.store then
        State(s.store[name := EmptyConfigMap(name, c.name, IndexTried(c))],
              s.clients[g := c.(pc := Returned(name), creates := c.creates + 1)],
              s.log + [Created(g, name)])
      else
        s.(clients := s.clients[g := c.(pc := AfterFailedCreate(c, reply), creates := c.creates + 1)])
    case List(g, l) =>
      var c := s.clients[g];
      var pc := match l
        case None => Failed(ListFailed)
        case Some(listing) => Creating(c.pc.i, listing, SmallestUnoccupied(listing), |s.log|);
      s.(clients := s.clients[g := c.(pc := pc, lists := c.lists + 1)])
    case Plant(m) =>
      s.(store := s.store[m.name := m], log := s.log + [Planted(m.name)])
    case Delete(name) =>
      s.(store := s.store - {name}, log := s.log + [Deleted(name)])
  }

  ghost predicate Runs(s: State, run: seq<Action>)
    decreases |run|
  {
    run == [] || (Enabled(s, run[0]) && Runs(Next(s, run[0]), run[1..]))
  }

  ghost function Exec(s: State, run: seq<Action>): State
    requires Runs(s, run)
    decreases |run|
  {
    if run == [] then s else Exec(Next(s, run[0]), run[1..])
  }

  /** A map names its job by its base name with index 0, or by base name and index. */
  ghost predicate WellNamed(m: ConfigMap) {
    && BASE_NAME in m.labels
    && exists index: nat ::
         && Label(m, BASE_INDEX) == Itoa(index)
         && (m.name == ConfigMapName(Label(m, BASE_NAME), index, true) || (index == 0 && m.name == Label(m, BASE_NAME)))
  }

  /** Clients that have not begun, over any store: it may hold maps of earlier
      submissions and maps that have nothing to do with them. */
  ghost predicate Initial(s: State) {
    && (forall n :: n in s.store ==> s.store[n].name == n)
    && s.log == []
    && forall g :: 0 <= g < |s.clients| ==> s.clients[g].pc == First && s.clients[g].creates == s.clients[g].lists == 0
  }

  /** The map of this name, if there is one, was created by a submission of the run. */
  predicate Submitted(log: seq<Event>, name: string) {
    if log == [] then false
    else
      var e := log[|log| - 1];
      if e.name == name then e.Created? else Submitted(log[..|log| - 1], name)
  }

  // ----- the inductive invariant

  /** What a submission creates is well named; any other map is as it was. */
  ghost predicate StoreInv(init: State, s: State) {
    forall n :: n in s.store ==> MapInv(init, s, n)
  }

  ghost predicate MapInv(init: State, s: State, n: string)
    requires n in s.store
  {
    && s.store[n].name == n
    && (Submitted(s.log, n) ==> WellNamed(s.store[n]))
    && (!Submitted(s.log, n) && Planted(n) !in s.log ==> n in init.store && s.store[n] == init.store[n])
  }

  /** Someone other than g created a map of this name at or after `since`. */
  ghost predicate CreatedByOther(log: seq<Event>, since: nat, g: nat, name: string) {
    exists k :: since <= k < |log| && log[k].name == name && (log[k].Planted? || (log[k].Created? && log[k].client != g))
  }

  /** Every map of the client's base name was in its listing or came later. */
  ghost predicate ListingExplains(s: State, g: nat)
    requires g < |s.clients| && s.clients[g].pc.Creating?
  {
    var c := s.clients[g];
    forall n :: n in s.store && Selected(s.store[n], c.name) ==>
      s.store[n] in c.pc.listing || CreatedByOther(s.log, c.pc.since, g, n)
  }

  ghost predicate ClientInv(s: State, g: nat)
    requires g < |s.clients|
  {
    var c := s.clients[g];
    match c.pc
    case First => c.creates == 0 && c.lists == 0
    case Listing(i) => c.generateSuffix && i < RETRIES && c.creates == i + 1 && c.lists == i
    case Creating(i, listing, index, since) =>
      && c.generateSuffix && i < RETRIES && c.creates == i + 1 && c.lists == i + 1
      && index == SmallestUnoccupied(listing) && since <= |s.log|
      && ListingExplains(s, g)
    case _ => c.creates <= RETRIES + 1 && c.lists <= RETRIES
  }

  ghost predicate Inv(init: State, s: State) {
    StoreInv(init, s) && forall g :: 0 <= g < |s.clients| ==> ClientInv(s, g)
  }

  lemma FreshMapWellNamed(c: Client)
    requires c.pc.First? || c.generateSuffix
    ensures WellNamed(EmptyConfigMap(NameTried(c), c.name, IndexTried(c)))
  {
    var m := EmptyConfigMap(NameTried(c), c.name, IndexTried(c));
    assert Label(m, BASE_INDEX) == Itoa(IndexTried(c)) && Label(m, BASE_NAME) == c.name;
  }

  lemma StepStore(init: State, s: State, a: Action)
    requires Inv(init, s) && Enabled(s, a)
    ensures StoreInv(init, Next(s, a))
  {
    forall n | n in Next(s, a).store ensures MapInv(init, Next(s, a), n) {
      StepMap(init, s, a, n);
    }
  }

  lemma StepMap(init: State, s: State, a: Action, n: string)
    requires Inv(init, s) && Enabled(s, a) && n in Next(s, a).store
    ensures MapInv(init, Next(s, a), n)
  {
    var t := Next(s, a);
    if a.Create? {
      assert ClientInv(s, a.g);
      FreshMapWellNamed(s.clients[a.g]);
    }
    if t.log != s.log {
      var e := t.log[|s.log|];
      assert t.log == s.log + [e];
      SubmittedLast(s.log, e, n);
      assert Planted(n) in t.log <==> Planted(n) in s.log || e == Planted(n);
    }
    assert n in s.store ==> MapInv(init, s, n);
  }

  lemma SubmittedLast(log: seq<Event>, e: Event, n: string)
    ensures Submitted(log + [e], n) == if e.name == n then e.Created? else Submitted(log, n)
  {
    assert (log + [e])[..|log|] == log;
  }

  /** A map that joins the store while a client waits to create its own was created
      by somebody else. */
  lemma StepListing(s: State, a: Action, g: nat)
    requires Enabled(s, a) && g < |s.clients|
    requires s.clients[g].pc.Creating? && Next(s, a).clients[g].pc.Creating?
    requires s.clients[g].pc.since <= |s.log| && ListingExplains(s, g)
    ensures ListingExplains(Next(s, a), g)
  {
    var t, c := Next(s, a), s.clients[g];
    forall n | n in t.store && Selected(t.store[n], c.name)
      ensures t.store[n] in c.pc.listing || CreatedByOther(t.log, c.pc.since, g, n)
    {
      if n !in s.store {
        assert t.log[|s.log|].name == n;
      } else if CreatedByOther(s.log, c.pc.since, g, n) {
        var k :| c.pc.since <= k < |s.log| && s.log[k].name == n
                 && (s.log[k].Planted? || (s.log[k].Created? && s.log[k].client != g));
        assert t.log[k] == s.log[k];
      }
    }
  }

  lemma StepClient(s: State, a: Action, g: nat)
    requires Enabled(s, a) && g < |s.clients| && ClientInv(s, g)
    ensures ClientInv(Next(s, a), g)
  {
    if s.clients[g].pc.Creating? && Next(s, a).clients[g].pc.Creating? {
      StepListing(s, a, g);
    }
  }

  lemma {:induction false} RunInv(init: State, s: State, run: seq<Action>)
    requires Inv(init, s) && Runs(s, run)
    ensures Inv(init, Exec(s, run)) && |Exec(s, run).clients| == |s.clients|
    decreases |run|
  {
    if run != [] {
      StepStore(init, s, run[0]);
      forall g | 0 <= g < |s.clients| ensures ClientInv(Next(s, run[0]), g) {
        StepClient(s, run[0], g);
      }
      RunInv(init, Next(s, run[0]), run[1..]);
    }
  }

  /** In every run, over any initial store: a map that a submission created is named
      after its labels, and a map that nobody created in the run is as it was; two
      numbered well-named maps of one base name, whoever made them, have different
      indices. */
  lemma StoreNaming(init: State, run: seq<Action>)
    requires Initial(init) && Runs(init, run)
    ensures var s := Exec(init, run);
            && StoreInv(init, s)
            && (forall n, m :: n in s.store && m in s.store && n != m && WellNamed(s.store[n]) && WellNamed(s.store[m])
                  && Label(s.store[n], BASE_NAME) == Label(s.store[m], BASE_NAME)
                  && n != Label(s.store[n], BASE_NAME) && m != Label(s.store[m], BASE_NAME)
                  ==> Label(s.store[n], BASE_INDEX) != Label(s.store[m], BASE_INDEX))
  {
    RunInv(init, init, run);
  }

  // ----- why a numbered Create fails

  /** The listed labels are exactly 1..n. */
  predicate ListingFull(listing: seq<ConfigMap>) {
    listing != [] && Occupied(listing) == Numerals(1, |listing| + 1)
  }

  lemma NamesakeOfSameBase(m: ConfigMap, base: string, index: nat)
    requires WellNamed(m) && Label(m, BASE_NAME) == base && m.name == ConfigMapName(base, index, true)
    ensures Label(m, BASE_INDEX) == Itoa(index)
  {
    var k: nat :| Label(m, BASE_INDEX) == Itoa(k) &&
      (m.name == ConfigMapName(base, k, true) || (k == 0 && m.name == base));
    assert |m.name| > |base|;
    DashedUnique(base, k, base, index);
  }

  lemma NamesakeOfOtherBase(m: ConfigMap, base: string, index: nat)
    requires WellNamed(m) && Label(m, BASE_NAME) != base && m.name == ConfigMapName(base, index, true)
    ensures m.name == Label(m, BASE_NAME) && Label(m, BASE_INDEX) == "0"
  {
    var k: nat :| Label(m, BASE_INDEX) == Itoa(k) &&
      (m.name == ConfigMapName(Label(m, BASE_NAME), k, true) || (k == 0 && m.name == Label(m, BASE_NAME)));
    if m.name == ConfigMapName(Label(m, BASE_NAME), k, true) {
      DashedUnique(Label(m, BASE_NAME), k, base, index);
    }
    assert Itoa(0) == "0";
  }

  /** The map is no submission's, or it is the one of a job whose explicit name this is. */
  ghost predicate Unrelated(m: ConfigMap) { !WellNamed(m) || Label(m, BASE_NAME) == m.name }

  /** In every run of submitters, deleters and others, over any initial store, a name
      that a client finds taken inside its retry loop was created by somebody else
      after the listing, or is the explicit name of a job with that very base name, or
      was chosen from a listing whose labels were exactly 1..n, or belongs to a map
      that no submission makes. */
  lemma FailedCreateExplained(init: State, run: seq<Action>, g: nat)
    requires Initial(init) && Runs(init, run) && g < |init.clients|
    requires var s := Exec(init, run);
             g < |s.clients| && s.clients[g].pc.Creating? && NameTried(s.clients[g]) in s.store
    ensures var s := Exec(init, run);
            var c, name := s.clients[g], NameTried(s.clients[g]);
            || CreatedByOther(s.log, c.pc.since, g, name)
            || (Label(s.store[name], BASE_NAME) == name != c.name && Label(s.store[name], BASE_INDEX) == "0")
            || ListingFull(c.pc.listing)
            || (!WellNamed(s.store[name]) && !Submitted(s.log, name))
  {
    RunInv(init, init, run);
    var s := Exec(init, run);
    assert ClientInv(s, g);
    var c := s.clients[g];
    var m := s.store[NameTried(c)];
    if !WellNamed(m) {
      assert !Submitted(s.log, m.name);
    } else if Label(m, BASE_NAME) == c.name {
      NamesakeOfSameBase(m, c.name, c.pc.index);
      assert Selected(m, c.name);
      if m in c.pc.listing {
        assert Label(m, BASE_INDEX) in Occupied(c.pc.listing);
        SmallestUnoccupiedMeaning(c.pc.listing);
      }
    } else {
      NamesakeOfOtherBase(m, c.name, c.pc.index);
    }
  }

  /** The listed labels are 1..n and the map labelled n is a submission's. */
  ghost predicate LastIndexTaken(listing: seq<ConfigMap>) {
    ListingFull(listing) && exists m :: m in listing && WellNamed(m) && Label(m, BASE_INDEX) == Itoa(|listing|)
  }

  /** A full listing of well-named maps holds the numbered name that is tried next. */
  lemma LastIndexHolds(listing: seq<ConfigMap>, m: ConfigMap, base: string)
    requires ListingFull(listing) && m in listing
    requires WellNamed(m) && Label(m, BASE_NAME) == base && Label(m, BASE_INDEX) == Itoa(|listing|)
    ensures SmallestUnoccupied(listing) == |listing| && m.name == ConfigMapName(base, |listing|, true)
  {
    var n := |listing|;
    SmallestUnoccupiedMeaning(listing);
    var index := SmallestUnoccupied(listing);
    assert Itoa(index) in Occupied(listing);
    FullIndex(listing);
    var k: nat :| Label(m, BASE_INDEX) == Itoa(k) &&
      (m.name == ConfigMapName(base, k, true) || (k == 0 && m.name == base));
    ItoaInjective(k, n);
  }

  /** A retry that nobody disturbs between its List and its Create. */
  predicate RetryWorks(s: State, g: nat, listing: seq<ConfigMap>)
    requires Enabled(s, List(g, Some(listing)))
  {
    var t := Next(s, List(g, Some(listing)));
    Enabled(t, Create(g, Served)) && Next(t, Create(g, Served)).clients[g].pc.Returned?
  }

  /** In every run an undisturbed retry succeeds exactly when its name is not that of
      an unrelated map and the listing does not already hold it as its last index. In
      a namespace of well-named maps the latter means that the labels are 1..n; index 0
      in the listing rules that out. */
  lemma UndisturbedRetrySucceedsExactlyWhen(init: State, run: seq<Action>, g: nat, listing: seq<ConfigMap>)
    requires Initial(init) && Runs(init, run) && g < |init.clients|
    requires var s := Exec(init, run); Enabled(s, List(g, Some(listing)))
    ensures var s := Exec(init, run);
            var name := ConfigMapName(s.clients[g].name, SmallestUnoccupied(listing), true);
            && (RetryWorks(s, g, listing) <==>
                  !(name in s.store && Unrelated(s.store[name])) && !LastIndexTaken(listing))
            && ((forall n :: n in s.store ==> WellNamed(s.store[n])) ==> LastIndexTaken(listing) == ListingFull(listing))
            && ("0" in Occupied(listing) ==> !ListingFull(listing))
  {
    RunInv(init, init, run);
    var s := Exec(init, run);
    assert ClientInv(s, g);
    RetryDecided(s, g, listing);
    ZeroIsNoPositiveNumeral(|listing| + 1);
    if ListingFull(listing) && forall n :: n in s.store ==> WellNamed(s.store[n]) {
      FullOfWellNamed(listing);
    }
  }

  lemma RetryDecided(s: State, g: nat, listing: seq<ConfigMap>)
    requires Enabled(s, List(g, Some(listing))) && s.clients[g].generateSuffix
    requires forall n :: n in s.store ==> s.store[n].name == n
    ensures var name := ConfigMapName(s.clients[g].name, SmallestUnoccupied(listing), true);
            RetryWorks(s, g, listing) <==> !(name in s.store && Unrelated(s.store[name])) && !LastIndexTaken(listing)
  {
    var base, index := s.clients[g].name, SmallestUnoccupied(listing);
    var name := ConfigMapName(base, index, true);
    assert RetryWorks(s, g, listing) <==> name !in s.store;
    if LastIndexTaken(listing) {
      var m :| m in listing && WellNamed(m) && Label(m, BASE_INDEX) == Itoa(|listing|);
      LastIndexHolds(listing, m, base);
    } else if name in s.store && !Unrelated(s.store[name]) {
      NameIsListed(s, g, listing, index);
    }
  }

  lemma FullOfWellNamed(listing: seq<ConfigMap>)
    requires ListingFull(listing) && forall m :: m in listing ==> WellNamed(m)
    ensures LastIndexTaken(listing)
  {
    assert Itoa(|listing|) in Numerals(1, |listing| + 1);
    var m :| m in listing && Label(m, BASE_INDEX) == Itoa(|listing|);
  }

  /** A submission's map that holds the numbered name found is in the listing, which
      is full. */
  lemma NameIsListed(s: State, g: nat, listing: seq<ConfigMap>, index: nat)
    requires Enabled(s, List(g, Some(listing))) && index == SmallestUnoccupied(listing)
    requires var name := ConfigMapName(s.clients[g].name, index, true);
             name in s.store && s.store[name].name == name && !Unrelated(s.store[name])
    ensures LastIndexTaken(listing)
  {
    var base := s.clients[g].name;
    var m := s.store[ConfigMapName(base, index, true)];
    if Label(m, BASE_NAME) != base {
      NamesakeOfOtherBase(m, base, index);
      assert false;
    }
    NamesakeOfSameBase(m, base, index);
    assert Selected(m, base) && m in listing;
    assert Label(m, BASE_INDEX) in Occupied(listing);
    SmallestUnoccupiedMeaning(listing);
    assert Itoa(|listing|) in Occupied(listing) by { assert Itoa(|listing|) in Numerals(1, |listing| + 1); }
    FullIndex(listing);
  }

  lemma FullIndex(listing: seq<ConfigMap>)
    requires ListingFull(listing)
    ensures SmallestUnoccupied(listing) == |listing|
  {
    SmallestUnoccupiedMeaning(listing);
  }

  // ----- what a submission adds

  /** How many maps a client has created. */
  ghost function CreationsBy(log: seq<Event>, g: nat): nat {
    Sum(log, (e: Event) => Bit(e.Created? && e.client == g))
  }

  ghost predicate LedgerInv(s: State) {
    && (forall g :: 0 <= g < |s.clients| ==>
          && CreationsBy(s.log, g) == Bit(s.clients[g].pc.Returned?)
          && (s.clients[g].pc.Returned? ==> Created(g, s.clients[g].pc.created) in s.log))
    && (forall k :: 0 <= k < |s.log| ==> Accounted(s, k))
    && (forall k, l :: 0 <= k < l < |s.log| && s.log[k].Created? && s.log[l].Created? && s.log[k].name == s.log[l].name ==>
          DeletedSince(s.log, k, s.log[k].name))
  }

  ghost predicate DeletedSince(log: seq<Event>, k: nat, name: string) {
    exists j :: k < j < |log| && log[j] == Deleted(name)
  }

  lemma DeletedSinceGrows(log: seq<Event>, e: Event, k: nat, name: string)
    requires DeletedSince(log, k, name)
    ensures DeletedSince(log + [e], k, name)
  {
    var j :| k < j < |log| && log[j] == Deleted(name);
    assert (log + [e])[j] == Deleted(name);
  }

  lemma StepCreations(s: State, a: Action, g: nat)
    requires LedgerInv(s) && Enabled(s, a) && g < |s.clients|
    ensures var t := Next(s, a);
            && CreationsBy(t.log, g) == Bit(t.clients[g].pc.Returned?)
            && (t.clients[g].pc.Returned? ==> Created(g, t.clients[g].pc.created) in t.log)
  {
    var t := Next(s, a);
    assert CreationsBy(s.log, g) == Bit(s.clients[g].pc.Returned?);
    if t.log != s.log {
      var e := t.log[|s.log|];
      assert t.log == s.log + [e] && e in t.log;
      SumAppend(s.log, e, (e: Event) => Bit(e.Created? && e.client == g));
    }
  }

  /** A created map is still there or has been deleted since. */
  ghost predicate Accounted(s: State, k: nat)
    requires k < |s.log|
  {
    s.log[k].Created? ==> s.log[k].name in s.store || DeletedSince(s.log, k, s.log[k].name)
  }

  lemma StepAccounted(s: State, a: Action, k: nat)
    requires Enabled(s, a) && k < |s.log| && Accounted(s, k)
    ensures Accounted(Next(s, a), k)
  {
    var t := Next(s, a);
    if t.log != s.log && s.log[k].Created? {
      var e, name := t.log[|s.log|], s.log[k].name;
      assert t.log == s.log + [e];
      if DeletedSince(s.log, k, name) {
        DeletedSinceGrows(s.log, e, k, name);
      } else if name !in t.store {
        assert t.log[|s.log|] == Deleted(name);
      }
    }
  }

  lemma StepLedger(s: State, a: Action)
    requires LedgerInv(s) && Enabled(s, a)
    ensures LedgerInv(Next(s, a))
  {
    var t := Next(s, a);
    forall g | 0 <= g < |t.clients|
      ensures CreationsBy(t.log, g) == Bit(t.clients[g].pc.Returned?)
      ensures t.clients[g].pc.Returned? ==> Created(g, t.clients[g].pc.created) in t.log
    {
      StepCreations(s, a, g);
    }
    forall k | 0 <= k < |t.log| ensures Accounted(t, k) {
      if k < |s.log| {
        StepAccounted(s, a, k);
      }
    }
    forall k, l | 0 <= k < l < |t.log| && t.log[k].Created? && t.log[l].Created? && t.log[k].name == t.log[l].name
      ensures DeletedSince(t.log, k, t.log[k].name)
    {
      assert Accounted(s, k);
      if t.log != s.log {
        assert t.log == s.log + [t.log[|s.log|]];
        DeletedSinceGrows(s.log, t.log[|s.log|], k, t.log[k].name);
      }
    }
  }

  lemma {:induction false} RunLedger(s: State, run: seq<Action>)
    requires LedgerInv(s) && Runs(s, run)
    ensures LedgerInv(Exec(s, run)) && |Exec(s, run).clients| == |s.clients|
    decreases |run|
  {
    if run != [] {
      StepLedger(s, run[0]);
      RunLedger(Next(s, run[0]), run[1..]);
    }
  }

  /** Whatever the interleaving, a submission has created exactly one map, the one it
      returns, when it succeeds and none when it fails, with at most 6 Creates and
      5 Lists; and two submissions return the same name only if a map of that name
      was deleted in between. */
  lemma SubmissionsAccounted(init: State, run: seq<Action>)
    requires Initial(init) && Runs(init, run)
    ensures var s := Exec(init, run);
            && |s.clients| == |init.clients|
            && (forall g :: 0 <= g < |s.clients| ==>
                  && s.clients[g].creates <= 6 && s.clients[g].lists <= 5
                  && CreationsBy(s.log, g) == Bit(s.clients[g].pc.Returned?)
                  && (s.clients[g].pc.Returned? ==> Created(g, s.clients[g].pc.created) in s.log))
            && (forall g, h | 0 <= g < h < |s.clients| && s.clients[g].pc.Returned? && s.clients[g].pc == s.clients[h].pc
                  :: Deleted(s.clients[g].pc.created) in s.log)
  {
    RunInv(init, init, run);
    RunLedger(init, run);
    var s := Exec(init, run);
    forall g | 0 <= g < |s.clients| ensures s.clients[g].creates <= 6 && s.clients[g].lists <= 5 {
      assert ClientInv(s, g);
    }
    forall g, h | 0 <= g < h < |s.clients| && s.clients[g].pc.Returned? && s.clients[g].pc == s.clients[h].pc
      ensures Deleted(s.clients[g].pc.created) in s.log
    {
      var name := s.clients[g].pc.created;
      var k :| 0 <= k < |s.log| && s.log[k] == Created(g, name);
      var l :| 0 <= l < |s.log| && s.log[l] == Created(h, name);
      var first := if k < l then k else l;
      assert DeletedSince(s.log, first, name);
    }
  }

  // ----- what a submission's requests decide

  predicate RequestOf(a: Action, g: nat) { (a.Create? || a.List?) && a.g == g }

  /** The requests of one client in a run, in order. */
  function Requests(run: seq<Action>, g: nat): seq<Action> { Filter(run, (a: Action) => RequestOf(a, g)) }

  /** Create, List, Create, List, ... in which only the last one can have ended the
      submission without a Create that worked. */
  predicate InTurn(reqs: seq<Action>) {
    && (forall k :: 0 <= k < |reqs| ==> if k % 2 == 0 then reqs[k].Create? else reqs[k].List?)
    && (forall k :: 0 <= k < |reqs| - 1 && reqs[k].List? ==> reqs[k].listing.Some?)
    && (|reqs| > 1 ==> !reqs[0].reply.Denied?)
  }

  /** The index of the last Create: 0 for the first one, later the smallest one not
      occupied in the listing just before it. */
  function IndexAsked(reqs: seq<Action>): nat {
    if |reqs| >= 2 && reqs[|reqs| - 2].List? && reqs[|reqs| - 2].listing.Some? then
      SmallestUnoccupied(reqs[|reqs| - 2].listing.value)
    else 0
  }

  /** Where the requests have brought a client. */
  ghost predicate Explains(reqs: seq<Action>, c: Client) {
    var n := |reqs|;
    && InTurn(reqs) && c.creates == (n + 1) / 2 && c.lists == n / 2 && (n > 1 ==> c.generateSuffix)
    && match c.pc
       case First => n == 0
       case Listing(i) => c.generateSuffix && n == 2 * i + 1 && i < 5 && !reqs[0].reply.Denied?
       case Creating(i, listing, index, _) =>
         n == 2 * i + 2 && i < 5 && reqs[n - 1].listing == Some(listing) && index == SmallestUnoccupied(listing)
       case Returned(name) =>
         && n % 2 == 1 && n <= 11 && reqs[n - 1].reply.Served?
         && name == (if c.generateSuffix then c.name + "-" + Itoa(IndexAsked(reqs)) else c.name)
       case Failed(AccessDenied) => n == 1 && reqs[0].reply.Denied?
       case Failed(AlreadyExists) => n == 1 && !reqs[0].reply.Denied? && !c.generateSuffix
       case Failed(ListFailed) => n > 0 && n % 2 == 0 && reqs[n - 1].listing.None?
       case Failed(RetriesExhausted) => n == 11
  }

  /** The map that was returned is in the store, with its labels, unless it has been
      deleted. */
  ghost predicate Stands(s: State, c: Client, reqs: seq<Action>) {
    c.pc.Returned? ==>
      || Deleted(c.pc.created) in s.log
      || (c.pc.created in s.store && s.store[c.pc.created] ==
            ConfigMap(c.pc.created, map["createdBy" := "arena", "base-name-index" := Itoa(IndexAsked(reqs)),
                                        "base-name" := c.name]))
  }

  ghost predicate HistoryInv(init: State, s: State, past: seq<Action>) {
    && |s.clients| == |init.clients|
    && forall g :: 0 <= g < |s.clients| ==>
         && s.clients[g].name == init.clients[g].name && s.clients[g].generateSuffix == init.clients[g].generateSuffix
         && Explains(Requests(past, g), s.clients[g]) && Stands(s, s.clients[g], Requests(past, g))
  }

  /** A request of the client itself. */
  lemma StepOwn(s: State, a: Action, g: nat, reqs: seq<Action>)
    requires Enabled(s, a) && RequestOf(a, g) && Explains(reqs, s.clients[g])
    ensures Explains(reqs + [a], Next(s, a).clients[g])
    ensures Stands(Next(s, a), Next(s, a).clients[g], reqs + [a])
  {
    var c, more := s.clients[g], reqs + [a];
    assert InTurn(more);
    if c.pc.Creating? {
      assert more[|more| - 2] == reqs[|reqs| - 1];
      assert IndexAsked(more) == c.pc.index;
    } else if c.pc.First? {
      assert IndexAsked(more) == 0;
    }
  }

  /** A step of anybody else. */
  lemma StepForeign(s: State, a: Action, g: nat, reqs: seq<Action>)
    requires Enabled(s, a) && !RequestOf(a, g) && g < |s.clients| && Stands(s, s.clients[g], reqs)
    ensures Next(s, a).clients[g] == s.clients[g] && Stands(Next(s, a), s.clients[g], reqs)
  {
    var t := Next(s, a);
    assert forall e :: e in s.log ==> e in t.log;
    if a.Delete? {
      assert t.log[|s.log|] == Deleted(a.name);
    }
  }

  lemma StepHistory(init: State, s: State, past: seq<Action>, a: Action)
    requires HistoryInv(init, s, past) && Enabled(s, a)
    ensures HistoryInv(init, Next(s, a), past + [a])
  {
    forall g | 0 <= g < |s.clients|
      ensures Next(s, a).clients[g].name == init.clients[g].name
      ensures Next(s, a).clients[g].generateSuffix == init.clients[g].generateSuffix
      ensures Explains(Requests(past + [a], g), Next(s, a).clients[g])
      ensures Stands(Next(s, a), Next(s, a).clients[g], Requests(past + [a], g))
    {
      FilterLast(past, a, (a: Action) => RequestOf(a, g));
      if RequestOf(a, g) {
        StepOwn(s, a, g, Requests(past, g));
      } else {
        StepForeign(s, a, g, Requests(past, g));
      }
    }
  }

  lemma {:induction false} RunHistory(init: State, s: State, past: seq<Action>, run: seq<Action>)
    requires HistoryInv(init, s, past) && Runs(s, run)
    ensures HistoryInv(init, Exec(s, run), past + run)
    decreases |run|
  {
    if run == [] {
      assert past + run == past;
    } else {
      StepHistory(init, s, past, run[0]);
      RunHistory(init, Next(s, run[0]), past + [run[0]], run[1..]);
      assert past + [run[0]] + run[1..] == past + run;
    }
  }

  lemma ReachableHistory(init: State, run: seq<Action>)
    requires Initial(init) && Runs(init, run)
    ensures HistoryInv(init, Exec(init, run), run)
  {
    RunHistory(init, init, [], run);
    assert [] + run == run;
  }

  /** What a client's requests say of where it stands. */
  ghost predicate DecidedBy(c: Client, g: nat, reqs: seq<Action>) {
    var n := |reqs|;
    && (c.pc == Failed(AccessDenied) <==> n == 1 && reqs[0] == Create(g, Denied))
    && (c.pc == Failed(AlreadyExists) <==>
          n == 1 && reqs[0] != Create(g, Denied) && !c.generateSuffix && !c.pc.Returned?)
    && (c.pc == Failed(ListFailed) <==> n > 0 && reqs[n - 1] == List(g, None))
    && (c.pc == Failed(RetriesExhausted) <==> c.creates == 6 && c.lists == 5 && !c.pc.Returned?)
  }

  lemma ExplainedIsDecided(c: Client, g: nat, reqs: seq<Action>)
    requires Explains(reqs, c) && forall k :: 0 <= k < |reqs| ==> RequestOf(reqs[k], g)
    ensures DecidedBy(c, g, reqs)
  {
  }

  /** In every run the requests of a client and the replies to them decide how it
      fails: each failure comes from exactly the requests that the source says. A
      submission that has not ended can make its next request: in particular a failed
      first Create that was not denied is followed by a List if there is a suffix. */
  lemma FailuresExplained(init: State, run: seq<Action>, g: nat)
    requires Initial(init) && Runs(init, run) && g < |init.clients|
    ensures var s, reqs := Exec(init, run), Requests(run, g);
            && |s.clients| == |init.clients|
            && s.clients[g].generateSuffix == init.clients[g].generateSuffix
            && DecidedBy(s.clients[g], g, reqs)
            && (!s.clients[g].pc.Returned? && !s.clients[g].pc.Failed? ==>
                  Enabled(s, if |reqs| % 2 == 0 then Create(g, Served) else List(g, None)))
            && (|reqs| == 1 && s.clients[g].generateSuffix && reqs[0] != Create(g, Denied) && !s.clients[g].pc.Returned? ==>
                  Enabled(s, List(g, None)))
  {
    ReachableHistory(init, run);
    var reqs := Requests(run, g);
    FilterHolds(run, (a: Action) => RequestOf(a, g));
    assert forall k :: 0 <= k < |reqs| ==> reqs[k] in reqs;
    ExplainedIsDecided(Exec(init, run).clients[g], g, reqs);
  }

  /** The two request counters count the requests of the run. */
  lemma RequestsCounted(init: State, run: seq<Action>, g: nat)
    requires Initial(init) && Runs(init, run) && g < |init.clients|
    ensures var s, reqs := Exec(init, run), Requests(run, g);
            && |s.clients| == |init.clients|
            && s.clients[g].creates == |Filter(reqs, (a: Action) => a.Create?)|
            && s.clients[g].lists == |Filter(reqs, (a: Action) => a.List?)|
  {
    ReachableHistory(init, run);
    TurnCounts(Requests(run, g));
  }

  lemma {:induction false} TurnCounts(reqs: seq<Action>)
    requires forall k :: 0 <= k < |reqs| ==> if k % 2 == 0 then reqs[k].Create? else reqs[k].List?
    ensures |Filter(reqs, (a: Action) => a.Create?)| == (|reqs| + 1) / 2
    ensures |Filter(reqs, (a: Action) => a.List?)| == |reqs| / 2
  {
    if reqs != [] {
      TurnCounts(reqs[..|reqs| - 1]);
    }
  }

  /** In every run a Create works exactly when it is served and its name is free; the
      name is the job's own, or with a suffix the one of the index asked for; and the
      map that was returned stands with its three labels until it is deleted. */
  lemma CreateDecided(init: State, run: seq<Action>, g: nat, reply: Reply)
    requires Initial(init) && Runs(init, run) && g < |init.clients|
    requires Enabled(Exec(init, run), Create(g, reply))
    ensures var s, c, index := Exec(init, run), init.clients[g], IndexAsked(Requests(run + [Create(g, reply)], g));
            var name := if c.generateSuffix then c.name + "-" + Itoa(index) else c.name;
            var t := Next(s, Create(g, reply));
            && (t.clients[g].pc.Returned? <==> reply.Served? && name !in s.store)
            && (t.clients[g].pc.Returned? ==>
                  && t.clients[g].pc.created == name
                  && t.store == s.store[name := ConfigMap(name, map["createdBy" := "arena", "base-name-index" := Itoa(index),
                                                                    "base-name" := c.name])])
            && (!t.clients[g].pc.Returned? ==> t.store == s.store)
  {
    ReachableHistory(init, run);
    var s := Exec(init, run);
    var a := Create(g, reply);
    FilterLast(run, a, (a: Action) => RequestOf(a, g));
    AskedFor(Requests(run, g), a, s.clients[g]);
  }

  lemma AskedFor(reqs: seq<Action>, a: Action, c: Client)
    requires Explains(reqs, c) && a.Create? && (c.pc.First? || c.pc.Creating?)
    ensures IndexTried(c) == IndexAsked(reqs + [a])
  {
    if c.pc.Creating? {
      assert (reqs + [a])[|reqs| - 1] == reqs[|reqs| - 1];
    }
  }

  /** In every run a submission that succeeded has returned its own name, and that map
      stands with its three labels unless it has been deleted. */
  lemma ReturnedMapStands(init: State, run: seq<Action>, g: nat)
    requires Initial(init) && Runs(init, run) && g < |init.clients|
    ensures var s, c, index := Exec(init, run), init.clients[g], IndexAsked(Requests(run, g));
            |s.clients| == |init.clients| &&
            (s.clients[g].pc.Returned? ==>
               var name := if c.generateSuffix then c.name + "-" + Itoa(index) else c.name;
               && s.clients[g].pc.created == name
               && (Deleted(name) in s.log
                   || (name in s.store && s.store[name] ==
                         ConfigMap(name, map["createdBy" := "arena", "base-name-index" := Itoa(index), "base-name" := c.name]))))
  {
    ReachableHistory(init, run);
  }

  // ----- one submission as the client runs it

  lemma {:induction false} Compose(s: State, first: seq<Action>, second: seq<Action>)
    requires Runs(s, first) && Runs(Exec(s, first), second)
    ensures Runs(s, first + second) && Exec(s, first + second) == Exec(Exec(s, first), second)
    decreases |first|
  {
    if first == [] {
      assert first + second == second;
    } else {
      Compose(Next(s, first[0]), first[1..], second);
      assert (first + second)[1..] == first[1..] + second;
    }
  }

  lemma Extend(s: State, run: seq<Action>, t: State, a: Action) returns (longer: seq<Action>)
    requires Runs(s, run) && Exec(s, run) == t && Enabled(t, a)
    ensures longer == run + [a] && Runs(s, longer) && Exec(s, longer) == Next(t, a)
  {
    longer := run + [a];
    assert Runs(Next(t, a), [a][1..]);
    Compose(s, run, [a]);
  }

  /** The namespace: the API server's config maps and the submissions under way. */
  class Namespace {
    var store: map<string, ConfigMap>
    var clients: seq<Client>
    var log: seq<Event>

    ghost function Abstract(): State
      reads this
    {
      State(store, clients, log)
    }

    constructor (store: map<string, ConfigMap>, clients: seq<Client>)
      requires Initial(State(store, clients, []))
      ensures Initial(Abstract()) && this.store == store && this.clients == clients
    {
      this.store, this.clients, this.log := store, clients, [];
    }

    method CreateEmptyConfigMap(g: nat, name: string, base: string, index: nat, reply: Reply) returns (ok: bool)
      requires Enabled(Abstract(), Create(g, reply))
      requires name == NameTried(clients[g]) && base == clients[g].name && index == IndexTried(clients[g])
      modifies this
      ensures Abstract() == Next(old(Abstract()), Create(g, reply))
      ensures ok <==> clients[g].pc.Returned?
      ensures ok ==> clients[g].pc.created == name
    {
      var c := clients[g];
      ok := reply.Served? && name !in store;
      if ok {
        var labels := map[CREATED_BY := "arena"];
        labels := labels[BASE_INDEX := Itoa(index)];
        labels := labels[BASE_NAME := base];
        store := store[name := ConfigMap(name, labels)];
        log := log + [Created(g, name)];
        clients := clients[g := c.(pc := Returned(name), creates := c.creates + 1)];
        assert labels == EmptyConfigMap(name, base, index).labels;
      } else {
        clients := clients[g := c.(pc := AfterFailedCreate(c, reply), creates := c.creates + 1)];
      }
    }

    /** The server collects the matching maps in an order of its own. */
    method ListConfigMaps(g: nat, reply: Reply) returns (listing: Option<seq<ConfigMap>>)
      requires g < |clients| && clients[g].pc.Listing?
      requires forall n :: n in store ==> store[n].name == n
      modifies this
      ensures listing.Some? <==> reply.Served?
      ensures Enabled(old(Abstract()), List(g, listing))
      ensures Abstract() == Next(old(Abstract()), List(g, listing))
    {
      var c := clients[g];
      if !reply.Served? {
        clients := clients[g := c.(pc := Failed(ListFailed), lists := c.lists + 1)];
        return None;
      }
      var rest := set n | n in store && Selected(store[n], c.name);
      var items: seq<ConfigMap> := [];
      while rest != {}
        invariant forall n :: n in rest ==> n in store && Selected(store[n], c.name)
        invariant forall n :: n in store && Selected(store[n], c.name) ==>
                    n in rest || store[n] in items
        invariant forall m :: m in items ==>
                    m.name in store && store[m.name] == m && Selected(m, c.name) && m.name !in rest
        invariant forall i, j :: 0 <= i < j < |items| ==> items[i] != items[j]
      {
        var n :| n in rest;
        rest := rest - {n};
        items := items + [store[n]];
      }
      listing := Some(items);
      clients := clients[g := c.(pc := Creating(c.pc.i, items, SmallestUnoccupied(items), |log|), lists := c.lists + 1)];
    }

    /** Other clients, deleters and others take the steps of a schedule, as far as they
        can; the submission of g does not move. */
    method Interfere(g: nat, others: seq<Action>, ghost init: State, ghost run: seq<Action>)
      returns (ghost longer: seq<Action>)
      requires Initial(init) && Runs(init, run) && Exec(init, run) == Abstract() && g < |clients|
      modifies this
      ensures Runs(init, longer) && Exec(init, longer) == Abstract()
      ensures |clients| == |old(clients)| && clients[g] == old(clients)[g]
    {
      longer := run;
      for k := 0 to |others|
        invariant Runs(init, longer) && Exec(init, longer) == Abstract()
        invariant |clients| == |old(clients)| && clients[g] == old(clients)[g]
      {
        var a := others[k];
        var s := State(store, clients, log);
        if !((a.Create? || a.List?) && a.g == g) && Enabled(s, a) {
          longer := Extend(init, longer, s, a);
          var t := Next(s, a);
          store, clients, log := t.store, t.clients, t.log;
        }
      }
    }

    /** A List request, after some interference. */
    method ListAfter(g: nat, reply: Reply, others: seq<Action>, ghost init: State, ghost run: seq<Action>)
      returns (listing: Option<seq<ConfigMap>>, ghost longer: seq<Action>)
      requires Initial(init) && Runs(init, run) && Exec(init, run) == Abstract()
      requires g < |clients| && clients[g].pc.Listing?
      modifies this
      ensures Runs(init, longer) && Exec(init, longer) == Abstract() && g < |clients|
      ensures clients[g].name == old(clients[g].name) && clients[g].generateSuffix == old(clients[g].generateSuffix)
      ensures match listing
              case None => clients[g].pc == Failed(ListFailed)
              case Some(l) =>
                && clients[g].pc.Creating? && clients[g].pc.i == old(clients[g].pc.i)
                && clients[g].pc.index == SmallestUnoccupied(l)
    {
      longer := Interfere(g, others, init, run);
      RunInv(init, init, longer);
      ghost var before := Abstract();
      listing := ListConfigMaps(g, reply);
      longer := Extend(init, longer, before, List(g, listing));
    }

    /** A Create request, after some interference. */
    method CreateAfter(g: nat, name: string, base: string, index: nat, reply: Reply, others: seq<Action>,
                       ghost init: State, ghost run: seq<Action>)
      returns (ok: bool, ghost longer: seq<Action>)
      requires Initial(init) && Runs(init, run) && Exec(init, run) == Abstract()
      requires g < |clients| && (clients[g].pc.First? || clients[g].pc.Creating?)
      requires name == NameTried(clients[g]) && base == clients[g].name && index == IndexTried(clients[g])
      modifies this
      ensures Runs(init, longer) && Exec(init, longer) == Abstract() && g < |clients|
      ensures clients[g].name == old(clients[g].name) && clients[g].generateSuffix == old(clients[g].generateSuffix)
      ensures clients[g].pc == if ok then Returned(name) else AfterFailedCreate(old(clients[g]), reply)
    {
      longer := Interfere(g, others, init, run);
      ghost var before := Abstract();
      ok := CreateEmptyConfigMap(g, name, base, index, reply);
      longer := Extend(init, longer, before, Create(g, reply));
    }

    /** One pass of the retry loop; None means that the loop goes on. */
    method RetryOnce(g: nat, name: string, i: nat, listReply: Reply, createReply: Reply,
                     others: (seq<Action>, seq<Action>), ghost init: State, ghost run: seq<Action>)
      returns (result: Option<Result<string, Failure>>, ghost longer: seq<Action>)
      requires Initial(init) && Runs(init, run) && Exec(init, run) == Abstract()
      requires g < |clients| && clients[g].name == name && clients[g].generateSuffix
      requires i < RETRIES && clients[g].pc == Listing(i)
      modifies this
      ensures Runs(init, longer) && Exec(init, longer) == Abstract()
      ensures g < |clients| && clients[g].name == name && clients[g].generateSuffix
      ensures match result
              case None => clients[g].pc == if i + 1 < RETRIES then Listing(i + 1) else Failed(RetriesExhausted)
              case Some(Ok(created)) => clients[g].pc == Returned(created)
              case Some(Err(why)) => clients[g].pc == Failed(why)
    {
      var listing, ok;
      listing, longer := ListAfter(g, listReply, others.0, init, run);
      if listing.None? {
        return Some(Err(ListFailed)), longer;
      }
      var index := GetSmallestUnoccupiedIndex(listing.value);
      var maybeName := ConfigMapName(name, index, true);
      ok, longer := CreateAfter(g, maybeName, name, index, createReply, others.1, init, longer);
      result := if ok then Some(Ok(maybeName)) else None;
    }

    /** submitConfigMap with arbitrary interference before each of its requests and
        arbitrary replies: it returns what the protocol says, and everything that
        happened is a run of the protocol. */
    method SubmitConfigMap(g: nat, replies: nat -> Reply, others: nat -> seq<Action>)
      returns (result: Result<string, Failure>, ghost run: seq<Action>)
      requires Initial(Abstract()) && g < |clients|
      modifies this
      ensures Runs(old(Abstract()), run) && Exec(old(Abstract()), run) == Abstract()
      ensures g < |clients|
      ensures match result
              case Ok(name) => clients[g].pc == Returned(name)
              case Err(why) => clients[g].pc == Failed(why)
    {
      ghost var init := Abstract();
      var name, generateSuffix := clients[g].name, clients[g].generateSuffix;
      var maybeName := ConfigMapName(name, 0, generateSuffix);
      var ok;
      ok, run := CreateAfter(g, maybeName, name, 0, replies(0), others(0), init, []);
      if ok {
        return Ok(maybeName), run;
      }
      if replies(0).Denied? {
        return Err(AccessDenied), run;
      }
      if !generateSuffix {
        return Err(AlreadyExists), run;
      }
      for i := 0 to RETRIES
        invariant Runs(init, run) && Exec(init, run) == Abstract() && g < |clients|
        invariant clients[g].name == name && clients[g].generateSuffix
        invariant clients[g].pc == if i < RETRIES then Listing(i) else Failed(RetriesExhausted)
      {
        var attempt;
        attempt, run := RetryOnce(g, name, i, replies(2 * i + 1), replies(2 * i + 2),
                                  (others(2 * i + 1), others(2 * i + 2)), init, run);
        if attempt.Some? {
          return attempt.value, run;
        }
      }
      return Err(RetriesExhausted), run;
    }
  }
}
