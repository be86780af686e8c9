// The in-flight deduplication of Resolver.Resolve (internal/resolver/resolver.go): every
// request is a goroutine with a program counter, every step between two scheduling points
// is one action, and actions of different requests interleave freely.
module InFlight {
  import opened Options
  import opened Dns

  type Error = string

  datatype Result = Result(msg: Option<Msg>, err: Option<Error>)

  // An inflightEntry: `closes` counts close(entry.done), `leader` is the request that made it.
  datatype Entry = Entry(leader: nat, closes: nat, msg: Option<Msg>, err: Option<Error>)

  datatype Outcome = FromCache(msg: Msg) | Joined(id: nat, res: Result) | GaveUp | Led(id: nat, res: Result)

  datatype PC =
    | Arrived
    | Missed
    | Waiting(id: nat)
    | Resolving(id: nat)
    | Resolved(id: nat, res: Result)
    | MsgStored(id: nat, res: Result)
    | ErrStored(id: nat, res: Result)
    | Closed(id: nat, res: Result)
    | Removed(id: nat, res: Result)
    | Returned(how: Outcome)

  // The locals of a call of Resolve: its question, the key built from it, and where it is.
  datatype Request = Request(q: Question, key: string, pc: PC)

  datatype Store = Store(leader: nat, q: Question, msg: Msg)

  datatype State = State(
    requests: map<nat, Request>,
    inflight: map<string, nat>,
    entries: map<nat, Entry>,
    stores: seq<Store>)

  datatype Action =
    | Arrive(r: nat, q: Question)
    | CacheHit(r: nat, hit: Msg)
    | CacheMiss(r: nat)
    | JoinOrLead(r: nat, newId: nat)
    | Cancel(r: nat)
    | Wake(r: nat)
    | FinishResolution(r: nat, res: Result)
    | StoreMsg(r: nat)
    | StoreErr(r: nat)
    | CloseDone(r: nat)
    | RemoveEntry(r: nat)
    | CacheResult(r: nat)

  function Key(q: Question): string {
    InflightKey(q.name, q.qtype, q.qclass)
  }

  const EMPTY: State := State(map[], map[], map[], [])

  predicate Enabled(s: State, a: Action) {
    match a
    case Arrive(r, _) => r !in s.requests
    case _ =>
      && a.r in s.requests
      && var pc := s.requests[a.r].pc;
         match a
         case CacheHit(_, _) => pc.Arrived?
         case CacheMiss(_) => pc.Arrived?
         case JoinOrLead(_, newId) => pc.Missed? && newId !in s.entries
         case Cancel(_) => pc.Waiting?
         case Wake(_) => pc.Waiting? && pc.id in s.entries && s.entries[pc.id].closes > 0
         case FinishResolution(_, _) => pc.Resolving?
         case StoreMsg(_) => pc.Resolved? && pc.id in s.entries
         case StoreErr(_) => pc.MsgStored? && pc.id in s.entries
         case CloseDone(_) => pc.ErrStored? && pc.id in s.entries
         case RemoveEntry(_) => pc.Closed?
         case CacheResult(_) => pc.Removed?
         case Arrive(_, _) => false
  }

  function Goto(s: State, r: nat, pc: PC): State
    requires r in s.requests
  {
    s.(requests := s.requests[r := s.requests[r].(pc := pc)])
  }

  // The results that are worth caching.
  predicate IsAnswer(res: Result) {
    res.msg.Some? && res.err.None?
  }

  function Effect(s: State, a: Action): State
    requires Enabled(s, a)
  {
    match a
    case Arrive(r, q) =>
      var q := q.(name := Fqdn(q.name));
      s.(requests := s.requests[r := Request(q, Key(q), Arrived)])
    case CacheHit(r, msg) => Goto(s, r, Returned(FromCache(msg)))
    case CacheMiss(r) => Goto(s, r, Missed)
    case JoinOrLead(r, newId) =>
      var key := s.requests[r].key;
      if key in s.inflight then Goto(s, r, Waiting(s.inflight[key]))
      else Goto(s, r, Resolving(newId)).(inflight := s.inflight[key := newId],
                                         entries := s.entries[newId := Entry(r, 0, None, None)])
    case Cancel(r) => Goto(s, r, Returned(GaveUp))
    case Wake(r) =>
      var id := s.requests[r].pc.id;
      Goto(s, r, Returned(Joined(id, Result(s.entries[id].msg, s.entries[id].err))))
    case FinishResolution(r, res) => Goto(s, r, Resolved(s.requests[r].pc.id, res))
    case StoreMsg(r) =>
      var Resolved(id, res) := s.requests[r].pc;
      Goto(s, r, MsgStored(id, res)).(entries := s.entries[id := s.entries[id].(msg := res.msg)])
    case StoreErr(r) =>
      var MsgStored(id, res) := s.requests[r].pc;
      Goto(s, r, ErrStored(id, res)).(entries := s.entries[id := s.entries[id].(err := res.err)])
    case CloseDone(r) =>
      var ErrStored(id, res) := s.requests[r].pc;
      Goto(s, r, Closed(id, res)).(entries := s.entries[id := s.entries[id].(closes := s.entries[id].closes + 1)])
    case RemoveEntry(r) =>
      var Closed(id, res) := s.requests[r].pc;
      Goto(s, r, Removed(id, res)).(inflight := s.inflight - {s.requests[r].key})
    case CacheResult(r) =>
      var Removed(id, res) := s.requests[r].pc;
      var t := Goto(s, r, Returned(Led(id, res)));
      if IsAnswer(res) then t.(stores := s.stores + [Store(r, s.requests[r].q, res.msg.value)]) else t
  }

  // ---------- Runs ----------

  // Every step of the run is enabled where it is taken.
  predicate Legal(s: State, run: seq<Action>)
    decreases |run|
  {
    run == [] || (Enabled(s, run[0]) && Legal(Effect(s, run[0]), run[1..]))
  }

  function After(s: State, run: seq<Action>): State
    requires Legal(s, run)
    decreases |run|
  {
    if run == [] then s else After(Effect(s, run[0]), run[1..])
  }

  // ---------- The invariant ----------

  // The request has entered its own entry and not yet removed it.
  predicate Active(pc: PC) {
    pc.Resolving? || pc.Resolved? || pc.MsgStored? || pc.ErrStored? || pc.Closed?
  }

  // The request made the entry, whether or not it has removed it since.
  predicate LeaderOf(pc: PC, id: nat) {
    || ((Active(pc) || pc.Removed?) && pc.id == id)
    || (pc.Returned? && pc.how.Led? && pc.how.id == id)
  }

  // The entry carries the whole result and is closed, once.
  predicate Published(e: Entry, res: Result) {
    e.closes == 1 && e.msg == res.msg && e.err == res.err
  }

  // What a leader at this point has written into its entry.
  predicate Progress(pc: PC, e: Entry) {
    match pc
    case Resolving(_) => e.closes == 0 && e.msg.None? && e.err.None?
    case Resolved(_, _) => e.closes == 0 && e.msg.None? && e.err.None?
    case MsgStored(_, res) => e.closes == 0 && e.msg == res.msg && e.err.None?
    case ErrStored(_, res) => e.closes == 0 && e.msg == res.msg && e.err == res.err
    case Closed(_, res) => Published(e, res)
    case Removed(_, res) => Published(e, res)
    case Returned(how) => how.Led? ==> Published(e, how.res)
    case _ => true
  }

  predicate LedBy(s: State, id: nat, r: nat) {
    id in s.entries && s.entries[id].leader == r
  }

  predicate AskTheSame(s: State, r: nat, l: nat) {
    r in s.requests && l in s.requests && s.requests[r].key == s.requests[l].key
  }

  predicate RequestOk(s: State, r: nat)
    requires r in s.requests
  {
    var Request(q, key, pc) := s.requests[r];
    && (Active(pc) ==> key in s.inflight && s.inflight[key] == pc.id)
    && (Active(pc) || pc.Removed? ==> LedBy(s, pc.id, r) && Progress(pc, s.entries[pc.id]))
    && (pc.Waiting? ==> pc.id in s.entries && AskTheSame(s, r, s.entries[pc.id].leader))
    && (pc.Returned? && pc.how.Led? ==>
          && LedBy(s, pc.how.id, r) && Progress(pc, s.entries[pc.how.id])
          && (IsAnswer(pc.how.res) ==> Store(r, q, pc.how.res.msg.value) in s.stores))
    && (pc.Returned? && pc.how.Joined? ==>
          && pc.how.id in s.entries && Published(s.entries[pc.how.id], pc.how.res)
          && AskTheSame(s, r, s.entries[pc.how.id].leader))
  }

  predicate EntryOk(s: State, id: nat)
    requires id in s.entries
  {
    s.entries[id].leader in s.requests && LeaderOf(s.requests[s.entries[id].leader].pc, id)
  }

  // A key in the table names an entry whose leader is active and asked that key.
  predicate SlotOk(s: State, key: string)
    requires key in s.inflight
  {
    var id := s.inflight[key];
    && id in s.entries && s.entries[id].leader in s.requests
    && var l := s.requests[s.entries[id].leader];
       l.key == key && Active(l.pc) && l.pc.id == id
  }

  predicate StoreOk(s: State, st: Store) {
    && st.leader in s.requests
    && var l := s.requests[st.leader];
       st.q == l.q && l.pc.Returned? && l.pc.how.Led? && l.pc.how.res == Result(Some(st.msg), None)
  }

  ghost predicate DistinctLeaders(stores: seq<Store>) {
    forall i, j :: 0 <= i < j < |stores| ==> stores[i].leader != stores[j].leader
  }

  ghost predicate Inv(s: State) {
    && (forall r :: r in s.requests ==> RequestOk(s, r))
    && (forall id :: id in s.entries ==> EntryOk(s, id))
    && (forall key :: key in s.inflight ==> SlotOk(s, key))
    && (forall i :: 0 <= i < |s.stores| ==> StoreOk(s, s.stores[i]))
    && DistinctLeaders(s.stores)
  }

  // Inv, one object at a time: the actor of a step, a bystander, an entry, a slot, a store.
  lemma ActorStaysOk(s: State, a: Action)
    requires Enabled(s, a)
    requires a.r in s.requests ==> RequestOk(s, a.r)
    requires a.JoinOrLead? && s.requests[a.r].key in s.inflight ==> SlotOk(s, s.requests[a.r].key)
    requires a.Wake? ==> var id := s.requests[a.r].pc.id; EntryOk(s, id) && RequestOk(s, s.entries[id].leader)
    ensures RequestOk(Effect(s, a), a.r)
  {
  }

  lemma BystanderStaysOk(s: State, a: Action, r: nat)
    requires Enabled(s, a) && r in s.requests && r != a.r
    requires RequestOk(s, r)
    requires a.r in s.requests ==> RequestOk(s, a.r)
    ensures RequestOk(Effect(s, a), r)
  {
  }

  lemma EntryStaysOk(s: State, a: Action, id: nat)
    requires Enabled(s, a) && id in Effect(s, a).entries
    requires id in s.entries ==> EntryOk(s, id)
    ensures EntryOk(Effect(s, a), id)
  {
  }

  lemma SlotStaysOk(s: State, a: Action, key: string)
    requires Enabled(s, a) && key in Effect(s, a).inflight
    requires key in s.inflight ==> SlotOk(s, key)
    ensures SlotOk(Effect(s, a), key)
  {
  }

  lemma StoreStaysOk(s: State, a: Action, i: nat)
    requires Enabled(s, a) && i < |Effect(s, a).stores|
    requires i < |s.stores| ==> StoreOk(s, s.stores[i])
    ensures StoreOk(Effect(s, a), Effect(s, a).stores[i])
  {
  }

  lemma StoresStayDistinct(s: State, a: Action)
    requires Enabled(s, a) && DistinctLeaders(s.stores)
    requires forall i :: 0 <= i < |s.stores| ==> StoreOk(s, s.stores[i])
    ensures DistinctLeaders(Effect(s, a).stores)
  {
  }

  lemma StepKeepsInv(s: State, a: Action)
    requires Inv(s) && Enabled(s, a)
    ensures Inv(Effect(s, a))
  {
    var t := Effect(s, a);
    assert a.r in s.requests ==> RequestOk(s, a.r);
    forall r | r in t.requests ensures RequestOk(t, r) {
      if r == a.r { ActorStaysOk(s, a); } else { BystanderStaysOk(s, a, r); }
    }
    forall id | id in t.entries ensures EntryOk(t, id) { EntryStaysOk(s, a, id); }
    forall key | key in t.inflight ensures SlotOk(t, key) { SlotStaysOk(s, a, key); }
    forall i | 0 <= i < |t.stores| ensures StoreOk(t, t.stores[i]) { StoreStaysOk(s, a, i); }
    StoresStayDistinct(s, a);
  }

  lemma {:induction false} RunKeepsInv(s: State, run: seq<Action>)
    requires Inv(s) && Legal(s, run)
    ensures Inv(After(s, run))
    decreases |run|
  {
    if run != [] {
      StepKeepsInv(s, run[0]);
      RunKeepsInv(Effect(s, run[0]), run[1..]);
    }
  }

  // The key of a request is the key of its question throughout.
  ghost predicate KeysMatchQuestions(s: State) {
    forall r :: r in s.requests ==> s.requests[r].key == Key(s.requests[r].q)
  }

  lemma StepKeepsQuestions(s: State, a: Action, r: nat)
    requires Enabled(s, a) && r in Effect(s, a).requests
    ensures var t := Effect(s, a).requests;
      if r in s.requests then t[r].key == s.requests[r].key && t[r].q == s.requests[r].q
      else t[r].key == Key(t[r].q)
  {
  }

  lemma {:induction false} RunKeepsKeys(s: State, run: seq<Action>)
    requires KeysMatchQuestions(s) && Legal(s, run)
    ensures KeysMatchQuestions(After(s, run))
    decreases |run|
  {
    if run != [] {
      var t := Effect(s, run[0]);
      forall r | r in t.requests ensures t.requests[r].key == Key(t.requests[r].q) {
        StepKeepsQuestions(s, run[0], r);
      }
      RunKeepsKeys(t, run[1..]);
    }
  }

  ghost predicate Reachable(s: State) {
    exists run :: Legal(EMPTY, run) && After(EMPTY, run) == s
  }

  lemma ReachableStatesAreSound(s: State)
    requires Reachable(s)
    ensures Inv(s)
  {
    var run :| Legal(EMPTY, run) && After(EMPTY, run) == s;
    RunKeepsInv(EMPTY, run);
  }

  lemma KeyOf(s: State, r: nat)
    requires Reachable(s) && r in s.requests
    ensures s.requests[r].key == Key(s.requests[r].q)
  {
    var run :| Legal(EMPTY, run) && After(EMPTY, run) == s;
    RunKeepsKeys(EMPTY, run);
  }

  // ---------- What the protocol guarantees ----------

  // Two leaders of one question never overlap between their insert and their delete.
  lemma OneLeaderPerQuestion(s: State, r1: nat, r2: nat)
    requires Reachable(s)
    requires r1 in s.requests && r2 in s.requests
    requires Active(s.requests[r1].pc) && Active(s.requests[r2].pc)
    ensures s.requests[r1].q == s.requests[r2].q <==> r1 == r2
  {
    ReachableStatesAreSound(s);
    KeyOf(s, r1);
    KeyOf(s, r2);
    assert RequestOk(s, r1) && RequestOk(s, r2);
  }

  // Closing happens once, after both fields are final, so close() never panics.
  lemma CloseFollowsBothStores(s: State, r: nat)
    requires Reachable(s) && Enabled(s, CloseDone(r))
    ensures var ErrStored(id, res) := s.requests[r].pc;
      s.entries[id].closes == 0 && Published(Effect(s, CloseDone(r)).entries[id], res)
  {
    ReachableStatesAreSound(s);
    assert RequestOk(s, r);
  }

  lemma ClosedStaysPut(s: State, a: Action, id: nat)
    requires Enabled(s, a) && id in s.entries && s.entries[id].closes > 0
    requires a.r in s.requests ==> RequestOk(s, a.r)
    ensures id in Effect(s, a).entries && Effect(s, a).entries[id] == s.entries[id]
  {
  }

  // Once closed, an entry never changes again.
  lemma {:induction false} ClosedEntriesAreFinal(s: State, run: seq<Action>, id: nat)
    requires Inv(s) && Legal(s, run)
    requires id in s.entries && s.entries[id].closes > 0
    ensures id in After(s, run).entries && After(s, run).entries[id] == s.entries[id]
    decreases |run|
  {
    if run != [] {
      var a := run[0];
      assert a.r in s.requests ==> RequestOk(s, a.r);
      ClosedStaysPut(s, a, id);
      StepKeepsInv(s, a);
      ClosedEntriesAreFinal(Effect(s, a), run[1..], id);
    }
  }

  // A leader removes exactly its own slot.
  lemma RemovesOwnSlot(s: State, r: nat)
    requires Reachable(s) && Enabled(s, RemoveEntry(r))
    ensures var key := s.requests[r].key;
      && key == Key(s.requests[r].q) && key in s.inflight && s.inflight[key] == s.requests[r].pc.id
      && Effect(s, RemoveEntry(r)).inflight == s.inflight - {key}
  {
    ReachableStatesAreSound(s);
    KeyOf(s, r);
    assert RequestOk(s, r);
  }

  lemma TableIsEmptyWithoutLeaders(s: State)
    requires Reachable(s)
    ensures s.inflight == map[] <==> forall r :: r in s.requests ==> !Active(s.requests[r].pc)
  {
    ReachableStatesAreSound(s);
    if forall r :: r in s.requests ==> !Active(s.requests[r].pc) {
      assert forall key :: key in s.inflight ==> SlotOk(s, key);
      assert s.inflight.Keys == {};
    } else {
      var r :| r in s.requests && Active(s.requests[r].pc);
      assert RequestOk(s, r);
    }
  }

  // A joined request returns what its leader published, for the very question it asked.
  lemma JoinedResultIsTheLeaders(s: State, r: nat)
    requires Reachable(s)
    requires r in s.requests && s.requests[r].pc.Returned? && s.requests[r].pc.how.Joined?
    ensures var Joined(id, res) := s.requests[r].pc.how;
      && id in s.entries && s.entries[id].leader in s.requests
      && var l := s.requests[s.entries[id].leader];
         && l.q == s.requests[r].q
         && l.pc in {Closed(id, res), Removed(id, res), Returned(Led(id, res))}
  {
    ReachableStatesAreSound(s);
    assert RequestOk(s, r);
    var id := s.requests[r].pc.how.id;
    var l := s.entries[id].leader;
    assert EntryOk(s, id) && RequestOk(s, l);
    KeyOf(s, r);
    KeyOf(s, l);
    InflightKeyIsInjective(s.requests[r].q, s.requests[l].q);
  }

  // Each successful resolution is cached exactly once, under the question it answered.
  lemma SuccessIsCachedOnce(s: State, r: nat)
    requires Reachable(s)
    requires r in s.requests && s.requests[r].pc.Returned? && s.requests[r].pc.how.Led?
    ensures var res := s.requests[r].pc.how.res;
      && (IsAnswer(res) <==> exists i :: 0 <= i < |s.stores| && s.stores[i].leader == r)
      && forall i :: 0 <= i < |s.stores| && s.stores[i].leader == r ==>
           s.stores[i] == Store(r, s.requests[r].q, res.msg.value)
    ensures forall i, j :: 0 <= i < j < |s.stores| ==> !(s.stores[i].leader == r == s.stores[j].leader)
  {
    ReachableStatesAreSound(s);
    assert RequestOk(s, r);
    assert forall i :: 0 <= i < |s.stores| && s.stores[i].leader == r ==> StoreOk(s, s.stores[i]);
  }

  // ---------- No waiter is stranded ----------

  // Steps of its own a leader still has to take before its entry is closed.
  function StepsToClose(pc: PC): nat {
    match pc
    case Resolving(_) => 4
    case Resolved(_, _) => 3
    case MsgStored(_, _) => 2
    case ErrStored(_, _) => 1
    case _ => 0
  }

  // The next step of a leader, should its resolution give this result.
  function NextOf(r: nat, pc: PC, res: Result): Action {
    match pc
    case Resolving(_) => FinishResolution(r, res)
    case Resolved(_, _) => StoreMsg(r)
    case MsgStored(_, _) => StoreErr(r)
    case _ => CloseDone(r)
  }

  function StepsOf(run: seq<Action>, r: nat): nat {
    if run == [] then 0 else (if run[0].r == r then 1 else 0) + StepsOf(run[1..], r)
  }

  // An open entry has a leader that is not blocked.
  lemma OpenEntryHasRunnableLeader(s: State, id: nat, res: Result)
    requires Reachable(s) && id in s.entries
    ensures s.entries[id].leader in s.requests
    ensures var l := s.entries[id].leader;
      var pc := s.requests[l].pc;
      if s.entries[id].closes == 0 then StepsToClose(pc) > 0 && Enabled(s, NextOf(l, pc, res))
      else s.entries[id].closes == 1 && StepsToClose(pc) == 0
  {
    ReachableStatesAreSound(s);
    assert EntryOk(s, id) && RequestOk(s, s.entries[id].leader);
  }

  lemma StepCountsDown(s: State, a: Action, id: nat)
    requires Enabled(s, a) && id in s.entries
    requires EntryOk(s, id) && RequestOk(s, s.entries[id].leader)
    requires a.r in s.requests ==> RequestOk(s, a.r)
    ensures var t := Effect(s, a);
      var l := s.entries[id].leader;
      && id in t.entries && t.entries[id].leader == l && l in t.requests
      && StepsToClose(t.requests[l].pc) ==
         (if a.r == l && StepsToClose(s.requests[l].pc) > 0 then StepsToClose(s.requests[l].pc) - 1
          else StepsToClose(s.requests[l].pc))
  {
  }

  // Whatever the scheduler does in between, four steps of the leader close the entry.
  lemma {:induction false} LeaderClosesItsEntry(s: State, run: seq<Action>, id: nat)
    requires Inv(s) && Legal(s, run)
    requires id in s.entries && s.entries[id].leader in s.requests
    requires StepsOf(run, s.entries[id].leader) >= StepsToClose(s.requests[s.entries[id].leader].pc)
    ensures id in After(s, run).entries && After(s, run).entries[id].closes == 1
    decreases |run|
  {
    var l := s.entries[id].leader;
    assert EntryOk(s, id) && RequestOk(s, l);
    if run != [] {
      var a := run[0];
      assert a.r in s.requests ==> RequestOk(s, a.r);
      StepCountsDown(s, a, id);
      StepKeepsInv(s, a);
      LeaderClosesItsEntry(Effect(s, a), run[1..], id);
    }
  }

  lemma {:induction false} IdleRequestStaysPut(s: State, run: seq<Action>, r: nat)
    requires Legal(s, run) && r in s.requests && StepsOf(run, r) == 0
    ensures r in After(s, run).requests && After(s, run).requests[r] == s.requests[r]
    decreases |run|
  {
    if run != [] {
      IdleRequestStaysPut(Effect(s, run[0]), run[1..], r);
    }
  }

  // A waiter that is not cancelled can wake once its leader has run, and then returns with
  // exactly what the leader published.
  lemma WaiterIsServed(s: State, run: seq<Action>, r: nat)
    requires Reachable(s) && Legal(s, run)
    requires r in s.requests && s.requests[r].pc.Waiting? && StepsOf(run, r) == 0
    requires s.requests[r].pc.id in s.entries
    requires StepsOf(run, s.entries[s.requests[r].pc.id].leader) >= 4
    ensures var t := After(s, run);
      var id := s.requests[r].pc.id;
      && Enabled(t, Wake(r)) && id in t.entries
      && var u := Effect(t, Wake(r));
         && u.requests[r].pc.Returned? && u.requests[r].pc.how.Joined?
         && Published(t.entries[id], u.requests[r].pc.how.res)
  {
    ReachableStatesAreSound(s);
    var id := s.requests[r].pc.id;
    assert EntryOk(s, id);
    LeaderClosesItsEntry(s, run, id);
    IdleRequestStaysPut(s, run, r);
  }

  // ---------- The resolver object ----------

  // One method for each stretch of Resolve that runs without a scheduling point.
  class Resolver {
    var requests: map<nat, Request>
    var inflight: map<string, nat>
    var entries: map<nat, Entry>
    var stores: seq<Store>

    ghost function Now(): State
      reads this
    {
      State(requests, inflight, entries, stores)
    }

    ghost predicate Valid()
      reads this
    {
      Inv(Now())
    }

    constructor ()
      ensures Valid() && Now() == EMPTY
    {
      requests, inflight, entries, stores := map[], map[], map[], [];
    }

    method Call(r: nat, name: string, qtype: u16, qclass: u16)
      requires Valid() && r !in requests
      modifies this
      ensures Valid() && Now() == Effect(old(Now()), Arrive(r, Question(name, qtype, qclass)))
      ensures r in requests && requests[r].pc == Arrived
      ensures requests[r].q == Question(if EndsInDot(name) then name else name + ".", qtype, qclass)
    {
      QualifiedEndsInDot(name);
      StepKeepsInv(Now(), Arrive(r, Question(name, qtype, qclass)));
      var q := Question(Fqdn(name), qtype, qclass);
      requests := requests[r := Request(q, InflightKey(q.name, qtype, qclass), Arrived)];
    }

    method AfterCacheGet(r: nat, found: Option<Msg>)
      requires Valid() && r in requests && requests[r].pc.Arrived?
      modifies this
      ensures Valid()
      ensures Now() == Effect(old(Now()), if found.Some? then CacheHit(r, found.value) else CacheMiss(r))
      ensures r in requests && requests[r].pc == if found.Some? then Returned(FromCache(found.value)) else Missed
    {
      StepKeepsInv(Now(), if found.Some? then CacheHit(r, found.value) else CacheMiss(r));
      if found.Some? {
        requests := requests[r := requests[r].(pc := Returned(FromCache(found.value)))];
      } else {
        requests := requests[r := requests[r].(pc := Missed)];
      }
    }

    // Under inflightMu: join the entry of the key, or register a new one.
    method LookUpOrRegister(r: nat, newId: nat)
      requires Valid() && r in requests && requests[r].pc.Missed? && newId !in entries
      modifies this
      ensures Valid() && Now() == Effect(old(Now()), JoinOrLead(r, newId))
    {
      StepKeepsInv(Now(), JoinOrLead(r, newId));
      var key := requests[r].key;
      if key in inflight {
        requests := requests[r := requests[r].(pc := Waiting(inflight[key]))];
      } else {
        entries := entries[newId := Entry(r, 0, None, None)];
        inflight := inflight[key := newId];
        requests := requests[r := requests[r].(pc := Resolving(newId))];
      }
    }

    // The select of a waiter: the entry is done, or the context is.
    method Select(r: nat, cancelled: bool)
      requires Valid() && r in requests && requests[r].pc.Waiting?
      requires cancelled || Enabled(Now(), Wake(r))
      modifies this
      ensures Valid() && Now() == Effect(old(Now()), if cancelled then Cancel(r) else Wake(r))
      ensures r in requests && requests[r].pc.Returned?
      ensures if cancelled then requests[r].pc.how == GaveUp
              else
                var id := old(requests)[r].pc.id;
                id in entries && requests[r].pc.how == Joined(id, Result(entries[id].msg, entries[id].err))
    {
      StepKeepsInv(Now(), if cancelled then Cancel(r) else Wake(r));
      if cancelled {
        requests := requests[r := requests[r].(pc := Returned(GaveUp))];
      } else {
        var id := requests[r].pc.id;
        var res := if entries[id].msg.Some? then Result(entries[id].msg, entries[id].err)
                   else Result(None, entries[id].err);
        requests := requests[r := requests[r].(pc := Returned(Joined(id, res)))];
      }
    }

    method AfterResolution(r: nat, res: Result)
      requires Valid() && r in requests && requests[r].pc.Resolving?
      modifies this
      ensures Valid() && Now() == Effect(old(Now()), FinishResolution(r, res))
      ensures r in requests && requests[r].pc == Resolved(old(requests)[r].pc.id, res)
    {
      StepKeepsInv(Now(), FinishResolution(r, res));
      requests := requests[r := requests[r].(pc := Resolved(requests[r].pc.id, res))];
    }

    method PublishMsg(r: nat)
      requires Valid() && Enabled(Now(), StoreMsg(r))
      modifies this
      ensures Valid() && Now() == Effect(old(Now()), StoreMsg(r))
    {
      StepKeepsInv(Now(), StoreMsg(r));
      var Resolved(id, res) := requests[r].pc;
      entries := entries[id := entries[id].(msg := res.msg)];
      requests := requests[r := requests[r].(pc := MsgStored(id, res))];
    }

    method PublishErr(r: nat)
      requires Valid() && Enabled(Now(), StoreErr(r))
      modifies this
      ensures Valid() && Now() == Effect(old(Now()), StoreErr(r))
    {
      StepKeepsInv(Now(), StoreErr(r));
      var MsgStored(id, res) := requests[r].pc;
      entries := entries[id := entries[id].(err := res.err)];
      requests := requests[r := requests[r].(pc := ErrStored(id, res))];
    }

    method Close(r: nat)
      requires Valid() && Enabled(Now(), CloseDone(r))
      modifies this
      ensures Valid() && Now() == Effect(old(Now()), CloseDone(r))
    {
      StepKeepsInv(Now(), CloseDone(r));
      var ErrStored(id, res) := requests[r].pc;
      assert RequestOk(Now(), r) && entries[id].closes == 0;
      entries := entries[id := entries[id].(closes := 1)];
      requests := requests[r := requests[r].(pc := Closed(id, res))];
    }

    method Remove(r: nat)
      requires Valid() && r in requests && requests[r].pc.Closed?
      modifies this
      ensures Valid() && Now() == Effect(old(Now()), RemoveEntry(r))
    {
      StepKeepsInv(Now(), RemoveEntry(r));
      var Closed(id, res) := requests[r].pc;
      inflight := inflight - {requests[r].key};
      requests := requests[r := requests[r].(pc := Removed(id, res))];
    }

    method Return(r: nat)
      requires Valid() && r in requests && requests[r].pc.Removed?
      modifies this
      ensures Valid() && Now() == Effect(old(Now()), CacheResult(r))
      ensures r in requests && requests[r].pc == Returned(Led(old(requests)[r].pc.id, old(requests)[r].pc.res))
    {
      StepKeepsInv(Now(), CacheResult(r));
      var Removed(id, res) := requests[r].pc;
      if res.msg.Some? && res.err.None? {
        stores := stores + [Store(r, requests[r].q, res.msg.value)];
      }
      requests := requests[r := requests[r].(pc := Returned(Led(id, res)))];
    }
  }
}
