/**
  The parallel multi-signature check with its channels: a coordinator, three workers, a task channel
  of capacity two and a result channel of capacity |sigs|. Every interleaving of their steps is a run.
 */
module MultisigChannels {
  import opened Bytes
  import opened Matching
  import opened MultisigPar

  const WORKER_COUNT := 3
  const TASK_CAPACITY := 2

  datatype Problem = Problem(verify: Verifier, keys: seq<bytes>, sigs: seq<bytes>) {
    /** What the instruction guarantees before it starts the workers. */
    ghost predicate Valid() { 2 <= |sigs| <= |keys| }

    function V(t: Task): Verdict
      requires t.In(this)
    {
      VerdictOf(verify, keys, sigs, t.key, t.signum)
    }
  }

  datatype Task = Task(key: int, signum: int) {
    predicate In(p: Problem) { 0 <= key < |p.keys| && 0 <= signum < |p.sigs| }
  }

  datatype Worker = Idle | Busy(t: Task) | Exited

  /** The coordinator is about to send the tasks in queue, waits for a result, or has closed the task channel. */
  datatype Phase = Sending(queue: seq<Task>) | Receiving | Returned {
    function Queue(): seq<Task> { if Sending? then queue else [] }
  }

  /** `done` logs the verifications in the order in which they were reported; `received` of them have been read. */
  datatype Config = Config(c: Coord, phase: Phase, tasks: seq<Task>, workers: seq<Worker>, results: seq<Verdict>,
                           done: seq<Task>, received: nat)

  function Start(p: Problem): Config {
    Config(Coord(0, |p.keys| - 1, 0, |p.sigs| - 1, 2, true),
           Sending([Task(0, 0), Task(|p.keys| - 1, |p.sigs| - 1)]), [], [Idle, Idle, Idle], [], [], 0)
  }

  // ----- steps

  ghost predicate SendTask(p: Problem, a: Config, b: Config) {
    && a.phase.Sending? && a.phase.queue != [] && |a.tasks| < TASK_CAPACITY
    && b == a.(tasks := a.tasks + [a.phase.queue[0]],
               phase := if |a.phase.queue| == 1 then Receiving else Sending(a.phase.queue[1..]))
  }

  ghost predicate Receive(p: Problem, a: Config, b: Config) {
    && a.phase.Receiving? && a.results != []
    && var a' := a.(results := a.results[1..], received := a.received + 1);
       match OnResult(a.c, a.results[0])
       case Wait(c) => b == a'.(c := c)
       case Stop(c) => b == a'.(c := c, phase := Returned)
       case Send(c, key, signum) => b == a'.(c := c, phase := Sending([Task(key, signum)]))
  }

  ghost predicate TakeTask(p: Problem, a: Config, b: Config, i: nat) {
    && i < |a.workers| && a.workers[i].Idle? && a.tasks != []
    && b == a.(workers := a.workers[i := Busy(a.tasks[0])], tasks := a.tasks[1..])
  }

  ghost predicate Report(p: Problem, a: Config, b: Config, i: nat) {
    && i < |a.workers| && a.workers[i].Busy? && a.workers[i].t.In(p) && |a.results| < |p.sigs|
    && b == a.(workers := a.workers[i := Idle], results := a.results + [p.V(a.workers[i].t)],
               done := a.done + [a.workers[i].t])
  }

  ghost predicate Exit(p: Problem, a: Config, b: Config, i: nat) {
    && i < |a.workers| && a.workers[i].Idle? && a.phase.Returned? && a.tasks == []
    && b == a.(workers := a.workers[i := Exited])
  }

  ghost predicate WorkerStep(p: Problem, a: Config, b: Config, i: nat) {
    TakeTask(p, a, b, i) || Report(p, a, b, i) || Exit(p, a, b, i)
  }

  ghost predicate Step(p: Problem, a: Config, b: Config) {
    SendTask(p, a, b) || Receive(p, a, b) || exists i :: WorkerStep(p, a, b, i)
  }

  // ----- what is on its way

  /** How often t occurs in s. */
  ghost function Times(s: seq<Task>, t: Task): nat { multiset(s)[t] }

  ghost function One(b: bool): nat { if b then 1 else 0 }

  ghost function BusyTimes(ws: seq<Worker>, t: Task): nat {
    if ws == [] then 0 else One(ws[0] == Busy(t)) + BusyTimes(ws[1..], t)
  }

  ghost function BusyCount(ws: seq<Worker>): nat {
    if ws == [] then 0 else One(ws[0].Busy?) + BusyCount(ws[1..])
  }

  lemma BusyUpdate(ws: seq<Worker>, i: nat, w: Worker, t: Task)
    requires i < |ws|
    ensures BusyTimes(ws[i := w], t) + One(ws[i] == Busy(t)) == BusyTimes(ws, t) + One(w == Busy(t))
    ensures BusyCount(ws[i := w]) + One(ws[i].Busy?) == BusyCount(ws) + One(w.Busy?)
  {
    if i == 0 {
      assert ws[i := w][1..] == ws[1..];
    } else {
      BusyUpdate(ws[1..], i - 1, w, t);
      assert ws[i := w][1..] == ws[1..][i - 1 := w];
    }
  }

  lemma BusyMember(ws: seq<Worker>, i: nat)
    requires i < |ws| && ws[i].Busy?
    ensures BusyTimes(ws, ws[i].t) > 0 && BusyCount(ws) > 0
  {
    if i > 0 { BusyMember(ws[1..], i - 1); }
  }

  lemma NobodyBusy(ws: seq<Worker>, t: Task)
    requires forall i :: 0 <= i < |ws| ==> !ws[i].Busy?
    ensures BusyTimes(ws, t) == 0 && BusyCount(ws) == 0
  {
  }

  lemma Split(s: seq<Task>, k: nat, t: Task)
    requires k <= |s|
    ensures Times(s, t) == Times(s[..k], t) + Times(s[k..], t)
  {
    assert s == s[..k] + s[k..];
  }

  lemma TimesOfSum(s: seq<Task>, u: seq<Task>, t: Task)
    ensures Times(s + u, t) == Times(s, t) + Times(u, t)
  {
  }

  /** Occurrences of t among the tasks that no worker has reported yet. */
  ghost function OpenTimes(a: Config, t: Task): nat {
    Times(a.phase.Queue(), t) + Times(a.tasks, t) + BusyTimes(a.workers, t)
  }

  /** Occurrences of t among the tasks whose results the coordinator has not read yet. */
  ghost function InFlight(a: Config, t: Task): nat {
    OpenTimes(a, t) + if a.received <= |a.done| then Times(a.done[a.received..], t) else 0
  }

  /** Occurrences of t among all tasks ever created. */
  ghost function Issued(a: Config, t: Task): nat { OpenTimes(a, t) + Times(a.done, t) }

  /** The number of tasks in flight. */
  ghost function Load(a: Config): nat {
    |a.phase.Queue()| + |a.tasks| + BusyCount(a.workers) + |a.results|
  }

  // ----- the invariant

  ghost predicate Logged(p: Problem, a: Config) {
    && a.received + |a.results| == |a.done|
    && var unread := a.done[a.received..];
       forall i :: 0 <= i < |a.results| ==> unread[i].In(p) && a.results[i] == p.V(unread[i])
  }

  function Front(c: Coord): Task { Task(c.k1, c.s1) }

  function Back(c: Coord): Task { Task(c.k2, c.s2) }

  ghost function SlotOf(p: Problem, a: Config, t: Task): Slot
    requires t.In(p)
  {
    if InFlight(a, t) > 0 then Due(p.V(t)) else Free
  }

  /** The coordinator's own invariant, its outstanding results being those of the tasks in flight. */
  ghost predicate Coordinated(p: Problem, a: Config) {
    && InBounds(p.keys, p.sigs, a.c)
    && Inv(p.verify, p.keys, p.sigs, a.c, SlotOf(p, a, Front(a.c)), SlotOf(p, a, Back(a.c)))
    && a.c.taskCount == Load(a)
    && forall t :: InFlight(a, t) > 0 ==> t == Front(a.c) || t == Back(a.c)
  }

  /** No key has been given out twice, and none strictly inside the open window has been given out. */
  ghost predicate KeysUsedOnce(p: Problem, a: Config) {
    && (forall t, u :: Issued(a, t) > 0 && Issued(a, u) > 0 && t.key == u.key ==> t == u)
    && (forall t :: Issued(a, t) > 0 ==> Issued(a, t) == 1 && t.In(p) && (t.key <= a.c.k1 || a.c.k2 <= t.key))
  }

  ghost predicate SysInv(p: Problem, a: Config) {
    && p.Valid()
    && |a.workers| == WORKER_COUNT
    && Logged(p, a)
    && KeysUsedOnce(p, a)
    && Load(a) <= TASK_CAPACITY
    && (a.phase.Sending? ==> a.phase.queue != [])
    && 0 <= a.c.k1 < a.c.k2 < |p.keys|
    && (a.phase.Returned? ==> (a.c.sigok <==> Matchable(p.verify, p.keys, p.sigs)))
    && (!a.phase.Returned? ==> Coordinated(p, a))
    && (forall i :: 0 <= i < |a.workers| && a.workers[i].Exited? ==> a.phase.Returned? && a.tasks == [])
  }

  lemma StartIsGood(p: Problem)
    requires p.Valid()
    ensures SysInv(p, Start(p))
  {
    var a := Start(p);
    InvAtStart(p.verify, p.keys, p.sigs);
    forall t ensures InFlight(a, t) == Issued(a, t) == One(t == Front(a.c)) + One(t == Back(a.c)) {
      NobodyBusy(a.workers, t);
      assert multiset(a.phase.queue) == multiset{Front(a.c), Back(a.c)};
    }
    NobodyBusy(a.workers, Front(a.c));
  }

  // ----- every step keeps it

  lemma SendKeeps(p: Problem, a: Config, b: Config, t: Task)
    requires SendTask(p, a, b)
    ensures OpenTimes(b, t) == OpenTimes(a, t) && Load(b) == Load(a)
  {
    var q := a.phase.queue;
    assert q == [q[0]] + q[1..];
    assert b.phase.Queue() == q[1..];
    TimesOfSum([q[0]], q[1..], t);
    TimesOfSum(a.tasks, [q[0]], t);
  }

  lemma TakeKeeps(p: Problem, a: Config, b: Config, i: nat, t: Task)
    requires TakeTask(p, a, b, i)
    ensures OpenTimes(b, t) == OpenTimes(a, t) && Load(b) == Load(a)
  {
    BusyUpdate(a.workers, i, b.workers[i], t);
    assert a.tasks == [a.tasks[0]] + a.tasks[1..];
    TimesOfSum([a.tasks[0]], a.tasks[1..], t);
  }

  lemma ReportKeeps(p: Problem, a: Config, b: Config, i: nat, t: Task)
    requires Report(p, a, b, i) && a.received <= |a.done|
    ensures InFlight(b, t) == InFlight(a, t) && Issued(b, t) == Issued(a, t) && Load(b) == Load(a)
  {
    BusyUpdate(a.workers, i, b.workers[i], t);
    assert b.done[b.received..] == a.done[a.received..] + [a.workers[i].t];
    TimesOfSum(a.done[a.received..], [a.workers[i].t], t);
    TimesOfSum(a.done, [a.workers[i].t], t);
  }

  lemma ExitKeeps(p: Problem, a: Config, b: Config, i: nat, t: Task)
    requires Exit(p, a, b, i)
    ensures OpenTimes(b, t) == OpenTimes(a, t) && Load(b) == Load(a)
  {
    BusyUpdate(a.workers, i, b.workers[i], t);
  }

  /** Steps that only move tasks along the channels. */
  lemma MovingIsGood(p: Problem, a: Config, b: Config)
    requires SysInv(p, a) && Logged(p, b) && |b.workers| == WORKER_COUNT
    requires b.c == a.c && (b.phase.Returned? <==> a.phase.Returned?)
    requires b.phase.Sending? ==> b.phase.queue != []
    requires Load(b) == Load(a)
    requires forall t :: InFlight(b, t) == InFlight(a, t) && Issued(b, t) == Issued(a, t)
    requires forall i :: 0 <= i < |b.workers| && b.workers[i].Exited? ==> b.phase.Returned? && b.tasks == []
    ensures SysInv(p, b)
  {
  }

  lemma SendIsGood(p: Problem, a: Config, b: Config)
    requires SysInv(p, a) && SendTask(p, a, b)
    ensures SysInv(p, b)
  {
    forall t ensures InFlight(b, t) == InFlight(a, t) && Issued(b, t) == Issued(a, t) { SendKeeps(p, a, b, t); }
    SendKeeps(p, a, b, Front(a.c));
    MovingIsGood(p, a, b);
  }

  lemma TakeIsGood(p: Problem, a: Config, b: Config, i: nat)
    requires SysInv(p, a) && TakeTask(p, a, b, i)
    ensures SysInv(p, b)
  {
    forall t ensures InFlight(b, t) == InFlight(a, t) && Issued(b, t) == Issued(a, t) { TakeKeeps(p, a, b, i, t); }
    TakeKeeps(p, a, b, i, Front(a.c));
    MovingIsGood(p, a, b);
  }

  lemma ReportKeepsAll(p: Problem, a: Config, b: Config, i: nat)
    requires SysInv(p, a) && Report(p, a, b, i)
    ensures forall t :: InFlight(b, t) == InFlight(a, t) && Issued(b, t) == Issued(a, t)
  {
    forall t ensures InFlight(b, t) == InFlight(a, t) && Issued(b, t) == Issued(a, t) { ReportKeeps(p, a, b, i, t); }
  }

  lemma ReportKeepsLog(p: Problem, a: Config, b: Config, i: nat)
    requires Logged(p, a) && Report(p, a, b, i)
    ensures Logged(p, b)
  {
    var unread := a.done[a.received..];
    assert b.done[b.received..] == unread + [a.workers[i].t];
  }

  lemma ReportIsGood(p: Problem, a: Config, b: Config, i: nat)
    requires SysInv(p, a) && Report(p, a, b, i)
    ensures SysInv(p, b)
  {
    ReportKeepsLog(p, a, b, i);
    ReportKeepsAll(p, a, b, i);
    ReportKeeps(p, a, b, i, Front(a.c));
    MovingIsGood(p, a, b);
  }

  lemma ExitIsGood(p: Problem, a: Config, b: Config, i: nat)
    requires SysInv(p, a) && Exit(p, a, b, i)
    ensures SysInv(p, b)
  {
    forall t ensures InFlight(b, t) == InFlight(a, t) && Issued(b, t) == Issued(a, t) { ExitKeeps(p, a, b, i, t); }
    ExitKeeps(p, a, b, i, Front(a.c));
    MovingIsGood(p, a, b);
  }

  lemma InFlightIsIssued(a: Config, t: Task)
    requires a.received <= |a.done|
    ensures InFlight(a, t) <= Issued(a, t)
  {
    Split(a.done, a.received, t);
  }

  /** Occurrences of t among what the decision sends. */
  ghost function Sent(d: Decision, t: Task): nat {
    match d
    case Send(_, key, signum) => One(t == Task(key, signum))
    case _ => 0
  }

  /** Reading a result takes its task out of flight; a decision to send puts the new task in. */
  lemma ReceiveMoves(p: Problem, a: Config, b: Config, t: Task)
    requires Receive(p, a, b) && Logged(p, a)
    ensures var sent := Sent(OnResult(a.c, a.results[0]), t);
            && InFlight(b, t) + One(t == a.done[a.received]) == InFlight(a, t) + sent
            && Issued(b, t) == Issued(a, t) + sent
    ensures InFlight(a, a.done[a.received]) > 0
    ensures Load(b) + 1 == Load(a) + One(OnResult(a.c, a.results[0]).Send?)
  {
    var rest := a.done[a.received..];
    assert rest == [rest[0]] + a.done[b.received..];
    TimesOfSum([rest[0]], a.done[b.received..], t);
    TimesOfSum([rest[0]], a.done[b.received..], rest[0]);
  }

  /** The verdict just read belongs to one of the two ends, and nothing else is due from that end. */
  lemma WhoseVerdict(p: Problem, a: Config) returns (front: bool)
    requires SysInv(p, a) && a.phase.Receiving? && a.results != []
    ensures var t := if front then Front(a.c) else Back(a.c);
            && a.done[a.received] == t && InFlight(a, t) == Issued(a, t) == 1
            && t.In(p) && a.results[0] == p.V(t)
  {
    var t := a.done[a.received + 0];
    var rest := a.done[a.received..];
    assert rest[0] == t;
    InFlightIsIssued(a, t);
    front := t == Front(a.c);
  }

  lemma FrontReceived(p: Problem, a: Config, b: Config)
    requires SysInv(p, a) && Receive(p, a, b) && a.done[a.received] == Front(a.c)
    requires InFlight(a, Front(a.c)) == 1 && a.results[0] == p.V(Front(a.c))
    ensures b.phase.Returned? ==> (b.c.sigok <==> Matchable(p.verify, p.keys, p.sigs))
    ensures !b.phase.Returned? ==> Coordinated(p, b)
  {
    FrontResult(p.verify, p.keys, p.sigs, a.c, SlotOf(p, a, Front(a.c)), SlotOf(p, a, Back(a.c)));
    ReceiveMoves(p, a, b, Front(a.c));
    ReceiveMoves(p, a, b, Back(a.c));
    if !b.phase.Returned? {
      assert Back(b.c) == Back(a.c);
      ReceiveMoves(p, a, b, Front(b.c));
      forall t | InFlight(b, t) > 0 ensures t == Front(b.c) || t == Back(b.c) { ReceiveMoves(p, a, b, t); }
    }
  }

  lemma BackReceived(p: Problem, a: Config, b: Config)
    requires SysInv(p, a) && Receive(p, a, b) && a.done[a.received] == Back(a.c)
    requires InFlight(a, Back(a.c)) == 1 && a.results[0] == p.V(Back(a.c))
    ensures b.phase.Returned? ==> (b.c.sigok <==> Matchable(p.verify, p.keys, p.sigs))
    ensures !b.phase.Returned? ==> Coordinated(p, b)
  {
    BackResult(p.verify, p.keys, p.sigs, a.c, SlotOf(p, a, Front(a.c)), SlotOf(p, a, Back(a.c)));
    ReceiveMoves(p, a, b, Front(a.c));
    ReceiveMoves(p, a, b, Back(a.c));
    if !b.phase.Returned? {
      assert Front(b.c) == Front(a.c);
      ReceiveMoves(p, a, b, Back(b.c));
      forall t | InFlight(b, t) > 0 ensures t == Front(b.c) || t == Back(b.c) { ReceiveMoves(p, a, b, t); }
    }
  }

  /** A key strictly inside the window is new. */
  lemma NewKey(p: Problem, a: Config, b: Config, sent: Task)
    requires KeysUsedOnce(p, a) && sent.In(p) && a.c.k1 < sent.key < a.c.k2
    requires forall t :: Issued(b, t) == Issued(a, t) + One(t == sent)
    requires a.c.k1 <= b.c.k1 && b.c.k2 <= a.c.k2 && (sent.key <= b.c.k1 || b.c.k2 <= sent.key)
    ensures KeysUsedOnce(p, b)
  {
  }

  lemma NoNewKey(p: Problem, a: Config, b: Config)
    requires KeysUsedOnce(p, a)
    requires forall t :: Issued(b, t) == Issued(a, t)
    requires b.c.k1 == a.c.k1 && b.c.k2 == a.c.k2
    ensures KeysUsedOnce(p, b)
  {
  }

  lemma ReceiveKeepsKeys(p: Problem, a: Config, b: Config)
    requires KeysUsedOnce(p, a) && Logged(p, a) && a.c.k1 < a.c.k2 && Receive(p, a, b)
    requires b.phase.Returned? || InBounds(p.keys, p.sigs, b.c)
    ensures KeysUsedOnce(p, b)
  {
    var d := OnResult(a.c, a.results[0]);
    if d.Send? {
      var t0 := Task(d.key, d.signum);
      forall t ensures Issued(b, t) == Issued(a, t) + One(t == t0) { ReceiveMoves(p, a, b, t); }
      NewKey(p, a, b, t0);
    } else {
      forall t ensures Issued(b, t) == Issued(a, t) { ReceiveMoves(p, a, b, t); }
      NoNewKey(p, a, b);
    }
  }

  lemma ReceiveKeepsLog(p: Problem, a: Config, b: Config)
    requires Logged(p, a) && Receive(p, a, b)
    ensures Logged(p, b)
  {
    var unread, left := a.done[a.received..], b.done[b.received..];
    assert b.results == a.results[1..] && left == unread[1..];
    forall i | 0 <= i < |b.results| ensures left[i].In(p) && b.results[i] == p.V(left[i]) {
      assert b.results[i] == a.results[i + 1] && left[i] == unread[i + 1];
    }
  }

  lemma SomethingOutstanding(p: Problem, a: Config)
    requires Coordinated(p, a)
    ensures 0 <= a.c.k1 < a.c.k2 < |p.keys| && 1 <= Load(a) <= TASK_CAPACITY
  {
  }

  lemma ReceiveCoordinates(p: Problem, a: Config, b: Config)
    requires SysInv(p, a) && Receive(p, a, b)
    ensures b.phase.Returned? ==> (b.c.sigok <==> Matchable(p.verify, p.keys, p.sigs))
    ensures !b.phase.Returned? ==> Coordinated(p, b)
  {
    var front := WhoseVerdict(p, a);
    if front { FrontReceived(p, a, b); } else { BackReceived(p, a, b); }
  }

  lemma ReceiveIsGood(p: Problem, a: Config, b: Config)
    requires SysInv(p, a) && Receive(p, a, b)
    ensures SysInv(p, b)
  {
    ReceiveCoordinates(p, a, b);
    ReceiveKeepsKeys(p, a, b);
    ReceiveKeepsLog(p, a, b);
    ReceiveKeepsRest(p, a, b);
  }

  /** What the invariant says of workers and load after a receipt. */
  lemma ReceiveKeepsRest(p: Problem, a: Config, b: Config)
    requires SysInv(p, a) && Receive(p, a, b) && (!b.phase.Returned? ==> Coordinated(p, b))
    ensures Load(b) <= TASK_CAPACITY && |b.workers| == WORKER_COUNT && (b.phase.Sending? ==> b.phase.queue != [])
    ensures 0 <= b.c.k1 < b.c.k2 < |p.keys|
    ensures forall i :: 0 <= i < |b.workers| && b.workers[i].Exited? ==> b.phase.Returned? && b.tasks == []
  {
    ReceiveMoves(p, a, b, Front(a.c));
    if !b.phase.Returned? { SomethingOutstanding(p, b); }
  }

  /** Every step of coordinator or worker keeps the invariant. */
  lemma StepIsGood(p: Problem, a: Config, b: Config)
    requires SysInv(p, a) && Step(p, a, b)
    ensures SysInv(p, b)
  {
    if SendTask(p, a, b) {
      SendIsGood(p, a, b);
    } else if Receive(p, a, b) {
      ReceiveIsGood(p, a, b);
    } else {
      var i :| WorkerStep(p, a, b, i);
      if TakeTask(p, a, b, i) {
        TakeIsGood(p, a, b, i);
      } else if Report(p, a, b, i) {
        ReportIsGood(p, a, b, i);
      } else {
        ExitIsGood(p, a, b, i);
      }
    }
  }

  // ----- nothing blocks, everything ends

  /** Sends never block: the task channel has room for the coordinator, the result channel for every busy worker. */
  lemma SendsNeverBlock(p: Problem, a: Config)
    requires SysInv(p, a)
    ensures a.phase.Sending? ==> |a.tasks| < TASK_CAPACITY
    ensures forall i :: 0 <= i < |a.workers| && a.workers[i].Busy? ==> |a.results| < |p.sigs|
  {
    forall i | 0 <= i < |a.workers| && a.workers[i].Busy? ensures |a.results| < |p.sigs| { BusyMember(a.workers, i); }
  }

  ghost predicate Finished(a: Config) {
    a.phase.Returned? && a.tasks == [] && forall i :: 0 <= i < |a.workers| ==> a.workers[i].Exited?
  }

  lemma WorkerCanStep(p: Problem, a: Config, i: nat) returns (b: Config)
    requires SysInv(p, a) && i < |a.workers|
    requires a.workers[i].Busy? || (a.workers[i].Idle? && (a.tasks != [] || a.phase.Returned?))
    ensures Step(p, a, b)
  {
    SendsNeverBlock(p, a);
    if a.workers[i].Busy? {
      var t := a.workers[i].t;
      BusyMember(a.workers, i);
      assert Issued(a, t) > 0;
      b := a.(workers := a.workers[i := Idle], results := a.results + [p.V(t)], done := a.done + [t]);
    } else if a.tasks != [] {
      b := a.(workers := a.workers[i := Busy(a.tasks[0])], tasks := a.tasks[1..]);
    } else {
      b := a.(workers := a.workers[i := Exited]);
    }
    assert WorkerStep(p, a, b, i);
  }

  /** As long as anything is left to do, somebody can do it. */
  lemma NoDeadlock(p: Problem, a: Config) returns (b: Config)
    requires SysInv(p, a) && !Finished(a)
    ensures Step(p, a, b)
  {
    SendsNeverBlock(p, a);
    if a.phase.Sending? {
      var q := a.phase.queue;
      b := a.(tasks := a.tasks + [q[0]], phase := if |q| == 1 then Receiving else Sending(q[1..]));
    } else if i :| 0 <= i < |a.workers|
                   && (a.workers[i].Busy? || (a.workers[i].Idle? && (a.tasks != [] || a.phase.Returned?))) {
      b := WorkerCanStep(p, a, i);
    } else {
      NobodyBusy(a.workers, Front(a.c));
      assert a.phase.Receiving? ==> a.workers[0].Idle?;
      var a' := a.(results := a.results[1..], received := a.received + 1);
      match OnResult(a.c, a.results[0])
      case Wait(c) => b := a'.(c := c);
      case Stop(c) => b := a'.(c := c, phase := Returned);
      case Send(c, key, signum) => b := a'.(c := c, phase := Sending([Task(key, signum)]));
    }
  }

  function StillThere(ws: seq<Worker>): nat {
    if ws == [] then 0 else (if ws[0].Exited? then 0 else 1) + StillThere(ws[1..])
  }

  /** Four hops per task, and at most one task for every key that leaves the window. */
  ghost function Work(a: Config): int {
    4 * (a.c.k2 - a.c.k1) + 4 * |a.phase.Queue()| + 3 * |a.tasks| + 2 * BusyCount(a.workers) + |a.results|
    + StillThere(a.workers)
  }

  lemma WorkIsNat(p: Problem, a: Config)
    requires SysInv(p, a)
    ensures Work(a) >= 0
  {
  }

  lemma StillThereUpdate(ws: seq<Worker>, i: nat, w: Worker)
    requires i < |ws|
    ensures StillThere(ws[i := w]) + (if ws[i].Exited? then 0 else 1) == StillThere(ws) + (if w.Exited? then 0 else 1)
  {
    if i == 0 {
      assert ws[i := w][1..] == ws[1..];
    } else {
      StillThereUpdate(ws[1..], i - 1, w);
      assert ws[i := w][1..] == ws[1..][i - 1 := w];
    }
  }

  lemma WorkerStepDoesWork(p: Problem, a: Config, b: Config, i: nat)
    requires WorkerStep(p, a, b, i)
    ensures Work(b) < Work(a)
  {
    BusyUpdate(a.workers, i, b.workers[i], Front(a.c));
    StillThereUpdate(a.workers, i, b.workers[i]);
  }

  lemma ReceiveDoesWork(p: Problem, a: Config, b: Config)
    requires Receive(p, a, b)
    ensures Work(b) < Work(a)
  {
  }

  lemma StepDoesWork(p: Problem, a: Config, b: Config)
    requires Step(p, a, b)
    ensures Work(b) < Work(a)
  {
    if Receive(p, a, b) {
      ReceiveDoesWork(p, a, b);
    } else if !SendTask(p, a, b) {
      var i: nat :| WorkerStep(p, a, b, i);
      WorkerStepDoesWork(p, a, b, i);
    }
  }

  // ----- whole runs

  ghost predicate CanStep(p: Problem, a: Config) { exists b :: Step(p, a, b) }

  ghost predicate IsRun(p: Problem, run: seq<Config>) {
    && run != [] && run[0] == Start(p)
    && forall i :: 0 <= i < |run| - 1 ==> Step(p, run[i], run[i + 1])
  }

  /** Along a run the invariant holds and every step has used up work. */
  lemma {:induction false} RunKeeps(p: Problem, run: seq<Config>, i: nat)
    requires p.Valid() && IsRun(p, run) && i < |run|
    ensures SysInv(p, run[i]) && Work(run[i]) + i <= Work(Start(p))
  {
    if i == 0 {
      StartIsGood(p);
    } else {
      RunKeeps(p, run, i - 1);
      assert Step(p, run[i - 1], run[i - 1 + 1]);
      StepIsGood(p, run[i - 1], run[i]);
      StepDoesWork(p, run[i - 1], run[i]);
    }
  }

  /** Every run is short, whatever the scheduler does. */
  lemma RunsAreShort(p: Problem, run: seq<Config>)
    requires p.Valid() && IsRun(p, run)
    ensures |run| <= 4 * |p.keys| + 8
  {
    RunKeeps(p, run, |run| - 1);
    WorkIsNat(p, run[|run| - 1]);
  }

  lemma CountKeys(ts: seq<Task>, n: nat)
    requires forall i :: 0 <= i < |ts| ==> 0 <= ts[i].key < n
    requires forall i, j :: 0 <= i < j < |ts| ==> ts[i].key != ts[j].key
    ensures |ts| <= n
  {
    if ts == [] {
      return;
    }
    assert ts[0].key < n;
    if i :| 0 <= i < |ts| && ts[i].key == n - 1 {
      CountKeys(ts[..i] + ts[i + 1..], n - 1);
    } else {
      CountKeys(ts, n - 1);
    }
  }

  lemma OnceMeansDistinct(ts: seq<Task>, i: nat, j: nat)
    requires i < j < |ts| && Times(ts, ts[i]) <= 1
    ensures ts[i] != ts[j]
  {
    Split(ts, j, ts[i]);
    assert ts[..j][i] == ts[i] && ts[j..][0] == ts[j];
  }

  /** In every reachable state: no key has been tried twice, hence at most |keys| verifications. */
  lemma KeysVerifiedOnce(p: Problem, run: seq<Config>)
    requires p.Valid() && IsRun(p, run)
    ensures var a := run[|run| - 1];
            && |a.done| <= |p.keys|
            && forall i, j :: 0 <= i < j < |a.done| ==> a.done[i].key != a.done[j].key
  {
    var a := run[|run| - 1];
    RunKeeps(p, run, |run| - 1);
    forall i | 0 <= i < |a.done| ensures a.done[i].In(p) { assert Issued(a, a.done[i]) > 0; }
    forall i, j | 0 <= i < j < |a.done| ensures a.done[i].key != a.done[j].key {
      assert Issued(a, a.done[i]) > 0 && Issued(a, a.done[j]) > 0;
      OnceMeansDistinct(a.done, i, j);
    }
    CountKeys(a.done, |p.keys|);
  }

  /**
    The main result. A run that cannot be continued (and by RunsAreShort every run gets there) has
    returned the promise, has left no task behind, and all its workers are gone.
   */
  lemma EveryMaximalRunIsCorrect(p: Problem, run: seq<Config>)
    requires p.Valid() && IsRun(p, run)
    requires !CanStep(p, run[|run| - 1])
    ensures var a := run[|run| - 1];
            && Finished(a)
            && (a.c.sigok <==> Matchable(p.verify, p.keys, p.sigs))
            && (a.c.sigok <==> Greedy(p.verify, p.keys, p.sigs))
  {
    var a := run[|run| - 1];
    RunKeeps(p, run, |run| - 1);
    if !Finished(a) { var b := NoDeadlock(p, a); }
    GreedyIsExact(p.verify, p.keys, p.sigs);
  }

  /** In every reachable state no send blocks, and unless all is done somebody can move. */
  lemma EveryRunCanGoOn(p: Problem, run: seq<Config>)
    requires p.Valid() && IsRun(p, run)
    ensures var a := run[|run| - 1];
            && Load(a) <= TASK_CAPACITY
            && (a.phase.Sending? ==> |a.tasks| < TASK_CAPACITY)
            && (forall i :: 0 <= i < |a.workers| && a.workers[i].Busy? ==> |a.results| < |p.sigs|)
            && (Finished(a) || CanStep(p, a))
  {
    var a := run[|run| - 1];
    RunKeeps(p, run, |run| - 1);
    SendsNeverBlock(p, a);
    if !Finished(a) { var b := NoDeadlock(p, a); }
  }

  lemma OneStepOn(p: Problem, run: seq<Config>, b: Config)
    requires IsRun(p, run) && Step(p, run[|run| - 1], b)
    ensures IsRun(p, run + [b])
  {
    var more := run + [b];
    forall i | 0 <= i < |more| - 1 ensures Step(p, more[i], more[i + 1]) {
      if i < |run| - 1 { assert more[i] == run[i] && more[i + 1] == run[i + 1]; }
    }
  }

  /** Every run can be continued to one that has ended, with the right answer. */
  lemma {:induction false} EveryRunCanEnd(p: Problem, run: seq<Config>) returns (full: seq<Config>)
    requires p.Valid() && IsRun(p, run)
    ensures IsRun(p, full) && run <= full && Finished(full[|full| - 1])
    ensures full[|full| - 1].c.sigok <==> Matchable(p.verify, p.keys, p.sigs)
    decreases Work(run[|run| - 1])
  {
    var a := run[|run| - 1];
    RunKeeps(p, run, |run| - 1);
    if Finished(a) {
      full := run;
    } else {
      var b := NoDeadlock(p, a);
      StepDoesWork(p, a, b);
      WorkIsNat(p, a);
      OneStepOn(p, run, b);
      StepIsGood(p, a, b);
      WorkIsNat(p, b);
      full := EveryRunCanEnd(p, run + [b]);
    }
  }
}
