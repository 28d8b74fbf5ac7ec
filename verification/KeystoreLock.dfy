/**
 * The keystore lock and the append it guards, as a machine whose steps any number of processes interleave: creating the
 * lock file, looking at its age, removing a stale one, and the read, temporary file, rename and release of an append.
 */
module KeystoreLock {
  import opened Common

  type Pid = nat

  /** One append: the account stored under an alias. */
  datatype Item = Item(alias: string, account: string)

  type Keystore = map<string, string>

  /** A file as a reader finds it: whole, or cut off in the middle of a write. */
  datatype File = Whole(ks: Keystore) | Partial

  datatype Lock = Lock(owner: Pid, created: int)

  /** Where a process is: the first four wait for the lock, the last five are inside it. */
  datatype Phase =
    | Idle
    | Trying(item: Item)
    | Seen(item: Item, created: int, at: int)
    | Stealing(item: Item)
    | Holding(item: Item)
    | Loaded(item: Item, ks: Keystore)
    | Writing(item: Item, ks: Keystore)
    | Written(item: Item, ks: Keystore)
    | Renamed(item: Item)

  datatype State = State(
    now: int, lock: Option<Lock>, keystore: Option<File>, temps: map<Pid, File>, procs: map<Pid, Phase>, log: seq<Item>)

  /**
   * The stale timeout, how long a holder may hold, and how long a process may take from looking at the file to the
   * clock.
   */
  datatype Timing = Timing(stale: nat, hold: nat, delay: nat)

  datatype Action =
    | Begin(p: Pid, item: Item)
    | Create(p: Pid)
    | Stat(p: Pid)
    | Decide(p: Pid)
    | Steal(p: Pid)
    | GiveUp(p: Pid)
    | Read(p: Pid)
    | Open(p: Pid)
    | Flush(p: Pid)
    | Rename(p: Pid)
    | Release(p: Pid)
    | Tick(ms: nat)

  function PhaseOf(s: State, p: Pid): (r: Phase)
  {
    if p in s.procs then s.procs[p] else Idle
  }

  predicate Inside(ph: Phase)
  {
    ph.Holding? || ph.Loaded? || ph.Writing? || ph.Written? || ph.Renamed?
  }

  /** What an append reads: an absent or unreadable file counts as empty. */
  function Contents(f: Option<File>): (ks: Keystore)
  {
    match f
    case Some(Whole(ks)) => ks
    case _ => map[]
  }

  function Goes(s: State, p: Pid, ph: Phase): (r: State)
  {
    s.(procs := s.procs[p := ph])
  }

  /** One step of one process, or of the clock; `None` when the process is not at that step. */
  function Do(s: State, a: Action, c: Timing): (r: Option<State>)
  {
    match a
    case Begin(p, item) => if PhaseOf(s, p).Idle? then Some(Goes(s, p, Trying(item))) else None
    case Create(p) =>
      var ph := PhaseOf(s, p);
      if ph.Trying? && s.lock.None? then Some(Goes(s, p, Holding(ph.item)).(lock := Some(Lock(p, s.now)))) else None
    case Stat(p) =>
      var ph := PhaseOf(s, p);
      if !ph.Trying? then None
      else if s.lock.None? then Some(s)
      else Some(Goes(s, p, Seen(ph.item, s.lock.value.created, s.now)))
    case Decide(p) =>
      var ph := PhaseOf(s, p);
      if !ph.Seen? then None
      else if s.now - ph.created > c.stale then Some(Goes(s, p, Stealing(ph.item)))
      else Some(Goes(s, p, Trying(ph.item)))
    case Steal(p) =>
      var ph := PhaseOf(s, p);
      if ph.Stealing? then Some(Goes(s, p, Trying(ph.item)).(lock := None)) else None
    case GiveUp(p) => if PhaseOf(s, p).Trying? then Some(Goes(s, p, Idle)) else None
    case Read(p) =>
      var ph := PhaseOf(s, p);
      if ph.Holding? then Some(Goes(s, p, Loaded(ph.item, Contents(s.keystore)))) else None
    case Open(p) =>
      var ph := PhaseOf(s, p);
      if ph.Loaded? then Some(Goes(s, p, Writing(ph.item, ph.ks)).(temps := s.temps[p := Partial])) else None
    case Flush(p) =>
      var ph := PhaseOf(s, p);
      if ph.Writing? then
        Some(Goes(s, p, Written(ph.item, ph.ks)).(temps :=
                                                    s.temps[p := Whole(ph.ks[ph.item.alias := ph.item.account])]))
      else None
    case Rename(p) =>
      var ph := PhaseOf(s, p);
      if ph.Written? && p in s.temps then
        Some(Goes(s, p, Renamed(ph.item)).(keystore := Some(s.temps[p]), temps := s.temps - {p},
                                           log := s.log + [ph.item]))
      else None
    case Release(p) => if Inside(PhaseOf(s, p)) then Some(Goes(s, p, Idle).(lock := None)) else None
    case Tick(ms) => Some(s.(now := s.now + ms))
  }

  // ----- runs

  /** No holder has held longer than it may, and no process is slower than it may be between looking and the clock. */
  ghost predicate Timely(s: State, c: Timing)
  {
    && (s.lock.Some? ==> s.now <= s.lock.value.created + c.hold)
    && (forall p :: p in s.procs && s.procs[p].Seen? ==> s.now <= s.procs[p].at + c.delay)
  }

  /** A run in which every state is timely. */
  ghost predicate TimelyRun(s: State, actions: seq<Action>, c: Timing)
    decreases |actions|
  {
    && Timely(s, c)
    && (actions != [] ==> Do(s, actions[0], c).Some? && TimelyRun(Do(s, actions[0], c).value, actions[1..], c))
  }

  function After(s: State, actions: seq<Action>, c: Timing): (r: State)
    decreases |actions|
  {
    if actions == [] then s
    else match Do(s, actions[0], c)
      case Some(t) => After(t, actions[1..], c)
      case None => s
  }

  /** Before anyone appends. */
  predicate Quiet(s: State)
  {
    s.lock.None? && s.procs == map[] && s.temps == map[] && s.log == []
  }

  /** The appends applied in the order of the log. */
  function Applied(ks: Keystore, log: seq<Item>): (r: Keystore)
  {
    if log == [] then ks
    else
      var n := |log| - 1;
      Applied(ks, log[..n])[log[n].alias := log[n].account]
  }

  // ----- what every timely run keeps

  ghost predicate AtMostOneInside(s: State)
  {
    forall p, q :: Inside(PhaseOf(s, p)) && Inside(PhaseOf(s, q)) ==> p == q
  }

  /** The file holds every completed append, in the order they completed, and is never cut off. */
  ghost predicate NothingLost(s: State, start: Option<File>)
  {
    && Contents(s.keystore) == Applied(Contents(start), s.log)
    && (s.keystore == start || (s.keystore.Some? && s.keystore.value.Whole?))
  }

  /** What a process at a phase knows. */
  ghost predicate Knows(s: State, p: Pid, c: Timing)
  {
    var ph := PhaseOf(s, p);
    && !ph.Stealing?
    && (ph.Seen? ==> ph.at <= ph.created + c.hold)
    && (Inside(ph) <==> s.lock.Some? && s.lock.value.owner == p)
    && (ph.Loaded? || ph.Writing? || ph.Written? ==> ph.ks == Contents(s.keystore))
    && (ph.Written? ==> p in s.temps && s.temps[p] == Whole(ph.ks[ph.item.alias := ph.item.account]))
  }

  ghost predicate Safe(s: State, start: Option<File>, c: Timing)
  {
    (forall p :: Knows(s, p, c)) && NothingLost(s, start)
  }

  lemma SafeIsExclusive(s: State, start: Option<File>, c: Timing)
    requires Safe(s, start, c)
    ensures AtMostOneInside(s)
  {
    forall p, q | Inside(PhaseOf(s, p)) && Inside(PhaseOf(s, q)) ensures p == q {
      assert Knows(s, p, c) && Knows(s, q, c);
    }
  }

  lemma AppliedSnoc(ks: Keystore, log: seq<Item>, item: Item)
    ensures Applied(ks, log + [item]) == Applied(ks, log)[item.alias := item.account]
  {
    assert (log + [item])[..|log|] == log;
  }

  /**
   * When a holder's time and a looker's delay fit in the stale timeout, every step keeps the lock and the file safe.
   */
  lemma StepSafe(s: State, a: Action, c: Timing, start: Option<File>)
    requires Safe(s, start, c) && Timely(s, c) && Do(s, a, c).Some? && c.hold + c.delay <= c.stale
    ensures Safe(Do(s, a, c).value, start, c)
  {
    hide Applied, Contents;
    var t := Do(s, a, c).value;
    if !a.Tick? { assert Knows(s, a.p, c); }
    if a.Rename? { AppliedSnoc(Contents(start), s.log, PhaseOf(s, a.p).item); }
    assert NothingLost(t, start) by { if a.Rename? { RenameKeeps(s, a.p, c, start); } }
    forall p ensures Knows(t, p, c) {
      assert Knows(s, p, c);
    }
  }

  lemma RenameKeeps(s: State, p: Pid, c: Timing, start: Option<File>)
    requires Safe(s, start, c) && Do(s, Rename(p), c).Some?
    ensures NothingLost(Do(s, Rename(p), c).value, start)
  {
    assert Knows(s, p, c);
    AppliedSnoc(Contents(start), s.log, PhaseOf(s, p).item);
  }

  lemma {:induction false} RunSafe(s: State, actions: seq<Action>, c: Timing, start: Option<File>)
    requires Safe(s, start, c) && TimelyRun(s, actions, c) && c.hold + c.delay <= c.stale
    ensures Safe(After(s, actions, c), start, c)
    decreases |actions|
  {
    hide Safe, Do, Timely;
    if actions != [] {
      StepSafe(s, actions[0], c, start);
      RunSafe(Do(s, actions[0], c).value, actions[1..], c, start);
    }
  }

  // ----- the appends of a run, read off its actions

  /** What a process last began to append. */
  function LastBegun(actions: seq<Action>, p: Pid): (r: Option<Item>)
  {
    if actions == [] then None
    else
      var n := |actions| - 1;
      match actions[n]
      case Begin(q, item) => if q == p then Some(item) else LastBegun(actions[..n], p)
      case _ => LastBegun(actions[..n], p)
  }

  /** The appends that reached their rename, in the order they did: nothing but the actions decides them. */
  function Finished(actions: seq<Action>): (r: seq<Item>)
  {
    if actions == [] then []
    else
      var n := |actions| - 1;
      var before := Finished(actions[..n]);
      match actions[n]
      case Rename(p) => (match LastBegun(actions[..n], p) case Some(item) => before + [item] case None => before)
      case _ => before
  }

  /** The state tells of every process what it last began, and of the log what was finished. */
  ghost predicate Remembers(s: State, past: seq<Action>)
  {
    && s.log == Finished(past)
    && (forall p :: !PhaseOf(s, p).Idle? ==> LastBegun(past, p) == Some(PhaseOf(s, p).item))
  }

  lemma StepRemembers(s: State, a: Action, c: Timing, past: seq<Action>)
    requires Remembers(s, past) && Do(s, a, c).Some?
    ensures Remembers(Do(s, a, c).value, past + [a])
  {
    var t, more := Do(s, a, c).value, past + [a];
    assert more[..|past|] == past && more[|past|] == a;
    forall p | !PhaseOf(t, p).Idle? ensures LastBegun(more, p) == Some(PhaseOf(t, p).item) {
      if a.Tick? || p != a.p { assert PhaseOf(t, p) == PhaseOf(s, p); }
    }
  }

  lemma {:induction false} RunRemembers(s: State, actions: seq<Action>, c: Timing, past: seq<Action>)
    requires Remembers(s, past) && TimelyRun(s, actions, c)
    ensures Remembers(After(s, actions, c), past + actions)
    decreases |actions|
  {
    hide Do, Timely, Remembers;
    if actions == [] {
      assert past + actions == past;
    } else {
      StepRemembers(s, actions[0], c, past);
      RunRemembers(Do(s, actions[0], c).value, actions[1..], c, past + [actions[0]]);
      assert past + [actions[0]] + actions[1..] == past + actions;
    }
  }

  /** The file holds what it held and every append the actions finished, in that order, and is never cut off. */
  ghost predicate HoldsFinished(s: State, start: Option<File>, actions: seq<Action>)
  {
    && Contents(s.keystore) == Applied(Contents(start), Finished(actions))
    && (s.keystore == start || (s.keystore.Some? && s.keystore.value.Whole?))
  }

  /** Every timely run from a quiet state ends with at most one process inside and every finished append in the file. */
  ghost predicate AlwaysSafe(c: Timing)
  {
    forall s, actions :: Quiet(s) && TimelyRun(s, actions, c) ==>
      AtMostOneInside(After(s, actions, c)) && HoldsFinished(After(s, actions, c), s.keystore, actions)
  }

  // ----- when it does not fit

  const A: Item := Item("a", "account-a")
  const B: Item := Item("b", "account-b")
  const C: Item := Item("c", "account-c")

  /** A looker sees a lock on the point of release, reads the clock late, and removes the lock of the next holder. */
  function Race(c: Timing): (r: seq<Action>)
  {
    [Begin(0, A), Begin(1, B), Begin(2, C), Create(0), Tick(c.hold), Stat(1), Release(0), Tick(c.delay), Create(2),
     Decide(1), Steal(1), Create(1)]
  }

  function Nobody(): (s: State)
    ensures Quiet(s)
  {
    State(0, None, None, map[], map[], [])
  }

  lemma TimelyStep(s: State, a: Action, rest: seq<Action>, c: Timing, t: State)
    requires Timely(s, c) && Do(s, a, c) == Some(t) && TimelyRun(t, rest, c)
    ensures TimelyRun(s, [a] + rest, c) && After(s, [a] + rest, c) == After(t, rest, c)
  {
    assert ([a] + rest)[1..] == rest;
  }

  /** The state after the first `n` steps of the race. */
  function RaceState(c: Timing, n: nat): (s: State)
  {
    var h, d := c.hold, c.hold + c.delay;
    var ph1 := if n < 2 then Idle else if n < 6 then Trying(B) else if n < 10 then Seen(B, 0, h)
      else if n < 11 then Stealing(B) else if n < 12 then Trying(B) else Holding(B);
    var ph0 := if n < 1 then Idle else if n < 4 then Trying(A) else if n < 7 then Holding(A) else Idle;
    var ph2 := if n < 3 then Idle else if n < 9 then Trying(C) else Holding(C);
    var procs := if n == 0 then map[] else if n == 1 then map[0 := ph0] else if n == 2 then map[0 := ph0, 1 := ph1]
      else map[0 := ph0, 1 := ph1, 2 := ph2];
    var lock := if n < 4 then None else if n < 7 then Some(Lock(0, 0)) else if n < 9 then None
      else if n < 11 then Some(Lock(2, d)) else if n < 12 then None else Some(Lock(1, d));
    State(if n < 5 then 0 else if n < 8 then h else d, lock, None, map[], procs, [])
  }

  lemma RaceStep(c: Timing, n: nat)
    requires n < 12 && c.hold + c.delay > c.stale
    ensures Timely(RaceState(c, n), c) && Do(RaceState(c, n), Race(c)[n], c) == Some(RaceState(c, n + 1))
  {
    var s, t, a := RaceState(c, n), RaceState(c, n + 1), Race(c)[n];
    if a.Tick? {
      assert t.procs == s.procs;
    } else {
      assert t.procs == s.procs[a.p := PhaseOf(t, a.p)];
    }
  }

  lemma {:induction false} RaceRuns(c: Timing, n: nat)
    requires n <= 12 && c.hold + c.delay > c.stale
    ensures TimelyRun(RaceState(c, n), Race(c)[n..], c) && After(RaceState(c, n), Race(c)[n..], c) == RaceState(c, 12)
    decreases 12 - n
  {
    if n < 12 {
      RaceRuns(c, n + 1);
      RaceStep(c, n);
      TimelyStep(RaceState(c, n), Race(c)[n], Race(c)[n + 1..], c, RaceState(c, n + 1));
      assert [Race(c)[n]] + Race(c)[n + 1..] == Race(c)[n..];
    }
  }

  /**
   * The lock protects the keystore in every timely run exactly when the time a holder may hold it and the time a
   * process may take between looking at the file and reading the clock together fit in the stale timeout.
   */
  lemma LockExact(c: Timing)
    ensures AlwaysSafe(c) <==> c.hold + c.delay <= c.stale
  {
    if c.hold + c.delay <= c.stale {
      forall s, actions | Quiet(s) && TimelyRun(s, actions, c)
        ensures AtMostOneInside(After(s, actions, c)) && HoldsFinished(After(s, actions, c), s.keystore, actions)
      {
        QuietIsSafe(s, c);
        RunSafe(s, actions, c, s.keystore);
        SafeIsExclusive(After(s, actions, c), s.keystore, c);
        QuietRemembers(s);
        RunRemembers(s, actions, c, []);
        assert [] + actions == actions;
      }
    } else {
      RaceRuns(c, 0);
      assert Race(c)[0..] == Race(c) && RaceState(c, 0) == Nobody();
      RaceEnds(c);
    }
  }

  lemma RaceEnds(c: Timing)
    ensures !AtMostOneInside(RaceState(c, 12))
  {
    assert Inside(PhaseOf(RaceState(c, 12), 1)) && Inside(PhaseOf(RaceState(c, 12), 2));
  }

  lemma QuietRemembers(s: State)
    requires Quiet(s)
    ensures Remembers(s, [])
  {
  }

  lemma QuietIsSafe(s: State, c: Timing)
    requires Quiet(s)
    ensures Safe(s, s.keystore, c)
  {
  }
}
