/** Waking the writer: any number of callers and one background thread share two flags under a lock.
    Every locked section is one step, and so is everything a thread does between two of them. */
module Wake {

  datatype Flags = Flags(requested: bool, running: bool)

  /** Where a background thread is: created but not started, about to take the lock, or in a round. */
  datatype Place = Created | AtLock | InRound

  /** `asked` requests so far; the last round to begin was begun after `seen` of them. */
  datatype State = State(flags: Flags, threads: seq<Place>, asked: nat, seen: nat)

  datatype Event = Ask(configured: bool) | Begin(thread: nat) | TakeLock(thread: nat) | EndRound(thread: nat)

  const INITIAL := State(Flags(false, false), [], 0, 0)

  /** A request's locked section: the flags after it, and whether the caller starts a thread. */
  function Asked(f: Flags): (Flags, bool) { (Flags(true, true), !f.running) }

  /** The round loop's locked section: the flags after it, and whether the thread stops. */
  function Looked(f: Flags): (Flags, bool) {
    if !f.requested then (f.(running := false), true) else (f.(requested := false), false)
  }

  function Without(threads: seq<Place>, i: nat): seq<Place>
    requires i < |threads|
  {
    threads[..i] + threads[i + 1..]
  }

  predicate Enabled(s: State, e: Event) {
    match e
    case Ask(_) => true
    case Begin(i) => i < |s.threads| && s.threads[i] == Created
    case TakeLock(i) => i < |s.threads| && s.threads[i] == AtLock
    case EndRound(i) => i < |s.threads| && s.threads[i] == InRound
  }

  function Step(s: State, e: Event): (r: State)
    requires Enabled(s, e)
  {
    match e
    case Ask(configured) =>
      if !configured then s
      else
        var (flags, starts) := Asked(s.flags);
        State(flags, if starts then s.threads + [Created] else s.threads, s.asked + 1, s.seen)
    case Begin(i) => s.(threads := s.threads[i := AtLock])
    case TakeLock(i) =>
      var (flags, stops) := Looked(s.flags);
      if stops then s.(flags := flags, threads := Without(s.threads, i))
      else s.(flags := flags, threads := s.threads[i := InRound], seen := s.asked)
    case EndRound(i) => s.(threads := s.threads[i := AtLock])
  }

  /** `s` is reached by `events`, each enabled when it happens. */
  ghost predicate Reaches(events: seq<Event>, s: State)
    decreases |events|
  {
    if events == [] then s == INITIAL
    else
      var n := |events| - 1;
      exists before :: Reaches(events[..n], before) && Enabled(before, events[n]) && s == Step(before, events[n])
  }

  ghost predicate Invariant(s: State) {
    && |s.threads| == (if s.flags.running then 1 else 0)
    && (s.flags.requested ==> s.flags.running)
    && s.seen <= s.asked
    && (s.seen < s.asked <==> s.flags.requested)
  }

  lemma StepKeeps(s: State, e: Event)
    requires Invariant(s) && Enabled(s, e)
    ensures Invariant(Step(s, e))
  {
  }

  /** In every interleaving: at most one thread, a pending request has one, and when none is left every
      request has been followed by a round that began after it. */
  lemma {:induction false} NoRequestLost(events: seq<Event>, s: State)
    requires Reaches(events, s)
    ensures |s.threads| <= 1
    ensures s.flags.requested ==> |s.threads| == 1
    ensures s.threads == [] ==> s.seen == s.asked
    ensures Invariant(s)
    decreases |events|
  {
    if events != [] {
      var n := |events| - 1;
      var before :| Reaches(events[..n], before) && Enabled(before, events[n]) && s == Step(before, events[n]);
      NoRequestLost(events[..n], before);
      StepKeeps(before, events[n]);
    }
  }

  /** The only step a lone thread can take. */
  function Move(s: State): (e: Event)
    requires s.threads != []
    ensures Enabled(s, e)
  {
    match s.threads[0]
    case Created => Begin(0)
    case AtLock => TakeLock(0)
    case InRound => EndRound(0)
  }

  function Drain(s: State, steps: nat): State
    decreases steps
  {
    if steps == 0 || s.threads == [] then s else Drain(Step(s, Move(s)), steps - 1)
  }

  /** Once requests cease, the thread stops within four of its own steps, having begun a round after
      the last request. */
  lemma ThreadStops(events: seq<Event>, s: State)
    requires Reaches(events, s)
    ensures var last := Drain(s, 4); last.threads == [] && !last.flags.running && last.seen == last.asked == s.asked
  {
    NoRequestLost(events, s);
    if s.threads != [] {
      var s1 := Step(s, Move(s));
      StepKeeps(s, Move(s));
      if s1.threads != [] {
        var s2 := Step(s1, Move(s1));
        StepKeeps(s1, Move(s1));
        if s2.threads != [] {
          var s3 := Step(s2, Move(s2));
          StepKeeps(s2, Move(s2));
          if s3.threads != [] { StepKeeps(s3, Move(s3)); }
        }
      }
    }
  }

  /** The module's two flags; each method is one section under its lock. */
  class Waker {
    var requested: bool
    var running: bool

    function View(): Flags
      reads this
    {
      Flags(requested, running)
    }

    constructor ()
      ensures View() == INITIAL.flags
    {
      requested, running := false, false;
    }

    method Writer(configured: bool) returns (starts: bool)
      modifies this
      ensures if configured then (View(), starts) == Asked(old(View())) else View() == old(View()) && !starts
    {
      starts := false;
      if !configured {
        return;
      }
      requested := true;
      if running {
        return;
      }
      running := true;
      starts := true;
    }

    method NextRound() returns (stops: bool)
      modifies this
      ensures (View(), stops) == Looked(old(View()))
    {
      if !requested {
        running := false;
        return true;
      }
      requested := false;
      return false;
    }
  }
}
