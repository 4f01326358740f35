// The single scan run (internal/httpapi/scanrun.go:47-170,
// internal/scan/scan.go:268-295): single flight, abort, and completion.
//
// A step is a section under sr.mu, a test of the run's context, or a check of
// one service; the steps of starters, the running sweep and aborters
// interleave freely.
module ScanRunner {
  import opened Base

  type RunId = nat
  type AbortId = nat
  type ServiceId = int

  // Begun: tryBegin succeeded, the cancel function is not stored yet.
  // Sweeping(n): n services are checked. Swept: the loop is over. Judged: the
  // context was read once more. Over: the state is cleared.
  datatype Phase = Begun | Sweeping | Swept | Judged(completed: bool) | Over(completed: bool)

  datatype Run = Run(phase: Phase, ids: seq<ServiceId>, checked: seq<ServiceId>)

  // An abort that read the cancel function, and when: the number of runs begun.
  datatype Abort = Abort(target: Option<RunId>, runsThen: nat)

  datatype State = State(
    running: bool, done: nat, total: nat,
    cancel: Option<RunId>,            // sr.cancel: the run whose context it ends
    runs: seq<Run>,                   // by RunId, in the order they began
    cancelled: set<RunId>,            // runs whose context has ended
    aborts: map<AbortId, Abort>)

  const IDLE := State(false, 0, 0, None, [], {}, map[])

  datatype Event =
    | TryBegin(ids: seq<ServiceId>)   // Start or RunScheduled, refused when a run is in flight
    | StoreCancel(r: RunId)
    | CheckNext(r: RunId)             // the loop: its context test, then one service or out
    | Judge(r: RunId)
    | Clear(r: RunId)
    | AbortReads(a: AbortId)
    | AbortCalls(a: AbortId)
    | Expire(r: RunId)                // the timeout, or the parent context

  predicate Enabled(s: State, e: Event)
  {
    match e
    case TryBegin(_) => true
    case StoreCancel(r) => r < |s.runs| && s.runs[r].phase.Begun?
    case CheckNext(r) => r < |s.runs| && s.runs[r].phase.Sweeping?
    case Judge(r) => r < |s.runs| && s.runs[r].phase.Swept?
    case Clear(r) => r < |s.runs| && s.runs[r].phase.Judged?
    case AbortReads(a) => a !in s.aborts
    case AbortCalls(a) => a in s.aborts
    case Expire(r) => r < |s.runs|
  }

  function WithRun(s: State, r: RunId, run: Run): State
    requires r < |s.runs|
  {
    s.(runs := s.runs[r := run])
  }

  function Apply(s: State, e: Event): State
    requires Enabled(s, e)
  {
    match e
    case TryBegin(ids) =>
      if s.running then s
      else s.(running := true, done := 0, total := |ids|, runs := s.runs + [Run(Begun, ids, [])])
    case StoreCancel(r) => WithRun(s, r, s.runs[r].(phase := Sweeping)).(cancel := Some(r))
    case CheckNext(r) =>
      var run := s.runs[r];
      if |run.checked| < |run.ids| && r !in s.cancelled
      then WithRun(s, r, run.(checked := run.checked + [run.ids[|run.checked|]])).(done := |run.checked| + 1)
      else WithRun(s, r, run.(phase := Swept))
    case Judge(r) => WithRun(s, r, s.runs[r].(phase := Judged(r !in s.cancelled)))
    case Clear(r) =>
      WithRun(s, r, s.runs[r].(phase := Over(s.runs[r].phase.completed))).(running := false, done := 0, total := 0, cancel := None)
    case AbortReads(a) => s.(aborts := s.aborts[a := Abort(s.cancel, |s.runs|)])
    case AbortCalls(a) => s.(aborts := s.aborts - {a}, cancelled := s.cancelled + if s.aborts[a].target.Some? then {s.aborts[a].target.value} else {})
    case Expire(r) => s.(cancelled := s.cancelled + {r})
  }

  predicate InFlight(s: State, r: RunId) { r < |s.runs| && !s.runs[r].phase.Over? }

  // ----- the invariant ------------------------------------------------------------------------

  // The services checked are the first of those resolved, and a run that left
  // the loop or called itself complete has its reason.
  predicate RunInv(run: Run, cancelled: bool)
  {
    && run.checked <= run.ids
    && (run.phase.Begun? ==> run.checked == [])
    && (run.phase.Swept? ==> run.checked == run.ids || cancelled)
    && (run.phase.Judged? && run.phase.completed ==> run.checked == run.ids)
    && (run.phase.Over? && run.phase.completed ==> run.checked == run.ids)
  }

  ghost predicate RunsInv(s: State) { forall r :: 0 <= r < |s.runs| ==> RunInv(s.runs[r], r in s.cancelled) }

  // Only the run begun last may be in flight, and the shared state is its.
  ghost predicate SharedInv(s: State)
  {
    && (forall r :: 0 <= r < |s.runs| - 1 ==> s.runs[r].phase.Over?)
    && (s.running <==> |s.runs| > 0 && !s.runs[|s.runs| - 1].phase.Over?)
    && (s.cancel.Some? <==> s.running && !s.runs[|s.runs| - 1].phase.Begun?)
    && (s.cancel.Some? ==> s.cancel.value == |s.runs| - 1)
    && (s.running ==> s.total == |s.runs[|s.runs| - 1].ids| && s.done == |s.runs[|s.runs| - 1].checked|)
  }

  ghost predicate AbortsInv(s: State)
  {
    forall a :: a in s.aborts ==> s.aborts[a].runsThen <= |s.runs| && (s.aborts[a].target.Some? ==> s.aborts[a].target.value < s.aborts[a].runsThen)
  }

  ghost predicate Inv(s: State) { RunsInv(s) && SharedInv(s) && AbortsInv(s) }

  lemma StepKeepsRuns(s: State, e: Event)
    requires RunsInv(s) && Enabled(s, e)
    ensures RunsInv(Apply(s, e))
  {
  }

  lemma StepKeepsShared(s: State, e: Event)
    requires SharedInv(s) && RunsInv(s) && Enabled(s, e)
    ensures SharedInv(Apply(s, e))
  {
  }

  lemma StepKeepsInv(s: State, e: Event)
    requires Inv(s) && Enabled(s, e)
    ensures Inv(Apply(s, e))
  {
    hide RunsInv, SharedInv;
    StepKeepsRuns(s, e);
    StepKeepsShared(s, e);
    assert AbortsInv(Apply(s, e)) by { StepKeepsAborts(s, e); }
  }

  lemma StepKeepsAborts(s: State, e: Event)
    requires AbortsInv(s) && SharedInv(s) && Enabled(s, e)
    ensures AbortsInv(Apply(s, e))
  {
  }

  ghost predicate RunOf(ss: seq<State>, es: seq<Event>)
  {
    && |ss| == |es| + 1 && ss[0] == IDLE
    && forall i :: 0 <= i < |es| ==> Enabled(ss[i], es[i]) && ss[i + 1] == Apply(ss[i], es[i])
  }

  lemma {:induction false} InvHolds(ss: seq<State>, es: seq<Event>, n: nat)
    requires RunOf(ss, es) && n < |ss|
    ensures Inv(ss[n])
  {
    if n > 0 {
      InvHolds(ss, es, n - 1);
      StepKeepsInv(ss[n - 1], es[n - 1]);
    }
  }

  // ----- what every run keeps -----------------------------------------------------------------------

  // At most one scan is between begin and finish, and tryBegin refuses exactly
  // then.
  lemma AtMostOneScan(ss: seq<State>, es: seq<Event>, n: nat, p: RunId, q: RunId)
    requires RunOf(ss, es) && n < |ss| && InFlight(ss[n], p)
    ensures InFlight(ss[n], q) ==> p == q
    ensures ss[n].running && forall ids :: Apply(ss[n], TryBegin(ids)) == ss[n]
  {
    hide Apply;
    InvHolds(ss, es, n);
    forall ids ensures Apply(ss[n], TryBegin(ids)) == ss[n] { Refused(ss[n], ids); }
  }

  lemma Refused(s: State, ids: seq<ServiceId>)
    requires s.running
    ensures Apply(s, TryBegin(ids)) == s
  {
  }

  // An abort ends the context of a run that was in flight when it read the
  // cancel function, never of one that began later.
  lemma AbortOnlyOlder(ss: seq<State>, es: seq<Event>, i: nat, j: nat, a: AbortId)
    requires RunOf(ss, es) && i < j < |es| && es[i] == AbortReads(a) && es[j] == AbortCalls(a)
    requires forall k :: i < k < j ==> es[k] != AbortCalls(a)
    ensures forall r :: r in ss[j + 1].cancelled && r !in ss[j].cancelled ==> InFlight(ss[i], r)
  {
    InvHolds(ss, es, i);
    AbortRemembered(ss, es, i, j, a);
  }

  lemma {:induction false} AbortRemembered(ss: seq<State>, es: seq<Event>, i: nat, j: nat, a: AbortId)
    requires RunOf(ss, es) && i < j < |ss| && es[i] == AbortReads(a)
    requires forall k :: i < k < j ==> es[k] != AbortCalls(a)
    ensures a in ss[j].aborts && ss[j].aborts[a] == Abort(ss[i].cancel, |ss[i].runs|)
  {
    if j > i + 1 { AbortRemembered(ss, es, i, j - 1, a); }
  }

  // A run that reports completion, which is what RunScheduled returns, has
  // checked every service resolved at its start, in order and once.
  lemma CompletedMeansChecked(ss: seq<State>, es: seq<Event>, n: nat, r: RunId)
    requires RunOf(ss, es) && n < |ss| && r < |ss[n].runs| && ss[n].runs[r].phase.Over? && ss[n].runs[r].phase.completed
    ensures ss[n].runs[r].checked == ss[n].runs[r].ids
  {
    InvHolds(ss, es, n);
  }

  // And the ids are those of the begin.
  lemma {:induction false} IdsAreKept(ss: seq<State>, es: seq<Event>, i: nat, n: nat, r: RunId)
    requires RunOf(ss, es) && i <= n < |ss| && r < |ss[i].runs|
    ensures r < |ss[n].runs| && ss[n].runs[r].ids == ss[i].runs[r].ids && ss[i].runs[r].checked <= ss[n].runs[r].checked
    decreases n
  {
    if i < n { IdsAreKept(ss, es, i, n - 1, r); }
  }

  // What is left to do for a run: every one of its own steps takes it down, and
  // no other step does anything to it, so it ends.
  function Left(run: Run): nat
  {
    match run.phase
    case Begun => if |run.ids| >= |run.checked| then |run.ids| - |run.checked| + 4 else 4
    case Sweeping => if |run.ids| >= |run.checked| then |run.ids| - |run.checked| + 3 else 3
    case Swept => 2
    case Judged(_) => 1
    case Over(_) => 0
  }

  predicate IsStepOf(e: Event, r: RunId) { e == StoreCancel(r) || e == CheckNext(r) || e == Judge(r) || e == Clear(r) }

  lemma ScanEnds(s: State, e: Event, r: RunId)
    requires Inv(s) && Enabled(s, e) && r < |s.runs|
    ensures IsStepOf(e, r) ==> Left(Apply(s, e).runs[r]) < Left(s.runs[r])
    ensures !IsStepOf(e, r) ==> Apply(s, e).runs[r] == s.runs[r]
    ensures InFlight(s, r) ==> Enabled(s, StoreCancel(r)) || Enabled(s, CheckNext(r)) || Enabled(s, Judge(r)) || Enabled(s, Clear(r))
  {
    assert RunInv(s.runs[r], r in s.cancelled);
  }

  // ----- the sweep itself (scan.go:268-295) --------------------------------------------------------

  // ended: whether the context has ended at the test before the i-th service;
  // limited: whether that service's check hit the changelog rate limit.
  method CheckServices(ids: seq<ServiceId>, ended: nat -> bool, limited: nat -> bool) returns (checked: seq<ServiceId>, rateLimited: bool)
    ensures checked <= ids
    ensures forall i :: 0 <= i < |checked| ==> !ended(i)
    ensures |checked| < |ids| ==> ended(|checked|)
    ensures rateLimited <==> exists i :: 0 <= i < |checked| && limited(i)
  {
    checked, rateLimited := [], false;
    for i := 0 to |ids|
      invariant checked == ids[..i]
      invariant forall k :: 0 <= k < i ==> !ended(k)
      invariant rateLimited <==> exists k :: 0 <= k < i && limited(k)
    {
      if ended(i) { break; }
      if limited(i) { rateLimited := true; }
      checked := checked + [ids[i]];
    }
  }
}
